/**
 The account manager as the program runs it when nothing interferes: a channel as a queue, an
 acquire loop that tries each account once, and the retry loop of `sendWithRetry`.
 */
module AccountManager {
  import opened Wrappers
  import opened AccountQueue
  import Pool = AccountPool

  datatype Outcome = Acquired(account: Account) | Cancelled | TimedOut | AllUnavailable

  /** How a search ends: with the first ready account, with the context cancelled, or after so many receives. */
  ghost predicate SearchEnded(q: seq<Account>, flags: seq<bool>, probe: Account -> Probe, cancelAfter: nat, total: nat,
                              outcome: Outcome, pool: seq<Account>, k: nat)
  {
    var f, n := FirstReady(q, flags, probe), |q|;
    var giveUpAfter := if n == total then total else 2 * total;
    if n == 0 then |pool| == 0 && outcome == (if cancelAfter == 0 then Cancelled else TimedOut) && k == 0
    else if f < n && f < cancelAfter then
      outcome == Acquired(q[f]) && pool == q[f + 1..] + q[..f] && k == f + 1
    else if f < n || cancelAfter < giveUpAfter then
      outcome == Cancelled && pool == Rotated(q, cancelAfter) && k == cancelAfter
    else outcome == AllUnavailable && pool == Rotated(q, giveUpAfter) && k == giveUpAfter
  }

  /** Of the accounts received, the one acquired is the one whose probe lets it pass, and the flags are as fetched. */
  ghost predicate Decided(q: seq<Account>, flags: seq<bool>, probe: Account -> Probe, k: nat, outcome: Outcome,
                          hasQuota: seq<bool>)
  {
    && |hasQuota| == |flags|
    && (forall a :: 0 <= a < |flags| ==>
          hasQuota[a] == if a in UpTo(q, k) && probe(a).Fetched? then HasQuotaLeft(probe(a).usage) else flags[a])
    && (forall i :: 0 <= i < k && i < |q| ==>
          && q[i] < |flags|
          && (outcome == Acquired(q[i]) <==> match probe(q[i])
                                             case ProbeError => false
                                             case Cached => flags[q[i]]
                                             case Fetched(usage) => HasQuotaLeft(usage)))
  }

  lemma SearchDecides(q: seq<Account>, flags: seq<bool>, probe: Account -> Probe, cancelAfter: nat, total: nat,
                      outcome: Outcome, pool: seq<Account>, k: nat, hasQuota: seq<bool>)
    requires SomeOf(q, |flags|) && hasQuota == FlagsAfter(flags, UpTo(q, k), probe)
    requires SearchEnded(q, flags, probe, cancelAfter, total, outcome, pool, k)
    ensures Decided(q, flags, probe, k, outcome, hasQuota)
  {
    var f := FirstReady(q, flags, probe);
    SomeOfFacts(q, |flags|);
    forall a | 0 <= a < |flags|
      ensures hasQuota[a] == if a in UpTo(q, k) && probe(a).Fetched? then HasQuotaLeft(probe(a).usage) else flags[a]
    {
      FlagsAreFetched(flags, UpTo(q, k), probe, a);
    }
    forall i | 0 <= i < k && i < |q|
      ensures outcome == Acquired(q[i]) <==> match probe(q[i])
                                             case ProbeError => false
                                             case Cached => flags[q[i]]
                                             case Fetched(usage) => HasQuotaLeft(usage)
    {
      FirstReadyMeans(q, flags, probe, i);
    }
  }

  lemma NotAcquired(q: seq<Account>, flags: seq<bool>, probe: Account -> Probe, cancelAfter: nat, total: nat,
                    outcome: Outcome, pool: seq<Account>, k: nat)
    requires SearchEnded(q, flags, probe, cancelAfter, total, outcome, pool, k) && !outcome.Acquired?
    ensures NoneReady(q, flags, probe, cancelAfter)
  {}

  /** A search leaves all accounts where it does not acquire one, and all but that one where it does. */
  lemma LeaseFacts(q: seq<Account>, flags: seq<bool>, probe: Account -> Probe, cancelAfter: nat, total: nat,
                   outcome: Outcome, pool: seq<Account>, k: nat)
    requires SomeOf(q, total) && SearchEnded(q, flags, probe, cancelAfter, total, outcome, pool, k)
    ensures SomeOf(pool, total) && UpTo(q, k) <= q
    ensures outcome.Acquired? ==>
              && UpToReady(q, flags, probe, cancelAfter, UpTo(q, k), outcome.account)
              && |q| > 0 && pool + [outcome.account] == Rotated(q, |UpTo(q, k)|)
    ensures if outcome.Acquired? then Leased(q, pool, outcome.account) else multiset(pool) == multiset(q)
  {
    if outcome.Acquired? {
      TakenOut(q, k - 1, total);
    } else if |q| == 0 {
      assert pool == q;
    } else {
      PutBack(q, k, total);
    }
  }

  class PooledAccountManager {
    const total: nat
    var pool: seq<Account>
    var hasQuota: seq<bool>

    ghost predicate Valid()
      reads this
    {
      total > 0 && |hasQuota| == total && SomeOf(pool, total)
    }

    constructor (flags: seq<bool>)
      requires flags != []
      ensures Valid() && total == |flags| && hasQuota == flags && pool == AllAccounts(|flags|)
    {
      total := |flags|;
      hasQuota := flags;
      pool := AllAccounts(|flags|);
    }

    method ReleaseAccount(account: Account)
      modifies this`pool
      ensures pool == if |old(pool)| < total then old(pool) + [account] else old(pool)
    {
      if |pool| < total {
        pool := pool + [account];
      }
    }

    /** Giving back a lease always finds room in the channel. */
    method ReleaseLease(account: Account)
      requires total > 0 && |hasQuota| == total && SomeOf(pool + [account], total)
      modifies this`pool
      ensures Valid() && pool == old(pool) + [account]
    {
      SomeOfFacts(pool + [account], total);
      ReleaseAccount(account);
    }

    /** `MarkAccountNoQuota` */
    method MarkNoQuota(account: Account)
      requires account < |hasQuota|
      modifies this`hasQuota
      ensures hasQuota == old(hasQuota)[account := false]
    {
      hasQuota := hasQuota[account := false];
    }

    /** The context is seen cancelled, the wait times out, or the front account is received and probed. */
    method TryAcquireOnce(tried: set<Account>, probe: Account -> Probe, cancelled: bool)
      returns (outcome: Option<Outcome>, tried': set<Account>)
      requires Valid()
      modifies this`pool, this`hasQuota
      ensures |old(pool)| > 0 ==> old(pool)[0] < total && old(pool) == [old(pool)[0]] + old(pool)[1..]
      ensures cancelled || |old(pool)| == 0 ==>
                && outcome == Some(if cancelled then Cancelled else TimedOut)
                && pool == old(pool) && hasQuota == old(hasQuota)
      ensures !cancelled && |old(pool)| > 0 ==>
                var a, rest := old(pool)[0], old(pool)[1..];
                if a in tried then
                  && tried' == tried && pool == rest + [a] && hasQuota == old(hasQuota)
                  && outcome == (if |tried| >= total then Some(AllUnavailable) else None)
                else
                  && tried' == tried + {a}
                  && hasQuota == old(hasQuota)[a := if probe(a).Fetched? then HasQuotaLeft(probe(a).usage) else old(hasQuota)[a]]
                  && if match probe(a)
                        case ProbeError => false
                        case Cached => old(hasQuota)[a]
                        case Fetched(usage) => HasQuotaLeft(usage)
                     then outcome == Some(Acquired(a)) && pool == rest
                     else outcome == None && pool == rest + [a]
    {
      tried' := tried;
      SomeOfFacts(pool, total);
      if cancelled {
        return Some(Cancelled), tried';
      }
      if |pool| == 0 {
        return Some(TimedOut), tried';
      }
      var account := pool[0];
      pool := pool[1..];
      if account in tried {
        ReleaseAccount(account);
        return if |tried| >= total then Some(AllUnavailable) else None, tried';
      }
      tried' := tried + {account};
      var p := probe(account);
      hasQuota := hasQuota[account := FlagAfter(hasQuota[account], p)];
      if !p.ProbeError? && hasQuota[account] {
        return Some(Acquired(account)), tried';
      }
      ReleaseAccount(account);
      return None, tried';
    }

    /** After `attempts` receives from the queue `q`, all of them in vain. */
    ghost predicate Searching(q: seq<Account>, flags: seq<bool>, attempts: nat, tried: set<Account>, probe: Account -> Probe)
      reads this
    {
      && total > 0 && |flags| == total && SomeOf(q, total)
      && (if |q| == 0 then |pool| == 0 else pool == Rotated(q, attempts)) && tried == Firsts(q, attempts)
      && hasQuota == FlagsAfter(flags, UpTo(q, attempts), probe)
    }

    /** One round of the acquire loop, in terms of the queue and the flags the search began with. */
    method AcquireStep(ghost q: seq<Account>, ghost flags: seq<bool>, attempts: nat, tried: set<Account>,
                       probe: Account -> Probe, cancelAfter: nat)
      returns (outcome: Option<Outcome>, tried': set<Account>)
      requires Searching(q, flags, attempts, tried, probe) && |tried| < total
      modifies this`pool, this`hasQuota
      ensures if cancelAfter <= attempts then
                outcome == Some(Cancelled) && pool == old(pool) && hasQuota == old(hasQuota)
              else if |q| == 0 then outcome == Some(TimedOut) && |pool| == 0 && hasQuota == old(hasQuota)
              else if attempts < |q| && q[attempts] < |flags| && Passes(flags[q[attempts]], probe(q[attempts])) then
                && outcome == Some(Acquired(q[attempts])) && pool == q[attempts + 1..] + q[..attempts]
                && hasQuota == FlagsAfter(flags, UpTo(q, attempts + 1), probe)
              else outcome == None && Searching(q, flags, attempts + 1, tried', probe)
      ensures outcome.Some? && outcome.value.Acquired? ==>
                outcome.value.account < total == |hasQuota| && hasQuota[outcome.value.account]
    {
      if |q| > 0 {
        RotateOnce(q, attempts);
        RotatedMultiset(q, attempts);
        FrontFacts(q, total, attempts);
        if attempts < |q| {
          FlagsOneMore(flags, q, attempts, probe);
        }
      }
      outcome, tried' := TryAcquireOnce(tried, probe, cancelAfter <= attempts);
    }

    /**
     The loop of `AcquireAccount`.  `probe` is what each account meets, and `cancelAfter`
     the number of receives after which the context is seen cancelled.  `k` counts the accounts
     that were probed.
     */
    method Search(probe: Account -> Probe, cancelAfter: nat) returns (outcome: Outcome, ghost k: nat)
      requires Valid()
      modifies this`pool, this`hasQuota
      ensures hasQuota == FlagsAfter(old(hasQuota), UpTo(old(pool), k), probe)
      ensures SearchEnded(old(pool), old(hasQuota), probe, cancelAfter, total, outcome, pool, k)
      ensures outcome.Acquired? ==> outcome.account < total == |hasQuota| && hasQuota[outcome.account]
      ensures outcome == AllUnavailable && |old(pool)| == total ==> pool == old(pool)
    {
      var tried: set<Account> := {};
      var attempts := 0;
      ghost var q, n, flags := pool, |pool|, hasQuota;
      ghost var f := FirstReady(q, flags, probe);
      SomeOfSize(q, total);
      while attempts < total * 2 && |tried| < total
        invariant 0 <= attempts <= (if n == total then total else 2 * total) && Searching(q, flags, attempts, tried, probe)
        invariant if n == 0 then attempts == 0 else attempts <= cancelAfter && (attempts <= f || f == n)
      {
        FirstsSize(q, total, attempts);
        if attempts < n {
          FirstReadyAt(q, flags, probe, attempts);
        }
        var result;
        result, tried := AcquireStep(q, flags, attempts, tried, probe, cancelAfter);
        if result.Some? {
          return result.value, if result.value.Acquired? then attempts + 1 else attempts;
        }
        attempts := attempts + 1;
      }
      FirstsSize(q, total, attempts);
      if n == total {
        FullTurn(q, 0);
      }
      return AllUnavailable, attempts;
    }

    /**
     `AcquireAccount` without interference: the loop, and which of the accounts it received was
     acquired, by what each of them met: a fresh fetch decides whatever the flag was, the flag
     decides without one, and after an error the account is put back.
     */
    method AcquireAccount(probe: Account -> Probe, cancelAfter: nat) returns (outcome: Outcome, ghost k: nat)
      requires Valid()
      modifies this`pool, this`hasQuota
      ensures hasQuota == FlagsAfter(old(hasQuota), UpTo(old(pool), k), probe)
      ensures SearchEnded(old(pool), old(hasQuota), probe, cancelAfter, total, outcome, pool, k)
      ensures outcome.Acquired? ==> outcome.account < total == |hasQuota| && hasQuota[outcome.account]
      ensures outcome == AllUnavailable && |old(pool)| == total ==> pool == old(pool)
      ensures Decided(old(pool), old(hasQuota), probe, k, outcome, hasQuota)
      ensures (|old(pool)| > 0 && cancelAfter > 0 ==> k > 0) && (outcome == AllUnavailable ==> k >= |old(pool)|)
    {
      ghost var q, flags := pool, hasQuota;
      SomeOfSize(q, total);
      outcome, k := Search(probe, cancelAfter);
      SearchDecides(q, flags, probe, cancelAfter, total, outcome, pool, k, hasQuota);
    }

    /** While every account is ready the front one is leased. */
    method AcquireFirst(probe: Account -> Probe) returns (account: Account)
      requires Valid() && |pool| > 0 && AllReady(hasQuota) && AlwaysPasses(probe)
      modifies this`pool, this`hasQuota
      ensures account == old(pool)[0] && pool == old(pool)[1..]
      ensures AllReady(hasQuota) && |hasQuota| == total
    {
      ghost var q, flags := pool, hasQuota;
      FrontAccount(q, total);
      FirstIsReady(q, flags, probe);
      var outcome, k := AcquireAccount(probe, 1);
      account := outcome.account;
      StaysReady(flags, UpTo(q, k), probe);
    }

    /** One request: the front account, and back it goes. */
    method UseOnce(probe: Account -> Probe) returns (used: Account)
      requires Valid() && |pool| > 0 && AllReady(hasQuota) && AlwaysPasses(probe)
      modifies this`pool, this`hasQuota
      ensures Valid() && AllReady(hasQuota)
      ensures used == old(pool)[0] && pool == old(pool)[1..] + [old(pool)[0]]
    {
      FrontAccount(pool, total);
      used := AcquireFirst(probe);
      ReleaseLease(used);
    }

    /** `k` requests one after the other. */
    method UseRounds(k: nat, probes: nat -> (Account -> Probe)) returns (used: seq<Account>)
      requires Valid() && |pool| > 0 && AllReady(hasQuota) && forall i :: AlwaysPasses(probes(i))
      modifies this`pool, this`hasQuota
      ensures Valid() && pool == Rotated(old(pool), k) && used == Uses(old(pool), k)
    {
      ghost var q := pool;
      used := [];
      for i := 0 to k
        invariant Valid() && |pool| == |q| && AllReady(hasQuota)
        invariant pool == Rotated(q, i) && used + Uses(pool, k - i) == Uses(q, k)
      {
        RotateOnce(q, i);
        UsesNext(used, pool, k - i);
        var a := UseOnce(probes(i));
        used := used + [a];
      }
      UsesDone(used, pool);
    }

    /** Fairness of the pool: `k` requests use each of the n ready accounts floor(k/n) or ceil(k/n) times. */
    method UseFairly(k: nat, probes: nat -> (Account -> Probe)) returns (used: seq<Account>)
      requires Valid() && |pool| > 0 && AllReady(hasQuota) && forall i :: AlwaysPasses(probes(i))
      modifies this`pool, this`hasQuota
      ensures Valid() && |used| == k
      ensures forall a :: a in old(pool) ==> k / |old(pool)| <= multiset(used)[a] <= (k + |old(pool)| - 1) / |old(pool)|
    {
      ghost var q := pool;
      used := UseRounds(k, probes);
      UsesLength(q, k);
      forall a | a in q ensures k / |q| <= multiset(used)[a] <= (k + |q| - 1) / |q| {
        ShareIsFair(q, total, k, a);
      }
    }

    /** The same call as its caller sees it: one account leased and nothing else, or nothing at all. */
    method AcquireLease(probe: Account -> Probe, cancelAfter: nat) returns (outcome: Outcome, ghost probed: seq<Account>)
      requires Valid()
      modifies this`pool, this`hasQuota
      ensures Valid() && hasQuota == FlagsAfter(old(hasQuota), probed, probe) && probed <= old(pool)
      ensures outcome.Acquired? ==>
                && UpToReady(old(pool), old(hasQuota), probe, cancelAfter, probed, outcome.account)
                && |old(pool)| > 0 && pool + [outcome.account] == Rotated(old(pool), |probed|)
      ensures if outcome.Acquired? then
                Leased(old(pool), pool, outcome.account) && outcome.account < total && hasQuota[outcome.account]
              else multiset(pool) == multiset(old(pool)) && NoneReady(old(pool), old(hasQuota), probe, cancelAfter)
    {
      ghost var q, flags := pool, hasQuota;
      ghost var k;
      outcome, k := AcquireAccount(probe, cancelAfter);
      probed := UpTo(q, k);
      LeaseFacts(q, flags, probe, cancelAfter, total, outcome, pool, k);
      if !outcome.Acquired? {
        NotAcquired(q, flags, probe, cancelAfter, total, outcome, pool, k);
      }
    }
  }

  // ----- the retry loop -----

  datatype Reply = TransportError | Status(code: int)

  const STATUS_QUOTA_EXHAUSTED := 477

  /** Neither a transport error nor quota exhaustion. */
  predicate Answered(reply: Reply) {
    reply.Status? && reply.code != STATUS_QUOTA_EXHAUSTED
  }

  datatype Attempt = NoAccount | Sent(reply: Reply, account: Account)

  datatype SendResult = Responded(code: int, account: Account) | Refused

  /** Some attempt after `i` and up to `j` received the account and fetched its quota afresh. */
  ghost predicate FetchedBetween(probes: nat -> (Account -> Probe), probed: seq<seq<Account>>, i: int, j: int, a: Account) {
    exists t: nat :: i < t <= j && t < |probed| && a in probed[t] && probes(t)(a).Fetched?
  }

  /** Attempt `t` fetched the quota of `a`, directly after attempts that leave the rest as it is. */
  lemma FetchedLater(probes: nat -> (Account -> Probe), probed: seq<seq<Account>>, more: seq<Account>, i: int, j: int, a: Account)
    requires FetchedBetween(probes, probed, i, j, a)
    ensures forall j' :: j' >= j ==> FetchedBetween(probes, probed + [more], i, j', a)
  {
    var t: nat :| i < t <= j && t < |probed| && a in probed[t] && probes(t)(a).Fetched?;
    assert (probed + [more])[t] == probed[t];
  }

  ghost predicate Repeats(probes: nat -> (Account -> Probe), probed: seq<seq<Account>>, sent: seq<Account>) {
    forall i, j :: 0 <= i < j < |sent| && sent[i] == sent[j] ==> FetchedBetween(probes, probed, i, j, sent[j])
  }

  /** Each account was the last one its attempt received, and none was sent with twice without a fetch in between. */
  ghost predicate Traced(probes: nat -> (Account -> Probe), probed: seq<seq<Account>>, sent: seq<Account>) {
    && |probed| == |sent| && Repeats(probes, probed, sent)
    && forall t :: 0 <= t < |sent| ==> SentWithLast(probed[t], sent[t])
  }

  /** An account sent with in attempt `i` has quota only if it was fetched after that attempt. */
  ghost predicate Restored(probes: nat -> (Account -> Probe), probed: seq<seq<Account>>, flags: seq<bool>, i: int, a: Account) {
    a < |flags| && (flags[a] ==> FetchedBetween(probes, probed, i, |probed| - 1, a))
  }

  /** And one that has quota now was fetched since it was sent with. */
  ghost predicate Spent(probes: nat -> (Account -> Probe), probed: seq<seq<Account>>, flags: seq<bool>, sent: seq<Account>) {
    && Traced(probes, probed, sent)
    && forall i :: 0 <= i < |sent| ==> Restored(probes, probed, flags, i, sent[i])
  }

  /** An account sent with has quota after an acquire only where it had it before or was fetched in it. */
  lemma StillRestored(probes: nat -> (Account -> Probe), probed: seq<seq<Account>>, flags: seq<bool>,
                      received: seq<Account>, i: int, a: Account)
    requires i < |probed| && Restored(probes, probed, flags, i, a)
    ensures Restored(probes, probed + [received], FlagsAfter(flags, received, probes(|probed|)), i, a)
  {
    var t, now := |probed|, probed + [received];
    if flags[a] {
      FetchedLater(probes, probed, received, i, t - 1, a);
    } else if a in received && probes(t)(a).Fetched? {
      assert now[t] == received;
      assert i < t <= |now| - 1 && t < |now| && a in now[t] && probes(t)(a).Fetched?;
    } else {
      FlagsOnlyByFetch(flags, received, probes(t), a);
    }
  }

  /** Sending once more, with an account that has quota, and clearing its flag if that is the answer. */
  lemma SpentOneMore(probes: nat -> (Account -> Probe), probed: seq<seq<Account>>, flags: seq<bool>,
                     received: seq<Account>, sent: seq<Account>, acct: Account)
    requires Spent(probes, probed, flags, sent) && SentWithLast(received, acct)
    requires var after := FlagsAfter(flags, received, probes(|sent|)); acct < |after| && after[acct]
    ensures var after := FlagsAfter(flags, received, probes(|sent|));
      Spent(probes, probed + [received], after[acct := false], sent + [acct])
  {
    var after, now, more, n := FlagsAfter(flags, received, probes(|sent|)), probed + [received], sent + [acct], |sent|;
    forall i | 0 <= i < n ensures Restored(probes, now, after, i, sent[i]) {
      StillRestored(probes, probed, flags, received, i, sent[i]);
    }
    forall i, j | 0 <= i < j < |more| && more[i] == more[j] ensures FetchedBetween(probes, now, i, j, more[j]) {
      assert more[i] == sent[i];
      if j < n {
        assert more[j] == sent[j];
        FetchedLater(probes, probed, received, i, j, sent[j]);
      } else {
        assert Restored(probes, now, after, i, sent[i]);
      }
    }
    forall i | 0 <= i < |more|
      ensures SentWithLast(now[i], more[i]) && Restored(probes, now, after[acct := false], i, more[i])
    {
      if i < n {
        assert more[i] == sent[i] && now[i] == probed[i] && Restored(probes, now, after, i, sent[i]);
      }
    }
  }

  // ----- the whole trace of a call -----

  /** The queue after some attempts, each of which moved the accounts it received to the back. */
  function QueueAfter(q: seq<Account>, probed: seq<seq<Account>>): (r: seq<Account>)
    ensures |r| == |q|
  {
    if |probed| == 0 || |q| == 0 then q
    else Rotated(QueueAfter(q, probed[..|probed| - 1]), |probed[|probed| - 1]|)
  }

  /** The flags after some attempts: the probes of each, and the flag cleared where the answer was 477. */
  function FlagsOver(flags: seq<bool>, probes: nat -> (Account -> Probe), replies: nat -> Reply,
                     probed: seq<seq<Account>>, sent: seq<Account>): (r: seq<bool>)
    ensures |r| == |flags|
  {
    if |probed| == 0 then flags
    else
      var t := |probed| - 1;
      var r := FlagsAfter(FlagsOver(flags, probes, replies, probed[..t], sent), probed[t], probes(t));
      if t < |sent| && sent[t] < |r| && replies(t) == Status(STATUS_QUOTA_EXHAUSTED) then r[sent[t] := false] else r
  }

  /** Attempt `t` went through the queue it found up to the first account that was ready, and sent with that one. */
  ghost predicate TookFirstReady(q: seq<Account>, flags: seq<bool>, probes: nat -> (Account -> Probe), cancels: nat -> nat,
                                 replies: nat -> Reply, probed: seq<seq<Account>>, sent: seq<Account>, t: nat)
    requires t < |sent| <= |probed|
  {
    UpToReady(QueueAfter(q, probed[..t]), FlagsOver(flags, probes, replies, probed[..t], sent), probes(t), cancels(t),
              probed[t], sent[t])
  }

  ghost predicate EachTookFirstReady(q: seq<Account>, flags: seq<bool>, probes: nat -> (Account -> Probe),
                                     cancels: nat -> nat, replies: nat -> Reply, probed: seq<seq<Account>>, sent: seq<Account>)
  {
    |sent| <= |probed| && forall t :: 0 <= t < |sent| ==> TookFirstReady(q, flags, probes, cancels, replies, probed, sent, t)
  }

  lemma {:induction false} QueueAfterMultiset(q: seq<Account>, probed: seq<seq<Account>>)
    ensures multiset(QueueAfter(q, probed)) == multiset(q)
  {
    if |probed| > 0 && |q| > 0 {
      QueueAfterMultiset(q, probed[..|probed| - 1]);
      RotatedMultiset(QueueAfter(q, probed[..|probed| - 1]), |probed[|probed| - 1]|);
    }
  }

  lemma QueueOneMore(q: seq<Account>, probed: seq<seq<Account>>, received: seq<Account>)
    requires |q| > 0
    ensures QueueAfter(q, probed + [received]) == Rotated(QueueAfter(q, probed), |received|)
  {
    assert (probed + [received])[..|probed|] == probed;
  }

  /** A later send does not bear on earlier flags. */
  lemma {:induction false} FlagsBefore(flags: seq<bool>, probes: nat -> (Account -> Probe), replies: nat -> Reply,
                                       probed: seq<seq<Account>>, sent: seq<Account>, a: Account)
    requires |probed| <= |sent|
    ensures FlagsOver(flags, probes, replies, probed, sent + [a]) == FlagsOver(flags, probes, replies, probed, sent)
  {
    if |probed| > 0 {
      FlagsBefore(flags, probes, replies, probed[..|probed| - 1], sent, a);
    }
  }

  lemma FlagsOneAttempt(flags: seq<bool>, probes: nat -> (Account -> Probe), replies: nat -> Reply,
                        probed: seq<seq<Account>>, sent: seq<Account>, received: seq<Account>, a: Account)
    requires |probed| == |sent|
    ensures var after := FlagsAfter(FlagsOver(flags, probes, replies, probed, sent), received, probes(|sent|));
      && FlagsOver(flags, probes, replies, probed + [received], sent) == after
      && (a < |after| ==> FlagsOver(flags, probes, replies, probed + [received], sent + [a]) ==
                          if replies(|sent|) == Status(STATUS_QUOTA_EXHAUSTED) then after[a := false] else after)
  {
    assert (probed + [received])[..|probed|] == probed;
    FlagsBefore(flags, probes, replies, probed, sent, a);
  }

  lemma TookOneMore(q: seq<Account>, flags: seq<bool>, probes: nat -> (Account -> Probe), cancels: nat -> nat,
                    replies: nat -> Reply, probed: seq<seq<Account>>, sent: seq<Account>, received: seq<Account>, a: Account)
    requires |probed| == |sent| && EachTookFirstReady(q, flags, probes, cancels, replies, probed, sent)
    requires UpToReady(QueueAfter(q, probed), FlagsOver(flags, probes, replies, probed, sent), probes(|sent|),
                       cancels(|sent|), received, a)
    ensures EachTookFirstReady(q, flags, probes, cancels, replies, probed + [received], sent + [a])
  {
    var n, tried, all := |sent|, probed + [received], sent + [a];
    forall t | 0 <= t < |all| ensures TookFirstReady(q, flags, probes, cancels, replies, tried, all, t) {
      assert t < n ==> TookFirstReady(q, flags, probes, cancels, replies, probed, sent, t);
      assert tried[..t] == probed[..t];
      assert probed[..n] == probed;
      FlagsBefore(flags, probes, replies, probed[..t], sent, a);
    }
  }

  lemma TookNoMore(q: seq<Account>, flags: seq<bool>, probes: nat -> (Account -> Probe), cancels: nat -> nat,
                   replies: nat -> Reply, probed: seq<seq<Account>>, sent: seq<Account>, received: seq<Account>)
    requires |probed| == |sent| && EachTookFirstReady(q, flags, probes, cancels, replies, probed, sent)
    ensures EachTookFirstReady(q, flags, probes, cancels, replies, probed + [received], sent)
  {
    forall t | 0 <= t < |sent| ensures TookFirstReady(q, flags, probes, cancels, replies, probed + [received], sent, t) {
      assert TookFirstReady(q, flags, probes, cancels, replies, probed, sent, t);
      assert (probed + [received])[..t] == probed[..t];
    }
  }

  /** The first `n` attempts were made, and all of them answered with 477. */
  ghost predicate AllExhausted(ctxDone: nat -> bool, replies: nat -> Reply, n: nat) {
    forall t :: 0 <= t < n ==> !ctxDone(t) && replies(t) == Status(STATUS_QUOTA_EXHAUSTED)
  }

  /** Why a request is given up: the context, an acquire that found no account, a transport error, or 477 each time. */
  ghost predicate GivenUp(max: nat, q: seq<Account>, flags: seq<bool>, probes: nat -> (Account -> Probe), cancels: nat -> nat,
                          ctxDone: nat -> bool, replies: nat -> Reply, probed: seq<seq<Account>>, sent: seq<Account>)
    requires |sent| <= |probed|
  {
    var n := |sent|;
    if |probed| > n then
      && |probed| == n + 1 && !ctxDone(n)
      && NoneReady(QueueAfter(q, probed[..n]), FlagsOver(flags, probes, replies, probed[..n], sent), probes(n), cancels(n))
    else
      ctxDone(n) || (n > 0 && replies(n - 1).TransportError?) || (n == max && AllExhausted(ctxDone, replies, n))
  }

  /** Where the retry loop stands after attempts that were all answered with 477. */
  ghost predicate SoFar(q: seq<Account>, flags: seq<bool>, probes: nat -> (Account -> Probe), cancels: nat -> nat,
                        ctxDone: nat -> bool, replies: nat -> Reply, probed: seq<seq<Account>>, sent: seq<Account>,
                        pool: seq<Account>, hasQuota: seq<bool>)
  {
    && |probed| == |sent| && pool == QueueAfter(q, probed)
    && hasQuota == FlagsOver(flags, probes, replies, probed, sent)
    && EachTookFirstReady(q, flags, probes, cancels, replies, probed, sent)
    && Spent(probes, probed, hasQuota, sent) && AllExhausted(ctxDone, replies, |sent|)
  }

  /** What is known when the loop ends. */
  ghost predicate Ended(max: nat, q: seq<Account>, flags: seq<bool>, probes: nat -> (Account -> Probe), cancels: nat -> nat,
                        ctxDone: nat -> bool, replies: nat -> Reply, probed: seq<seq<Account>>, sent: seq<Account>,
                        pool: seq<Account>, hasQuota: seq<bool>, result: SendResult)
  {
    && |sent| <= |probed| <= |sent| + 1
    && hasQuota == FlagsOver(flags, probes, replies, probed, sent)
    && EachTookFirstReady(q, flags, probes, cancels, replies, probed, sent)
    && Traced(probes, probed[..|sent|], sent)
    && (|probed| > |sent| ==> probed[|sent|] <= QueueAfter(q, probed[..|sent|]))
    && (|sent| > 0 ==> AllExhausted(ctxDone, replies, |sent| - 1) && !ctxDone(|sent| - 1))
    && if result.Responded? then
         && |sent| == |probed| > 0 && result.account == sent[|sent| - 1]
         && replies(|sent| - 1) == Status(result.code) && result.code != STATUS_QUOTA_EXHAUSTED
         && pool + [result.account] == QueueAfter(q, probed)
       else
         && multiset(pool) == multiset(q) && (|sent| == |probed| ==> pool == QueueAfter(q, probed))
         && GivenUp(max, q, flags, probes, cancels, ctxDone, replies, probed, sent)
  }

  lemma NothingYet(q: seq<Account>, flags: seq<bool>, probes: nat -> (Account -> Probe), cancels: nat -> nat,
                  ctxDone: nat -> bool, replies: nat -> Reply, probed: seq<seq<Account>>, sent: seq<Account>)
    requires |probed| == |sent| == 0
    ensures SoFar(q, flags, probes, cancels, ctxDone, replies, probed, sent, q, flags)
  {}

  lemma EndedSoFar(max: nat, q: seq<Account>, flags: seq<bool>, probes: nat -> (Account -> Probe), cancels: nat -> nat,
                   ctxDone: nat -> bool, replies: nat -> Reply, probed: seq<seq<Account>>, sent: seq<Account>,
                   pool: seq<Account>, hasQuota: seq<bool>)
    requires SoFar(q, flags, probes, cancels, ctxDone, replies, probed, sent, pool, hasQuota)
    requires ctxDone(|sent|) || |sent| == max
    ensures Ended(max, q, flags, probes, cancels, ctxDone, replies, probed, sent, pool, hasQuota, Refused)
  {
    assert probed[..|sent|] == probed;
    QueueAfterMultiset(q, probed);
  }

  /** No account is sent with against the word of a fetch made for that very attempt, nor after an error. */
  ghost predicate SentAsFetched(probes: nat -> (Account -> Probe), sent: seq<Account>) {
    forall t :: 0 <= t < |sent| ==>
                  match probes(t)(sent[t])
                  case ProbeError => false
                  case Cached => true
                  case Fetched(usage) => HasQuotaLeft(usage)
  }

  lemma SentOnlyAsFetched(q: seq<Account>, flags: seq<bool>, probes: nat -> (Account -> Probe), cancels: nat -> nat,
                          replies: nat -> Reply, probed: seq<seq<Account>>, sent: seq<Account>)
    requires SomeOf(q, |flags|) && EachTookFirstReady(q, flags, probes, cancels, replies, probed, sent)
    ensures SentAsFetched(probes, sent)
  {
    forall t | 0 <= t < |sent|
      ensures match probes(t)(sent[t])
              case ProbeError => false
              case Cached => true
              case Fetched(usage) => HasQuotaLeft(usage)
    {
      assert TookFirstReady(q, flags, probes, cancels, replies, probed, sent, t);
      QueueAfterMultiset(q, probed[..t]);
      FirstReadyIsUsable(QueueAfter(q, probed[..t]), FlagsOver(flags, probes, replies, probed[..t], sent), probes(t));
    }
  }

  /** Attempt `t` received the account and fetched its quota afresh. */
  ghost predicate FetchedAt(probes: nat -> (Account -> Probe), probed: seq<seq<Account>>, t: nat, a: Account) {
    t < |probed| && a in probed[t] && probes(t)(a).Fetched?
  }

  /** An attempt from `s` on sent with the account and was answered with 477. */
  ghost predicate QuotaErrorSince(replies: nat -> Reply, n: nat, sent: seq<Account>, s: nat, a: Account) {
    exists t: nat :: s <= t < n && t < |sent| && sent[t] == a && replies(t) == Status(477)
  }

  lemma OneMoreReply(replies: nat -> Reply, n: nat, sent: seq<Account>, s: nat, a: Account)
    requires s <= n
    ensures QuotaErrorSince(replies, n + 1, sent, s, a) <==>
            QuotaErrorSince(replies, n, sent, s, a) || (n < |sent| && sent[n] == a && replies(n) == Status(477))
    ensures !QuotaErrorSince(replies, n, sent, n, a)
  {
    if QuotaErrorSince(replies, n, sent, s, a) {
      var t: nat :| s <= t < n && t < |sent| && sent[t] == a && replies(t) == Status(477);
      assert t < n + 1;
    }
    if n < |sent| && sent[n] == a && replies(n) == Status(477) {
      assert s <= n < n + 1;
    }
  }

  /** The flag of an account that no attempt fetched: as it was, unless one with it was answered with 477. */
  lemma {:induction false} FlagIfNeverFetched(flags: seq<bool>, probes: nat -> (Account -> Probe), replies: nat -> Reply,
                                              probed: seq<seq<Account>>, sent: seq<Account>, a: Account)
    requires a < |flags| && forall t: nat :: !FetchedAt(probes, probed, t, a)
    ensures FlagsOver(flags, probes, replies, probed, sent)[a] <==>
            flags[a] && !QuotaErrorSince(replies, |probed|, sent, 0, a)
  {
    if |probed| > 0 {
      var n := |probed| - 1;
      forall t: nat ensures !FetchedAt(probes, probed[..n], t, a) {
        assert !FetchedAt(probes, probed, t, a);
      }
      FlagIfNeverFetched(flags, probes, replies, probed[..n], sent, a);
      assert !FetchedAt(probes, probed, n, a);
      FlagsAreFetched(FlagsOver(flags, probes, replies, probed[..n], sent), probed[n], probes(n), a);
      OneMoreReply(replies, n, sent, 0, a);
    }
  }

  /** The flag of an account last fetched by attempt `s`: what that fetch said, unless an attempt with it was
      answered with 477 then or later. */
  lemma {:induction false} FlagAfterLastFetch(flags: seq<bool>, probes: nat -> (Account -> Probe), replies: nat -> Reply,
                                              probed: seq<seq<Account>>, sent: seq<Account>, s: nat, a: Account)
    requires a < |flags| && FetchedAt(probes, probed, s, a) && forall t :: t > s ==> !FetchedAt(probes, probed, t, a)
    ensures FlagsOver(flags, probes, replies, probed, sent)[a] <==>
            HasQuotaLeft(probes(s)(a).usage) && !QuotaErrorSince(replies, |probed|, sent, s, a)
  {
    var n := |probed| - 1;
    if s < n {
      forall t: nat | t > s ensures !FetchedAt(probes, probed[..n], t, a) {
        assert !FetchedAt(probes, probed, t, a);
      }
      FlagAfterLastFetch(flags, probes, replies, probed[..n], sent, s, a);
      assert !FetchedAt(probes, probed, n, a);
    }
    FlagsAreFetched(FlagsOver(flags, probes, replies, probed[..n], sent), probed[n], probes(n), a);
    OneMoreReply(replies, n, sent, s, a);
  }

  lemma LeasedInTheEnd(q: seq<Account>, probed: seq<seq<Account>>, pool: seq<Account>, a: Account)
    requires pool + [a] == QueueAfter(q, probed)
    ensures Leased(q, pool, a)
  {
    QueueAfterMultiset(q, probed);
  }

  /** An attempt that finds no account ends the request. */
  lemma NoneFound(max: nat, q: seq<Account>, flags: seq<bool>, probes: nat -> (Account -> Probe), cancels: nat -> nat,
                  ctxDone: nat -> bool, replies: nat -> Reply, probed: seq<seq<Account>>, sent: seq<Account>,
                  before: seq<Account>, had: seq<bool>, received: seq<Account>, pool: seq<Account>, hasQuota: seq<bool>)
    requires SoFar(q, flags, probes, cancels, ctxDone, replies, probed, sent, before, had)
    requires received <= before && NoneReady(before, had, probes(|sent|), cancels(|sent|)) && !ctxDone(|sent|)
    requires multiset(pool) == multiset(before) && hasQuota == FlagsAfter(had, received, probes(|sent|))
    ensures var all := probed + [received];
            Ended(max, q, flags, probes, cancels, ctxDone, replies, all, sent, pool, hasQuota, Refused)
  {
    assert (probed + [received])[..|sent|] == probed;
    QueueAfterMultiset(q, probed);
    TookNoMore(q, flags, probes, cancels, replies, probed, sent, received);
    FlagsOneAttempt(flags, probes, replies, probed, sent, received, 0);
  }

  /** One more attempt that sent, whatever the answer. */
  lemma OneMoreSent(q: seq<Account>, flags: seq<bool>, probes: nat -> (Account -> Probe), cancels: nat -> nat,
                    ctxDone: nat -> bool, replies: nat -> Reply, probed: seq<seq<Account>>, sent: seq<Account>,
                    before: seq<Account>, had: seq<bool>, received: seq<Account>, a: Account)
    requires SoFar(q, flags, probes, cancels, ctxDone, replies, probed, sent, before, had) && |q| > 0
    requires UpToReady(before, had, probes(|sent|), cancels(|sent|), received, a)
    requires var after := FlagsAfter(had, received, probes(|sent|)); a < |after| && after[a]
    ensures var all, to, after := probed + [received], sent + [a], FlagsAfter(had, received, probes(|sent|));
      && EachTookFirstReady(q, flags, probes, cancels, replies, all, to)
      && QueueAfter(q, all) == Rotated(before, |received|)
      && FlagsOver(flags, probes, replies, all, to) ==
         (if replies(|sent|) == Status(STATUS_QUOTA_EXHAUSTED) then after[a := false] else after)
      && Spent(probes, all, after[a := false], to)
  {
    TookOneMore(q, flags, probes, cancels, replies, probed, sent, received, a);
    QueueOneMore(q, probed, received);
    FlagsOneAttempt(flags, probes, replies, probed, sent, received, a);
    SpentOneMore(probes, probed, had, received, sent, a);
  }

  /** After 477 the loop goes on, with the account's flag cleared; any other answer ends the request. */
  lemma SentAndAnswered(max: nat, q: seq<Account>, flags: seq<bool>, probes: nat -> (Account -> Probe), cancels: nat -> nat,
                        ctxDone: nat -> bool, replies: nat -> Reply, probed: seq<seq<Account>>, sent: seq<Account>,
                        before: seq<Account>, had: seq<bool>, received: seq<Account>, a: Account,
                        pool: seq<Account>, hasQuota: seq<bool>)
    requires SoFar(q, flags, probes, cancels, ctxDone, replies, probed, sent, before, had) && |q| > 0 && !ctxDone(|sent|)
    requires UpToReady(before, had, probes(|sent|), cancels(|sent|), received, a)
    requires (if Answered(replies(|sent|)) then pool + [a] else pool) == Rotated(before, |received|)
    requires var after := FlagsAfter(had, received, probes(|sent|));
             && a < |after| && after[a]
             && hasQuota == if replies(|sent|) == Status(STATUS_QUOTA_EXHAUSTED) then after[a := false] else after
    ensures var all, to, reply := probed + [received], sent + [a], replies(|sent|);
            if reply == Status(STATUS_QUOTA_EXHAUSTED) then
              SoFar(q, flags, probes, cancels, ctxDone, replies, all, to, pool, hasQuota)
            else Ended(max, q, flags, probes, cancels, ctxDone, replies, all, to, pool, hasQuota,
                       if reply.Status? then Responded(reply.code, a) else Refused)
  {
    OneMoreSent(q, flags, probes, cancels, ctxDone, replies, probed, sent, before, had, received, a);
    assert (probed + [received])[..|sent + [a]|] == probed + [received];
    QueueAfterMultiset(q, probed + [received]);
  }

  class Server {
    const accountManager: PooledAccountManager

    constructor (accountManager: PooledAccountManager)
      ensures this.accountManager == accountManager
    {
      this.accountManager := accountManager;
    }

    /** One attempt: the account is kept exactly when the upstream answered anything but quota exhaustion, which
        clears the account's flag. */
    method SendOnce(probe: Account -> Probe, cancelAfter: nat, reply: Reply)
      returns (tried: Attempt, ghost probed: seq<Account>)
      requires accountManager.Valid()
      modifies accountManager`pool, accountManager`hasQuota
      ensures accountManager.Valid()
      ensures if tried.Sent? && Answered(reply) then Leased(old(accountManager.pool), accountManager.pool, tried.account)
              else multiset(accountManager.pool) == multiset(old(accountManager.pool))
      ensures probed <= old(accountManager.pool)
      ensures tried.NoAccount? ==>
                && accountManager.hasQuota == FlagsAfter(old(accountManager.hasQuota), probed, probe)
                && NoneReady(old(accountManager.pool), old(accountManager.hasQuota), probe, cancelAfter)
      ensures tried.Sent? ==>
        var q := old(accountManager.pool);
        && UpToReady(q, old(accountManager.hasQuota), probe, cancelAfter, probed, tried.account)
        && |q| > 0
        && (if Answered(reply) then accountManager.pool + [tried.account] else accountManager.pool) == Rotated(q, |probed|)
      ensures tried.Sent? ==>
        var after := FlagsAfter(old(accountManager.hasQuota), probed, probe);
        && tried.reply == reply && tried.account < |after| && after[tried.account]
        && accountManager.hasQuota == if reply == Status(STATUS_QUOTA_EXHAUSTED) then after[tried.account := false] else after
    {
      var am := accountManager;
      var outcome, p := am.AcquireLease(probe, cancelAfter);
      probed := p;
      if !outcome.Acquired? {
        return NoAccount, probed;
      }
      var acct := outcome.account;
      if Answered(reply) {
        return Sent(reply, acct), probed;
      }
      if reply.Status? {
        am.MarkNoQuota(acct);
      }
      am.ReleaseLease(acct);
      return Sent(reply, acct), probed;
    }

    /** One round of the retry loop. */
    method RetryOnce(ghost max: nat, ghost q: seq<Account>, ghost flags: seq<bool>,
                     probes: nat -> (Account -> Probe), cancels: nat -> nat,
                     ctxDone: nat -> bool, replies: nat -> Reply, attempt: nat,
                     ghost sent: seq<Account>, ghost probed: seq<seq<Account>>)
      returns (done: Option<SendResult>, ghost sent': seq<Account>, ghost probed': seq<seq<Account>>)
      requires accountManager.Valid() && |sent| == attempt
      requires SoFar(q, flags, probes, cancels, ctxDone, replies, probed, sent, accountManager.pool, accountManager.hasQuota)
      modifies accountManager`pool, accountManager`hasQuota
      ensures accountManager.Valid() && |sent'| <= attempt + 1
      ensures done.None? ==> |sent'| == attempt + 1
      ensures done.None? ==>
                SoFar(q, flags, probes, cancels, ctxDone, replies, probed', sent', accountManager.pool, accountManager.hasQuota)
      ensures done.Some? ==>
                Ended(max, q, flags, probes, cancels, ctxDone, replies, probed', sent',
                      accountManager.pool, accountManager.hasQuota, done.value)
    {
      var am := accountManager;
      if ctxDone(attempt) {
        EndedSoFar(max, q, flags, probes, cancels, ctxDone, replies, probed, sent, am.pool, am.hasQuota);
        return Some(Refused), sent, probed;
      }
      ghost var queue, now := am.pool, am.hasQuota;
      QueueAfterMultiset(q, probed);
      var tried, received := SendOnce(probes(attempt), cancels(attempt), replies(attempt));
      sent', probed' := sent, probed + [received];
      if tried.NoAccount? {
        NoneFound(max, q, flags, probes, cancels, ctxDone, replies, probed, sent, queue, now, received, am.pool, am.hasQuota);
        return Some(Refused), sent', probed';
      }
      SentAndAnswered(max, q, flags, probes, cancels, ctxDone, replies, probed, sent, queue, now, received, tried.account,
                      am.pool, am.hasQuota);
      sent' := sent + [tried.account];
      if tried.reply.TransportError? {
        return Some(Refused), sent', probed';
      }
      if tried.reply.code != STATUS_QUOTA_EXHAUSTED {
        return Some(Responded(tried.reply.code, tried.account)), sent', probed';
      }
      return None, sent', probed';
    }

    /**
     `sendWithRetry` without interference.  Attempt t meets `probes(t)` and `cancels(t)` in its
     acquire loop, `ctxDone(t)` before it, and `replies(t)` upstream; `sent` are the accounts the
     request was sent with, and `probed[t]` those that attempt t received and checked; an attempt
     that found no account comes last, with none in `sent`.  `Ended` says what came of it: the
     trace, the queue and flags it leaves, and what alone may have ended it without a response.
     */
    method SendWithRetry(probes: nat -> (Account -> Probe), cancels: nat -> nat, ctxDone: nat -> bool, replies: nat -> Reply)
      returns (result: SendResult, ghost sent: seq<Account>, ghost probed: seq<seq<Account>>)
      requires accountManager.Valid()
      modifies accountManager`pool, accountManager`hasQuota
      ensures accountManager.Valid()
      ensures |sent| <= Pool.MaxRetries(accountManager.total)
      ensures Ended(Pool.MaxRetries(accountManager.total), old(accountManager.pool), old(accountManager.hasQuota), probes,
                    cancels, ctxDone, replies, probed, sent, accountManager.pool, accountManager.hasQuota, result)
      ensures result.Responded? ==> Leased(old(accountManager.pool), accountManager.pool, result.account)
      ensures SentAsFetched(probes, sent)
    {
      var am := accountManager;
      var maxRetries := if am.total < Pool.MAX_UPSTREAM_RETRIES then am.total else Pool.MAX_UPSTREAM_RETRIES;
      ghost var q, flags := am.pool, am.hasQuota;
      sent, probed := [], [];
      NothingYet(q, flags, probes, cancels, ctxDone, replies, probed, sent);
      for attempt := 0 to maxRetries
        invariant am.Valid() && |sent| == attempt
        invariant SoFar(q, flags, probes, cancels, ctxDone, replies, probed, sent, am.pool, am.hasQuota)
      {
        var done;
        done, sent, probed := RetryOnce(maxRetries, q, flags, probes, cancels, ctxDone, replies, attempt, sent, probed);
        if done.Some? {
          if done.value.Responded? {
            LeasedInTheEnd(q, probed, am.pool, done.value.account);
          }
          SentOnlyAsFetched(q, flags, probes, cancels, replies, probed, sent);
          return done.value, sent, probed;
        }
      }
      EndedSoFar(maxRetries, q, flags, probes, cancels, ctxDone, replies, probed, sent, am.pool, am.hasQuota);
      SentOnlyAsFetched(q, flags, probes, cancels, replies, probed, sent);
      return Refused, sent, probed;
    }
  }
}
