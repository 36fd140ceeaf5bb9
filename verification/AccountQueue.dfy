/**
 Quota data, quota flags and the queue of accounts as values: what probing the accounts of a queue
 one after the other does to the flags, and what receiving them and putting them back does to the
 queue.
 */
module AccountQueue {
  import Collections
  import opened Wrappers
  import Pool = AccountPool

  // ----- quota data -----

  /** Quota data with finite amounts; text that is no number at all reads as 0, as it does after a failed parse. */
  datatype QuotaUsage = QuotaUsage(used: real, maximum: real, tariff: Option<real>, topUp: Option<real>)

  /** `ProcessQuotaData`: whether the account has quota left. */
  function HasQuotaLeft(u: QuotaUsage): bool {
    match u.topUp
    case Some(available) => available > 0.0 || (u.tariff.Some? && u.tariff.value > 0.0)
    case None => u.used < (if u.maximum == 0.0 then 1.0 else u.maximum)
  }

  predicate Exhausted(amount: Option<real>) {
    amount.None? || amount.value <= 0.0
  }

  predicate MaximumReached(u: QuotaUsage) {
    u.used >= (if u.maximum == 0.0 then 1.0 else u.maximum)
  }

  /**
   An account is to be marked as having no quota only when both the tariff and the top-up are
   exhausted.  The code keeps to that exactly on data with a top-up, with the tariff exhausted, or
   with the maximum not reached; and it marks whenever both are exhausted exactly on data with a
   top-up, with the maximum reached, or with something left.
   */
  lemma MarkedOnlyWhenBothExhausted(u: QuotaUsage)
    ensures (!HasQuotaLeft(u) ==> Exhausted(u.tariff) && Exhausted(u.topUp))
       <==> u.topUp.Some? || Exhausted(u.tariff) || !MaximumReached(u)
    ensures (Exhausted(u.tariff) && Exhausted(u.topUp) ==> !HasQuotaLeft(u))
       <==> u.topUp.Some? || !Exhausted(u.tariff) || MaximumReached(u)
  {
  }

  /** A witness: without a top-up the tariff is not looked at, so an account with tariff left may be marked. */
  lemma TariffAloneIsIgnored()
    ensures var u := QuotaUsage(10.0, 10.0, Some(5.0), None);
            !HasQuotaLeft(u) && !Exhausted(u.tariff)
  {
  }

  // ----- probes and flags -----

  datatype Probe = ProbeError | Cached | Fetched(usage: QuotaUsage)

  /** An account by its index in the configuration. */
  type Account = nat

  /** The quota flag after a probe: only a fresh fetch writes it. */
  function FlagAfter(flag: bool, p: Probe): bool {
    if p.Fetched? then HasQuotaLeft(p.usage) else flag
  }

  /** Whether `ensureAccountReady` lets an account with this flag pass. */
  predicate Passes(flag: bool, p: Probe) {
    !p.ProbeError? && FlagAfter(flag, p)
  }

  /** The flags after the probes of some accounts, one after the other. */
  function FlagsAfter(flags: seq<bool>, probed: seq<Account>, probe: Account -> Probe): (r: seq<bool>)
    ensures |r| == |flags|
  {
    if |probed| == 0 then flags
    else
      var r, last := FlagsAfter(flags, probed[..|probed| - 1], probe), probed[|probed| - 1];
      if last < |r| then r[last := FlagAfter(r[last], probe(last))] else r
  }

  lemma FlagsSnoc(flags: seq<bool>, probed: seq<Account>, probe: Account -> Probe, a: Account)
    requires a < |flags|
    ensures var r := FlagsAfter(flags, probed, probe);
            FlagsAfter(flags, probed + [a], probe) == r[a := FlagAfter(r[a], probe(a))]
  {
    assert (probed + [a])[..|probed|] == probed;
  }

  lemma {:induction false} FlagsUntouched(flags: seq<bool>, probed: seq<Account>, probe: Account -> Probe, a: Account)
    requires a < |flags| && forall i :: 0 <= i < |probed| ==> probed[i] != a
    ensures FlagsAfter(flags, probed, probe)[a] == flags[a]
  {
    if probed != [] {
      FlagsUntouched(flags, probed[..|probed| - 1], probe, a);
    }
  }

  lemma {:induction false} FlagsOnlyByFetch(flags: seq<bool>, probed: seq<Account>, probe: Account -> Probe, a: Account)
    requires a < |flags| && (a !in probed || !probe(a).Fetched?)
    ensures FlagsAfter(flags, probed, probe)[a] == flags[a]
  {
    if |probed| > 0 {
      FlagsOnlyByFetch(flags, probed[..|probed| - 1], probe, a);
    }
  }

  /** The flags after some probes, account by account: what the fetch of the account said, or as it was. */
  lemma {:induction false} FlagsAreFetched(flags: seq<bool>, probed: seq<Account>, probe: Account -> Probe, a: Account)
    requires a < |flags|
    ensures FlagsAfter(flags, probed, probe)[a] ==
            if a in probed && probe(a).Fetched? then HasQuotaLeft(probe(a).usage) else flags[a]
  {
    if |probed| > 0 {
      var n := |probed| - 1;
      FlagsAreFetched(flags, probed[..n], probe, a);
      assert probed == probed[..n] + [probed[n]];
    }
  }

  /** An account marked as having no quota passes no check until its quota data is fetched afresh, and marking
      it changes nothing for the others. */
  lemma {:induction false} MarkedUntilFetched(flags: seq<bool>, probed: seq<Account>, probe: Account -> Probe, a: Account)
    requires a < |flags|
    ensures FlagsAfter(flags[a := false], probed, probe)[a] ==> a in probed && probe(a).Fetched?
    ensures forall b :: 0 <= b < |flags| && b != a ==>
              FlagsAfter(flags[a := false], probed, probe)[b] == FlagsAfter(flags, probed, probe)[b]
  {
    if |probed| > 0 {
      MarkedUntilFetched(flags, probed[..|probed| - 1], probe, a);
      assert probed[|probed| - 1] in probed;
    }
  }

  // ----- the queue -----

  /** The accounts 0..n-1, in order. */
  function AllAccounts(n: nat): seq<Account> {
    if n == 0 then [] else AllAccounts(n - 1) + [n - 1]
  }

  /** Some of the accounts, each at most once. */
  ghost predicate SomeOf(q: seq<Account>, n: nat) {
    multiset(q) <= multiset(AllAccounts(n))
  }

  /** The queue has lost one account and nothing else. */
  ghost predicate Leased(before: seq<Account>, after: seq<Account>, a: Account) {
    multiset(before) == multiset(after) + multiset{a}
  }

  ghost predicate Distinct<T>(q: seq<T>) {
    forall i, j :: 0 <= i < j < |q| ==> q[i] != q[j]
  }

  lemma {:induction false} AllOnce(n: nat, a: Account)
    ensures multiset(AllAccounts(n))[a] == if a < n then 1 else 0
  {
    if n > 0 {
      AllOnce(n - 1, a);
    }
  }

  /** What `SomeOf` means index by index. */
  lemma SomeOfFacts(q: seq<Account>, n: nat)
    requires SomeOf(q, n)
    ensures Distinct(q) && |q| <= n && forall i :: 0 <= i < |q| ==> q[i] < n
  {
    forall i | 0 <= i < |q| ensures q[i] < n {
      assert q[i] in multiset(q);
      AllOnce(n, q[i]);
      assert multiset(q)[q[i]] <= multiset(AllAccounts(n))[q[i]];
    }
    forall i, j | 0 <= i < j < |q| ensures q[i] != q[j] {
      assert q == q[..i] + [q[i]] + q[i + 1..j] + [q[j]] + q[j + 1..];
      AllOnce(n, q[i]);
      assert multiset(q)[q[i]] <= multiset(AllAccounts(n))[q[i]];
    }
    Pool.DistinctSize(q);
    Collections.SubsetSize(Collections.Elements(q), Pool.Below(n));
  }

  lemma SomeOfSize(q: seq<Account>, n: nat)
    requires SomeOf(q, n)
    ensures |q| <= n
  {
    SomeOfFacts(q, n);
  }

  lemma FrontAccount(q: seq<Account>, n: nat)
    requires |q| > 0 && SomeOf(q, n)
    ensures q[0] < n && q[1..] + q[..0] == q[1..] && SomeOf(q[1..] + [q[0]], n)
  {
    SomeOfFacts(q, n);
    assert q == [q[0]] + q[1..];
  }

  function UpTo<T>(q: seq<T>, k: nat): seq<T> {
    if k <= |q| then q[..k] else q
  }

  /** The first account of the queue that would pass, or the length of the queue. */
  function FirstReady(q: seq<Account>, flags: seq<bool>, probe: Account -> Probe): (f: nat)
    ensures f <= |q|
  {
    if |q| == 0 || (q[0] < |flags| && Passes(flags[q[0]], probe(q[0]))) then 0
    else 1 + FirstReady(q[1..], flags, probe)
  }

  /** The accounts of the queue up to `a`, its first ready one, met before the context is seen cancelled. */
  predicate UpToReady(q: seq<Account>, flags: seq<bool>, probe: Account -> Probe, cancelAfter: nat,
                      received: seq<Account>, a: Account)
  {
    var f := FirstReady(q, flags, probe);
    f < |q| && f < cancelAfter && received == q[..f + 1] && a == q[f]
  }

  /** The search ends without an account: none of the queue is ready before the context is seen cancelled. */
  predicate NoneReady(q: seq<Account>, flags: seq<bool>, probe: Account -> Probe, cancelAfter: nat) {
    var f := FirstReady(q, flags, probe);
    f == |q| || f >= cancelAfter
  }

  predicate SentWithLast(received: seq<Account>, a: Account) {
    |received| > 0 && a == received[|received| - 1]
  }

  lemma FlagsThen(flags: seq<bool>, before: seq<Account>, probe: Account -> Probe, a: Account)
    requires a < |flags| && forall i :: 0 <= i < |before| ==> before[i] != a
    ensures FlagsAfter(flags, before, probe)[a] == flags[a]
    ensures FlagsAfter(flags, before + [a], probe) ==
            FlagsAfter(flags, before, probe)[a := FlagAfter(flags[a], probe(a))]
  {
    FlagsUntouched(flags, before, probe, a);
    FlagsSnoc(flags, before, probe, a);
  }

  lemma FlagsNext(flags: seq<bool>, q: seq<Account>, k: nat, probe: Account -> Probe)
    requires k < |q| && q[k] < |flags| && forall i :: 0 <= i < k ==> q[i] != q[k]
    ensures FlagsAfter(flags, UpTo(q, k), probe)[q[k]] == flags[q[k]]
    ensures FlagsAfter(flags, UpTo(q, k + 1), probe) ==
            FlagsAfter(flags, UpTo(q, k), probe)[q[k] := FlagAfter(flags[q[k]], probe(q[k]))]
  {
    var before, a := q[..k], q[k];
    assert UpTo(q, k + 1) == before + [a] by {
      assert q[..k + 1] == before + [a];
    }
    FlagsThen(flags, before, probe, a);
  }

  /** Probing the next account of a queue touches its own flag, which is as it was found. */
  lemma FlagsOneMore(flags: seq<bool>, q: seq<Account>, k: nat, probe: Account -> Probe)
    requires SomeOf(q, |flags|) && k < |q|
    ensures q[k] < |flags|
    ensures var r := FlagsAfter(flags, UpTo(q, k), probe);
            && r[q[k]] == flags[q[k]]
            && FlagsAfter(flags, UpTo(q, k + 1), probe) == r[q[k] := FlagAfter(flags[q[k]], probe(q[k]))]
  {
    SomeOfFacts(q, |flags|);
    FlagsNext(flags, q, k, probe);
  }

  // ----- rotation -----

  /** The queue after `k` receives, each put back at the end. */
  function Rotated<T>(q: seq<T>, k: nat): (r: seq<T>)
    requires |q| > 0
    ensures |r| == |q|
    decreases k
  {
    if k == 0 then q else Rotated(q[1..] + [q[0]], k - 1)
  }

  lemma {:induction false} RotateOnce<T>(q: seq<T>, k: nat)
    requires |q| > 0
    ensures var r := Rotated(q, k);
            Rotated(q, k + 1) == r[1..] + [r[0]] && r[0] in q
    decreases k
  {
    if k > 0 {
      RotateOnce(q[1..] + [q[0]], k - 1);
    }
  }

  lemma {:induction false} RotatedMultiset<T>(q: seq<T>, k: nat)
    requires |q| > 0
    ensures multiset(Rotated(q, k)) == multiset(q)
    decreases k
  {
    if k > 0 {
      assert q == [q[0]] + q[1..];
      RotatedMultiset(q[1..] + [q[0]], k - 1);
    }
  }

  /** Up to one full turn, the front of the queue has moved to the back, in order. */
  lemma {:induction false} RotatedParts<T>(q: seq<T>, k: nat)
    requires |q| > 0 && k <= |q|
    ensures Rotated(q, k) == q[k..] + q[..k]
    ensures k < |q| ==> Rotated(q, k)[0] == q[k] && Rotated(q, k)[1..] == q[k + 1..] + q[..k]
  {
    if k > 0 {
      RotatedParts(q, k - 1);
      RotateOnce(q, k - 1);
      assert q[k - 1..] == [q[k - 1]] + q[k..];
      assert q[..k] == q[..k - 1] + [q[k - 1]];
    }
  }

  lemma {:induction false} RotatedSum<T>(q: seq<T>, j: nat, k: nat)
    requires |q| > 0
    ensures Rotated(q, k + j) == Rotated(Rotated(q, j), k)
    decreases j
  {
    if j > 0 {
      RotatedSum(q[1..] + [q[0]], j - 1, k);
    }
  }

  /** A full turn leaves the queue as it was; so the queue only depends on the turns modulo its length. */
  lemma FullTurn<T>(q: seq<T>, k: nat)
    requires |q| > 0
    ensures Rotated(q, |q|) == q && Rotated(q, k + |q|) == Rotated(q, k)
  {
    RotatedParts(q, |q|);
    RotatedSum(q, |q|, k);
  }

  /** The first `k` accounts of a queue, all of them if there are not so many. */
  function Firsts<T>(q: seq<T>, k: nat): set<T>
    decreases k
  {
    if k == 0 then {}
    else if k <= |q| then Firsts(q, k - 1) + {q[k - 1]}
    else Firsts(q, k - 1)
  }

  lemma {:induction false} FirstsFacts<T>(q: seq<T>, k: nat)
    requires Distinct(q)
    ensures |Firsts(q, k)| == if k < |q| then k else |q|
    ensures forall i :: 0 <= i < |q| ==> (q[i] in Firsts(q, k) <==> i < k)
  {
    if k > 0 {
      FirstsFacts(q, k - 1);
    }
  }

  lemma FirstsSize(q: seq<Account>, n: nat, k: nat)
    requires SomeOf(q, n)
    ensures |Firsts(q, k)| == if k < |q| then k else |q|
  {
    SomeOfFacts(q, n);
    FirstsFacts(q, k);
  }

  /** The front of the queue after `k` receives: new for the first round, tried from then on. */
  lemma FrontFacts(q: seq<Account>, n: nat, k: nat)
    requires |q| > 0 && SomeOf(q, n)
    ensures k < |q| ==> && Rotated(q, k)[0] == q[k] && Rotated(q, k)[1..] == q[k + 1..] + q[..k]
                        && q[k] !in Firsts(q, k)
    ensures k >= |q| ==> Rotated(q, k)[0] in Firsts(q, k) && Firsts(q, k + 1) == Firsts(q, k) && UpTo(q, k + 1) == UpTo(q, k)
  {
    SomeOfFacts(q, n);
    FirstsFacts(q, k);
    RotateOnce(q, k);
    if k < |q| {
      RotatedParts(q, k);
    } else {
      assert UpTo(q, k) == q;
    }
  }

  lemma TakenOut(q: seq<Account>, f: nat, n: nat)
    requires f < |q| && SomeOf(q, n)
    ensures Leased(q, q[f + 1..] + q[..f], q[f]) && SomeOf(q[f + 1..] + q[..f], n)
    ensures UpTo(q, f + 1) == q[..f + 1] && (q[f + 1..] + q[..f]) + [q[f]] == Rotated(q, f + 1)
  {
    assert q == q[..f] + [q[f]] + q[f + 1..];
    RotatedParts(q, f + 1);
    assert q[..f + 1] == q[..f] + [q[f]];
  }

  lemma PutBack(q: seq<Account>, k: nat, n: nat)
    requires |q| > 0 && SomeOf(q, n)
    ensures multiset(Rotated(q, k)) == multiset(q) && SomeOf(Rotated(q, k), n)
    ensures UpTo(q, k) <= q
  {
    RotatedMultiset(q, k);
  }

  // ----- the first ready account -----

  /** Up to the first ready account, none would pass. */
  lemma {:induction false} FirstReadyAt(q: seq<Account>, flags: seq<bool>, probe: Account -> Probe, i: nat)
    requires i < |q| && i <= FirstReady(q, flags, probe)
    ensures i == FirstReady(q, flags, probe) <==> q[i] < |flags| && Passes(flags[q[i]], probe(q[i]))
  {
    if i > 0 {
      FirstReadyAt(q[1..], flags, probe, i - 1);
    }
  }

  /** What becomes of the account at place `i` if it is reached: a fresh fetch decides alone, the flag only without one. */
  lemma {:induction false} FirstReadyMeans(q: seq<Account>, flags: seq<bool>, probe: Account -> Probe, i: nat)
    requires i < |q| && q[i] < |flags| && i <= FirstReady(q, flags, probe)
    ensures match probe(q[i])
            case ProbeError => i < FirstReady(q, flags, probe)
            case Cached => i == FirstReady(q, flags, probe) <==> flags[q[i]]
            case Fetched(usage) => i == FirstReady(q, flags, probe) <==> HasQuotaLeft(usage)
  {
    FirstReadyAt(q, flags, probe, i);
  }

  /** The first ready account is usable by what its probe says, and none of those before it is. */
  lemma FirstReadyIsUsable(q: seq<Account>, flags: seq<bool>, probe: Account -> Probe)
    requires SomeOf(q, |flags|)
    ensures forall i :: 0 <= i < |q| ==> q[i] < |flags|
    ensures var f := FirstReady(q, flags, probe);
            && (forall i :: 0 <= i < f ==>
                  (probe(q[i]).Cached? ==> !flags[q[i]]) && (probe(q[i]).Fetched? ==> !HasQuotaLeft(probe(q[i]).usage)))
            && (f < |q| ==> && !probe(q[f]).ProbeError? && (probe(q[f]).Cached? ==> flags[q[f]])
                            && (probe(q[f]).Fetched? ==> HasQuotaLeft(probe(q[f]).usage)))
  {
    var f := FirstReady(q, flags, probe);
    SomeOfFacts(q, |flags|);
    forall i | 0 <= i < f
      ensures (probe(q[i]).Cached? ==> !flags[q[i]]) && (probe(q[i]).Fetched? ==> !HasQuotaLeft(probe(q[i]).usage))
    {
      FirstReadyMeans(q, flags, probe, i);
    }
    if f < |q| {
      FirstReadyMeans(q, flags, probe, f);
    }
  }

  /** The first account whose quota is fetched, after others that were turned away, is the first ready one if and
      only if that fetch says it has quota left. */
  lemma {:induction false} FetchDecides(q: seq<Account>, flags: seq<bool>, probe: Account -> Probe, i: nat)
    requires i < |q| && SomeOf(q, |flags|) && probe(q[i]).Fetched?
    requires forall j :: 0 <= j < i ==> q[j] < |flags| && match probe(q[j])
                                                          case ProbeError => true
                                                          case Cached => !flags[q[j]]
                                                          case Fetched(usage) => !HasQuotaLeft(usage)
    ensures i <= FirstReady(q, flags, probe)
    ensures i == FirstReady(q, flags, probe) <==> HasQuotaLeft(probe(q[i]).usage)
  {
    var f := FirstReady(q, flags, probe);
    SomeOfFacts(q, |flags|);
    if f < i {
      FirstReadyMeans(q, flags, probe, f);
      assert false;
    }
    FirstReadyMeans(q, flags, probe, i);
  }

  ghost predicate AllReady(flags: seq<bool>) {
    forall a :: 0 <= a < |flags| ==> flags[a]
  }

  /** Every account with quota passes, and keeps its quota if fetched. */
  ghost predicate AlwaysPasses(probe: Account -> Probe) {
    forall a :: Passes(true, probe(a))
  }

  lemma FirstIsReady(q: seq<Account>, flags: seq<bool>, probe: Account -> Probe)
    requires |q| > 0 && q[0] < |flags| && AllReady(flags) && AlwaysPasses(probe)
    ensures FirstReady(q, flags, probe) == 0
  {
    assert Passes(true, probe(q[0]));
  }

  lemma {:induction false} StaysReady(flags: seq<bool>, probed: seq<Account>, probe: Account -> Probe)
    requires AllReady(flags) && AlwaysPasses(probe)
    ensures AllReady(FlagsAfter(flags, probed, probe))
  {
    if |probed| > 0 {
      StaysReady(flags, probed[..|probed| - 1], probe);
      assert Passes(true, probe(probed[|probed| - 1]));
    }
  }

  // ----- fairness of the rotation -----

  /** The accounts used by `k` rounds of acquire and release on a queue where the first is always ready. */
  function Uses(q: seq<Account>, k: nat): seq<Account>
    requires |q| > 0
    decreases k
  {
    if k == 0 then [] else [q[0]] + Uses(q[1..] + [q[0]], k - 1)
  }

  lemma {:induction false} UsesLength(q: seq<Account>, k: nat)
    requires |q| > 0
    ensures |Uses(q, k)| == k
    decreases k
  {
    if k > 0 {
      UsesLength(q[1..] + [q[0]], k - 1);
    }
  }

  lemma UsesNext(used: seq<Account>, q: seq<Account>, k: nat)
    requires |q| > 0 && k > 0
    ensures (used + [q[0]]) + Uses(q[1..] + [q[0]], k - 1) == used + Uses(q, k)
  {
    Collections.Associative(used, [q[0]], Uses(q[1..] + [q[0]], k - 1));
  }

  lemma UsesDone(used: seq<Account>, q: seq<Account>)
    requires |q| > 0
    ensures used + Uses(q, 0) == used
  {
  }

  /** One round uses the front account and moves every other one place forward. */
  lemma OneRound(q: seq<Account>, k: nat, i: nat, j: nat)
    requires k > 0 && i < |q| && Distinct(q) && j == if i == 0 then |q| - 1 else i - 1
    ensures var q' := q[1..] + [q[0]];
            && |q'| == |q| && Distinct(q') && q'[j] == q[i]
            && multiset(Uses(q, k))[q[i]] == multiset(Uses(q', k - 1))[q[i]] + (if i == 0 then 1 else 0)
  {
  }

  lemma Distribute(n: nat, c: nat)
    ensures n * (c + 1) == n * c + n
  {
  }

  lemma ShareStep(n: nat, c: nat, k: nat, i: nat, j: nat)
    requires i < n && j == (if i == 0 then n - 1 else i - 1) && k > 0
    requires n * c <= k - 1 + n - 1 - j < n * c + n
    ensures var d := c + (if i == 0 then 1 else 0); n * d <= k + n - 1 - i < n * d + n
  {
    Distribute(n, c);
  }

  /** How often an account is used, without dividing: the earlier ones in the queue first. */
  lemma {:induction false} RoundsShare(q: seq<Account>, k: nat, i: nat)
    requires i < |q| && Distinct(q)
    ensures var n, c := |q|, multiset(Uses(q, k))[q[i]];
            n * c <= k + n - 1 - i < n * c + n
    decreases k
  {
    if k > 0 {
      var j := if i == 0 then |q| - 1 else i - 1;
      OneRound(q, k, i, j);
      RoundsShare(q[1..] + [q[0]], k - 1, j);
      ShareStep(|q|, multiset(Uses(q[1..] + [q[0]], k - 1))[q[i]], k, i, j);
    }
  }

  lemma MulAtLeast(n: nat, d: nat)
    requires d > 0
    ensures n * d >= n
  {
    assert n * d == n * (d - 1) + n;
  }

  lemma DivMonotone(x: nat, y: nat, n: nat)
    requires x <= y && n > 0
    ensures x / n <= y / n
  {
    if x / n > y / n {
      var d := x / n - y / n;
      assert n * (x / n) == n * (y / n) + n * d;
      MulAtLeast(n, d);
      assert false;
    }
  }

  lemma MulMod(n: nat, m: nat, r: nat, x: nat)
    requires r < n && x == n * m + r
    ensures x % n == r && x / n == m
  {
    var d := x / n - m;
    assert n * d == r - x % n by {
      assert x == n * (x / n) + x % n;
      assert n * d == n * (x / n) - n * m;
    }
    if d > 0 {
      MulAtLeast(n, d);
    }
  }

  lemma FloorCeiling(k: nat, n: nat, i: nat)
    requires i < n
    ensures k / n <= (k + n - 1 - i) / n <= (k + n - 1) / n
  {
    DivMonotone(k, k + n - 1 - i, n);
    DivMonotone(k + n - 1 - i, k + n - 1, n);
  }

  /** In k rounds on n ready accounts, each is used floor(k/n) or ceil(k/n) times. */
  lemma RoundsAreFair(q: seq<Account>, k: nat, i: nat)
    requires i < |q| && Distinct(q)
    ensures multiset(Uses(q, k))[q[i]] == (k + |q| - 1 - i) / |q|
    ensures k / |q| <= multiset(Uses(q, k))[q[i]] <= (k + |q| - 1) / |q|
  {
    var n, c := |q|, multiset(Uses(q, k))[q[i]];
    RoundsShare(q, k, i);
    MulMod(n, c, k + n - 1 - i - n * c, k + n - 1 - i);
    FloorCeiling(k, n, i);
  }

  /** Floor and ceiling, for every account of the pool. */
  lemma ShareIsFair(q: seq<Account>, total: nat, k: nat, a: Account)
    requires a in q && SomeOf(q, total)
    ensures k / |q| <= multiset(Uses(q, k))[a] <= (k + |q| - 1) / |q|
  {
    SomeOfFacts(q, total);
    var i :| 0 <= i < |q| && q[i] == a;
    RoundsAreFair(q, k, i);
  }
}
