/**
 The account pool under concurrency.  Any number of requests run `sendWithRetry` at once over one
 bounded FIFO channel; a step is one channel operation, one readiness probe or one upstream
 exchange of one request, and any request may take the next step.  What the network answers, and
 when a context is cancelled or a wait times out, is chosen freely.
 */
module AccountPool {
  import opened Collections
  import opened Wrappers

  const MAX_UPSTREAM_RETRIES: nat := 3

  /** What `ensureAccountReady` meets: an error, quota data from the cache, or a fresh fetch. */
  datatype Probe = ProbeError | Cached | Fetched(hasQuota: bool)

  datatype Reply = TransportError | QuotaExhausted | Answered

  /** Where a request stands inside `sendWithRetry`, and in the handler that called it. */
  datatype Phase =
    | NextAttempt
    | Acquiring(tried: set<nat>, receives: nat)
    | Probing(acct: nat, tried: set<nat>, receives: nat)
    | PuttingBack(acct: nat, tried: set<nat>, receives: nat)
    | Sending(acct: nat)
    | GivingUp(acct: nat)
    | Retrying(acct: nat)
    | Holding(acct: nat)
    | Failed
    | Completed
  {
    function Lease(): Option<nat> {
      if Probing? || PuttingBack? || Sending? || GivingUp? || Retrying? || Holding? then Some(acct) else None
    }
  }

  /**
   `attempts` counts rounds of the retry loop and `sends` upstream requests; `spent` notes, for each
   account that answered this call with 477, how often its quota had been fetched by then.
   */
  datatype Request = Request(phase: Phase, attempts: nat, sends: nat, spent: map<nat, nat>)

  /** Accounts are 0..n-1; `quota` and `fetches` are indexed by account. */
  datatype State = State(
    n: nat, pool: seq<nat>, quota: seq<bool>, fetches: seq<nat>, requests: map<nat, Request>, dropped: nat)

  datatype Choice = Start | Proceed | Cancel | TimeOut | Probed(probe: Probe) | Replied(reply: Reply)

  datatype Action = Action(request: nat, choice: Choice)

  function MaxRetries(n: nat): nat {
    if n < MAX_UPSTREAM_RETRIES then n else MAX_UPSTREAM_RETRIES
  }

  /** Every account is in the channel once, in order. */
  function Initial(quota: seq<bool>): State {
    State(|quota|, seq(|quota|, i => i), quota, seq(|quota|, _ => 0), map[], 0)
  }

  /** The non-blocking channel send of `ReleaseAccount`, which drops the account when the channel is full. */
  function Release(s: State, a: nat): State {
    if |s.pool| < s.n then s.(pool := s.pool + [a]) else s.(dropped := s.dropped + 1)
  }

  function Put(s: State, r: nat, q: Request): State {
    s.(requests := s.requests[r := q])
  }

  /** The retry loop between attempts. */
  function StepLoop(s: State, r: nat, q: Request, c: Choice): State {
    if q.attempts >= MaxRetries(s.n) || c.Cancel? then Put(s, r, q.(phase := Failed))
    else if c.Proceed? then Put(s, r, q.(phase := Acquiring({}, 0)))
    else s
  }

  /** `tryAcquireOnce`: cancelled, timed out, or the front of the channel. */
  function StepAcquire(s: State, r: nat, q: Request, c: Choice): State
    requires q.phase.Acquiring?
  {
    var Acquiring(tried, receives) := q.phase;
    if receives >= 2 * s.n || |tried| >= s.n || c.Cancel? || c.TimeOut? then Put(s, r, q.(phase := Failed))
    else if c.Proceed? && s.pool != [] then
      var acct := s.pool[0];
      Put(s.(pool := s.pool[1..]), r,
          q.(phase := if acct in tried then PuttingBack(acct, tried, receives) else Probing(acct, tried + {acct}, receives)))
    else s
  }

  /** `ensureAccountReady`: only a fresh fetch writes the quota flag, and the flag decides. */
  function StepProbe(s: State, r: nat, q: Request, c: Choice): State
    requires q.phase.Probing?
  {
    var Probing(acct, tried, receives) := q.phase;
    if !c.Probed? || acct >= |s.quota| || acct >= |s.fetches| then s
    else
      var s' := if c.probe.Fetched? then
                  s.(quota := s.quota[acct := c.probe.hasQuota], fetches := s.fetches[acct := s.fetches[acct] + 1])
                else s;
      if c.probe.ProbeError? || !s'.quota[acct] then Put(s', r, q.(phase := PuttingBack(acct, tried, receives)))
      else Put(s', r, q.(phase := Sending(acct), sends := q.sends + 1))
  }

  /** `SendUpstreamRequest`: a 477 clears the flag. */
  function StepSend(s: State, r: nat, q: Request, c: Choice): State
    requires q.phase.Sending?
  {
    var acct := q.phase.acct;
    if !c.Replied? || acct >= |s.quota| || acct >= |s.fetches| then s
    else
      match c.reply
      case TransportError => Put(s, r, q.(phase := GivingUp(acct)))
      case QuotaExhausted =>
        Put(s.(quota := s.quota[acct := false]), r, q.(phase := Retrying(acct), spent := q.spent[acct := s.fetches[acct]]))
      case Answered => Put(s, r, q.(phase := Holding(acct)))
  }

  /** The request once it has given its account back. */
  function Returned(q: Request): Request {
    match q.phase
    case PuttingBack(_, tried, receives) => q.(phase := Acquiring(tried, receives + 1))
    case Retrying(_) => q.(phase := NextAttempt, attempts := q.attempts + 1)
    case Holding(_) => q.(phase := Completed)
    case _ => q.(phase := Failed)
  }

  function Advance(s: State, r: nat, q: Request, c: Choice): State {
    match q.phase
    case NextAttempt => StepLoop(s, r, q, c)
    case Acquiring(_, _) => StepAcquire(s, r, q, c)
    case Probing(_, _, _) => StepProbe(s, r, q, c)
    case Sending(_) => StepSend(s, r, q, c)
    case Failed => s
    case Completed => s
    case _ => if c.Proceed? then Put(Release(s, q.phase.acct), r, Returned(q)) else s
  }

  /** One step; a choice that the phase does not offer changes nothing. */
  function Step(s: State, a: Action): State {
    var r := a.request;
    if a.choice.Start? then
      if r in s.requests then s else Put(s, r, Request(NextAttempt, 0, 0, map[]))
    else if r !in s.requests then s
    else Advance(s, r, s.requests[r], a.choice)
  }

  function Run(s: State, actions: seq<Action>): State
    decreases |actions|
  {
    if |actions| == 0 then s else Run(Step(s, actions[0]), actions[1..])
  }

  // ----- exclusive lease and conservation -----

  ghost predicate Holds(s: State, r: nat, a: nat) {
    r in s.requests && s.requests[r].phase.Lease() == Some(a)
  }

  /** Every account is in the channel exactly once or leased to exactly one request. */
  ghost predicate Conserved(s: State) {
    && (forall i, j :: 0 <= i < j < |s.pool| ==> s.pool[i] != s.pool[j])
    && (forall i :: 0 <= i < |s.pool| ==> s.pool[i] < s.n)
    && (forall r: nat, a: nat :: Holds(s, r, a) ==> a < s.n && a !in s.pool)
    && (forall r: nat, r': nat, a: nat :: Holds(s, r, a) && Holds(s, r', a) ==> r == r')
    && (forall a: nat :: a < s.n && a !in s.pool ==> exists r :: Holds(s, r, a))
    && s.dropped == 0 && |s.quota| == |s.fetches| == s.n
  }

  function Below(n: nat): (all: set<nat>)
    ensures |all| == n && forall a: nat :: a in all <==> a < n
  {
    if n == 0 then {} else Below(n - 1) + {n - 1}
  }

  lemma {:induction false} DistinctSize(xs: seq<nat>)
    requires forall i, j :: 0 <= i < j < |xs| ==> xs[i] != xs[j]
    ensures |Elements(xs)| == |xs|
  {
    if xs != [] {
      var init, last := xs[..|xs| - 1], xs[|xs| - 1];
      DistinctSize(init);
      assert xs == init + [last];
      assert forall x :: x in xs <==> x in init || x == last;
      assert Elements(xs) == Elements(init) + {last};
    }
  }

  /** While some account is leased, the channel has room: no release is ever dropped. */
  lemma RoomForRelease(s: State, r: nat, a: nat)
    requires Conserved(s) && Holds(s, r, a)
    ensures |s.pool| < s.n && Release(s, a) == s.(pool := s.pool + [a])
  {
    DistinctSize(s.pool + [a]);
    SubsetSize(Elements(s.pool + [a]), Below(s.n));
  }

  /** What a step may do to leases: take the front account, give one back, or neither. */
  lemma ReleaseKeeps(s: State, r: nat, a: nat, q: Request)
    requires Conserved(s) && Holds(s, r, a) && q.phase.Lease() == None
    ensures Conserved(Put(Release(s, a), r, q))
  {
    RoomForRelease(s, r, a);
    var s' := Put(Release(s, a), r, q);
    assert forall r', b :: Holds(s', r', b) <==> r' != r && Holds(s, r', b);
    assert s'.pool == s.pool + [a];
    forall b: nat | b < s'.n && b !in s'.pool ensures exists r' :: Holds(s', r', b) {
      assert b != a by { assert s'.pool[|s.pool|] == a; }
      assert forall i :: 0 <= i < |s.pool| ==> s.pool[i] == s'.pool[i];
      var r' :| Holds(s, r', b);
      assert Holds(s', r', b);
    }
  }

  lemma ReceiveKeeps(s: State, r: nat, q: Request)
    requires Conserved(s) && r in s.requests && s.requests[r].phase.Lease() == None
    requires s.pool != [] && q.phase.Lease() == Some(s.pool[0])
    ensures Conserved(Put(s.(pool := s.pool[1..]), r, q))
  {
    var a := s.pool[0];
    var s' := Put(s.(pool := s.pool[1..]), r, q);
    assert forall r', b :: Holds(s', r', b) <==> (r' == r && b == a) || (r' != r && Holds(s, r', b));
    assert forall b :: b in s.pool ==> b == a || b in s'.pool;
    assert a !in s'.pool;
    forall b: nat | b < s'.n && b !in s'.pool ensures exists r' :: Holds(s', r', b) {
      if b == a {
        assert Holds(s', r, b);
      } else {
        var r' :| Holds(s, r', b);
        assert Holds(s', r', b);
      }
    }
  }

  /** Steps that move no account: the lease of the stepping request stays what it is. */
  lemma StayKeeps(s: State, r: nat, q: Request, quota: seq<bool>, fetches: seq<nat>)
    requires Conserved(s) && |quota| == |fetches| == s.n
    requires q.phase.Lease() == (if r in s.requests then s.requests[r].phase.Lease() else None)
    ensures Conserved(Put(s.(quota := quota, fetches := fetches), r, q))
  {
    var s' := Put(s.(quota := quota, fetches := fetches), r, q);
    assert forall r', b :: Holds(s', r', b) <==> Holds(s, r', b);
  }

  lemma LoopConserves(s: State, r: nat, q: Request, c: Choice)
    requires Conserved(s) && r in s.requests && s.requests[r] == q && q.phase.NextAttempt?
    ensures Conserved(StepLoop(s, r, q, c))
  {
    StayKeeps(s, r, q.(phase := Failed), s.quota, s.fetches);
    StayKeeps(s, r, q.(phase := Acquiring({}, 0)), s.quota, s.fetches);
  }

  lemma AcquireConserves(s: State, r: nat, q: Request, c: Choice)
    requires Conserved(s) && r in s.requests && s.requests[r] == q && q.phase.Acquiring?
    ensures Conserved(StepAcquire(s, r, q, c))
  {
    StayKeeps(s, r, q.(phase := Failed), s.quota, s.fetches);
    if s.pool != [] {
      var acct, tried, receives := s.pool[0], q.phase.tried, q.phase.receives;
      ReceiveKeeps(s, r, q.(phase := PuttingBack(acct, tried, receives)));
      ReceiveKeeps(s, r, q.(phase := Probing(acct, tried + {acct}, receives)));
    }
  }

  lemma ProbeConserves(s: State, r: nat, q: Request, c: Choice)
    requires Conserved(s) && r in s.requests && s.requests[r] == q && q.phase.Probing?
    ensures Conserved(StepProbe(s, r, q, c))
  {
    var s' := StepProbe(s, r, q, c);
    if s' != s {
      StayKeeps(s, r, s'.requests[r], s'.quota, s'.fetches);
    }
  }

  lemma SendConserves(s: State, r: nat, q: Request, c: Choice)
    requires Conserved(s) && r in s.requests && s.requests[r] == q && q.phase.Sending?
    ensures Conserved(StepSend(s, r, q, c))
  {
    var s' := StepSend(s, r, q, c);
    if s' != s {
      StayKeeps(s, r, s'.requests[r], s'.quota, s'.fetches);
    }
  }

  lemma ReturnConserves(s: State, r: nat, q: Request, acct: nat, q': Request)
    requires Conserved(s) && r in s.requests && s.requests[r] == q && q.phase.Lease() == Some(acct)
    requires q'.phase.Lease() == None
    ensures Conserved(Put(Release(s, acct), r, q'))
  {
    assert Holds(s, r, acct);
    ReleaseKeeps(s, r, acct, q');
  }

  lemma AdvanceConserves(s: State, r: nat, q: Request, c: Choice)
    requires Conserved(s) && r in s.requests && s.requests[r] == q
    ensures Conserved(Advance(s, r, q, c))
  {
    match q.phase {
      case NextAttempt => LoopConserves(s, r, q, c);
      case Acquiring(_, _) => AcquireConserves(s, r, q, c);
      case Probing(_, _, _) => ProbeConserves(s, r, q, c);
      case Sending(_) => SendConserves(s, r, q, c);
      case Failed =>
      case Completed =>
      case _ =>
        if c.Proceed? {
          ReturnConserves(s, r, q, q.phase.acct, Returned(q));
        }
    }
  }

  lemma StepConserves(s: State, a: Action)
    requires Conserved(s)
    ensures Conserved(Step(s, a))
  {
    var r := a.request;
    if r in s.requests {
      AdvanceConserves(s, r, s.requests[r], a.choice);
    } else if a.choice.Start? {
      StayKeeps(s, r, Request(NextAttempt, 0, 0, map[]), s.quota, s.fetches);
    }
  }

  lemma {:induction false} RunConserves(s: State, actions: seq<Action>)
    requires Conserved(s)
    ensures Conserved(Run(s, actions))
    decreases |actions|
  {
    if actions != [] {
      StepConserves(s, actions[0]);
      RunConserves(Step(s, actions[0]), actions[1..]);
    }
  }

  lemma InitialConserved(quota: seq<bool>)
    ensures Conserved(Initial(quota))
  {
    var s := Initial(quota);
    forall a: nat | a < s.n ensures a in s.pool {
      assert s.pool[a] == a;
    }
  }

  /** The requests that hold a lease. */
  ghost function Holders(s: State): set<nat> {
    set r | r in s.requests && s.requests[r].phase.Lease().Some?
  }

  lemma {:induction false} RunKeepsN(s: State, actions: seq<Action>)
    ensures Run(s, actions).n == s.n
    decreases |actions|
  {
    if actions != [] {
      assert Step(s, actions[0]).n == s.n;
      RunKeepsN(Step(s, actions[0]), actions[1..]);
    }
  }

  /** The lease maps a set of requests one to one onto the accounts they hold. */
  lemma {:induction false} LeasedAccounts(s: State, holders: set<nat>, accounts: set<nat>)
    requires Conserved(s) && holders <= Holders(s)
    requires forall a :: a in accounts <==> exists r :: r in holders && Holds(s, r, a)
    ensures |holders| == |accounts|
    decreases |holders|
  {
    if holders == {} {
      assert accounts == {} by {
        assert forall a :: a !in accounts;
      }
    } else {
      var r :| r in holders;
      var a := s.requests[r].phase.Lease().value;
      assert Holds(s, r, a);
      forall b ensures b in accounts - {a} <==> exists r' :: r' in holders - {r} && Holds(s, r', b) {
        if b in accounts - {a} {
          var r' :| r' in holders && Holds(s, r', b);
          assert r' in holders - {r};
        }
      }
      LeasedAccounts(s, holders - {r}, accounts - {a});
    }
  }

  lemma LeasesAddUp(s: State)
    requires Conserved(s)
    ensures |s.pool| + |Holders(s)| == s.n
  {
    var rest := Below(s.n) - Elements(s.pool);
    forall a: nat ensures a in rest <==> exists r :: r in Holders(s) && Holds(s, r, a) {
      if a in rest {
        var r: nat :| Holds(s, r, a);
        assert r in Holders(s);
      }
    }
    LeasedAccounts(s, Holders(s), rest);
    DistinctSize(s.pool);
    assert Below(s.n) == Elements(s.pool) + rest;
  }

  /**
   Pool safety.  After any schedule, every account is in the channel once or leased to one request,
   the channel and the leases add up to n, and no release has found the channel full.
   */
  lemma PoolIsSafe(quota: seq<bool>, actions: seq<Action>)
    ensures var s := Run(Initial(quota), actions);
            && Conserved(s) && s.dropped == 0
            && |s.pool| + |Holders(s)| == |quota|
  {
    InitialConserved(quota);
    RunConserves(Initial(quota), actions);
    RunKeepsN(Initial(quota), actions);
    LeasesAddUp(Run(Initial(quota), actions));
  }

  // ----- retry discipline -----

  predicate InAttempt(p: Phase) {
    !p.NextAttempt? && !p.Failed? && !p.Completed?
  }

  predicate SentInAttempt(p: Phase) {
    p.Sending? || p.GivingUp? || p.Retrying? || p.Holding?
  }

  ghost predicate SpentOk(s: State, spent: map<nat, nat>) {
    forall a :: a in spent ==>
                  a < |s.quota| == |s.fetches| && spent[a] <= s.fetches[a] && (s.quota[a] ==> spent[a] < s.fetches[a])
  }

  /**
   What a request keeps: bounded counters, quota on the account it sends with, and a fresh fetch
   behind every spent account that has quota again.
   */
  ghost predicate Disciplined(s: State, q: Request) {
    && q.attempts <= MaxRetries(s.n) && q.sends <= MaxRetries(s.n)
    && (InAttempt(q.phase) ==> q.attempts < MaxRetries(s.n))
    && (InAttempt(q.phase) || q.phase.NextAttempt? ==> q.sends <= q.attempts + (if SentInAttempt(q.phase) then 1 else 0))
    && (q.phase.Acquiring? ==> q.phase.receives <= 2 * s.n)
    && (q.phase.Probing? || q.phase.PuttingBack? ==> q.phase.receives < 2 * s.n)
    && (q.phase.Sending? ==> q.phase.acct < |s.quota| && s.quota[q.phase.acct])
    && SpentOk(s, q.spent)
  }

  ghost predicate AllDisciplined(s: State) {
    Conserved(s) && forall r :: r in s.requests ==> Disciplined(s, s.requests[r])
  }

  /** Only the request that holds an account changes its quota flag. */
  lemma FlagChangesUnderLease(s: State, action: Action, a: nat)
    requires Conserved(s) && a < s.n
    ensures |Step(s, action).quota| == |Step(s, action).fetches| == s.n
    ensures Step(s, action).fetches[a] >= s.fetches[a]
    ensures Step(s, action).quota[a] && !s.quota[a] ==> Step(s, action).fetches[a] > s.fetches[a]
    ensures Step(s, action).quota[a] != s.quota[a] ==> Holds(s, action.request, a)
  {
  }

  lemma OthersUntouched(s: State, action: Action, r: nat)
    requires r in s.requests && r != action.request
    ensures r in Step(s, action).requests && Step(s, action).requests[r] == s.requests[r] && Step(s, action).n == s.n
  {
  }

  lemma DisciplineCarries(s: State, s': State, q: Request)
    requires Disciplined(s, q) && s'.n == s.n && SpentOk(s', q.spent)
    requires q.phase.Sending? ==> q.phase.acct < |s'.quota| && s'.quota[q.phase.acct]
    ensures Disciplined(s', q)
  {
  }

  lemma SpentStaysOk(s: State, action: Action, spent: map<nat, nat>)
    requires Conserved(s) && SpentOk(s, spent)
    ensures SpentOk(Step(s, action), spent)
  {
    forall a | a in spent
      ensures var s' := Step(s, action);
              a < |s'.quota| == |s'.fetches| && spent[a] <= s'.fetches[a] && (s'.quota[a] ==> spent[a] < s'.fetches[a])
    {
      FlagChangesUnderLease(s, action, a);
    }
  }

  lemma OthersStayDisciplined(s: State, action: Action, r: nat)
    requires AllDisciplined(s) && r in s.requests && r != action.request
    ensures r in Step(s, action).requests && Disciplined(Step(s, action), Step(s, action).requests[r])
  {
    var q := s.requests[r];
    OthersUntouched(s, action, r);
    if q.phase.Sending? {
      assert Holds(s, r, q.phase.acct);
      FlagChangesUnderLease(s, action, q.phase.acct);
    }
    SpentStaysOk(s, action, q.spent);
    DisciplineCarries(s, Step(s, action), q);
  }

  lemma FlagsStaySized(s: State, action: Action)
    requires Conserved(s)
    ensures Step(s, action).n == s.n && |Step(s, action).quota| == |Step(s, action).fetches| == s.n
  {
    StepConserves(s, action);
  }

  lemma ProberStaysDisciplined(s: State, action: Action)
    requires AllDisciplined(s) && action.request in s.requests && s.requests[action.request].phase.Probing?
    ensures Disciplined(Step(s, action), Step(s, action).requests[action.request])
  {
    var q := s.requests[action.request];
    assert Holds(s, action.request, q.phase.acct);
    FlagsStaySized(s, action);
    SpentStaysOk(s, action, q.spent);
  }

  lemma SendDisciplined(s: State, action: Action, acct: nat)
    requires AllDisciplined(s) && Holds(s, action.request, acct) && s.requests[action.request].phase == Sending(acct)
    ensures action.request in Step(s, action).requests
    ensures SpentOk(Step(s, action), Step(s, action).requests[action.request].spent)
  {
    SpentStaysOk(s, action, s.requests[action.request].spent);
  }

  lemma SenderStaysDisciplined(s: State, action: Action)
    requires AllDisciplined(s) && action.request in s.requests && s.requests[action.request].phase.Sending?
    ensures Disciplined(Step(s, action), Step(s, action).requests[action.request])
  {
    var q := s.requests[action.request];
    assert Holds(s, action.request, q.phase.acct);
    FlagsStaySized(s, action);
    SendDisciplined(s, action, q.phase.acct);
  }

  lemma StepperStaysDisciplined(s: State, action: Action)
    requires AllDisciplined(s) && action.request in Step(s, action).requests
    ensures Disciplined(Step(s, action), Step(s, action).requests[action.request])
  {
    var r := action.request;
    if r in s.requests {
      FlagsStaySized(s, action);
      SpentStaysOk(s, action, s.requests[r].spent);
      match s.requests[r].phase {
        case Probing(_, _, _) => ProberStaysDisciplined(s, action);
        case Sending(_) => SenderStaysDisciplined(s, action);
        case _ =>
      }
    }
  }

  lemma StepDisciplined(s: State, action: Action)
    requires AllDisciplined(s)
    ensures AllDisciplined(Step(s, action))
  {
    var s' := Step(s, action);
    StepConserves(s, action);
    forall r | r in s'.requests ensures Disciplined(s', s'.requests[r]) {
      if r == action.request {
        StepperStaysDisciplined(s, action);
      } else {
        OthersStayDisciplined(s, action, r);
      }
    }
  }

  lemma {:induction false} RunDisciplined(s: State, actions: seq<Action>)
    requires AllDisciplined(s)
    ensures AllDisciplined(Run(s, actions))
    decreases |actions|
  {
    if |actions| > 0 {
      StepDisciplined(s, actions[0]);
      RunDisciplined(Step(s, actions[0]), actions[1..]);
    }
  }

  /**
   Retry discipline.  After any schedule, no request has sent more than min(n, 3) times or
   received more than 2n accounts in one acquire; one that is sending holds that account alone and
   found quota on it; and if the account answered this very call with 477 before, its quota has
   been fetched afresh since.
   */
  lemma RetriesAreDisciplined(quota: seq<bool>, actions: seq<Action>, r: nat)
    requires r in Run(Initial(quota), actions).requests
    ensures var s := Run(Initial(quota), actions);
            var q := s.requests[r];
            && q.sends <= MaxRetries(|quota|)
            && (q.phase.Acquiring? ==> q.phase.receives <= 2 * |quota|)
            && (q.phase.Sending? ==>
                  var a := q.phase.acct;
                  && a < |quota| == |s.fetches| == |s.quota| && s.quota[a]
                  && (a in q.spent ==> q.spent[a] < s.fetches[a])
                  && (forall r' :: Holds(s, r', a) ==> r' == r) && a !in s.pool)
  {
    InitialConserved(quota);
    RunDisciplined(Initial(quota), actions);
    RunKeepsN(Initial(quota), actions);
    var s := Run(Initial(quota), actions);
    if s.requests[r].phase.Sending? {
      assert Holds(s, r, s.requests[r].phase.acct);
    }
  }
}
