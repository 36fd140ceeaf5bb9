/**
 Progress of the account pool: no request waits for ever behind others that could move, a request
 takes a bounded number of steps however it is scheduled, and so every request can run to its end.
 */
module AccountProgress {
  import opened AccountPool

  predicate Finished(q: Request) {
    q.phase.Failed? || q.phase.Completed?
  }

  /** A step that needs neither a cancellation nor a time-out nor a new request. */
  predicate Forward(c: Choice) {
    c.Proceed? || c.Probed? || c.Replied?
  }

  // ----- no deadlock -----

  /** What moves a request that need not wait for an account. */
  function Push(q: Request): Choice {
    if q.phase.Probing? then Probed(ProbeError) else if q.phase.Sending? then Replied(TransportError) else Proceed
  }

  lemma HolderMoves(s: State, r: nat, a: nat)
    requires Conserved(s) && Holds(s, r, a)
    ensures Step(s, Action(r, Push(s.requests[r]))) != s
  {
    var q := s.requests[r];
    var s' := Step(s, Action(r, Push(q)));
    assert s'.requests[r].phase != q.phase;
  }

  /** Whenever some request is unfinished, some request can step forward: one that finds the channel empty waits for
      an account whose holder can. */
  lemma NoDeadlock(s: State, r: nat) returns (a: Action)
    requires Conserved(s) && r in s.requests && !Finished(s.requests[r])
    ensures Forward(a.choice) && Step(s, a) != s
    ensures a.request in s.requests && (a.request == r || s.requests[a.request].phase.Lease().Some?)
  {
    var q := s.requests[r];
    if q.phase.Lease().Some? {
      assert Holds(s, r, q.phase.acct);
      HolderMoves(s, r, q.phase.acct);
      a := Action(r, Push(q));
    } else if q.phase.Acquiring? && |s.pool| == 0 && s.n > 0 {
      assert 0 !in s.pool;
      var holder: nat :| Holds(s, holder, 0);
      HolderMoves(s, holder, 0);
      a := Action(holder, Push(s.requests[holder]));
    } else {
      a := Action(r, Proceed);
      assert Step(s, a).requests[r].phase != q.phase;
    }
  }

  // ----- bounded work -----

  /** An attempt takes at most three steps for each of its 2n receives, and two more. */
  function StepsPerAttempt(n: nat): nat {
    6 * n + 2
  }

  function MaxWork(n: nat): nat {
    MaxRetries(n) * StepsPerAttempt(n) + 1
  }

  /** The work of attempts `attempts` to the last. */
  function WorkFrom(n: nat, attempts: nat): (w: int)
    ensures attempts <= MaxRetries(n) ==> w >= 0
  {
    (MaxRetries(n) - attempts) * StepsPerAttempt(n)
  }

  lemma OneAttempt(n: nat, attempts: nat)
    ensures WorkFrom(n, attempts) == WorkFrom(n, attempts + 1) + StepsPerAttempt(n)
  {
    var left := MaxRetries(n) - attempts;
    assert left * StepsPerAttempt(n) == (left - 1) * StepsPerAttempt(n) + StepsPerAttempt(n);
  }

  /** How many steps a request has left at most. */
  function Rank(n: nat, q: Request): int {
    var later := WorkFrom(n, q.attempts + 1);
    match q.phase
    case NextAttempt => WorkFrom(n, q.attempts) + 1
    case Acquiring(_, receives) => later + 3 * (2 * n - receives) + 2
    case Probing(_, _, receives) => later + 3 * (2 * n - receives) + 1
    case PuttingBack(_, _, receives) => later + 3 * (2 * n - receives)
    case Sending(_) => later + 3
    case GivingUp(_) => later + 2
    case Retrying(_) => later + 2
    case Holding(_) => later + 2
    case Failed => 0
    case Completed => 0
  }

  lemma RankIsNat(s: State, q: Request)
    requires Disciplined(s, q)
    ensures Rank(s.n, q) >= 0
    ensures !Finished(q) ==> Rank(s.n, q) > 0
  {}

  /** `s'` is `s` after a step of request `r` that lowers its rank. */
  ghost predicate Lowered(s: State, r: nat, q: Request, s': State) {
    r in s'.requests && s'.n == s.n && Rank(s.n, s'.requests[r]) < Rank(s.n, q)
  }

  lemma LoopLowers(s: State, r: nat, q: Request, c: Choice)
    requires Disciplined(s, q) && q.phase.NextAttempt? && StepLoop(s, r, q, c) != s
    ensures Lowered(s, r, q, StepLoop(s, r, q, c))
  {
    OneAttempt(s.n, q.attempts);
  }

  lemma AcquireLowers(s: State, r: nat, q: Request, c: Choice)
    requires Disciplined(s, q) && q.phase.Acquiring? && StepAcquire(s, r, q, c) != s
    ensures Lowered(s, r, q, StepAcquire(s, r, q, c))
  {}

  lemma ProbeLowers(s: State, r: nat, q: Request, c: Choice)
    requires Disciplined(s, q) && q.phase.Probing? && StepProbe(s, r, q, c) != s
    ensures Lowered(s, r, q, StepProbe(s, r, q, c))
  {}

  lemma SendLowers(s: State, r: nat, q: Request, c: Choice)
    requires Disciplined(s, q) && q.phase.Sending? && StepSend(s, r, q, c) != s
    ensures Lowered(s, r, q, StepSend(s, r, q, c))
  {}

  lemma ReturnLowers(s: State, r: nat, q: Request)
    requires Disciplined(s, q) && (q.phase.PuttingBack? || q.phase.GivingUp? || q.phase.Retrying? || q.phase.Holding?)
    ensures Lowered(s, r, q, Put(Release(s, q.phase.acct), r, Returned(q)))
  {}

  lemma AdvanceLowers(s: State, r: nat, q: Request, c: Choice)
    requires Disciplined(s, q) && Advance(s, r, q, c) != s
    ensures Lowered(s, r, q, Advance(s, r, q, c))
  {
    match q.phase {
      case NextAttempt => LoopLowers(s, r, q, c);
      case Acquiring(_, _) => AcquireLowers(s, r, q, c);
      case Probing(_, _, _) => ProbeLowers(s, r, q, c);
      case Sending(_) => SendLowers(s, r, q, c);
      case Failed =>
      case Completed =>
      case _ => ReturnLowers(s, r, q);
    }
  }

  /** A request not started yet has all its work ahead, and one step to start. */
  function RankOf(s: State, r: nat): int {
    if r in s.requests then Rank(s.n, s.requests[r]) else MaxWork(s.n) + 1
  }

  lemma OtherRanks(s: State, a: Action, r: nat)
    requires r != a.request
    ensures RankOf(Step(s, a), r) == RankOf(s, r)
  {
    if r in s.requests {
      OthersUntouched(s, a, r);
    }
  }

  /** A step that changes anything lowers the rank of the request that takes it, and of no other. */
  lemma StepLowersRank(s: State, a: Action)
    requires AllDisciplined(s) && Step(s, a) != s
    ensures RankOf(Step(s, a), a.request) < RankOf(s, a.request)
    ensures forall r: nat :: r != a.request ==> RankOf(Step(s, a), r) == RankOf(s, r)
  {
    var r := a.request;
    if r in s.requests {
      AdvanceLowers(s, r, s.requests[r], a.choice);
    }
    forall r': nat | r' != r ensures RankOf(Step(s, a), r') == RankOf(s, r') {
      OtherRanks(s, a, r');
    }
  }

  /** How often request `r` takes a step in a run. */
  function StepsOf(s: State, r: nat, actions: seq<Action>): nat
    decreases |actions|
  {
    if |actions| == 0 then 0
    else (if actions[0].request == r && Step(s, actions[0]) != s then 1 else 0) + StepsOf(Step(s, actions[0]), r, actions[1..])
  }

  lemma {:induction false} RankPays(s: State, r: nat, actions: seq<Action>)
    requires AllDisciplined(s)
    ensures StepsOf(s, r, actions) + RankOf(Run(s, actions), r) <= RankOf(s, r)
    decreases |actions|
  {
    if |actions| > 0 {
      var a := actions[0];
      StepDisciplined(s, a);
      if Step(s, a) != s {
        StepLowersRank(s, a);
      }
      RankPays(Step(s, a), r, actions[1..]);
    }
  }

  /**
   Bounded work.  Whatever the schedule and the network do, a request takes at most
   min(n, 3) * (6n + 2) + 2 steps, its start included.
   */
  lemma WorkIsBounded(quota: seq<bool>, actions: seq<Action>, r: nat)
    ensures StepsOf(Initial(quota), r, actions) <= MaxWork(|quota|) + 1
  {
    var s := Initial(quota);
    InitialConserved(quota);
    RankPays(s, r, actions);
    RunDisciplined(s, actions);
    RunKeepsN(s, actions);
    if r in Run(s, actions).requests {
      RankIsNat(Run(s, actions), Run(s, actions).requests[r]);
    }
  }

  // ----- everyone can finish -----

  /** The ranks of some requests, added up. */
  ghost function Total(s: State, rs: set<nat>): int
    decreases rs
  {
    if rs == {} then 0
    else
      var r :| r in rs;
      RankOf(s, r) + Total(s, rs - {r})
  }

  lemma {:induction false} TotalWithout(s: State, rs: set<nat>, r: nat)
    requires r in rs
    ensures Total(s, rs) == RankOf(s, r) + Total(s, rs - {r})
    decreases rs
  {
    var first :| first in rs && Total(s, rs) == RankOf(s, first) + Total(s, rs - {first});
    if first != r {
      TotalWithout(s, rs - {first}, r);
      TotalWithout(s, rs - {r}, first);
      assert rs - {first} - {r} == rs - {r} - {first};
    }
  }

  lemma {:induction false} SameTotal(s: State, s': State, rs: set<nat>)
    requires forall r :: r in rs ==> RankOf(s', r) == RankOf(s, r)
    ensures Total(s', rs) == Total(s, rs)
    decreases rs
  {
    if rs != {} {
      var r :| r in rs;
      SameTotal(s, s', rs - {r});
      TotalWithout(s, rs, r);
      TotalWithout(s', rs, r);
    }
  }

  lemma {:induction false} TotalIsNat(s: State, rs: set<nat>)
    requires AllDisciplined(s) && rs <= s.requests.Keys
    ensures Total(s, rs) >= 0
    decreases rs
  {
    if rs != {} {
      var r :| r in rs;
      RankIsNat(s, s.requests[r]);
      TotalIsNat(s, rs - {r});
      TotalWithout(s, rs, r);
    }
  }

  ghost predicate AllFinished(s: State) {
    forall r :: r in s.requests ==> Finished(s.requests[r])
  }

  ghost predicate AllForward(actions: seq<Action>) {
    forall i :: 0 <= i < |actions| ==> Forward(actions[i].choice)
  }

  lemma SameRequests(s: State, a: Action)
    requires !a.choice.Start?
    ensures Step(s, a).requests.Keys == s.requests.Keys
    ensures Step(s, a) != s ==> a.request in s.requests
  {
    var r := a.request;
    if r in s.requests {
      assert s.requests.Keys + {r} == s.requests.Keys;
    }
  }

  lemma TotalGoesDown(s: State, s': State, rs: set<nat>, r: nat)
    requires r in rs && RankOf(s', r) < RankOf(s, r) && forall r': nat :: r' != r ==> RankOf(s', r') == RankOf(s, r')
    ensures Total(s', rs) < Total(s, rs)
  {
    SameTotal(s, s', rs - {r});
    TotalWithout(s, rs, r);
    TotalWithout(s', rs, r);
  }

  lemma ForwardStep(s: State, a: Action)
    requires AllDisciplined(s) && Forward(a.choice) && Step(s, a) != s
    ensures Step(s, a).requests.Keys == s.requests.Keys
    ensures Total(Step(s, a), s.requests.Keys) < Total(s, s.requests.Keys)
  {
    SameRequests(s, a);
    StepLowersRank(s, a);
    TotalGoesDown(s, Step(s, a), s.requests.Keys, a.request);
  }

  lemma RunOne(s: State, a: Action, rest: seq<Action>)
    ensures Run(s, [a] + rest) == Run(Step(s, a), rest)
  {
    assert ([a] + rest)[1..] == rest;
  }

  lemma RunNone(s: State, actions: seq<Action>)
    requires |actions| == 0
    ensures Run(s, actions) == s
  {
  }

  /** While any request is unfinished, some step forward leaves less to do. */
  lemma SomeMoves(s: State) returns (a: Action)
    requires AllDisciplined(s) && !AllFinished(s)
    ensures Forward(a.choice)
    ensures var s' := Step(s, a);
            && AllDisciplined(s') && s'.requests.Keys == s.requests.Keys
            && 0 <= Total(s', s'.requests.Keys) < Total(s, s.requests.Keys)
  {
    var r :| r in s.requests && !Finished(s.requests[r]);
    a := NoDeadlock(s, r);
    ForwardStep(s, a);
    StepDisciplined(s, a);
    TotalIsNat(Step(s, a), Step(s, a).requests.Keys);
  }

  /** From every state a run can reach, some steps forward alone, without cancellations or time-outs, bring every
      request to its end. */
  lemma {:induction false} AllCanFinish(s: State) returns (actions: seq<Action>)
    requires AllDisciplined(s)
    ensures AllForward(actions) && AllFinished(Run(s, actions)) && Run(s, actions).requests.Keys == s.requests.Keys
    decreases Total(s, s.requests.Keys)
  {
    if AllFinished(s) {
      actions := [];
      RunNone(s, actions);
    } else {
      var a := SomeMoves(s);
      var rest := AllCanFinish(Step(s, a));
      actions := [a] + rest;
      RunOne(s, a, rest);
    }
  }

  /** At the end nothing is leased: the channel holds every account again. */
  lemma FinishedPoolIsFull(s: State)
    requires Conserved(s) && AllFinished(s)
    ensures |s.pool| == s.n
  {
    LeasesAddUp(s);
    assert Holders(s) == {};
  }

  /** So after any schedule the requests can all be brought to their end, and then every account is back. */
  lemma EveryAccountComesBack(quota: seq<bool>, actions: seq<Action>) returns (more: seq<Action>)
    ensures var s := Run(Initial(quota), actions);
      && AllForward(more) && AllFinished(Run(s, more)) && |Run(s, more).pool| == |quota|
      && Run(s, more).requests.Keys == s.requests.Keys
  {
    var s := Run(Initial(quota), actions);
    InitialConserved(quota);
    RunDisciplined(Initial(quota), actions);
    RunKeepsN(Initial(quota), actions);
    more := AllCanFinish(s);
    RunDisciplined(s, more);
    RunKeepsN(s, more);
    FinishedPoolIsFull(Run(s, more));
  }
}
