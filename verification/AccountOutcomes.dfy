/**
 How the requests of the account pool end: completed exactly when answered, failed for a reason, and
 never for want of an account that could be had.  And the channel hands accounts out in the order in
 which they came back.
 */
module AccountOutcomes {
  import opened AccountPool
  import opened AccountProgress
  import opened Wrappers

  // ----- the steps of one attempt -----

  /** A probe decides by what it met: an error and an exhausted account go back, a fresh fetch overrides the flag. */
  lemma ProbeDecides(s: State, r: nat, probe: Probe)
    requires Conserved(s) && r in s.requests && s.requests[r].phase.Probing?
    ensures var q, s' := s.requests[r], Step(s, Action(r, Probed(probe)));
            var acct := q.phase.acct;
            && acct < s.n == |s.quota| == |s'.quota|
            && s'.quota == s.quota[acct := if probe.Fetched? then probe.hasQuota else s.quota[acct]]
            && s'.requests[r].phase == if match probe
                                          case ProbeError => false
                                          case Cached => s.quota[acct]
                                          case Fetched(hasQuota) => hasQuota
                                       then Sending(acct) else PuttingBack(acct, q.phase.tried, q.phase.receives)
  {
    assert Holds(s, r, s.requests[r].phase.acct);
  }

  /** An acquire goes on with the front account of the channel until it has received 2n or tried n of them; one tried
      before goes straight back. */
  lemma AcquireTakesFront(s: State, r: nat)
    requires Conserved(s) && |s.pool| > 0 && r in s.requests && s.requests[r].phase.Acquiring?
    ensures var Acquiring(tried, receives) := s.requests[r].phase;
            var s', front := Step(s, Action(r, Proceed)), s.pool[0];
            && r in s'.requests
            && if receives < 2 * s.n && |tried| < s.n then
                 && s'.pool == s.pool[1..]
                 && s'.requests[r].phase == if front in tried then PuttingBack(front, tried, receives)
                                            else Probing(front, tried + {front}, receives)
               else s'.pool == s.pool && s'.requests[r].phase == Failed
  {
  }

  /** And it goes back behind the others, with one receive more. */
  lemma RejectedGoesBack(s: State, r: nat)
    requires Conserved(s) && r in s.requests && s.requests[r].phase.PuttingBack?
    ensures var PuttingBack(acct, tried, receives) := s.requests[r].phase;
            var s' := Step(s, Action(r, Proceed));
            && r in s'.requests && s'.pool == s.pool + [acct] && s'.requests[r].phase == Acquiring(tried, receives + 1)
  {
    assert Holds(s, r, s.requests[r].phase.acct);
    RoomForRelease(s, r, s.requests[r].phase.acct);
  }

  /** After 477 the account goes to the back of the channel, marked, and there is another attempt while any is left. */
  lemma ExhaustedTriesAgain(s: State, r: nat)
    requires AllDisciplined(s) && r in s.requests && s.requests[r].phase.Sending?
    ensures var q, acct := s.requests[r], s.requests[r].phase.acct;
            var s' := Step(Step(s, Action(r, Replied(QuotaExhausted))), Action(r, Proceed));
            && acct < |s.quota| && s'.pool == s.pool + [acct] && s'.quota == s.quota[acct := false] && s'.n == s.n
            && r in s'.requests && s'.requests[r].phase == NextAttempt && s'.requests[r].attempts == q.attempts + 1
  {
    assert Holds(s, r, s.requests[r].phase.acct);
    RoomForRelease(s, r, s.requests[r].phase.acct);
  }

  /** Between attempts the next one starts while fewer than min(n, 3) were made. */
  lemma NextAttemptStarts(s: State, r: nat)
    requires r in s.requests && s.requests[r].phase.NextAttempt?
    ensures var s' := Step(s, Action(r, Proceed));
            && r in s'.requests && s'.pool == s.pool
            && (s'.requests[r].phase == Acquiring({}, 0) <==> s.requests[r].attempts < s.n && s.requests[r].attempts < 3)
  {
  }

  /** After any other answer the request completes, with its account at the back of the channel, as it was. */
  lemma AnsweredCompletes(s: State, r: nat)
    requires AllDisciplined(s) && r in s.requests && s.requests[r].phase.Sending?
    ensures var s' := Step(Step(s, Action(r, Replied(Answered))), Action(r, Proceed));
            && r in s'.requests && s'.requests[r].phase == Completed
            && s'.pool == s.pool + [s.requests[r].phase.acct] && s'.quota == s.quota
  {
    assert Holds(s, r, s.requests[r].phase.acct);
    RoomForRelease(s, r, s.requests[r].phase.acct);
  }

  // ----- completed exactly when answered -----

  /** The request is sending, and this step is its answer. */
  predicate AnsweredBy(s: State, r: nat, a: Action) {
    r in s.requests && s.requests[r].phase.Sending? && a == Action(r, Replied(Answered))
  }

  /** At some step of the run the request was answered. */
  predicate AnsweredIn(s: State, r: nat, actions: seq<Action>)
    decreases |actions|
  {
    |actions| > 0 && (AnsweredBy(s, r, actions[0]) || AnsweredIn(Step(s, actions[0]), r, actions[1..]))
  }

  predicate Served(s: State, r: nat) {
    r in s.requests && (s.requests[r].phase.Holding? || s.requests[r].phase.Completed?)
  }

  lemma SenderServed(s: State, r: nat, c: Choice)
    requires AllDisciplined(s) && r in s.requests && s.requests[r].phase.Sending?
    ensures Served(Step(s, Action(r, c)), r) <==> c == Replied(Answered)
  {
    assert Holds(s, r, s.requests[r].phase.acct);
  }

  lemma OthersServed(s: State, r: nat, c: Choice)
    requires r in s.requests ==> !s.requests[r].phase.Sending?
    ensures Served(Step(s, Action(r, c)), r) <==> Served(s, r)
  {
  }

  lemma ServedByAnswer(s: State, r: nat, a: Action)
    requires AllDisciplined(s)
    ensures Served(Step(s, a), r) <==> Served(s, r) || AnsweredBy(s, r, a)
  {
    if r == a.request {
      if r in s.requests && s.requests[r].phase.Sending? {
        SenderServed(s, r, a.choice);
      } else {
        OthersServed(s, r, a.choice);
      }
    } else if r in s.requests {
      OthersUntouched(s, a, r);
    }
  }

  lemma {:induction false} RunServes(s: State, r: nat, actions: seq<Action>)
    requires AllDisciplined(s)
    ensures Served(Run(s, actions), r) <==> Served(s, r) || AnsweredIn(s, r, actions)
    decreases |actions|
  {
    if |actions| > 0 {
      ServedByAnswer(s, r, actions[0]);
      StepDisciplined(s, actions[0]);
      RunServes(Step(s, actions[0]), r, actions[1..]);
    }
  }

  /** After any schedule, a request has its response or has completed if and only if it was answered on the way. */
  lemma ServedExactlyWhenAnswered(quota: seq<bool>, actions: seq<Action>, r: nat)
    ensures Served(Run(Initial(quota), actions), r) <==> AnsweredIn(Initial(quota), r, actions)
  {
    InitialConserved(quota);
    RunServes(Initial(quota), r, actions);
  }

  // ----- failed for a reason -----

  /** Nothing goes wrong for the request but 477: no cancellation, no time-out, no transport error, and every check is
      a fetch that finds quota. */
  predicate Favours(r: nat, a: Action) {
    a.request == r ==>
      match a.choice
      case Cancel => false
      case TimeOut => false
      case Probed(probe) => probe == Fetched(true)
      case Replied(reply) => reply != TransportError
      case _ => true
  }

  ghost predicate Favoured(r: nat, actions: seq<Action>) {
    forall i :: 0 <= i < |actions| ==> Favours(r, actions[i])
  }

  /** What such a request keeps: it has sent once in every attempt, and fails only after the last. */
  ghost predicate OnCourse(s: State, r: nat) {
    r in s.requests ==>
      var q := s.requests[r];
      && !q.phase.PuttingBack? && !q.phase.GivingUp?
      && (q.phase.Acquiring? ==> q.phase.receives == |q.phase.tried| == 0)
      && (q.phase.Probing? ==> q.phase.receives == 0)
      && (!Finished(q) ==> q.sends == q.attempts + (if SentInAttempt(q.phase) then 1 else 0))
      && (q.phase.Failed? ==> q.sends == q.attempts == MaxRetries(s.n))
  }

  lemma LoopOnCourse(s: State, r: nat, a: Action)
    requires AllDisciplined(s) && OnCourse(s, r) && Favours(r, a) && a.request == r
    requires r in s.requests ==> s.requests[r].phase.Lease() == None
    ensures OnCourse(Step(s, a), r)
  {
  }

  lemma HolderOnCourse(s: State, r: nat, a: Action)
    requires AllDisciplined(s) && OnCourse(s, r) && Favours(r, a) && a.request == r
    requires r in s.requests && s.requests[r].phase.Lease().Some?
    ensures OnCourse(Step(s, a), r)
  {
    assert Holds(s, r, s.requests[r].phase.acct);
  }

  lemma StepOnCourse(s: State, r: nat, a: Action)
    requires AllDisciplined(s) && OnCourse(s, r) && Favours(r, a)
    ensures OnCourse(Step(s, a), r)
  {
    if r != a.request {
      if r in s.requests {
        OthersUntouched(s, a, r);
      }
    } else if r in s.requests && s.requests[r].phase.Lease().Some? {
      HolderOnCourse(s, r, a);
    } else {
      LoopOnCourse(s, r, a);
    }
  }

  lemma {:induction false} RunOnCourse(s: State, r: nat, actions: seq<Action>)
    requires AllDisciplined(s) && OnCourse(s, r) && Favoured(r, actions)
    ensures OnCourse(Run(s, actions), r)
    decreases |actions|
  {
    if |actions| > 0 {
      assert Favours(r, actions[0]);
      StepOnCourse(s, r, actions[0]);
      StepDisciplined(s, actions[0]);
      RunOnCourse(Step(s, actions[0]), r, actions[1..]);
    }
  }

  /** Whatever other requests do, one for which nothing goes wrong but 477 fails only after sending min(n, 3) times. */
  lemma FailsOnlyAfterAllRetries(quota: seq<bool>, actions: seq<Action>, r: nat)
    requires Favoured(r, actions)
    requires var s := Run(Initial(quota), actions); r in s.requests && s.requests[r].phase.Failed?
    ensures Run(Initial(quota), actions).requests[r].sends == MaxRetries(|quota|)
  {
    InitialConserved(quota);
    RunOnCourse(Initial(quota), r, actions);
    RunKeepsN(Initial(quota), actions);
  }

  // ----- every request can still succeed -----

  ghost predicate OthersFinished(s: State, r: nat) {
    forall r' :: r' in s.requests && r' != r ==> Finished(s.requests[r'])
  }

  /** While a request between attempts waits, some other unfinished request can step forward. */
  lemma OtherMoves(s: State, r: nat) returns (a: Action)
    requires AllDisciplined(s) && r in s.requests && s.requests[r].phase.NextAttempt? && !OthersFinished(s, r)
    ensures Forward(a.choice) && Step(s, a) != s && a.request != r
    ensures var s' := Step(s, a);
            && AllDisciplined(s') && s'.n == s.n && r in s'.requests && s'.requests[r] == s.requests[r]
            && 0 <= Total(s', s'.requests.Keys) < Total(s, s.requests.Keys)
  {
    var other :| other in s.requests && other != r && !Finished(s.requests[other]);
    a := NoDeadlock(s, other);
    ForwardStep(s, a);
    StepDisciplined(s, a);
    OthersUntouched(s, a, r);
    TotalIsNat(Step(s, a), Step(s, a).requests.Keys);
  }

  /** The other requests can be brought to their end while one waits between attempts. */
  lemma {:induction false} OthersCanFinish(s: State, r: nat) returns (actions: seq<Action>)
    requires AllDisciplined(s) && r in s.requests && s.requests[r].phase.NextAttempt?
    ensures AllForward(actions) && AllDisciplined(Run(s, actions)) && OthersFinished(Run(s, actions), r)
    ensures var s' := Run(s, actions); s'.n == s.n && r in s'.requests && s'.requests[r] == s.requests[r]
    decreases Total(s, s.requests.Keys)
  {
    if OthersFinished(s, r) {
      actions := [];
      RunNone(s, actions);
    } else {
      var a := OtherMoves(s, r);
      var rest := OthersCanFinish(Step(s, a), r);
      actions := [a] + rest;
      RunOne(s, a, rest);
    }
  }

  lemma AllAccountsAreBack(s: State, r: nat)
    requires Conserved(s) && OthersFinished(s, r) && r in s.requests && s.requests[r].phase.NextAttempt?
    ensures |s.pool| == s.n
  {
    LeasesAddUp(s);
    assert Holders(s) == {};
  }

  lemma {:induction false} RunTogether(s: State, first: seq<Action>, second: seq<Action>)
    ensures Run(s, first + second) == Run(Run(s, first), second)
    decreases |first|
  {
    if |first| > 0 {
      assert (first + second)[1..] == first[1..] + second;
      RunTogether(Step(s, first[0]), first[1..], second);
    } else {
      assert first + second == second;
    }
  }

  lemma AcquiresFront(s: State, r: nat)
    requires AllDisciplined(s) && |s.pool| > 0 && r in s.requests && s.requests[r].phase.NextAttempt?
    requires s.requests[r].attempts < MaxRetries(s.n)
    ensures var s' := Step(Step(s, Action(r, Proceed)), Action(r, Proceed));
            r in s'.requests && s'.requests[r].phase == Probing(s.pool[0], {s.pool[0]}, 0) && AllDisciplined(s')
  {
    StepDisciplined(s, Action(r, Proceed));
    StepDisciplined(Step(s, Action(r, Proceed)), Action(r, Proceed));
  }

  lemma FetchAndAnswer(s: State, r: nat)
    requires AllDisciplined(s) && r in s.requests && s.requests[r].phase.Probing?
    ensures var s' := Step(Step(Step(s, Action(r, Probed(Fetched(true)))), Action(r, Replied(Answered))), Action(r, Proceed));
            r in s'.requests && s'.requests[r].phase == Completed
  {
    ProbeDecides(s, r, Fetched(true));
    StepDisciplined(s, Action(r, Probed(Fetched(true))));
    AnsweredCompletes(Step(s, Action(r, Probed(Fetched(true)))), r);
  }

  /** One attempt that goes well: the front account, a fetch that finds quota, an answer, and the account goes back. */
  lemma Attempt(s: State, r: nat) returns (actions: seq<Action>)
    requires AllDisciplined(s) && |s.pool| > 0 && r in s.requests && s.requests[r].phase.NextAttempt?
    requires s.requests[r].attempts < MaxRetries(s.n)
    ensures AllForward(actions) && var s' := Run(s, actions); r in s'.requests && s'.requests[r].phase == Completed
  {
    var on, fetched, answered := Action(r, Proceed), Action(r, Probed(Fetched(true))), Action(r, Replied(Answered));
    AcquiresFront(s, r);
    var probing := Step(Step(s, on), on);
    FetchAndAnswer(probing, r);
    actions := [];
    var last := Step(Step(probing, fetched), answered);
    RunNone(Step(last, on), actions);
    RunOne(last, on, actions);
    actions := [on] + actions;
    RunOne(Step(probing, fetched), answered, actions);
    actions := [answered] + actions;
    RunOne(probing, fetched, actions);
    actions := [fetched] + actions;
    RunOne(Step(s, on), on, actions);
    actions := [on] + actions;
    RunOne(s, on, actions);
    actions := [on] + actions;
  }

  /** From every state a run can reach, a request with an attempt left can still be answered and complete: the others
      run to their end first, without cancellations or time-outs. */
  lemma EveryRequestCanSucceed(quota: seq<bool>, actions: seq<Action>, r: nat) returns (more: seq<Action>)
    requires var s := Run(Initial(quota), actions);
             r in s.requests && s.requests[r].phase.NextAttempt? && s.requests[r].attempts < MaxRetries(|quota|)
    ensures AllForward(more)
    ensures var s := Run(Initial(quota), actions + more); r in s.requests && s.requests[r].phase.Completed?
  {
    var s := Run(Initial(quota), actions);
    InitialConserved(quota);
    RunDisciplined(Initial(quota), actions);
    RunKeepsN(Initial(quota), actions);
    var others := OthersCanFinish(s, r);
    var s' := Run(s, others);
    AllAccountsAreBack(s', r);
    var attempt := Attempt(s', r);
    RunTogether(s, others, attempt);
    more := others + attempt;
    RunTogether(Initial(quota), actions, more);
  }

  // ----- first in, first out -----

  function LeaseOf(s: State, r: nat): Option<nat> {
    if r in s.requests then s.requests[r].phase.Lease() else None
  }

  /** The accounts leased in a run, in order. */
  function LeasedIn(s: State, actions: seq<Action>): seq<nat>
    decreases |actions|
  {
    if |actions| == 0 then []
    else
      var r, s' := actions[0].request, Step(s, actions[0]);
      var later := LeasedIn(s', actions[1..]);
      if LeaseOf(s, r) == None && LeaseOf(s', r).Some? then [LeaseOf(s', r).value] + later else later
  }

  /** The accounts whose lease ends in a run, in order. */
  function GivenBackIn(s: State, actions: seq<Action>): seq<nat>
    decreases |actions|
  {
    if |actions| == 0 then []
    else
      var r, s' := actions[0].request, Step(s, actions[0]);
      var later := GivenBackIn(s', actions[1..]);
      if LeaseOf(s, r).Some? && LeaseOf(s', r) == None then [LeaseOf(s, r).value] + later else later
  }

  /** One step moves at most one account: the front one of the channel into a lease, or a leased one to the back. */
  lemma StepMoves(s: State, a: Action)
    requires Conserved(s)
    ensures var r, s' := a.request, Step(s, a);
            if LeaseOf(s, r) == None && LeaseOf(s', r).Some? then s.pool == [LeaseOf(s', r).value] + s'.pool
            else if LeaseOf(s, r).Some? && LeaseOf(s', r) == None then s'.pool == s.pool + [LeaseOf(s, r).value]
            else s'.pool == s.pool && LeaseOf(s', r) == LeaseOf(s, r)
  {
    if LeaseOf(s, a.request).Some? {
      var acct := LeaseOf(s, a.request).value;
      assert Holds(s, a.request, acct);
      RoomForRelease(s, a.request, acct);
    }
  }

  /** A front account leased, or an account given back, keeps the balance. */
  lemma StillBalanced(pool: seq<nat>, pool': seq<nat>, back: seq<nat>, out: seq<nat>, last: seq<nat>, a: nat)
    requires pool' + back == out + last
    ensures pool == [a] + pool' ==> pool + back == ([a] + out) + last
    ensures pool' == pool + [a] ==> pool + ([a] + back) == out + last
  {
    assert ([a] + pool') + back == [a] + (pool' + back);
    assert ([a] + out) + last == [a] + (out + last);
    assert pool + ([a] + back) == (pool + [a]) + back;
  }

  /** The channel is a queue: what it held and what came back, in order, is what was leased, in order, and what it
      holds in the end. */
  lemma {:induction false} FirstInFirstOut(s: State, actions: seq<Action>)
    requires Conserved(s)
    ensures s.pool + GivenBackIn(s, actions) == LeasedIn(s, actions) + Run(s, actions).pool
    decreases |actions|
  {
    if |actions| > 0 {
      var r, s' := actions[0].request, Step(s, actions[0]);
      StepMoves(s, actions[0]);
      StepConserves(s, actions[0]);
      FirstInFirstOut(s', actions[1..]);
      var back, out, last := GivenBackIn(s', actions[1..]), LeasedIn(s', actions[1..]), Run(s', actions[1..]).pool;
      var acct := if LeaseOf(s, r).Some? then LeaseOf(s, r).value else if LeaseOf(s', r).Some? then LeaseOf(s', r).value else 0;
      StillBalanced(s.pool, s'.pool, back, out, last, acct);
    }
  }
}
