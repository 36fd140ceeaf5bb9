/** The per-address rate limiter. Clock readings are explicit: a request reads the clock to test its visitor's
    age and again to stamp the visitor; a sweep reads it once per visitor. */
module RateLimiter {
  import opened Wrappers

  const MINUTE: nat := 60_000_000_000

  datatype Event =
    | Request(ip: string, check: int, stamp: int)
    | Sweep(readings: map<string, int>, end: int)

  datatype Visitor = Visitor(count: nat, lastSeen: int)

  // ----- the reference: sessions in the trace of requests -----

  /** When `ip` was last stamped. */
  function LastSeen(trace: seq<Event>, ip: string): Option<int> {
    if trace == [] then None
    else
      var last := trace[|trace| - 1];
      if last.Request? && last.ip == ip then Some(last.stamp) else LastSeen(trace[..|trace| - 1], ip)
  }

  /** A request of `ip` read at `check` after `trace` continues a session: the gap is at most one minute. */
  predicate Continues(trace: seq<Event>, ip: string, check: int) {
    LastSeen(trace, ip).Some? && check - LastSeen(trace, ip).value <= MINUTE
  }

  /** The position of the last request of `ip` in its session, rejected requests included; 0 if there is none. */
  function Position(trace: seq<Event>, ip: string): nat {
    if trace == [] then 0
    else
      var before, last := trace[..|trace| - 1], trace[|trace| - 1];
      if !(last.Request? && last.ip == ip) then Position(before, ip)
      else if Continues(before, ip, last.check) then Position(before, ip) + 1
      else 1
  }

  /** The last request of `ip` is one of the first `rate` of its session; the very first always passes. */
  predicate Admitted(rate: int, trace: seq<Event>, ip: string) {
    Position(trace, ip) == 1 || Position(trace, ip) <= rate
  }

  // ----- time -----

  function End(e: Event): int {
    match e
    case Request(_, _, stamp) => stamp
    case Sweep(_, end) => end
  }

  /** Every reading of `e` lies between `start` and the end of `e`. */
  ghost predicate ReadsFrom(e: Event, start: int) {
    match e
    case Request(_, check, stamp) => start <= check <= stamp
    case Sweep(readings, end) => start <= end && forall ip | ip in readings :: start <= readings[ip] <= end
  }

  /** `e` may follow `trace`: the clock does not go backwards. */
  ghost predicate Follows(trace: seq<Event>, e: Event) {
    if trace == [] then exists start :: ReadsFrom(e, start) else ReadsFrom(e, End(trace[|trace| - 1]))
  }

  ghost predicate InOrder(trace: seq<Event>) {
    trace == [] || (InOrder(trace[..|trace| - 1]) && Follows(trace[..|trace| - 1], trace[|trace| - 1]))
  }

  lemma {:induction false} LastSeenIsPast(trace: seq<Event>, ip: string)
    requires InOrder(trace) && LastSeen(trace, ip).Some?
    ensures LastSeen(trace, ip).value <= End(trace[|trace| - 1])
  {
    var before, last := trace[..|trace| - 1], trace[|trace| - 1];
    if !(last.Request? && last.ip == ip) {
      LastSeenIsPast(before, ip);
    }
  }

  lemma {:induction false} PositionIsPositive(trace: seq<Event>, ip: string)
    requires LastSeen(trace, ip).Some?
    ensures Position(trace, ip) > 0
  {
    var before, last := trace[..|trace| - 1], trace[|trace| - 1];
    if !(last.Request? && last.ip == ip) {
      PositionIsPositive(before, ip);
    }
  }

  // ----- the limiter -----

  /** A visitor records the last request of its address; an absent one has none within a minute of the last reading. */
  ghost predicate Remembers(visitors: map<string, Visitor>, trace: seq<Event>, ip: string) {
    if ip in visitors then
      LastSeen(trace, ip) == Some(visitors[ip].lastSeen) && visitors[ip].count == Position(trace, ip)
    else
      trace != [] ==> !Continues(trace, ip, End(trace[|trace| - 1]))
  }

  lemma RequestIsRemembered(visitors: map<string, Visitor>, trace: seq<Event>, e: Event, other: string)
    requires e.Request? && InOrder(trace) && Follows(trace, e)
    requires Remembers(visitors, trace, e.ip) && Remembers(visitors, trace, other)
    ensures var count := if e.ip in visitors && e.check - visitors[e.ip].lastSeen <= MINUTE
                         then visitors[e.ip].count + 1 else 1;
      && Position(trace + [e], e.ip) == count
      && (e.ip in visitors ==> visitors[e.ip].count > 0)
      && Remembers(visitors[e.ip := Visitor(count, e.stamp)], trace + [e], other)
  {
    assert (trace + [e])[..|trace|] == trace;
    if e.ip in visitors {
      PositionIsPositive(trace, e.ip);
    }
    if other != e.ip {
      assert LastSeen(trace + [e], other) == LastSeen(trace, other);
    }
  }

  /** `visitors` without those of `seen` that were idle for more than a minute when looked at. */
  function Awake(visitors: map<string, Visitor>, readings: map<string, int>, seen: set<string>): map<string, Visitor>
    requires visitors.Keys <= readings.Keys
  {
    map ip | ip in visitors && (ip in seen ==> readings[ip] - visitors[ip].lastSeen <= MINUTE) :: visitors[ip]
  }

  lemma SweepIsRemembered(visitors: map<string, Visitor>, readings: map<string, int>, end: int, trace: seq<Event>, ip: string)
    requires InOrder(trace) && Follows(trace, Sweep(readings, end)) && visitors.Keys <= readings.Keys
    requires Remembers(visitors, trace, ip)
    ensures Remembers(Awake(visitors, readings, visitors.Keys), trace + [Sweep(readings, end)], ip)
  {
    var e := Sweep(readings, end);
    assert (trace + [e])[..|trace|] == trace;
    assert LastSeen(trace + [e], ip) == LastSeen(trace, ip);
  }

  class Limiter {
    var visitors: map<string, Visitor>
    const rate: int
    ghost var trace: seq<Event>

    ghost predicate Valid()
      reads this
    {
      InOrder(trace) && forall ip :: Remembers(visitors, trace, ip)
    }

    constructor (rate: int)
      ensures Valid() && trace == [] && this.rate == rate
    {
      this.rate := rate;
      visitors, trace := map[], [];
    }

    /** Answers exactly by the request's position in its session; what sweeps removed makes no difference. */
    method Allow(ip: string, check: int, stamp: int) returns (allowed: bool)
      requires Valid() && Follows(trace, Request(ip, check, stamp))
      modifies this
      ensures Valid() && trace == old(trace) + [Request(ip, check, stamp)]
      ensures allowed == Admitted(rate, trace, ip)
    {
      ghost var before, e := visitors, Request(ip, check, stamp);
      if ip !in visitors || check - visitors[ip].lastSeen > MINUTE {
        visitors := visitors[ip := Visitor(1, stamp)];
        allowed := true;
      } else {
        var count := visitors[ip].count + 1;
        visitors := visitors[ip := Visitor(count, stamp)];
        allowed := count <= rate;
      }
      forall other ensures Remembers(visitors, trace + [e], other) {
        assert Remembers(before, trace, other) && Remembers(before, trace, ip);
        RequestIsRemembered(before, trace, e, other);
      }
      assert Remembers(before, trace, ip);
      RequestIsRemembered(before, trace, e, ip);
      assert (trace + [e])[..|trace|] == trace;
      trace := trace + [e];
    }

    /** Forgets every visitor found to be idle for more than a minute, in any order. */
    method SweepIdle(readings: map<string, int>, end: int)
      requires Valid() && visitors.Keys <= readings.Keys && Follows(trace, Sweep(readings, end))
      modifies this
      ensures Valid() && trace == old(trace) + [Sweep(readings, end)]
      ensures visitors == Awake(old(visitors), readings, old(visitors).Keys)
      ensures forall ip :: ip in visitors <==>
                             ip in old(visitors) && readings[ip] - old(visitors)[ip].lastSeen <= 60_000_000_000
      ensures forall ip | ip in visitors :: visitors[ip] == old(visitors)[ip]
    {
      ghost var before, e := visitors, Sweep(readings, end);
      var todo := visitors.Keys;
      while todo != {}
        invariant todo <= before.Keys && trace == old(trace)
        invariant visitors == Awake(before, readings, before.Keys - todo)
        decreases todo
      {
        var ip :| ip in todo;
        if readings[ip] - visitors[ip].lastSeen > MINUTE {
          visitors := visitors - {ip};
        }
        todo := todo - {ip};
      }
      forall ip ensures Remembers(visitors, trace + [e], ip) {
        assert Remembers(before, trace, ip);
        SweepIsRemembered(before, readings, end, trace, ip);
      }
      assert (trace + [e])[..|trace|] == trace;
      trace := trace + [e];
    }
  }

  // ----- what is admitted -----

  /** How many requests of `ip` stamped within `[lo, hi]` were admitted. */
  ghost function AdmittedWithin(rate: int, trace: seq<Event>, ip: string, lo: int, hi: int): nat {
    if trace == [] then 0
    else
      var last := trace[|trace| - 1];
      AdmittedWithin(rate, trace[..|trace| - 1], ip, lo, hi)
      + if last.Request? && last.ip == ip && lo <= last.stamp <= hi && Admitted(rate, trace, ip) then 1 else 0
  }

  /** What has been admitted in the window, by where the last request of `ip` lies relative to it. */
  ghost predicate WithinBound(rate: int, trace: seq<Event>, ip: string, lo: int, hi: int) {
    var admitted := AdmittedWithin(rate, trace, ip, lo, hi);
    match LastSeen(trace, ip)
    case None => admitted == 0
    case Some(t) =>
      if t < lo then admitted == 0
      else admitted <= rate && (t <= hi ==> admitted <= Position(trace, ip))
  }

  lemma {:induction false} WindowInvariant(rate: int, trace: seq<Event>, ip: string, lo: int, hi: int)
    requires rate >= 1 && InOrder(trace) && hi - lo <= MINUTE
    ensures WithinBound(rate, trace, ip, lo, hi)
  {
    if trace != [] {
      var before, last := trace[..|trace| - 1], trace[|trace| - 1];
      WindowInvariant(rate, before, ip, lo, hi);
      if LastSeen(before, ip).Some? {
        LastSeenIsPast(before, ip);
      }
    }
  }

  /** Any closed window of one minute admits at most `rate` requests of one address, in every trace whose clock
      does not go backwards. */
  lemma WindowIsBounded(rate: int, trace: seq<Event>, ip: string, lo: int, hi: int)
    requires rate >= 1 && InOrder(trace) && hi - lo <= MINUTE
    ensures AdmittedWithin(rate, trace, ip, lo, hi) <= rate
  {
    WindowInvariant(rate, trace, ip, lo, hi);
  }

  /** `trace` without its sweeps. */
  function Requests(trace: seq<Event>): seq<Event> {
    if trace == [] then []
    else
      var last := trace[|trace| - 1];
      Requests(trace[..|trace| - 1]) + if last.Request? then [last] else []
  }

  /** Sweeps never change an answer: sessions and positions are those of the requests alone. */
  lemma {:induction false} SweepsAreInvisible(trace: seq<Event>, ip: string)
    ensures LastSeen(Requests(trace), ip) == LastSeen(trace, ip)
    ensures Position(Requests(trace), ip) == Position(trace, ip)
  {
    if trace != [] {
      var before, last := trace[..|trace| - 1], trace[|trace| - 1];
      SweepsAreInvisible(before, ip);
      if last.Request? {
        assert Requests(trace) == Requests(before) + [last];
        assert Requests(trace)[..|Requests(trace)| - 1] == Requests(before);
      } else {
        assert Requests(trace) == Requests(before);
      }
    }
  }

  /** `n` requests of `ip` at the same instant. */
  function Burst(ip: string, t: int, n: nat): seq<Event> {
    seq(n, i => Request(ip, t, t))
  }

  /** The bound is met: of a burst, exactly the first `rate` requests are admitted. */
  lemma {:induction false} BurstIsCut(rate: int, ip: string, t: int, n: nat)
    requires rate >= 1
    ensures InOrder(Burst(ip, t, n)) && Position(Burst(ip, t, n), ip) == n
    ensures LastSeen(Burst(ip, t, n), ip) == if n == 0 then None else Some(t)
    ensures AdmittedWithin(rate, Burst(ip, t, n), ip, t, t) == if n <= rate then n else rate
  {
    if n > 0 {
      BurstIsCut(rate, ip, t, n - 1);
      assert Burst(ip, t, n)[..n - 1] == Burst(ip, t, n - 1);
      assert ReadsFrom(Request(ip, t, t), t);
    }
  }

  // ----- sessions, request by request -----

  predicate IsOf(e: Event, ip: string) {
    e.Request? && e.ip == ip
  }

  lemma {:induction false} SeenAt(trace: seq<Event>, ip: string, i: nat)
    requires i < |trace| && IsOf(trace[i], ip) && forall j :: i < j < |trace| ==> !IsOf(trace[j], ip)
    ensures LastSeen(trace, ip) == Some(trace[i].stamp) && Position(trace, ip) == Position(trace[..i + 1], ip)
  {
    var last := |trace| - 1;
    if i < last {
      assert !IsOf(trace[last], ip);
      SeenAt(trace[..last], ip, i);
      assert trace[..last][..i + 1] == trace[..i + 1];
    } else {
      assert trace[..i + 1] == trace;
    }
  }

  lemma {:induction false} NeverSeen(trace: seq<Event>, ip: string)
    requires forall j :: 0 <= j < |trace| ==> !IsOf(trace[j], ip)
    ensures LastSeen(trace, ip) == None && Position(trace, ip) == 0
  {
    if |trace| > 0 {
      assert !IsOf(trace[|trace| - 1], ip);
      NeverSeen(trace[..|trace| - 1], ip);
    }
  }

  lemma {:induction false} SeenOrNot(trace: seq<Event>, ip: string)
    ensures LastSeen(trace, ip).Some? ==>
              exists j :: 0 <= j < |trace| && IsOf(trace[j], ip) && trace[j].stamp == LastSeen(trace, ip).value
  {
    if |trace| > 0 {
      var last := |trace| - 1;
      if IsOf(trace[last], ip) {
        assert trace[last].stamp == LastSeen(trace, ip).value;
      } else {
        SeenOrNot(trace[..last], ip);
      }
    }
  }

  /** A request with none of its address in the minute before it begins a session, and passes. */
  lemma {:induction false} PauseBeginsAnew(rate: int, trace: seq<Event>, ip: string, check: int, stamp: int)
    requires forall j :: 0 <= j < |trace| && IsOf(trace[j], ip) ==> check - trace[j].stamp > 60_000_000_000
    ensures var now := trace + [Request(ip, check, stamp)]; Position(now, ip) == 1 && Admitted(rate, now, ip)
  {
    var now := trace + [Request(ip, check, stamp)];
    assert now[..|now| - 1] == trace;
    SeenOrNot(trace, ip);
  }

  /** `at` are the places of the requests of `ip` from the first of them to the end of the trace, in order. */
  ghost predicate PlacesOf(trace: seq<Event>, ip: string, at: seq<nat>) {
    && |at| > 0 && (forall i, j :: 0 <= i < j < |at| ==> at[i] < at[j])
    && (forall i :: 0 <= i < |at| ==> at[i] < |trace| && IsOf(trace[at[i]], ip))
    && (forall j :: at[0] <= j < |trace| && IsOf(trace[j], ip) ==> j in at)
  }

  /** None came within the minute before the first of them, and each within a minute of the one before. */
  ghost predicate OneSession(trace: seq<Event>, ip: string, at: seq<nat>)
    requires PlacesOf(trace, ip, at)
  {
    && (forall j :: 0 <= j < at[0] && IsOf(trace[j], ip) ==> trace[at[0]].check - trace[j].stamp > 60_000_000_000)
    && (forall i :: 0 < i < |at| ==> trace[at[i]].check - trace[at[i - 1]].stamp <= 60_000_000_000)
  }

  lemma LastPlace(trace: seq<Event>, ip: string, at: seq<nat>)
    requires PlacesOf(trace, ip, at)
    ensures forall j :: at[|at| - 1] < j < |trace| ==> !IsOf(trace[j], ip)
  {
    assert at[0] <= at[|at| - 1];
  }

  lemma PlacesBefore(trace: seq<Event>, ip: string, at: seq<nat>)
    requires PlacesOf(trace, ip, at) && |at| > 1
    ensures PlacesOf(trace[..at[|at| - 1]], ip, at[..|at| - 1])
  {
    var k := |at| - 1;
    var before, init := trace[..at[k]], at[..k];
    forall j | at[0] <= j < |before| && IsOf(before[j], ip) ensures j in init {
      assert j in at;
      var i :| 0 <= i < |at| && at[i] == j;
      assert init[i] == j;
    }
  }

  lemma SessionBefore(trace: seq<Event>, ip: string, at: seq<nat>)
    requires PlacesOf(trace, ip, at) && OneSession(trace, ip, at) && |at| > 1
    ensures PlacesOf(trace[..at[|at| - 1]], ip, at[..|at| - 1])
    ensures OneSession(trace[..at[|at| - 1]], ip, at[..|at| - 1])
  {
    PlacesBefore(trace, ip, at);
  }

  /** A request within a minute of the last one of its address is the next of its session. */
  lemma NextPosition(trace: seq<Event>, ip: string, e: Event, i: nat)
    requires i < |trace| && IsOf(trace[i], ip) && forall j :: i < j < |trace| ==> !IsOf(trace[j], ip)
    requires IsOf(e, ip) && e.check - trace[i].stamp <= 60_000_000_000
    ensures Position(trace + [e], ip) == Position(trace, ip) + 1
  {
    SeenAt(trace, ip, i);
    assert (trace + [e])[..|trace|] == trace;
  }

  lemma UpToLast(trace: seq<Event>, ip: string, at: seq<nat>)
    requires PlacesOf(trace, ip, at)
    ensures var last := at[|at| - 1];
            IsOf(trace[last], ip) && Position(trace, ip) == Position(trace[..last] + [trace[last]], ip)
  {
    var last := at[|at| - 1];
    LastPlace(trace, ip, at);
    SeenAt(trace, ip, last);
    assert trace[..last + 1] == trace[..last] + [trace[last]];
  }

  lemma {:induction false} SessionPosition(trace: seq<Event>, ip: string, at: seq<nat>)
    requires PlacesOf(trace, ip, at) && OneSession(trace, ip, at)
    ensures Position(trace, ip) == |at|
  {
    var k := |at| - 1;
    var e, before := trace[at[k]], trace[..at[k]];
    UpToLast(trace, ip, at);
    if k == 0 {
      PauseBeginsAnew(0, before, ip, e.check, e.stamp);
    } else {
      SessionBefore(trace, ip, at);
      LastPlace(before, ip, at[..k]);
      NextPosition(before, ip, e, at[k - 1]);
      SessionPosition(before, ip, at[..k]);
    }
  }

  /** Of the requests of a session exactly the first `rate` pass, the very first in any case; rejected ones count. */
  lemma SessionIsCounted(rate: int, trace: seq<Event>, ip: string, at: seq<nat>)
    requires PlacesOf(trace, ip, at) && OneSession(trace, ip, at)
    ensures Admitted(rate, trace, ip) <==> |at| <= rate || |at| == 1
  {
    SessionPosition(trace, ip, at);
  }
}
