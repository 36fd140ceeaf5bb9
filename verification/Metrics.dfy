/** Request statistics: counters, a bounded history filled in batches, and the requests of the last minute.
    Clock readings are explicit and never go backwards. */
module Metrics {
  import opened Wrappers

  const HISTORY_BATCH_SIZE := 100
  const MINUTE: nat := 60_000_000_000

  datatype Record = Record(timestamp: int, success: bool, responseTime: int, model: string, account: string)

  datatype Counters = Counters(total: int, successful: int, failed: int, responseTime: int)

  datatype Stats = Stats(total: int, successful: int, failed: int, responseTime: int, lastRequest: int, history: seq<Record>)

  // ----- the reference: no batches at all -----

  function LastN<T>(s: seq<T>, n: nat): seq<T> {
    if |s| <= n then s else s[|s| - n..]
  }

  /** The history a reader sees when `recorded` followed `loaded`; trimming happens only once something is recorded. */
  function History(loaded: seq<Record>, recorded: seq<Record>, max: nat): seq<Record> {
    if |recorded| == 0 then loaded else LastN(loaded + recorded, max)
  }

  /** `tail` are the last `max` of `all`, counted from the newest, or all of them. */
  ghost predicate IsTail<T>(tail: seq<T>, all: seq<T>, max: nat) {
    && |tail| == (if |all| <= max then |all| else max)
    && forall i :: 0 <= i < |tail| ==> tail[i] == all[|all| - |tail| + i]
  }

  lemma LastNIsTail<T>(all: seq<T>, max: nat)
    ensures IsTail(LastN(all, max), all, max)
  {}

  /** A reader sees exactly the last `max` records, unless an overlong history was loaded and nothing recorded since;
      then it sees what was loaded. */
  lemma HistoryIsTail(loaded: seq<Record>, recorded: seq<Record>, max: nat)
    ensures IsTail(History(loaded, recorded, max), loaded + recorded, max) <==> |loaded| <= max || |recorded| > 0
    ensures |recorded| == 0 ==> History(loaded, recorded, max) == loaded
  {
    LastNIsTail(loaded + recorded, max);
    if |recorded| == 0 {
      assert loaded + recorded == loaded;
    }
  }

  /** The same for a reader of a service. */
  ghost predicate Reads(history: seq<Record>, loaded: seq<Record>, recorded: seq<Record>, max: nat) {
    if |recorded| == 0 then history == loaded else IsTail(history, loaded + recorded, max)
  }

  lemma HistoryReads(loaded: seq<Record>, recorded: seq<Record>, max: nat)
    ensures Reads(History(loaded, recorded, max), loaded, recorded, max)
  {
    HistoryIsTail(loaded, recorded, max);
  }

  lemma LastNTwice<T>(a: seq<T>, b: seq<T>, n: nat)
    ensures LastN(LastN(a, n) + b, n) == LastN(a + b, n)
  {
    if |a| > n {
      assert a + b == a[..|a| - n] + (a[|a| - n..] + b);
    }
  }

  /** Recording in two instalments, with the first result stored and loaded again in between, loses nothing. */
  lemma HistoryComposes(loaded: seq<Record>, first: seq<Record>, second: seq<Record>, max: nat)
    ensures History(History(loaded, first, max), second, max) == History(loaded, first + second, max)
  {
    LastNTwice(loaded + first, second, max);
    assert loaded + first + second == loaded + (first + second);
    assert first == [] ==> first + second == second;
    assert second == [] ==> first + second == first;
  }

  /** `c` after one more request. */
  function Counted(c: Counters, success: bool, time: int): Counters {
    Counters(c.total + 1, c.successful + if success then 1 else 0, c.failed + if success then 0 else 1, c.responseTime + time)
  }

  /** The counters that `recorded` amounts to. */
  function Tally(start: Counters, recorded: seq<Record>): Counters {
    if |recorded| == 0 then start
    else
      var last := recorded[|recorded| - 1];
      Counted(Tally(start, recorded[..|recorded| - 1]), last.success, last.responseTime)
  }

  lemma TallyOneMore(start: Counters, recorded: seq<Record>, record: Record)
    ensures Tally(start, recorded + [record]) == Counted(Tally(start, recorded), record.success, record.responseTime)
  {
    assert (recorded + [record])[..|recorded|] == recorded;
  }

  lemma {:induction false} TallyShift(start: Counters, zero: Counters, recorded: seq<Record>)
    requires zero == Counters(0, 0, 0, 0)
    ensures var c, d := Tally(start, recorded), Tally(zero, recorded);
      c == Counters(start.total + d.total, start.successful + d.successful, start.failed + d.failed,
                    start.responseTime + d.responseTime)
  {
    if |recorded| > 0 {
      TallyShift(start, zero, recorded[..|recorded| - 1]);
    }
  }

  /** Every recorded request counts once in the total and once as a success or a failure. */
  lemma {:induction false} TallyAddsUp(start: Counters, recorded: seq<Record>)
    ensures var c := Tally(start, recorded);
      && c.total == start.total + |recorded|
      && c.successful + c.failed - c.total == start.successful + start.failed - start.total
      && start.successful <= c.successful && start.failed <= c.failed
  {
    if |recorded| > 0 {
      TallyAddsUp(start, recorded[..|recorded| - 1]);
    }
  }

  /** The places of the records that succeeded, or of those that failed. */
  function Where(recorded: seq<Record>, success: bool): set<int> {
    set i | 0 <= i < |recorded| && recorded[i].success == success
  }

  lemma WhereOneMore(recorded: seq<Record>, record: Record, success: bool)
    ensures |Where(recorded + [record], success)| == |Where(recorded, success)| + if record.success == success then 1 else 0
  {
    var before, after := Where(recorded, success), Where(recorded + [record], success);
    assert after == if record.success == success then before + {|recorded|} else before;
  }

  lemma NoneWhere(recorded: seq<Record>, success: bool)
    requires |recorded| == 0
    ensures |Where(recorded, success)| == 0
  {
    assert Where(recorded, success) == {};
  }

  /** Each counter is what its name says of the records: all, the successes, the failures, and the time they took. */
  lemma {:induction false} TallyCounts(start: Counters, recorded: seq<Record>)
    ensures var c := Tally(start, recorded);
      && c.total == start.total + |recorded|
      && c.successful == start.successful + |Where(recorded, true)|
      && c.failed == start.failed + |Where(recorded, false)|
    ensures |recorded| > 0 ==>
      var n := |recorded| - 1;
      Tally(start, recorded).responseTime == Tally(start, recorded[..n]).responseTime + recorded[n].responseTime
    ensures |recorded| == 0 ==> Tally(start, recorded) == start
  {
    if |recorded| == 0 {
      NoneWhere(recorded, true);
      NoneWhere(recorded, false);
    } else {
      var n := |recorded| - 1;
      assert recorded == recorded[..n] + [recorded[n]];
      TallyCounts(start, recorded[..n]);
      WhereOneMore(recorded[..n], recorded[n], true);
      WhereOneMore(recorded[..n], recorded[n], false);
    }
  }

  // ----- interleavings of records and flushes -----

  /** A tick, a read, a save or a full buffer all flush. */
  datatype Op = Append(record: Record) | Flush

  datatype Pipeline = Pipeline(history: seq<Record>, buffer: seq<Record>)

  function Flushed(p: Pipeline, max: nat): Pipeline {
    if |p.buffer| == 0 then p else Pipeline(LastN(p.history + p.buffer, max), [])
  }

  function Step(p: Pipeline, op: Op, max: nat): Pipeline {
    match op
    case Append(record) => p.(buffer := p.buffer + [record])
    case Flush => Flushed(p, max)
  }

  function Run(p: Pipeline, ops: seq<Op>, max: nat): Pipeline
    decreases |ops|
  {
    if |ops| == 0 then p else Step(Run(p, ops[..|ops| - 1], max), ops[|ops| - 1], max)
  }

  function Recorded(ops: seq<Op>): seq<Record> {
    if |ops| == 0 then []
    else Recorded(ops[..|ops| - 1]) + if ops[|ops| - 1].Append? then [ops[|ops| - 1].record] else []
  }

  /** The records of a run are those appended, in order, whatever is flushed in between. */
  lemma RecordedOneMore(ops: seq<Op>, record: Record)
    ensures Recorded(ops + [Append(record)]) == Recorded(ops) + [record] && Recorded(ops + [Flush]) == Recorded(ops)
  {
    assert (ops + [Append(record)])[..|ops|] == (ops + [Flush])[..|ops|] == ops;
  }

  /** The pipeline holds `recorded` on top of `loaded`: `flushed`, trimmed, and the rest still in the buffer. */
  ghost predicate Holds(history: seq<Record>, buffer: seq<Record>, loaded: seq<Record>, flushed: seq<Record>,
                        recorded: seq<Record>, max: nat)
  {
    history == History(loaded, flushed, max) && recorded == flushed + buffer
  }

  lemma AppendHolds(flushed: seq<Record>, buffer: seq<Record>, record: Record)
    ensures flushed + (buffer + [record]) == flushed + buffer + [record]
  {}

  lemma FlushHolds(history: seq<Record>, buffer: seq<Record>, loaded: seq<Record>, flushed: seq<Record>,
                   recorded: seq<Record>, max: nat)
    requires Holds(history, buffer, loaded, flushed, recorded, max)
    ensures (if |buffer| == 0 then history else LastN(history + buffer, max)) == History(loaded, recorded, max)
  {
    HistoryComposes(loaded, flushed, buffer, max);
  }

  lemma {:induction false} RunHolds(loaded: seq<Record>, ops: seq<Op>, max: nat) returns (flushed: seq<Record>)
    ensures var p := Run(Pipeline(loaded, []), ops, max);
      Holds(p.history, p.buffer, loaded, flushed, Recorded(ops), max)
    decreases |ops|
  {
    if ops == [] {
      flushed := [];
    } else {
      var before := ops[..|ops| - 1];
      flushed := RunHolds(loaded, before, max);
      var p := Run(Pipeline(loaded, []), before, max);
      match ops[|ops| - 1]
      case Append(record) => AppendHolds(flushed, p.buffer, record);
      case Flush =>
        FlushHolds(p.history, p.buffer, loaded, flushed, Recorded(before), max);
        flushed := Recorded(before);
    }
  }

  lemma ReadReturns(loaded: seq<Record>, ops: seq<Op>, max: nat)
    ensures Run(Pipeline(loaded, []), ops + [Flush], max) == Pipeline(History(loaded, Recorded(ops), max), [])
  {
    var flushed := RunHolds(loaded, ops, max);
    assert (ops + [Flush])[..|ops|] == ops;
    var p := Run(Pipeline(loaded, []), ops, max);
    FlushHolds(p.history, p.buffer, loaded, flushed, Recorded(ops), max);
  }

  /** Whatever the flush schedule, a read returns what the records alone determine. */
  lemma FlushScheduleIsInvisible(loaded: seq<Record>, ops: seq<Op>, other: seq<Op>, max: nat)
    requires Recorded(ops) == Recorded(other)
    ensures Run(Pipeline(loaded, []), ops + [Flush], max) == Pipeline(History(loaded, Recorded(ops), max), [])
    ensures Run(Pipeline(loaded, []), ops + [Flush], max) == Run(Pipeline(loaded, []), other + [Flush], max)
  {
    ReadReturns(loaded, ops, max);
    ReadReturns(loaded, other, max);
  }

  // ----- the last minute -----

  /** The times not earlier than `cutoff`. */
  function Since(times: seq<int>, cutoff: int): seq<int> {
    if |times| == 0 then times
    else if times[|times| - 1] >= cutoff then Since(times[..|times| - 1], cutoff) + [times[|times| - 1]]
    else Since(times[..|times| - 1], cutoff)
  }

  lemma OneMoreSince(times: seq<int>, time: int, cutoff: int)
    ensures var more := times + [time];
            |set i | 0 <= i < |more| && more[i] >= cutoff|
              == |set i | 0 <= i < |times| && times[i] >= cutoff| + if time >= cutoff then 1 else 0
  {
    var more := times + [time];
    var before, after := set i | 0 <= i < |times| && times[i] >= cutoff, set i | 0 <= i < |more| && more[i] >= cutoff;
    assert after == if time >= cutoff then before + {|times|} else before;
  }

  lemma NoneSince(times: seq<int>, cutoff: int)
    requires |times| == 0
    ensures |set i | 0 <= i < |times| && times[i] >= cutoff| == 0
  {
    assert (set i | 0 <= i < |times| && times[i] >= cutoff) == {};
  }

  /** They are counted one by one. */
  lemma {:induction false} SinceCounts(times: seq<int>, cutoff: int)
    ensures |Since(times, cutoff)| == |set i | 0 <= i < |times| && times[i] >= cutoff|
  {
    if |times| == 0 {
      NoneSince(times, cutoff);
    } else {
      var n := |times| - 1;
      assert times == times[..n] + [times[n]];
      SinceCounts(times[..n], cutoff);
      OneMoreSince(times[..n], times[n], cutoff);
    }
  }

  /** Never going backwards, and never past `now`. */
  ghost predicate Ordered(times: seq<int>, now: int) {
    |times| == 0 || (times[|times| - 1] <= now && Ordered(times[..|times| - 1], times[|times| - 1]))
  }

  ghost predicate AllBefore(times: seq<int>, cutoff: int) {
    |times| == 0 || (times[|times| - 1] < cutoff && AllBefore(times[..|times| - 1], cutoff))
  }

  lemma {:induction false} SinceOfOld(times: seq<int>, cutoff: int)
    requires AllBefore(times, cutoff)
    ensures |Since(times, cutoff)| == 0
  {
    if times != [] {
      SinceOfOld(times[..|times| - 1], cutoff);
    }
  }

  /** In an ordered list the times since `cutoff` are what follows the old ones. */
  lemma {:induction false} SinceOfOrdered(times: seq<int>, k: nat, cutoff: int, now: int)
    requires Ordered(times, now) && k <= |times| && AllBefore(times[..k], cutoff)
    requires k < |times| ==> times[k] >= cutoff
    ensures Since(times, cutoff) == times[k..]
    ensures k < |times| ==> times[|times| - 1] >= cutoff
  {
    var last := |times| - 1;
    if k == |times| {
      assert times[..k] == times;
      SinceOfOld(times, cutoff);
    } else {
      assert times[..last][..k] == times[..k];
      SinceOfOrdered(times[..last], k, cutoff, times[last]);
      assert times[k..] == times[..last][k..] + [times[last]];
    }
  }

  lemma {:induction false} AllBeforeLater(times: seq<int>, cutoff: int, later: int)
    requires AllBefore(times, cutoff) && cutoff <= later
    ensures AllBefore(times, later)
  {
    if times != [] {
      AllBeforeLater(times[..|times| - 1], cutoff, later);
    }
  }

  lemma OneMoreTime(past: seq<int>, recent: seq<int>, now: int, reading: int)
    requires Ordered(past + recent, now) && AllBefore(past, now - MINUTE) && now <= reading
    ensures past + (recent + [reading]) == past + recent + [reading]
    ensures Ordered(past + recent + [reading], reading) && AllBefore(past, reading - MINUTE)
  {
    AllBeforeLater(past, now - MINUTE, reading - MINUTE);
    assert (past + recent + [reading])[..|past + recent|] == past + recent;
  }

  /** Drops the times more than a minute before `reading`, which the source's two callers do inline; `past` holds
      the times dropped before. */
  method Prune(recent: seq<int>, ghost past: seq<int>, reading: int) returns (kept: seq<int>, ghost dropped: seq<int>)
    requires Ordered(past + recent, reading) && AllBefore(past, reading - MINUTE)
    ensures dropped + kept == past + recent && AllBefore(dropped, reading - MINUTE)
    ensures kept == Since(past + recent, reading - MINUTE)
  {
    var start := 0;
    dropped := past;
    while start < |recent| && recent[start] < reading - MINUTE
      invariant 0 <= start <= |recent|
      invariant dropped == past + recent[..start] && AllBefore(dropped, reading - MINUTE)
    {
      assert (dropped + [recent[start]])[..|dropped|] == dropped;
      dropped := dropped + [recent[start]];
      start := start + 1;
    }
    kept := recent[start..];
    assert dropped + kept == past + recent;
    assert (past + recent)[..|dropped|] == dropped && (past + recent)[|dropped|..] == kept;
    SinceOfOrdered(past + recent, |dropped|, reading - MINUTE, reading);
  }

  // ----- the service -----

  /** Saving is debounced: the interval since the last save has passed, or there was none. */
  predicate Due(lastSave: Option<int>, interval: int, reading: int) {
    lastSave.None? || reading - lastSave.value >= interval
  }

  function NextSave(lastSave: Option<int>, interval: int, reading: int): Option<int> {
    if Due(lastSave, interval, reading) then Some(reading) else lastSave
  }

  /** The readings at which a run of calls saves, when the last save before was at `lastSave`. */
  function SavedAt(lastSave: Option<int>, interval: int, readings: seq<int>): seq<int>
    decreases |readings|
  {
    if |readings| == 0 then readings
    else
      var rest := SavedAt(NextSave(lastSave, interval, readings[0]), interval, readings[1..]);
      if Due(lastSave, interval, readings[0]) then [readings[0]] + rest else rest
  }

  /** Debouncing over any run of calls: saves are at least the interval apart. */
  lemma {:induction false} SavesAreApart(lastSave: Option<int>, interval: int, readings: seq<int>)
    ensures var saved := SavedAt(lastSave, interval, readings);
      && (lastSave.Some? && |saved| > 0 ==> saved[0] - lastSave.value >= interval)
      && forall i :: 0 < i < |saved| ==> saved[i] - saved[i - 1] >= interval
    decreases |readings|
  {
    if |readings| > 0 {
      SavesAreApart(NextSave(lastSave, interval, readings[0]), interval, readings[1..]);
    }
  }

  /** And frequent: after any call the last save is less than the interval ago, or was made by that very call. */
  lemma {:induction false} SavesAreFrequent(lastSave: Option<int>, interval: int, readings: seq<int>)
    requires |readings| > 0
    ensures var saved, reading := SavedAt(lastSave, interval, readings), readings[|readings| - 1];
      if |saved| > 0 then saved[|saved| - 1] == reading || reading - saved[|saved| - 1] < interval
      else lastSave.Some? && reading - lastSave.value < interval
    decreases |readings|
  {
    if |readings| > 1 {
      SavesAreFrequent(NextSave(lastSave, interval, readings[0]), interval, readings[1..]);
    }
  }

  /** `count * 50 / 3`, rounded. */
  function Rounded(count: nat): (n: nat)
    ensures -3 < 6 * n - 100 * count < 3
  {
    (50 * count + 1) / 3
  }

  class Service {
    var history: seq<Record>
    var buffer: seq<Record>
    var total: int
    var successful: int
    var failed: int
    var responseTime: int
    var lastRequest: int
    /** Not set before the first save. */
    var lastSave: Option<int>
    var recent: seq<int>
    /** The snapshot in storage; a save replaces it. */
    var stored: Option<Stats>
    const maxHistory: nat
    const minSaveInterval: int
    var closed: bool
    const hasStorage: bool

    /** The history and counters the service started from, what was recorded since, and the HTTP events counted apart. */
    ghost var loaded: seq<Record>
    ghost var base: Counters
    ghost var recorded: seq<Record>
    ghost var httpErrors: nat
    ghost var httpTime: int
    /** The records already moved from the buffer to the history. */
    ghost var flushed: seq<Record>
    /** All recording times, and those among them already dropped from `recent`. */
    ghost var times: seq<int>
    ghost var past: seq<int>
    ghost var now: int

    ghost predicate HistoryValid()
      reads this`history, this`buffer, this`loaded, this`flushed, this`recorded
    {
      Holds(history, buffer, loaded, flushed, recorded, maxHistory)
    }

    /** The counters, HTTP errors and durations set aside. */
    ghost function Requests(): Counters
      reads this`total, this`successful, this`failed, this`responseTime, this`httpErrors, this`httpTime
    {
      Counters(total, successful, failed - httpErrors, responseTime - httpTime)
    }

    ghost predicate CountersAddUp()
      reads this`total, this`successful, this`failed, this`responseTime, this`httpErrors, this`httpTime
      reads this`base, this`recorded
    {
      Requests() == Tally(base, recorded)
    }

    ghost predicate MinuteValid()
      reads this`recent, this`past, this`times, this`now
    {
      past + recent == times && Ordered(times, now) && AllBefore(past, now - MINUTE)
    }

    ghost predicate Valid()
      reads this
    {
      HistoryValid() && |buffer| < HISTORY_BATCH_SIZE && CountersAddUp() && MinuteValid()
    }

    constructor (maxHistory: nat, minSaveInterval: int, hasStorage: bool)
      ensures Valid() && |recorded| == 0 && |loaded| == 0 && base == Counters(0, 0, 0, 0)
      ensures httpErrors == 0
      ensures this.maxHistory == maxHistory && this.minSaveInterval == minSaveInterval && this.hasStorage == hasStorage
    {
      this.maxHistory, this.minSaveInterval, this.hasStorage := maxHistory, minSaveInterval, hasStorage;
      history, buffer, recent, stored := [], [], [], None;
      total, successful, failed, responseTime, lastRequest, lastSave, closed := 0, 0, 0, 0, 0, None, false;
      loaded, base, flushed, recorded, httpErrors, httpTime := [], Counters(0, 0, 0, 0), [], [], 0, 0;
      times, past, now := [], [], 0;
    }

    method FlushBuffer()
      requires HistoryValid()
      modifies this`history, this`buffer, this`flushed
      ensures |buffer| == 0 && history == History(loaded, recorded, maxHistory)
      ensures Reads(history, loaded, recorded, maxHistory)
      ensures HistoryValid()
    {
      HistoryReads(loaded, recorded, maxHistory);
      FlushHolds(history, buffer, loaded, flushed, recorded, maxHistory);
      flushed := recorded;
      if |buffer| == 0 {
        return;
      }
      var batch := buffer;
      buffer := [];
      history := history + batch;
      if |history| > maxHistory {
        history := history[|history| - maxHistory..];
      }
    }

    /** The same, for a service in a valid state. */
    method Flush()
      requires Valid()
      modifies this`history, this`buffer, this`flushed
      ensures Valid() && |buffer| == 0
    {
      FlushBuffer();
    }

    method CountRequest(success: bool, time: int)
      modifies this`total, this`successful, this`failed, this`responseTime
      ensures Requests() == Counted(old(Requests()), success, time)
    {
      total := total + 1;
      responseTime := responseTime + time;
      if success {
        successful := successful + 1;
      } else {
        failed := failed + 1;
      }
    }

    method NoteTime(reading: int)
      requires MinuteValid() && now <= reading
      modifies this`recent, this`past, this`times, this`now
      ensures times == old(times) + [reading] && now == reading
      ensures MinuteValid() && recent == Since(times, reading - MINUTE)
    {
      OneMoreTime(past, recent, now, reading);
      times, now := times + [reading], reading;
      recent, past := Prune(recent + [reading], past, reading);
    }

    method AppendRecord(record: Record) returns (shouldFlush: bool)
      requires HistoryValid()
      modifies this`buffer, this`recorded
      ensures recorded == old(recorded) + [record] && buffer == old(buffer) + [record]
      ensures HistoryValid()
      ensures shouldFlush <==> |buffer| >= HISTORY_BATCH_SIZE
    {
      AppendHolds(flushed, buffer, record);
      buffer, recorded := buffer + [record], recorded + [record];
      shouldFlush := |buffer| >= HISTORY_BATCH_SIZE;
    }

    method BufferRecord(record: Record)
      requires HistoryValid() && |buffer| < HISTORY_BATCH_SIZE
      modifies this`history, this`buffer, this`flushed, this`recorded
      ensures recorded == old(recorded) + [record]
      ensures HistoryValid() && |buffer| < HISTORY_BATCH_SIZE
    {
      var shouldFlush := AppendRecord(record);
      if shouldFlush {
        FlushBuffer();
      }
    }

    method CountAndBuffer(record: Record)
      requires HistoryValid() && |buffer| < HISTORY_BATCH_SIZE && CountersAddUp()
      modifies this`total, this`successful, this`failed, this`responseTime
      modifies this`history, this`buffer, this`flushed, this`recorded
      ensures recorded == old(recorded) + [record]
      ensures HistoryValid() && |buffer| < HISTORY_BATCH_SIZE && CountersAddUp()
    {
      ghost var counted := Counted(Requests(), record.success, record.responseTime);
      TallyOneMore(base, recorded, record);
      CountRequest(record.success, record.responseTime);
      BufferRecord(record);
      assert Requests() == counted;
    }

    method Account(record: Record)
      requires Valid() && now <= record.timestamp
      modifies this`total, this`successful, this`failed, this`responseTime, this`lastRequest
      modifies this`recent, this`past, this`times, this`now, this`history, this`buffer, this`flushed, this`recorded
      ensures Valid()
      ensures recorded == old(recorded) + [record]
      ensures lastRequest == record.timestamp && times == old(times) + [record.timestamp]
    {
      lastRequest := record.timestamp;
      CountAndBuffer(record);
      NoteTime(record.timestamp);
    }

    /** The same, counter by counter. */
    method CountOnce(record: Record)
      requires Valid() && now <= record.timestamp
      modifies this`total, this`successful, this`failed, this`responseTime, this`lastRequest
      modifies this`recent, this`past, this`times, this`now, this`history, this`buffer, this`flushed, this`recorded
      ensures Valid() && recorded == old(recorded) + [record]
      ensures lastRequest == record.timestamp && times == old(times) + [record.timestamp]
      ensures total == old(total) + 1 && responseTime == old(responseTime) + record.responseTime
      ensures successful == old(successful) + (if record.success then 1 else 0)
      ensures failed == old(failed) + if record.success then 0 else 1
    {
      TallyOneMore(base, recorded, record);
      ghost var counted := Counted(Requests(), record.success, record.responseTime);
      Account(record);
      assert Requests() == counted;
    }

    ghost function Snapshot(): Stats
      reads this`total, this`successful, this`failed, this`responseTime, this`lastRequest, this`loaded, this`recorded
    {
      Stats(total, successful, failed, responseTime, lastRequest, History(loaded, recorded, maxHistory))
    }

    /** A read: the history is a function of what was loaded and recorded, not of when buffers were flushed. */
    method GetRequestStats() returns (stats: Stats)
      requires Valid()
      modifies this`history, this`buffer, this`flushed
      ensures Valid() && |buffer| == 0
      ensures stats == Snapshot()
      ensures stats.total == total && stats.successful == successful && stats.failed == failed
      ensures stats.responseTime == responseTime && stats.lastRequest == lastRequest
      ensures Reads(stats.history, loaded, recorded, maxHistory)
    {
      FlushBuffer();
      stats := Stats(total, successful, failed, responseTime, lastRequest, history);
    }

    method SaveStats()
      requires Valid()
      modifies this`history, this`buffer, this`flushed, this`stored
      ensures Valid() && |buffer| == 0 && stored == Some(Snapshot())
    {
      var stats := GetRequestStats();
      stored := Some(stats);
    }

    method SaveStatsDebounced(reading: int)
      requires Valid()
      modifies this`history, this`buffer, this`flushed, this`lastSave, this`stored
      ensures Valid()
      ensures if old(lastSave).None? || reading - old(lastSave).value >= minSaveInterval then
                lastSave == Some(reading) && stored == if hasStorage then Some(Snapshot()) else old(stored)
              else lastSave == old(lastSave) && stored == old(stored)
      ensures lastSave == NextSave(old(lastSave), minSaveInterval, reading)
    {
      if !Due(lastSave, minSaveInterval, reading) {
        return;
      }
      lastSave := Some(reading);
      if !hasStorage {
        return;
      }
      SaveStats();
    }

    /** Records one request: every counter, the last minute and the history take it into account exactly once. */
    method RecordRequest(reading: int, success: bool, time: int, model: string, account: string, saveReading: int)
      requires Valid() && now <= reading <= saveReading
      modifies this`total, this`successful, this`failed, this`responseTime, this`lastRequest, this`lastSave, this`stored
      modifies this`recent, this`past, this`times, this`now, this`history, this`buffer, this`flushed, this`recorded
      ensures Valid()
      ensures recorded == old(recorded) + [Record(reading, success, time, model, account)]
      ensures lastRequest == reading && times == old(times) + [reading]
      ensures total == old(total) + 1 && responseTime == old(responseTime) + time
      ensures successful == old(successful) + (if success then 1 else 0) && failed == old(failed) + if success then 0 else 1
      ensures if old(lastSave).None? || saveReading - old(lastSave).value >= minSaveInterval then
                lastSave == Some(saveReading) && stored == if hasStorage then Some(Snapshot()) else old(stored)
              else lastSave == old(lastSave) && stored == old(stored)
    {
      CountOnce(Record(reading, success, time, model, account));
      ghost var all := recorded;
      SaveStatsDebounced(saveReading);
      assert recorded == all;
    }

    method RecordHTTPRequest(milliseconds: int)
      requires Valid()
      modifies this`responseTime, this`httpTime
      ensures Valid() && responseTime == old(responseTime) + milliseconds
    {
      responseTime, httpTime := responseTime + milliseconds, httpTime + milliseconds;
    }

    /** An HTTP error is a failure that no request accounts for. */
    method RecordHTTPError()
      requires Valid()
      modifies this`failed, this`httpErrors
      ensures Valid() && failed == old(failed) + 1 && httpErrors == old(httpErrors) + 1
    {
      failed, httpErrors := failed + 1, httpErrors + 1;
    }

    /** The rate shown on the dashboard in thousandths of a request per second: the requests of the minute before
        `reading` over 60 seconds, rounded to the nearest thousandth. A sixtieth of 1000 is 50 / 3, so there are no ties. */
    method GetQPS(reading: int) returns (thousandths: nat)
      requires Valid() && now <= reading
      modifies this`recent, this`past, this`now
      ensures Valid()
      ensures -3 < 6 * thousandths - 100 * |set i | 0 <= i < |times| && times[i] >= reading - 60_000_000_000| < 3
    {
      SinceCounts(times, reading - MINUTE);
      AllBeforeLater(past, now - MINUTE, reading - MINUTE);
      now := reading;
      recent, past := Prune(recent, past, reading);
      if |recent| == 0 {
        return 0;
      }
      thousandths := Rounded(|recent|);
    }

    method RestoreCounters(t: int, s: int, f: int, time: int)
      modifies this`total, this`successful, this`failed, this`responseTime, this`base, this`httpErrors, this`httpTime
      ensures CountersAddUp()
      ensures total == t && successful == s && failed == f && responseTime == time
    {
      total, successful, failed, responseTime := t, s, f, time;
      httpErrors, httpTime := 0, 0;
      var zero := Counters(0, 0, 0, 0);
      ghost var pending := Tally(zero, recorded);
      base := Counters(total - pending.total, successful - pending.successful, failed - pending.failed,
                       responseTime - pending.responseTime);
      TallyShift(base, zero, recorded);
    }

    method RestoreHistory(stored: seq<Record>)
      modifies this`history, this`loaded, this`flushed, this`recorded
      ensures HistoryValid() && recorded == buffer && loaded == stored
    {
      history, loaded, flushed, recorded := stored, stored, [], buffer;
    }

    method Restore(stats: Stats)
      modifies this`total, this`successful, this`failed, this`responseTime, this`lastRequest, this`base
      modifies this`history, this`loaded, this`flushed, this`recorded, this`httpErrors, this`httpTime
      ensures HistoryValid() && CountersAddUp() && recorded == buffer && loaded == stats.history
      ensures total == stats.total && successful == stats.successful && failed == stats.failed
      ensures responseTime == stats.responseTime && lastRequest == stats.lastRequest
      ensures |buffer| == 0 ==> Snapshot() == stats
    {
      RestoreHistory(stats.history);
      RestoreCounters(stats.total, stats.successful, stats.failed, stats.responseTime);
      lastRequest := stats.lastRequest;
    }

    /** Starts over from a stored snapshot; records still buffered are kept. With nothing buffered, a read then
        returns that very snapshot. */
    method LoadStats(found: Option<Stats>)
      requires Valid()
      modifies this`total, this`successful, this`failed, this`responseTime, this`lastRequest, this`base
      modifies this`history, this`loaded, this`flushed, this`recorded, this`httpErrors, this`httpTime
      ensures Valid()
      ensures found.None? || !hasStorage ==>
                && recorded == old(recorded) && loaded == old(loaded) && base == old(base) && history == old(history)
                && total == old(total) && successful == old(successful) && failed == old(failed)
                && responseTime == old(responseTime) && lastRequest == old(lastRequest)
      ensures found.Some? && hasStorage ==>
                && total == found.value.total && successful == found.value.successful && failed == found.value.failed
                && responseTime == found.value.responseTime && lastRequest == found.value.lastRequest
      ensures found.Some? && hasStorage ==> recorded == buffer && loaded == found.value.history
      ensures found.Some? && hasStorage && |buffer| == 0 ==> Snapshot() == found.value
    {
      if hasStorage {
        if found.Some? {
          Restore(found.value);
        }
      }
    }

    /** The last save on the way out holds everything recorded; it happens once, and closing again changes nothing. */
    method Close()
      requires Valid()
      modifies this`history, this`buffer, this`flushed, this`stored, this`closed
      ensures Valid() && closed
      ensures stored == if hasStorage && !old(closed) then Some(Snapshot()) else old(stored)
      ensures old(closed) ==> history == old(history) && buffer == old(buffer)
    {
      if closed {
        return;
      }
      closed := true;
      Flush();
      if hasStorage {
        SaveStats();
      }
    }
  }
}
