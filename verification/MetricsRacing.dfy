/** Flushes in two critical sections: a batch is taken from the buffer under one lock and appended to the history
    under another, so several batches can be under way at once. */
module MetricsRacing {
  import Collections
  import opened Metrics

  /** `taken` are the batches taken and not yet appended. */
  datatype Racing = Racing(history: seq<Record>, buffer: seq<Record>, taken: seq<seq<Record>>)

  datatype Action = Note(record: Record) | TakeBatch | PutBatch(which: nat)

  function Act(r: Racing, a: Action, max: nat): Racing {
    match a
    case Note(record) => r.(buffer := r.buffer + [record])
    case TakeBatch => if |r.buffer| == 0 then r else r.(buffer := [], taken := r.taken + [r.buffer])
    case PutBatch(i) =>
      if i >= |r.taken| then r
      else Racing(LastN(r.history + r.taken[i], max), r.buffer, r.taken[..i] + r.taken[i + 1..])
  }

  function RunAll(r: Racing, actions: seq<Action>, max: nat): Racing
    decreases |actions|
  {
    if |actions| == 0 then r else Act(RunAll(r, actions[..|actions| - 1], max), actions[|actions| - 1], max)
  }

  function RecordedBy(actions: seq<Action>): seq<Record> {
    if |actions| == 0 then []
    else
      var last := actions[|actions| - 1];
      RecordedBy(actions[..|actions| - 1]) + if last.Note? then [last.record] else []
  }

  function InFlight(taken: seq<seq<Record>>): multiset<Record> {
    if |taken| == 0 then multiset{} else InFlight(taken[..|taken| - 1]) + multiset(taken[|taken| - 1])
  }

  /** Everything the service holds somewhere. */
  function Held(r: Racing): multiset<Record> {
    multiset(r.history) + InFlight(r.taken) + multiset(r.buffer)
  }

  lemma {:induction false} InFlightWithout(taken: seq<seq<Record>>, i: nat)
    requires i < |taken|
    ensures InFlight(taken) == InFlight(taken[..i] + taken[i + 1..]) + multiset(taken[i])
  {
    var last, rest := |taken| - 1, taken[..i] + taken[i + 1..];
    if i < last {
      InFlightWithout(taken[..last], i);
      assert rest[..last - 1] == taken[..last][..i] + taken[..last][i + 1..];
    } else {
      assert rest == taken[..last];
    }
  }

  lemma LastNKeeps(s: seq<Record>, n: nat)
    ensures multiset(LastN(s, n)) <= multiset(s)
    ensures |s| <= n ==> multiset(LastN(s, n)) == multiset(s)
  {
    if |s| > n {
      assert s == s[..|s| - n] + s[|s| - n..];
    }
  }

  lemma PutKeeps(r: Racing, i: nat, max: nat)
    requires i < |r.taken|
    ensures Held(Act(r, PutBatch(i), max)) <= Held(r)
    ensures |Held(r)| <= max ==> Held(Act(r, PutBatch(i), max)) == Held(r)
  {
    InFlightWithout(r.taken, i);
    LastNKeeps(r.history + r.taken[i], max);
    assert |Held(r)| >= |r.history + r.taken[i]|;
  }

  lemma TakeKeeps(r: Racing, max: nat)
    ensures Held(Act(r, TakeBatch, max)) == Held(r)
  {
    if |r.buffer| > 0 {
      assert (r.taken + [r.buffer])[..|r.taken|] == r.taken;
    }
  }

  /** However flushes race, nothing is invented or doubled, and nothing is lost before the limit is reached. */
  lemma {:induction false} RacingFlushesConserve(loaded: seq<Record>, actions: seq<Action>, max: nat)
    ensures var r := RunAll(Racing(loaded, [], []), actions, max);
      var all := multiset(loaded + RecordedBy(actions));
      Held(r) <= all && (|loaded| + |RecordedBy(actions)| <= max ==> Held(r) == all)
    decreases |actions|
  {
    if |actions| == 0 {
      assert loaded + RecordedBy(actions) == loaded;
    } else {
      var before, last := actions[..|actions| - 1], actions[|actions| - 1];
      var r := RunAll(Racing(loaded, [], []), before, max);
      RacingFlushesConserve(loaded, before, max);
      match last {
        case Note(record) =>
          assert loaded + RecordedBy(actions) == loaded + RecordedBy(before) + [record];
        case TakeBatch => TakeKeeps(r, max);
        case PutBatch(i) =>
          if i < |r.taken| {
            PutKeeps(r, i, max);
            assert |multiset(loaded + RecordedBy(before))| == |loaded| + |RecordedBy(before)|;
          }
      }
    }
  }

  // ----- order -----

  /** Batches are appended in the order in which they were taken. */
  predicate Oldest(actions: seq<Action>) {
    forall i :: 0 <= i < |actions| && actions[i].PutBatch? ==> actions[i].which == 0
  }

  function Concat(taken: seq<seq<Record>>): seq<Record> {
    if |taken| == 0 then [] else taken[0] + Concat(taken[1..])
  }

  lemma {:induction false} ConcatSnoc(taken: seq<seq<Record>>, batch: seq<Record>)
    ensures Concat(taken + [batch]) == Concat(taken) + batch
  {
    if |taken| == 0 {
      assert taken + [batch] == [batch];
      assert Concat([batch]) == batch + Concat([batch][1..]);
    } else {
      assert (taken + [batch])[1..] == taken[1..] + [batch];
      ConcatSnoc(taken[1..], batch);
    }
  }

  /** What has been appended, what is under way and what is buffered are the records in order. */
  ghost predicate Ordered(r: Racing, loaded: seq<Record>, appended: seq<Record>, recorded: seq<Record>, max: nat) {
    && r.history == History(loaded, appended, max)
    && appended + Concat(r.taken) + r.buffer == recorded
    && forall i :: 0 <= i < |r.taken| ==> |r.taken[i]| > 0
  }

  lemma NoteInOrder(r: Racing, record: Record, loaded: seq<Record>, appended: seq<Record>, recorded: seq<Record>, max: nat)
    requires Ordered(r, loaded, appended, recorded, max)
    ensures Ordered(Act(r, Note(record), max), loaded, appended, recorded + [record], max)
  {
    Collections.Associative(appended + Concat(r.taken), r.buffer, [record]);
  }

  lemma TakeInOrder(r: Racing, loaded: seq<Record>, appended: seq<Record>, recorded: seq<Record>, max: nat)
    requires Ordered(r, loaded, appended, recorded, max)
    ensures Ordered(Act(r, TakeBatch, max), loaded, appended, recorded, max)
  {
    ConcatSnoc(r.taken, r.buffer);
    Collections.Associative(appended, Concat(r.taken), r.buffer);
  }

  lemma PutInOrder(r: Racing, loaded: seq<Record>, appended: seq<Record>, recorded: seq<Record>, max: nat)
    requires Ordered(r, loaded, appended, recorded, max) && |r.taken| > 0
    ensures Ordered(Act(r, PutBatch(0), max), loaded, appended + r.taken[0], recorded, max)
  {
    HistoryComposes(loaded, appended, r.taken[0], max);
    Collections.Associative(appended, r.taken[0], Concat(r.taken[1..]));
    assert r.taken[..0] + r.taken[1..] == r.taken[1..];
  }

  /** As long as batches are appended oldest first, however long that takes, the history is that of an
      undivided flush of the records appended. */
  lemma {:induction false} OldestFirstKeepsOrder(loaded: seq<Record>, actions: seq<Action>, max: nat)
    returns (appended: seq<Record>)
    requires Oldest(actions)
    ensures Ordered(RunAll(Racing(loaded, [], []), actions, max), loaded, appended, RecordedBy(actions), max)
    decreases |actions|
  {
    if |actions| == 0 {
      appended := [];
    } else {
      var before, last := actions[..|actions| - 1], actions[|actions| - 1];
      var r, recorded := RunAll(Racing(loaded, [], []), before, max), RecordedBy(before);
      appended := OldestFirstKeepsOrder(loaded, before, max);
      match last {
        case Note(record) => NoteInOrder(r, record, loaded, appended, recorded, max);
        case TakeBatch => TakeInOrder(r, loaded, appended, recorded, max);
        case PutBatch(i) =>
          assert i == 0;
          if |r.taken| > 0 {
            PutInOrder(r, loaded, appended, recorded, max);
            appended := appended + r.taken[0];
          }
      }
    }
  }

  /** Once everything taken is appended, the history is what flushes in one step give. */
  lemma OldestFirstReads(loaded: seq<Record>, actions: seq<Action>, max: nat)
    requires Oldest(actions)
    ensures var r := RunAll(Racing(loaded, [], []), actions, max);
      |r.taken| == 0 && |r.buffer| == 0 ==> r.history == History(loaded, RecordedBy(actions), max)
  {
    var r := RunAll(Racing(loaded, [], []), actions, max);
    var appended := OldestFirstKeepsOrder(loaded, actions, max);
    if |r.taken| == 0 && |r.buffer| == 0 {
      assert appended + Concat(r.taken) + r.buffer == appended;
    }
  }

  const EMPTY := Racing([], [], [])

  lemma RunSnoc(actions: seq<Action>, a: Action, max: nat)
    ensures RunAll(EMPTY, actions + [a], max) == Act(RunAll(EMPTY, actions, max), a, max)
    ensures RecordedBy(actions + [a]) == RecordedBy(actions) + if a.Note? then [a.record] else []
  {
    assert (actions + [a])[..|actions|] == actions;
  }

  lemma TakenOnce(before: seq<Action>, r: Racing, record: Record, max: nat) returns (actions: seq<Action>)
    requires RunAll(EMPTY, before, max) == r && |r.buffer| == 0
    ensures RunAll(EMPTY, actions, max) == r.(taken := r.taken + [[record]])
    ensures RecordedBy(actions) == RecordedBy(before) + [record]
  {
    RunSnoc(before, Note(record), max);
    RunSnoc(before + [Note(record)], TakeBatch, max);
    actions := before + [Note(record)] + [TakeBatch];
    assert r.buffer + [record] == [record] && r.buffer == [];
  }

  lemma NoActions(actions: seq<Action>, max: nat)
    requires |actions| == 0
    ensures RunAll(EMPTY, actions, max) == EMPTY && |RecordedBy(actions)| == 0
  {}

  /** Two records, each taken as a batch of its own. */
  lemma TakenTwice(a: Record, b: Record, max: nat) returns (actions: seq<Action>)
    ensures RunAll(EMPTY, actions, max) == EMPTY.(taken := [[a], [b]])
    ensures RecordedBy(actions) == [a, b]
  {
    actions := [];
    NoActions(actions, max);
    actions := TakenOnce(actions, EMPTY, a, max);
    var r := EMPTY.(taken := EMPTY.taken + [[a]]);
    assert r.taken == [[a]];
    actions := TakenOnce(actions, r, b, max);
    assert r.taken + [[b]] == [[a], [b]];
  }

  /** Two racing flushes may append their batches in the other order. */
  lemma RacingFlushesMaySwap(a: Record, b: Record, max: nat) returns (actions: seq<Action>)
    requires max >= 2
    ensures RecordedBy(actions) == [a, b] && RunAll(EMPTY, actions, max).history == [b, a]
  {
    var taken := TakenTwice(a, b, max);
    RunSnoc(taken, PutBatch(1), max);
    RunSnoc(taken + [PutBatch(1)], PutBatch(0), max);
    var r := Act(Racing([], [], [[a], [b]]), PutBatch(1), max);
    assert r.history == [b] && r.taken == [[a]];
    assert Act(r, PutBatch(0), max).history == [b, a];
    actions := taken + [PutBatch(1)] + [PutBatch(0)];
  }
}
