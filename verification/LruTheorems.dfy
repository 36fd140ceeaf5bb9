/** Theorems about whole runs of the cache, whatever the capacity and the clock readings. */
module LruTheorems {
  import opened Collections
  import opened Wrappers
  import opened LruSpec

  // ----- inclusion: a bigger cache holds everything a smaller one holds -----

  /** `small` is `big` with some keys left out. */
  ghost predicate Sub<V>(small: seq<Entry<V>>, big: seq<Entry<V>>) {
    small == Drop(big, Keys(big) - Keys(small))
  }

  /** What is kept by running the same calls at capacities `c <= c'`. */
  ghost predicate Included<V>(c: nat, c': nat, small: seq<Entry<V>>, big: seq<Entry<V>>) {
    Ok(c, small) && Ok(c', big) && Sub(small, big) && |big| - |small| <= c' - c
  }

  lemma SubIntro<V>(small: seq<Entry<V>>, big: seq<Entry<V>>, gone: set<string>)
    requires small == Drop(big, gone)
    ensures Sub(small, big) && Keys(small) == Keys(big) - gone
  {
    DropFacts(big, gone);
    DropAgree(big, gone, Keys(big) - Keys(small));
  }

  lemma SetGap(s: set<string>, b: set<string>, gone: set<string>)
    requires s <= b
    ensures |b - gone| - |s - gone| <= |b| - |s|
  {
    var rest := b - s;
    assert |b| == |s| + |rest| by { assert b == s + rest; }
    assert |b - gone| == |s - gone| + |rest - gone| by { assert b - gone == (s - gone) + (rest - gone); }
    assert |rest - gone| <= |rest| by { assert rest == (rest - gone) + (rest * gone); }
  }

  lemma GapDrop<V>(small: seq<Entry<V>>, big: seq<Entry<V>>, gone: set<string>)
    requires Distinct(small) && Distinct(big) && Sub(small, big)
    ensures |Drop(big, gone)| - |Drop(small, gone)| <= |big| - |small|
  {
    var b, s := Keys(big), Keys(small);
    assert s <= b by { SubIntro(small, big, b - s); }
    DropFacts(big, gone);
    DropFacts(small, gone);
    DistinctSize(big);
    DistinctSize(small);
    DistinctSize(Drop(big, gone));
    DistinctSize(Drop(small, gone));
    SetGap(s, b, gone);
  }

  /** Dropping the same keys on both sides keeps the relation and does not widen the gap. */
  lemma SubDrop<V>(small: seq<Entry<V>>, big: seq<Entry<V>>, gone: set<string>)
    requires Distinct(small) && Distinct(big) && Sub(small, big)
    ensures Sub(Drop(small, gone), Drop(big, gone))
    ensures |Drop(big, gone)| - |Drop(small, gone)| <= |big| - |small|
  {
    var out := Keys(big) - Keys(small);
    DropDrop(big, out, gone);
    DropDrop(big, gone, out);
    assert out + gone == gone + out;
    SubIntro(Drop(small, gone), Drop(big, gone), out);
    GapDrop(small, big, gone);
  }

  lemma SubPromote<V>(small: seq<Entry<V>>, big: seq<Entry<V>>, e: Entry<V>)
    requires Distinct(small) && Distinct(big) && Sub(small, big)
    ensures Sub(Promote(small, e), Promote(big, e))
  {
    var x, y := Drop(small, {e.key}), Drop(big, {e.key});
    SubDrop(small, big, {e.key});
    var out := Keys(y) - Keys(x) - {e.key};
    DropFacts(big, {e.key});
    DropAgree(y, Keys(y) - Keys(x), out);
    assert ([e] + y)[1..] == y;
    SubIntro([e] + x, [e] + y, out);
  }

  /** A bigger cache may promote a key the smaller one no longer has. */
  lemma SubPromoteBig<V>(small: seq<Entry<V>>, big: seq<Entry<V>>, e: Entry<V>)
    requires Distinct(small) && Distinct(big) && Sub(small, big) && e.key !in Keys(small) && e.key in Keys(big)
    ensures Sub(small, Promote(big, e))
  {
    var out := Keys(big) - Keys(small);
    DropDrop(big, {e.key}, out);
    assert {e.key} + out == out;
    assert Promote(big, e)[1..] == Drop(big, {e.key});
    SubIntro(small, Promote(big, e), out);
  }

  lemma SubEvictSmall<V>(small: seq<Entry<V>>, big: seq<Entry<V>>)
    requires Distinct(small) && Distinct(big) && Sub(small, big) && small != []
    ensures Sub(Evict(small), big)
  {
    var last := {small[|small| - 1].key};
    EvictFacts(small);
    DropDrop(big, Keys(big) - Keys(small), last);
    SubIntro(Evict(small), big, Keys(big) - Keys(small) + last);
  }

  lemma SubEvictBoth<V>(small: seq<Entry<V>>, big: seq<Entry<V>>)
    requires Distinct(small) && Distinct(big) && Sub(small, big) && small != [] && big != []
    ensures Sub(Evict(small), Evict(big))
  {
    var out := Keys(big) - Keys(small);
    var lastBig, lastSmall := big[|big| - 1], small[|small| - 1];
    EvictFacts(big);
    EvictFacts(small);
    DropDrop(big, out, {lastSmall.key});
    DropDrop(big, {lastBig.key}, out + {lastSmall.key});
    if lastBig.key in out {
      assert out + {lastSmall.key} == {lastBig.key} + (out + {lastSmall.key});
    } else {
      // then the smaller cache ends with the same entry
      DropConcat(Evict(big), [lastBig], out);
      assert big == Evict(big) + [lastBig];
      assert out + {lastSmall.key} == {lastBig.key} + (out + {lastSmall.key});
    }
    SubIntro(Evict(small), Evict(big), out + {lastSmall.key});
  }

  /** Sizes: when the bigger cache must evict, so must the smaller one. */
  lemma EvictTogether<V>(c: nat, c': nat, small: seq<Entry<V>>, big: seq<Entry<V>>, e: Entry<V>)
    requires c <= c' && Included(c, c', small, big)
    ensures |Promote(big, e)| - |Promote(small, e)| <= |big| - |small|
    ensures e.key !in Keys(big) ==> e.key !in Keys(small)
    ensures e.key !in Keys(big) && |Promote(big, e)| > c' ==> |Promote(small, e)| > c
    ensures |Promote(big, e)| <= c' + 1 && (e.key in Keys(big) ==> |Promote(big, e)| <= c')
    ensures |Promote(small, e)| <= c + 1
  {
    PromoteFacts(small, e);
    PromoteFacts(big, e);
    SubIntro(small, big, Keys(big) - Keys(small));
  }

  lemma IncludedSet<V>(c: nat, c': nat, small: seq<Entry<V>>, big: seq<Entry<V>>, op: Op<V>)
    requires c <= c' && Included(c, c', small, big) && op.Set?
    ensures Sub(Step(c, small, op), Step(c', big, op))
    ensures |Step(c', big, op)| - |Step(c, small, op)| <= c' - c
  {
    var e := Entry(op.key, op.value, op.now + op.ttl);
    var x, y := Promote(small, e), Promote(big, e);
    EvictTogether(c, c', small, big, e);
    SubPromote(small, big, e);
    if e.key !in Keys(small) && |x| > c {
      assert Distinct(x) && Distinct(y) by {
        PromoteFacts(small, e);
        PromoteFacts(big, e);
      }
      if e.key !in Keys(big) && |y| > c' {
        SubEvictBoth(x, y);
      } else {
        SubEvictSmall(x, y);
      }
    }
  }

  lemma IncludedGet<V>(c: nat, c': nat, small: seq<Entry<V>>, big: seq<Entry<V>>, op: Op<V>)
    requires c <= c' && Included(c, c', small, big) && op.Get?
    ensures Sub(Step(c, small, op), Step(c', big, op))
    ensures |Step(c', big, op)| - |Step(c, small, op)| <= c' - c
  {
    var k := op.key;
    LookupDrop(big, Keys(big) - Keys(small), k);
    LookupFacts(small, k);
    LookupFacts(big, k);
    SubDrop(small, big, {k});
    if Lookup(big, k).Some? {
      var e := Lookup(big, k).value;
      PromoteFacts(big, e);
      if Lookup(small, k).Some? {
        SubPromote(small, big, e);
        PromoteFacts(small, e);
      } else {
        SubPromoteBig(small, big, e);
        DropAgree(small, {k}, {});
        DropNothing(small);
      }
    }
  }

  lemma ExpiredAgree<V>(small: seq<Entry<V>>, big: seq<Entry<V>>, now: int)
    requires Distinct(small) && Distinct(big) && Sub(small, big)
    ensures ExpiredKeys(small, now) * Keys(small) == ExpiredKeys(big, now) * Keys(small)
  {
    forall k | k in Keys(small) ensures k in ExpiredKeys(small, now) <==> k in ExpiredKeys(big, now) {
      LookupDrop(big, Keys(big) - Keys(small), k);
      LookupFacts(small, k);
      LookupFacts(big, k);
      var i :| 0 <= i < |small| && small[i].key == k;
      assert k in Keys(big) by { SubIntro(small, big, Keys(big) - Keys(small)); }
      var j :| 0 <= j < |big| && big[j].key == k;
      assert small[i] == big[j];
    }
  }

  lemma IncludedStep<V>(c: nat, c': nat, small: seq<Entry<V>>, big: seq<Entry<V>>, op: Op<V>)
    requires c <= c' && Included(c, c', small, big)
    ensures Included(c, c', Step(c, small, op), Step(c', big, op))
  {
    StepOk(c, small, op);
    StepOk(c', big, op);
    match op {
      case Set(_, _, _, _) => IncludedSet(c, c', small, big, op);
      case Get(_, _) => IncludedGet(c, c', small, big, op);
      case Delete(k) => SubDrop(small, big, {k});
      case Clear =>
      case Cleanup(now) =>
        SubDrop(small, big, ExpiredKeys(big, now));
        ExpiredAgree(small, big, now);
        DropAgree(small, ExpiredKeys(small, now), ExpiredKeys(big, now));
    }
  }

  lemma {:induction false} IncludedRun<V>(c: nat, c': nat, small: seq<Entry<V>>, big: seq<Entry<V>>, ops: seq<Op<V>>)
    requires c <= c' && Included(c, c', small, big)
    ensures Included(c, c', Run(c, small, ops), Run(c', big, ops))
    decreases |ops|
  {
    if ops != [] {
      IncludedStep(c, c', small, big, ops[0]);
      IncludedRun(c, c', Step(c, small, ops[0]), Step(c', big, ops[0]), ops[1..]);
    }
  }

  /**
   The stack property.  After the same calls at the same clock readings, a cache holds every key
   a smaller one holds, in the same order, and answers every hit of the smaller one alike.
   */
  lemma LruInclusion<V>(c: nat, c': nat, ops: seq<Op<V>>, k: string, now: int)
    requires c <= c'
    ensures Keys(Run(c, [], ops)) <= Keys(Run(c', [], ops))
    ensures Sub(Run(c, [], ops), Run(c', [], ops))
    ensures Answer(Run(c, [], ops), k, now).Some? ==> Answer(Run(c', [], ops), k, now) == Answer(Run(c, [], ops), k, now)
  {
    IncludedRun(c, c', [], [], ops);
    var small, big := Run(c, [], ops), Run(c', [], ops);
    SubIntro(small, big, Keys(big) - Keys(small));
    LookupDrop(big, Keys(big) - Keys(small), k);
  }

  // ----- freshness: agreement with an unbounded map with expiry -----

  /** The reference: a map that never forgets, in which an entry is dead from its expiration on. */
  function RefStep<V>(m: map<string, Entry<V>>, op: Op<V>): map<string, Entry<V>> {
    match op
    case Set(k, v, ttl, now) => m[k := Entry(k, v, now + ttl)]
    case Delete(k) => m - {k}
    case Clear => map[]
    case _ => m
  }

  function RefRun<V>(m: map<string, Entry<V>>, ops: seq<Op<V>>): map<string, Entry<V>>
    decreases |ops|
  {
    if |ops| == 0 then m else RefRun(RefStep(m, ops[0]), ops[1..])
  }

  function RefAnswer<V>(m: map<string, Entry<V>>, k: string, now: int): Option<V> {
    if k in m && now < m[k].expiration then Some(m[k].value) else None
  }

  /** Every entry the cache holds is the reference's entry under that key. */
  ghost predicate Fresh<V>(s: seq<Entry<V>>, m: map<string, Entry<V>>) {
    forall k :: Lookup(s, k).Some? ==> k in m && m[k] == Lookup(s, k).value
  }

  lemma FreshStep<V>(capacity: nat, s: seq<Entry<V>>, m: map<string, Entry<V>>, op: Op<V>)
    requires Ok(capacity, s) && Fresh(s, m)
    ensures Ok(capacity, Step(capacity, s, op)) && Fresh(Step(capacity, s, op), RefStep(m, op))
  {
    StepOk(capacity, s, op);
    forall k | Lookup(Step(capacity, s, op), k).Some?
      ensures k in RefStep(m, op) && RefStep(m, op)[k] == Lookup(Step(capacity, s, op), k).value
    {
      StepLookup(capacity, s, op, k);
      assert Lookup(s, k).Some? ==> k in m;
    }
  }

  lemma {:induction false} FreshRun<V>(capacity: nat, s: seq<Entry<V>>, m: map<string, Entry<V>>, ops: seq<Op<V>>)
    requires Ok(capacity, s) && Fresh(s, m)
    ensures Fresh(Run(capacity, s, ops), RefRun(m, ops))
    decreases |ops|
  {
    if ops != [] {
      FreshStep(capacity, s, m, ops[0]);
      FreshRun(capacity, Step(capacity, s, ops[0]), RefStep(m, ops[0]), ops[1..]);
    }
  }

  /**
   Freshness.  At the end of any run, at any capacity, a hit is the reference's answer: the value
   of the latest `Set` of the key, with no `Delete` or `Clear` since, not yet expired.
   */
  lemma HitIsFresh<V>(capacity: nat, ops: seq<Op<V>>, k: string, now: int)
    ensures Answer(Run(capacity, [], ops), k, now).Some? ==>
              Answer(Run(capacity, [], ops), k, now) == RefAnswer(RefRun(map[], ops), k, now)
  {
    FreshRun(capacity, [], map[], ops);
  }

  // ----- completeness: with room for every key, the cache is the reference -----

  function KeysSet<V>(ops: seq<Op<V>>): set<string> {
    set i | 0 <= i < |ops| && ops[i].Set? :: ops[i].key
  }

  predicate ReadsClock<V>(op: Op<V>) {
    op.Set? || op.Get? || op.Cleanup?
  }

  /** The clock readings never go back, and none is before `t`. */
  predicate Monotone<V>(t: int, ops: seq<Op<V>>)
    decreases |ops|
  {
    |ops| == 0 || (if ReadsClock(ops[0]) then t <= ops[0].now && Monotone(ops[0].now, ops[1..]) else Monotone(t, ops[1..]))
  }

  function LastClock<V>(t: int, ops: seq<Op<V>>): int
    decreases |ops|
  {
    if |ops| == 0 then t else LastClock(if ReadsClock(ops[0]) then ops[0].now else t, ops[1..])
  }

  /** Whatever the reference has and the cache has not is dead by time `t`. */
  ghost predicate Complete<V>(s: seq<Entry<V>>, m: map<string, Entry<V>>, t: int) {
    forall k :: k in m && Lookup(s, k).None? ==> m[k].expiration <= t
  }

  lemma StepKeys<V>(capacity: nat, s: seq<Entry<V>>, op: Op<V>)
    requires Ok(capacity, s)
    ensures Keys(Step(capacity, s, op)) <= Keys(s) + (if op.Set? then {op.key} else {})
  {
    StepOk(capacity, s, op);
    forall k | k in Keys(Step(capacity, s, op)) ensures k in Keys(s) + (if op.Set? then {op.key} else {}) {
      LookupFacts(Step(capacity, s, op), k);
      LookupFacts(s, k);
      StepLookup(capacity, s, op, k);
    }
  }

  lemma CompleteKey<V>(capacity: nat, s: seq<Entry<V>>, m: map<string, Entry<V>>, op: Op<V>, t: int, t': int, k: string)
    requires Ok(capacity, s) && Fresh(s, m) && Complete(s, m, t)
    requires t <= t' && (ReadsClock(op) ==> t' == op.now)
    requires op.Set? ==> |Keys(s) + {op.key}| <= capacity
    requires k in RefStep(m, op) && Lookup(Step(capacity, s, op), k).None?
    ensures RefStep(m, op)[k].expiration <= t'
  {
    LookupFacts(s, k);
    match op {
      case Set(j, v, ttl, now) =>
        var e := Entry(j, v, now + ttl);
        PromoteFacts(s, e);
        PromoteLookup(s, e, k);
        DistinctSize(Promote(s, e));
      case Get(j, now) =>
        LookupDrop(s, {j}, k);
        if Lookup(s, j).Some? {
          PromoteLookup(s, Lookup(s, j).value, k);
        }
      case Delete(j) => LookupDrop(s, {j}, k);
      case Clear =>
      case Cleanup(now) =>
        LookupDrop(s, ExpiredKeys(s, now), k);
        if k in ExpiredKeys(s, now) {
          var i :| 0 <= i < |s| && now >= s[i].expiration && s[i].key == k;
        }
    }
  }

  lemma CompleteStep<V>(capacity: nat, s: seq<Entry<V>>, m: map<string, Entry<V>>, op: Op<V>, t: int, t': int)
    requires Ok(capacity, s) && Fresh(s, m) && Complete(s, m, t)
    requires t <= t' && (ReadsClock(op) ==> t' == op.now)
    requires op.Set? ==> |Keys(s) + {op.key}| <= capacity
    ensures Complete(Step(capacity, s, op), RefStep(m, op), t')
    ensures Keys(Step(capacity, s, op)) <= Keys(s) + (if op.Set? then {op.key} else {})
  {
    StepKeys(capacity, s, op);
    forall k | k in RefStep(m, op) && Lookup(Step(capacity, s, op), k).None?
      ensures RefStep(m, op)[k].expiration <= t'
    {
      CompleteKey(capacity, s, m, op, t, t', k);
    }
  }

  lemma {:induction false} CompleteRun<V>(capacity: nat, s: seq<Entry<V>>, m: map<string, Entry<V>>, ops: seq<Op<V>>, t: int)
    requires Ok(capacity, s) && Fresh(s, m) && Complete(s, m, t)
    requires Monotone(t, ops) && |Keys(s) + KeysSet(ops)| <= capacity
    ensures Complete(Run(capacity, s, ops), RefRun(m, ops), LastClock(t, ops))
    decreases |ops|
  {
    if ops != [] {
      var op := ops[0];
      var t' := if ReadsClock(op) then op.now else t;
      var all := Keys(s) + KeysSet(ops);
      var here := if op.Set? then {op.key} else {};
      assert here <= KeysSet(ops);
      assert KeysSet(ops[1..]) <= KeysSet(ops);
      SubsetSize(Keys(s) + here, all);
      CompleteStep(capacity, s, m, op, t, t');
      FreshStep(capacity, s, m, op);
      SubsetSize(Keys(Step(capacity, s, op)) + KeysSet(ops[1..]), all);
      CompleteRun(capacity, Step(capacity, s, op), RefStep(m, op), ops[1..], t');
    }
  }

  /**
   When the clock never goes back and a run sets at most `capacity` distinct keys, the cache
   answers exactly like the unbounded map, hit or miss.
   */
  lemma LargeEnoughCacheIsExact<V>(capacity: nat, ops: seq<Op<V>>, t: int, k: string, now: int)
    requires Monotone(t, ops) && LastClock(t, ops) <= now
    requires |KeysSet(ops)| <= capacity
    ensures Answer(Run(capacity, [], ops), k, now) == RefAnswer(RefRun(map[], ops), k, now)
  {
    assert Keys<V>([]) + KeysSet(ops) == KeysSet(ops);
    CompleteRun(capacity, [], map[], ops, t);
    FreshRun(capacity, [], map[], ops);
  }

  // ----- what holds a slot -----

  /** A map without a bound that forgets what the cache removes: deleted, or found expired by a lookup or a sweep. */
  function LiveStep<V>(m: map<string, Entry<V>>, op: Op<V>): map<string, Entry<V>> {
    match op
    case Set(k, v, ttl, now) => m[k := Entry(k, v, now + ttl)]
    case Get(k, now) => if k in m && now >= m[k].expiration then m - {k} else m
    case Delete(k) => m - {k}
    case Clear => map[]
    case Cleanup(now) => map k | k in m && now < m[k].expiration :: m[k]
  }

  function LiveRun<V>(m: map<string, Entry<V>>, ops: seq<Op<V>>): map<string, Entry<V>>
    decreases |ops|
  {
    if |ops| == 0 then m else LiveRun(LiveStep(m, ops[0]), ops[1..])
  }

  lemma SweptKeys<V>(s: seq<Entry<V>>, now: int, k: string)
    requires Distinct(s)
    ensures k in ExpiredKeys(s, now) <==> Lookup(s, k).Some? && now >= Lookup(s, k).value.expiration
  {
    LookupFacts(s, k);
    if Lookup(s, k).Some? {
      var i :| 0 <= i < |s| && s[i] == Lookup(s, k).value;
    }
    if k in ExpiredKeys(s, now) {
      var i :| 0 <= i < |s| && now >= s[i].expiration && s[i].key == k;
    }
  }

  lemma LiveKey<V>(capacity: nat, s: seq<Entry<V>>, m: map<string, Entry<V>>, op: Op<V>, k: string)
    requires Ok(capacity, s) && Fresh(s, m)
    ensures Lookup(Step(capacity, s, op), k).Some? ==>
              k in LiveStep(m, op) && LiveStep(m, op)[k] == Lookup(Step(capacity, s, op), k).value
  {
    if Lookup(Step(capacity, s, op), k).Some? {
      StepLookup(capacity, s, op, k);
      match op {
        case Get(j, now) => LookupDrop(s, {j}, k);
        case Cleanup(now) =>
          LookupDrop(s, ExpiredKeys(s, now), k);
          SweptKeys(s, now, k);
        case _ =>
      }
    }
  }

  lemma {:induction false} LiveHolds<V>(capacity: nat, s: seq<Entry<V>>, m: map<string, Entry<V>>, ops: seq<Op<V>>)
    requires Ok(capacity, s) && Fresh(s, m)
    ensures Fresh(Run(capacity, s, ops), LiveRun(m, ops))
    decreases |ops|
  {
    if |ops| > 0 {
      StepOk(capacity, s, ops[0]);
      forall k | Lookup(Step(capacity, s, ops[0]), k).Some?
        ensures k in LiveStep(m, ops[0]) && LiveStep(m, ops[0])[k] == Lookup(Step(capacity, s, ops[0]), k).value
      {
        LiveKey(capacity, s, m, ops[0], k);
      }
      LiveHolds(capacity, Step(capacity, s, ops[0]), LiveStep(m, ops[0]), ops[1..]);
    }
  }

  /** Slots are held by live entries only: at the end of any run, at any capacity, an entry in the cache was set, and
      since then neither deleted nor found expired, by a lookup or by a sweep. */
  lemma OnlyLiveEntriesHoldSlots<V>(capacity: nat, ops: seq<Op<V>>, k: string)
    requires k in Keys(Run(capacity, [], ops))
    ensures k in LiveRun(map[], ops) && Lookup(Run(capacity, [], ops), k) == Some(LiveRun(map[], ops)[k])
  {
    LookupFacts(Run(capacity, [], ops), k);
    LiveHolds(capacity, [], map[], ops);
  }

  /** The cache holds exactly the entries of the map. */
  ghost predicate Same<V>(s: seq<Entry<V>>, m: map<string, Entry<V>>) {
    Fresh(s, m) && forall k :: k in m ==> Lookup(s, k).Some?
  }

  lemma SameKey<V>(capacity: nat, s: seq<Entry<V>>, m: map<string, Entry<V>>, op: Op<V>, k: string)
    requires Ok(capacity, s) && Same(s, m) && k in LiveStep(m, op)
    requires op.Set? ==> |Keys(s) + {op.key}| <= capacity
    ensures Lookup(Step(capacity, s, op), k).Some?
  {
    LookupFacts(s, k);
    match op {
      case Set(j, v, ttl, now) =>
        var e := Entry(j, v, now + ttl);
        PromoteFacts(s, e);
        PromoteLookup(s, e, k);
        DistinctSize(Promote(s, e));
      case Get(j, now) =>
        LookupDrop(s, {j}, k);
        if Lookup(s, j).Some? {
          PromoteLookup(s, Lookup(s, j).value, k);
        }
      case Delete(j) => LookupDrop(s, {j}, k);
      case Clear =>
      case Cleanup(now) =>
        LookupDrop(s, ExpiredKeys(s, now), k);
        SweptKeys(s, now, k);
    }
  }

  lemma SameStep<V>(capacity: nat, s: seq<Entry<V>>, m: map<string, Entry<V>>, op: Op<V>)
    requires Ok(capacity, s) && Same(s, m)
    requires op.Set? ==> |Keys(s) + {op.key}| <= capacity
    ensures Ok(capacity, Step(capacity, s, op)) && Same(Step(capacity, s, op), LiveStep(m, op))
    ensures Keys(Step(capacity, s, op)) <= Keys(s) + (if op.Set? then {op.key} else {})
  {
    StepOk(capacity, s, op);
    StepKeys(capacity, s, op);
    forall k | Lookup(Step(capacity, s, op), k).Some?
      ensures k in LiveStep(m, op) && LiveStep(m, op)[k] == Lookup(Step(capacity, s, op), k).value
    {
      LiveKey(capacity, s, m, op, k);
    }
    forall k | k in LiveStep(m, op) ensures Lookup(Step(capacity, s, op), k).Some? {
      SameKey(capacity, s, m, op, k);
    }
  }

  lemma {:induction false} SameRun<V>(capacity: nat, s: seq<Entry<V>>, m: map<string, Entry<V>>, ops: seq<Op<V>>)
    requires Ok(capacity, s) && Same(s, m) && |Keys(s) + KeysSet(ops)| <= capacity
    ensures Same(Run(capacity, s, ops), LiveRun(m, ops))
    decreases |ops|
  {
    if |ops| > 0 {
      var op, all := ops[0], Keys(s) + KeysSet(ops);
      var here := if op.Set? then {op.key} else {};
      assert here <= KeysSet(ops) && KeysSet(ops[1..]) <= KeysSet(ops);
      SubsetSize(Keys(s) + here, all);
      SameStep(capacity, s, m, op);
      SubsetSize(Keys(Step(capacity, s, op)) + KeysSet(ops[1..]), all);
      SameRun(capacity, Step(capacity, s, op), LiveStep(m, op), ops[1..]);
    }
  }

  /** With room for every key set, the cache holds exactly the live entries, whatever the clock readings. */
  lemma LargeEnoughCacheHoldsAllLive<V>(capacity: nat, ops: seq<Op<V>>, k: string)
    requires |KeysSet(ops)| <= capacity
    ensures k in Keys(Run(capacity, [], ops)) <==> k in LiveRun(map[], ops)
  {
    assert Keys<V>([]) + KeysSet(ops) == KeysSet(ops);
    SameRun(capacity, [], map[], ops);
    LookupFacts(Run(capacity, [], ops), k);
  }

  lemma {:induction false} NotSetStaysOut<V>(capacity: nat, s: seq<Entry<V>>, ops: seq<Op<V>>, k: string)
    requires Ok(capacity, s) && k !in Keys(s) && k !in KeysSet(ops)
    ensures k !in Keys(Run(capacity, s, ops))
    decreases |ops|
  {
    if |ops| > 0 {
      StepOk(capacity, s, ops[0]);
      StepKeys(capacity, s, ops[0]);
      assert ops[0].Set? ==> ops[0].key in KeysSet(ops);
      assert KeysSet(ops[1..]) <= KeysSet(ops);
      NotSetStaysOut(capacity, Step(capacity, s, ops[0]), ops[1..], k);
    }
  }

  /** A key whose last lookup missed, and that was not set since, holds no slot. */
  lemma MissedKeyHoldsNoSlot<V>(capacity: nat, s: seq<Entry<V>>, k: string, now: int, later: seq<Op<V>>)
    requires Ok(capacity, s) && Answer(s, k, now).None? && k !in KeysSet(later)
    ensures k !in Keys(Run(capacity, Step(capacity, s, Get(k, now)), later))
  {
    StepOk(capacity, s, Get(k, now));
    MissedKeyIsGone(capacity, s, k, now);
    NotSetStaysOut(capacity, Step(capacity, s, Get(k, now)), later, k);
  }

  // ----- working-set retention -----

  /** The keys that would be evicted after `k`'s elders: those more recently used than `k`. */
  function Ahead<V>(s: seq<Entry<V>>, k: string): set<string> {
    if |s| == 0 || s[0].key == k then {} else {s[0].key} + Ahead(s[1..], k)
  }

  lemma {:induction false} AheadDrop<V>(s: seq<Entry<V>>, gone: set<string>, k: string)
    requires k in Keys(s) && k !in gone
    ensures Ahead(Drop(s, gone), k) == Ahead(s, k) - gone
  {
    assert s == [s[0]] + s[1..];
    KeysCons(s[0], s[1..]);
    if s[0].key != k {
      AheadDrop(s[1..], gone, k);
    }
  }

  lemma {:induction false} AheadOfLastKeys<V>(s: seq<Entry<V>>)
    requires s != [] && Distinct(s)
    ensures Ahead(s, s[|s| - 1].key) == Keys(s[..|s| - 1])
  {
    if |s| > 1 {
      var rest := s[1..];
      DistinctTail(s);
      AheadOfLastKeys(rest);
      assert s[..|s| - 1] == [s[0]] + rest[..|rest| - 1];
      KeysCons(s[0], rest[..|rest| - 1]);
    }
  }

  lemma AheadOfLast<V>(s: seq<Entry<V>>)
    requires s != [] && Distinct(s)
    ensures |Ahead(s, s[|s| - 1].key)| == |s| - 1
  {
    AheadOfLastKeys(s);
    DistinctSize(s[..|s| - 1]);
  }

  lemma {:induction false} AheadSmall<V>(s: seq<Entry<V>>, k: string)
    requires k in Keys(s)
    ensures |Ahead(s, k)| < |s|
  {
    assert s == [s[0]] + s[1..];
    KeysCons(s[0], s[1..]);
    if s[0].key != k {
      AheadSmall(s[1..], k);
    }
  }

  lemma AheadPromote<V>(s: seq<Entry<V>>, e: Entry<V>, k: string)
    requires k in Keys(s) && e.key != k
    ensures Ahead(Promote(s, e), k) == Ahead(s, k) + {e.key}
  {
    AheadDrop(s, {e.key}, k);
    assert Promote(s, e)[1..] == Drop(s, {e.key});
  }

  /** The key other than `k` that a call uses: one it sets, or one it asks for and finds. */
  function UsedBy<V>(s: seq<Entry<V>>, op: Op<V>, k: string): set<string> {
    match op
    case Set(j, _, _, _) => if j != k then {j} else {}
    case Get(j, now) => if j != k && Answer(s, j, now).Some? then {j} else {}
    case _ => {}
  }

  /** The keys other than `k` that a run uses. */
  function Used<V>(capacity: nat, s: seq<Entry<V>>, ops: seq<Op<V>>, k: string): set<string>
    decreases |ops|
  {
    if |ops| == 0 then {} else UsedBy(s, ops[0], k) + Used(capacity, Step(capacity, s, ops[0]), ops[1..], k)
  }

  /** The entry under `e.key` after one call that does not disturb it. */
  function After<V>(e: Entry<V>, op: Op<V>): Entry<V> {
    if op.Set? && op.key == e.key then Entry(e.key, op.value, op.now + op.ttl) else e
  }

  function Current<V>(e: Entry<V>, ops: seq<Op<V>>): Entry<V>
    decreases |ops|
  {
    if |ops| == 0 then e else Current(After(e, ops[0]), ops[1..])
  }

  /** The call does not delete `e.key`, and does not find it expired where it would remove it. */
  predicate Spares<V>(op: Op<V>, e: Entry<V>) {
    match op
    case Set(_, _, _, _) => true
    case Get(k, now) => k == e.key ==> now < e.expiration
    case Delete(k) => k != e.key
    case Clear => false
    case Cleanup(now) => now < e.expiration
  }

  predicate Undisturbed<V>(e: Entry<V>, ops: seq<Op<V>>)
    decreases |ops|
  {
    |ops| == 0 || (Spares(ops[0], e) && Undisturbed(After(e, ops[0]), ops[1..]))
  }

  ghost predicate Retaining<V>(capacity: nat, s: seq<Entry<V>>, e: Entry<V>, working: set<string>) {
    Ok(capacity, s) && Lookup(s, e.key) == Some(e) && Ahead(s, e.key) <= working && |working| < capacity
  }

  lemma RetainSet<V>(capacity: nat, s: seq<Entry<V>>, f: Entry<V>, e: Entry<V>, working: set<string>)
    requires Retaining(capacity, s, e, working) && f.key != e.key && f.key in working
    ensures Lookup(Promote(s, f), e.key) == Some(e) && Ahead(Promote(s, f), e.key) <= working
    ensures |Promote(s, f)| > capacity ==>
              Lookup(Evict(Promote(s, f)), e.key) == Some(e) && Ahead(Evict(Promote(s, f)), e.key) <= working
  {
    var k, t := e.key, Promote(s, f);
    LookupFacts(s, k);
    PromoteFacts(s, f);
    PromoteLookup(s, f, k);
    AheadPromote(s, f, k);
    if |t| > capacity {
      var last := t[|t| - 1].key;
      assert last != k by {
        AheadOfLast(t);
        SubsetSize(Ahead(t, k), working);
      }
      EvictFacts(t);
      LookupDrop(t, {last}, k);
      LookupFacts(t, k);
      AheadDrop(t, {last}, k);
    }
  }

  lemma RetainGet<V>(capacity: nat, s: seq<Entry<V>>, j: string, now: int, e: Entry<V>, working: set<string>)
    requires Retaining(capacity, s, e, working)
    requires if j == e.key then now < e.expiration else j in working
    ensures Lookup(Step(capacity, s, Get(j, now)), e.key) == Some(e)
    ensures Ahead(Step(capacity, s, Get(j, now)), e.key) <= working
  {
    LookupFacts(s, e.key);
    LookupFacts(s, j);
    LookupDrop(s, {j}, e.key);
    if j != e.key {
      AheadDrop(s, {j}, e.key);
      if Lookup(s, j).Some? {
        PromoteLookup(s, Lookup(s, j).value, e.key);
        AheadPromote(s, Lookup(s, j).value, e.key);
      }
    }
  }

  lemma RetainDrop<V>(s: seq<Entry<V>>, gone: set<string>, e: Entry<V>)
    requires Lookup(s, e.key) == Some(e) && e.key !in gone
    ensures Lookup(Drop(s, gone), e.key) == Some(e)
    ensures Ahead(Drop(s, gone), e.key) <= Ahead(s, e.key)
  {
    LookupFacts(s, e.key);
    LookupDrop(s, gone, e.key);
    AheadDrop(s, gone, e.key);
  }

  /** One undisturbing call keeps the key and puts at most its own key ahead of it. */
  lemma RetainStep<V>(capacity: nat, s: seq<Entry<V>>, op: Op<V>, e: Entry<V>, working: set<string>)
    requires Retaining(capacity, s, e, working) && Spares(op, e)
    requires UsedBy(s, op, e.key) <= working
    ensures Retaining(capacity, Step(capacity, s, op), After(e, op), working)
  {
    var k := e.key;
    StepOk(capacity, s, op);
    match op {
      case Set(j, v, ttl, now) =>
        LookupFacts(s, k);
        if j == k {
          PromoteLookup(s, Entry(j, v, now + ttl), k);
        } else {
          RetainSet(capacity, s, Entry(j, v, now + ttl), e, working);
        }
      case Get(j, now) =>
        LookupFacts(s, k);
        if j == k || Answer(s, j, now).Some? {
          RetainGet(capacity, s, j, now, e, working);
        } else if Lookup(s, j).Some? {
          RetainDrop(s, {j}, e);
        }
      case Delete(j) => RetainDrop(s, {j}, e);
      case Cleanup(now) =>
        if k in ExpiredKeys(s, now) {
          var i :| 0 <= i < |s| && now >= s[i].expiration && s[i].key == k;
          LookupFacts(s, k);
        }
        RetainDrop(s, ExpiredKeys(s, now), e);
    }
  }

  lemma {:induction false} RetainRun<V>(capacity: nat, s: seq<Entry<V>>, ops: seq<Op<V>>, e: Entry<V>, working: set<string>)
    requires Retaining(capacity, s, e, working) && Undisturbed(e, ops)
    requires Used(capacity, s, ops, e.key) <= working
    ensures Lookup(Run(capacity, s, ops), e.key) == Some(Current(e, ops))
    decreases |ops|
  {
    if ops != [] {
      RetainStep(capacity, s, ops[0], e, working);
      RetainRun(capacity, Step(capacity, s, ops[0]), ops[1..], After(e, ops[0]), working);
    }
  }

  /**
   Working-set retention.  The most recently used entry stays, through any calls that set or hit
   fewer than `capacity` distinct other keys, never delete it and never find it expired.  Misses
   and keys found expired do not count.
   */
  lemma WorkingSetRetained<V>(capacity: nat, s: seq<Entry<V>>, ops: seq<Op<V>>)
    requires Ok(capacity, s) && s != [] && Undisturbed(s[0], ops)
    requires |Used(capacity, s, ops, s[0].key)| < capacity
    ensures Lookup(Run(capacity, s, ops), s[0].key) == Some(Current(s[0], ops))
  {
    RetainRun(capacity, s, ops, s[0], Used(capacity, s, ops, s[0].key));
  }

  // ----- and the bound is sharp -----

  predicate UsesOther<V>(s: seq<Entry<V>>, op: Op<V>, k: string) {
    match op
    case Set(j, _, _, _) => j != k
    case Get(j, now) => j != k && (Lookup(s, j).Some? ==> now < Lookup(s, j).value.expiration)
    case _ => false
  }

  /** Only other keys are set or asked for, and none of them is found expired: entries leave by eviction alone. */
  predicate OnlyUses<V>(capacity: nat, s: seq<Entry<V>>, ops: seq<Op<V>>, k: string)
    decreases |ops|
  {
    |ops| == 0 || (UsesOther(s, ops[0], k) && OnlyUses(capacity, Step(capacity, s, ops[0]), ops[1..], k))
  }

  lemma EvictKeepsAhead<V>(t: seq<Entry<V>>, k: string)
    requires t != [] && Distinct(t) && k in Keys(Evict(t))
    ensures Ahead(Evict(t), k) == Ahead(t, k)
  {
    var i :| 0 <= i < |t| - 1 && t[i].key == k;
    if i > 0 {
      DistinctTail(t);
      assert Evict(t)[1..] == Evict(t[1..]);
      assert t[1..][i - 1].key == k;
      assert Evict(t[1..])[i - 1].key == k;
      EvictKeepsAhead(t[1..], k);
      assert t[0].key != k;
    }
  }

  lemma SetPushesBack<V>(capacity: nat, s: seq<Entry<V>>, f: Entry<V>, k: string, before: set<string>)
    requires Ok(capacity, s) && f.key != k
    requires k in Keys(s) ==> before <= Ahead(s, k)
    ensures k in Keys(Stored(capacity, s, f)) ==> before + {f.key} <= Ahead(Stored(capacity, s, f), k)
  {
    var t, s' := Promote(s, f), Stored(capacity, s, f);
    PromoteFacts(s, f);
    EvictFacts(t);
    DropFacts(t, {t[|t| - 1].key});
    if k in Keys(s') {
      AheadPromote(s, f, k);
      if s' != t {
        AheadDrop(t, {t[|t| - 1].key}, k);
        EvictKeepsAhead(t, k);
      }
    }
  }

  lemma UsePushesBack<V>(capacity: nat, s: seq<Entry<V>>, op: Op<V>, k: string, before: set<string>)
    requires Ok(capacity, s) && UsesOther(s, op, k)
    requires k in Keys(s) ==> before <= Ahead(s, k)
    ensures k in Keys(Step(capacity, s, op)) ==> before + UsedBy(s, op, k) <= Ahead(Step(capacity, s, op), k)
  {
    match op {
      case Set(j, v, ttl, now) => SetPushesBack(capacity, s, Entry(j, v, now + ttl), k, before);
      case Get(j, now) =>
        LookupFacts(s, j);
        if Lookup(s, j).Some? {
          PromoteFacts(s, Lookup(s, j).value);
          if k in Keys(s) {
            AheadPromote(s, Lookup(s, j).value, k);
          }
        }
    }
  }

  /** While `k` survives uses of other keys, all of them are ahead of it. */
  lemma {:induction false} UsesPushBack<V>(capacity: nat, s: seq<Entry<V>>, ops: seq<Op<V>>, k: string, before: set<string>)
    requires Ok(capacity, s) && OnlyUses(capacity, s, ops, k)
    requires k in Keys(s) ==> before <= Ahead(s, k)
    ensures k in Keys(Run(capacity, s, ops)) ==>
              before + Used(capacity, s, ops, k) <= Ahead(Run(capacity, s, ops), k)
    decreases |ops|
  {
    if |ops| > 0 {
      StepOk(capacity, s, ops[0]);
      UsePushesBack(capacity, s, ops[0], k, before);
      UsesPushBack(capacity, Step(capacity, s, ops[0]), ops[1..], k, before + UsedBy(s, ops[0], k));
    }
  }

  lemma {:induction false} UsesUndisturbed<V>(capacity: nat, s: seq<Entry<V>>, e: Entry<V>, ops: seq<Op<V>>)
    requires OnlyUses(capacity, s, ops, e.key)
    ensures Undisturbed(e, ops) && Current(e, ops) == e
    decreases |ops|
  {
    if |ops| > 0 {
      UsesUndisturbed(capacity, Step(capacity, s, ops[0]), e, ops[1..]);
    }
  }

  /** A run of uses and misses of other keys evicts the entry exactly when it uses `capacity` of them or more. */
  lemma WorkingSetBoundIsSharp<V>(capacity: nat, s: seq<Entry<V>>, ops: seq<Op<V>>)
    requires Ok(capacity, s) && s != [] && OnlyUses(capacity, s, ops, s[0].key)
    ensures s[0].key in Keys(Run(capacity, s, ops)) <==> |Used(capacity, s, ops, s[0].key)| < capacity
  {
    var k, t := s[0].key, Run(capacity, s, ops);
    if |Used(capacity, s, ops, k)| < capacity {
      UsesUndisturbed(capacity, s, s[0], ops);
      WorkingSetRetained(capacity, s, ops);
      LookupFacts(t, k);
    } else if k in Keys(t) {
      RunOk(capacity, s, ops);
      UsesPushBack(capacity, s, ops, k, {});
      AheadSmall(t, k);
      SubsetSize(Used(capacity, s, ops, k), Ahead(t, k));
    }
  }
}
