/**
 The abstract cache: a sequence of entries, most recently used first.  Every operation is a
 function of the capacity, the entries and the clock readings it takes, so whole runs can be
 compared with each other.  `LruCache` refines these functions with a linked list and a map.
 */
module LruSpec {
  import opened Wrappers

  datatype Entry<V> = Entry(key: string, value: V, expiration: int)

  /** One call on the cache, with the clock reading it takes. */
  datatype Op<V> =
    | Set(key: string, value: V, ttl: int, now: int)
    | Get(key: string, now: int)
    | Delete(key: string)
    | Clear
    | Cleanup(now: int)

  function Keys<V>(s: seq<Entry<V>>): set<string> {
    set i | 0 <= i < |s| :: s[i].key
  }

  ghost predicate Distinct<V>(s: seq<Entry<V>>) {
    forall i, j :: 0 <= i < j < |s| ==> s[i].key != s[j].key
  }

  /** The entries whose keys are not in `gone`, in order. */
  function Drop<V>(s: seq<Entry<V>>, gone: set<string>): seq<Entry<V>> {
    if |s| == 0 then []
    else if s[0].key in gone then Drop(s[1..], gone)
    else [s[0]] + Drop(s[1..], gone)
  }

  function Lookup<V>(s: seq<Entry<V>>, k: string): Option<Entry<V>> {
    if |s| == 0 then None
    else if s[0].key == k then Some(s[0])
    else Lookup(s[1..], k)
  }

  function ExpiredKeys<V>(s: seq<Entry<V>>, now: int): set<string> {
    set i | 0 <= i < |s| && now >= s[i].expiration :: s[i].key
  }

  /** What a `Get` of `k` at `now` answers. */
  function Answer<V>(s: seq<Entry<V>>, k: string, now: int): Option<V> {
    match Lookup(s, k)
    case None => None
    case Some(e) => if now >= e.expiration then None else Some(e.value)
  }

  /** `e` becomes the only entry under its key, and the most recently used one. */
  function Promote<V>(s: seq<Entry<V>>, e: Entry<V>): seq<Entry<V>> {
    [e] + Drop(s, {e.key})
  }

  /** The least recently used entry goes. */
  function Evict<V>(s: seq<Entry<V>>): seq<Entry<V>>
    requires s != []
  {
    s[..|s| - 1]
  }

  /** Storing an entry: a new key that does not fit pushes out the least recently used entry. */
  function Stored<V>(capacity: nat, s: seq<Entry<V>>, e: Entry<V>): seq<Entry<V>> {
    var t := Promote(s, e);
    if e.key !in Keys(s) && |t| > capacity then Evict(t) else t
  }

  function Step<V>(capacity: nat, s: seq<Entry<V>>, op: Op<V>): seq<Entry<V>> {
    match op
    case Set(k, v, ttl, now) => Stored(capacity, s, Entry(k, v, now + ttl))
    case Get(k, now) =>
      (match Lookup(s, k)
       case None => s
       case Some(e) => if now >= e.expiration then Drop(s, {k}) else Promote(s, e))
    case Delete(k) => Drop(s, {k})
    case Clear => []
    case Cleanup(now) => Drop(s, ExpiredKeys(s, now))
  }

  function Run<V>(capacity: nat, s: seq<Entry<V>>, ops: seq<Op<V>>): seq<Entry<V>>
    decreases |ops|
  {
    if |ops| == 0 then s else Run(capacity, Step(capacity, s, ops[0]), ops[1..])
  }

  lemma {:induction false} RunSnoc<V>(capacity: nat, s: seq<Entry<V>>, ops: seq<Op<V>>, op: Op<V>)
    ensures Run(capacity, s, ops + [op]) == Step(capacity, Run(capacity, s, ops), op)
    decreases |ops|
  {
    if ops == [] {
      assert [op][1..] == [];
      assert ops + [op] == [op];
    } else {
      assert (ops + [op])[1..] == ops[1..] + [op];
      RunSnoc(capacity, Step(capacity, s, ops[0]), ops[1..], op);
    }
  }

  ghost predicate Ok<V>(capacity: nat, s: seq<Entry<V>>) {
    Distinct(s) && |s| <= capacity
  }

  // ----- the algebra of Drop -----

  lemma KeysConcat<V>(a: seq<Entry<V>>, b: seq<Entry<V>>)
    ensures Keys(a + b) == Keys(a) + Keys(b)
  {
    forall k | k in Keys(a) + Keys(b) ensures k in Keys(a + b) {
      if k in Keys(a) {
        var i :| 0 <= i < |a| && a[i].key == k;
        assert (a + b)[i].key == k;
      } else {
        var i :| 0 <= i < |b| && b[i].key == k;
        assert (a + b)[|a| + i].key == k;
      }
    }
  }

  lemma DistinctTail<V>(s: seq<Entry<V>>)
    requires s != [] && Distinct(s)
    ensures Distinct(s[1..]) && s[0].key !in Keys(s[1..])
  {
    forall i, j | 0 <= i < j < |s| - 1 ensures s[1..][i].key != s[1..][j].key {
      assert s[i + 1].key != s[j + 1].key;
    }
  }

  lemma KeysCons<V>(e: Entry<V>, s: seq<Entry<V>>)
    ensures Keys([e] + s) == {e.key} + Keys(s)
    ensures Distinct([e] + s) <==> Distinct(s) && e.key !in Keys(s)
  {
    KeysConcat([e], s);
    assert Keys([e]) == {e.key} by { assert [e][0].key == e.key; }
    if Distinct([e] + s) {
      DistinctTail([e] + s);
    }
  }

  lemma DropFacts<V>(s: seq<Entry<V>>, gone: set<string>)
    ensures Keys(Drop(s, gone)) == Keys(s) - gone
    ensures |Drop(s, gone)| <= |s|
    ensures Distinct(s) ==> Distinct(Drop(s, gone))
  {
    if s != [] {
      var rest := s[1..];
      DropFacts(rest, gone);
      KeysCons(s[0], rest);
      KeysCons(s[0], Drop(rest, gone));
      assert s == [s[0]] + rest;
      if Distinct(s) && s[0].key !in gone {
        assert forall i :: 0 <= i < |rest| ==> rest[i] == s[i + 1];
        assert s[0].key !in Keys(rest);
      }
    }
  }

  lemma {:induction false} DropDrop<V>(s: seq<Entry<V>>, a: set<string>, b: set<string>)
    ensures Drop(Drop(s, a), b) == Drop(s, a + b)
  {
    if s != [] {
      DropDrop(s[1..], a, b);
      if s[0].key !in a {
        assert Drop(s, a)[1..] == Drop(s[1..], a);
      }
    }
  }

  /** Only the part of the set that hits keys of `s` matters. */
  lemma {:induction false} DropAgree<V>(s: seq<Entry<V>>, a: set<string>, b: set<string>)
    requires a * Keys(s) == b * Keys(s)
    ensures Drop(s, a) == Drop(s, b)
  {
    if s != [] {
      assert s == [s[0]] + s[1..];
      KeysCons(s[0], s[1..]);
      assert s[0].key in Keys(s);
      assert s[0].key in a <==> s[0].key in a * Keys(s);
      assert a * Keys(s[1..]) == (a * Keys(s)) * Keys(s[1..]);
      assert b * Keys(s[1..]) == (b * Keys(s)) * Keys(s[1..]);
      DropAgree(s[1..], a, b);
    }
  }

  lemma {:induction false} DropNothing<V>(s: seq<Entry<V>>)
    ensures Drop(s, {}) == s
  {
    if s != [] {
      DropNothing(s[1..]);
    }
  }

  /** The first entry stays in front, or goes. */
  lemma DropHead<V>(a: seq<Entry<V>>, b: seq<Entry<V>>, gone: set<string>)
    requires |a| > 0 && Drop(a[1..] + b, gone) == Drop(a[1..], gone) + Drop(b, gone)
    ensures Drop(a + b, gone) == Drop(a, gone) + Drop(b, gone)
  {
    var rest, after := Drop(a[1..], gone), Drop(b, gone);
    assert (a + b)[0] == a[0] && (a + b)[1..] == a[1..] + b;
    if a[0].key !in gone {
      assert [a[0]] + (rest + after) == ([a[0]] + rest) + after;
    }
  }

  lemma {:induction false} DropConcat<V>(a: seq<Entry<V>>, b: seq<Entry<V>>, gone: set<string>)
    ensures Drop(a + b, gone) == Drop(a, gone) + Drop(b, gone)
  {
    if |a| == 0 {
      assert a + b == b && Drop(a, gone) + Drop(b, gone) == Drop(b, gone);
    } else {
      DropConcat(a[1..], b, gone);
      DropHead(a, b, gone);
    }
  }

  lemma {:induction false} LookupFacts<V>(s: seq<Entry<V>>, k: string)
    ensures Lookup(s, k).Some? <==> k in Keys(s)
    ensures Lookup(s, k).Some? ==> Lookup(s, k).value in s && Lookup(s, k).value.key == k
    ensures Distinct(s) ==> forall i :: 0 <= i < |s| && s[i].key == k ==> Lookup(s, k) == Some(s[i])
  {
    if s != [] {
      assert s == [s[0]] + s[1..];
      KeysCons(s[0], s[1..]);
      LookupFacts(s[1..], k);
      if Distinct(s) {
        forall i | 0 <= i < |s| && s[i].key == k ensures Lookup(s, k) == Some(s[i]) {
          if i > 0 {
            assert s[i] == s[1..][i - 1];
          }
        }
      }
    }
  }

  lemma {:induction false} LookupDrop<V>(s: seq<Entry<V>>, gone: set<string>, k: string)
    ensures Lookup(Drop(s, gone), k) == if k in gone then None else Lookup(s, k)
  {
    if s != [] {
      LookupDrop(s[1..], gone, k);
    }
  }

  lemma {:induction false} DistinctSize<V>(s: seq<Entry<V>>)
    requires Distinct(s)
    ensures |Keys(s)| == |s|
  {
    if s != [] {
      assert s == [s[0]] + s[1..];
      KeysCons(s[0], s[1..]);
      DistinctSize(s[1..]);
    }
  }

  lemma PromoteFacts<V>(s: seq<Entry<V>>, e: Entry<V>)
    requires Distinct(s)
    ensures Distinct(Promote(s, e)) && Keys(Promote(s, e)) == Keys(s) + {e.key}
    ensures |Promote(s, e)| == if e.key in Keys(s) then |s| else |s| + 1
  {
    DropFacts(s, {e.key});
    KeysCons(e, Drop(s, {e.key}));
    DistinctSize(s);
    DistinctSize(Drop(s, {e.key}));
  }

  lemma PromoteLookup<V>(s: seq<Entry<V>>, e: Entry<V>, k: string)
    ensures Lookup(Promote(s, e), k) == if k == e.key then Some(e) else Lookup(s, k)
  {
    assert Promote(s, e)[1..] == Drop(s, {e.key});
    LookupDrop(s, {e.key}, k);
  }

  /** Unlinking the entry at one position is dropping its key. */
  lemma {:induction false} DropAt<V>(s: seq<Entry<V>>, i: nat)
    requires i < |s| && Distinct(s)
    ensures Drop(s, {s[i].key}) == s[..i] + s[i + 1..]
  {
    DistinctTail(s);
    if i == 0 {
      DropAgree(s[1..], {s[0].key}, {});
      DropNothing(s[1..]);
    } else {
      assert s[1..][i - 1] == s[i] && s[1..][i..] == s[i + 1..];
      DropAt(s[1..], i - 1);
      assert s[..i] == [s[0]] + s[1..][..i - 1];
    }
  }

  /** Evicting the last entry is dropping its key. */
  lemma EvictFacts<V>(s: seq<Entry<V>>)
    requires s != [] && Distinct(s)
    ensures Evict(s) == Drop(s, {s[|s| - 1].key})
  {
    DropAt(s, |s| - 1);
  }

  // ----- one step -----

  lemma StoredOk<V>(capacity: nat, s: seq<Entry<V>>, e: Entry<V>)
    requires Ok(capacity, s)
    ensures Ok(capacity, Stored(capacity, s, e))
  {
    PromoteFacts(s, e);
  }

  lemma DropOk<V>(capacity: nat, s: seq<Entry<V>>, gone: set<string>)
    requires Ok(capacity, s)
    ensures Ok(capacity, Drop(s, gone))
  {
    DropFacts(s, gone);
  }

  lemma PromoteOk<V>(capacity: nat, s: seq<Entry<V>>, k: string)
    requires Ok(capacity, s) && Lookup(s, k).Some?
    ensures Ok(capacity, Promote(s, Lookup(s, k).value))
  {
    LookupFacts(s, k);
    PromoteFacts(s, Lookup(s, k).value);
  }

  /** Distinct keys and the capacity bound are kept by every operation. */
  lemma StepOk<V>(capacity: nat, s: seq<Entry<V>>, op: Op<V>)
    requires Ok(capacity, s)
    ensures Ok(capacity, Step(capacity, s, op))
  {
    match op {
      case Set(k, v, ttl, now) => StoredOk(capacity, s, Entry(k, v, now + ttl));
      case Get(k, now) =>
        DropOk(capacity, s, {k});
        if Lookup(s, k).Some? {
          PromoteOk(capacity, s, k);
        }
      case Delete(k) => DropOk(capacity, s, {k});
      case Clear =>
      case Cleanup(now) => DropOk(capacity, s, ExpiredKeys(s, now));
    }
  }

  lemma {:induction false} RunOk<V>(capacity: nat, s: seq<Entry<V>>, ops: seq<Op<V>>)
    requires Ok(capacity, s)
    ensures Ok(capacity, Run(capacity, s, ops))
    decreases |ops|
  {
    if ops != [] {
      StepOk(capacity, s, ops[0]);
      RunOk(capacity, Step(capacity, s, ops[0]), ops[1..]);
    }
  }

  /**
   The entry an operation leaves under a key: the one a `Set` of that key has just stored,
   or else the one that was there before.  Nothing else ever appears.
   */
  lemma StepLookup<V>(capacity: nat, s: seq<Entry<V>>, op: Op<V>, k: string)
    requires Ok(capacity, s)
    requires Lookup(Step(capacity, s, op), k).Some?
    ensures Lookup(Step(capacity, s, op), k) ==
            if op.Set? && op.key == k then Some(Entry(k, op.value, op.now + op.ttl)) else Lookup(s, k)
    ensures !op.Clear? && !(op.Delete? && op.key == k)
  {
    match op {
      case Set(j, v, ttl, now) =>
        var t := Promote(s, Entry(j, v, now + ttl));
        PromoteFacts(s, Entry(j, v, now + ttl));
        PromoteLookup(s, Entry(j, v, now + ttl), k);
        EvictFacts(t);
        LookupDrop(t, {t[|t| - 1].key}, k);
      case Get(j, now) =>
        LookupFacts(s, j);
        LookupDrop(s, {j}, k);
        if Lookup(s, j).Some? {
          PromoteLookup(s, Lookup(s, j).value, k);
        }
      case Delete(j) => LookupDrop(s, {j}, k);
      case Clear =>
      case Cleanup(now) => LookupDrop(s, ExpiredKeys(s, now), k);
    }
  }

  /** A `Get` that misses leaves no entry under its key, whether there was none or it had expired. */
  lemma MissedKeyIsGone<V>(capacity: nat, s: seq<Entry<V>>, k: string, now: int)
    requires Answer(s, k, now).None?
    ensures k !in Keys(Step(capacity, s, Get(k, now)))
  {
    LookupFacts(s, k);
    DropFacts(s, {k});
  }

  lemma DropTwice<V>(s: seq<Entry<V>>, gone: set<string>)
    ensures Drop(Drop(s, gone), gone) == Drop(s, gone)
  {
    DropDrop(s, gone, gone);
    assert gone + gone == gone;
  }

  lemma PromotedFront<V>(s: seq<Entry<V>>, e: Entry<V>)
    requires Distinct(s) && e.key in Keys(s)
    ensures Drop(Promote(s, e), {e.key}) == Drop(s, {e.key}) && |Promote(s, e)| == |s| && Promote(s, e)[0] == e
  {
    assert Promote(s, e)[1..] == Drop(s, {e.key});
    DropTwice(s, {e.key});
    PromoteFacts(s, e);
  }

  /** A hit puts its entry in front, and any `Get` leaves the other entries as they were, in order. */
  lemma GetKeepsOthers<V>(capacity: nat, s: seq<Entry<V>>, k: string, now: int)
    requires Distinct(s)
    ensures var t := Step(capacity, s, Get(k, now));
            && Drop(t, {k}) == Drop(s, {k})
            && (Answer(s, k, now).Some? ==> |t| == |s| > 0 && Lookup(s, k) == Some(t[0]))
  {
    LookupFacts(s, k);
    if Answer(s, k, now).Some? {
      PromotedFront(s, Lookup(s, k).value);
    } else {
      DropTwice(s, {k});
    }
  }
}
