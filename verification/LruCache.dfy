/**
 The cache itself: a doubly linked list between two sentinels and a map from keys to its nodes,
 both rewired in place.  Every public method refines its counterpart in `LruSpec`.  The clock is
 an argument; the lock makes each method one step.
 */
module LruCache {
  import opened Wrappers
  import opened LruSpec
  import opened LruTheorems

  class CacheItem<V(0)> {
    var value: V
    var expiration: int
    const key: string
    var prev: CacheItem?<V>
    var next: CacheItem?<V>

    constructor (key: string, value: V, expiration: int)
      ensures this.key == key && this.value == value && this.expiration == expiration
    {
      this.key, this.value, this.expiration := key, value, expiration;
      prev, next := null, null;
    }

    constructor Sentinel()
    {
      key, expiration := "", 0;
      prev, next := null, null;
    }

    ghost function AsEntry(): Entry<V>
      reads this`value, this`expiration
    {
      Entry(key, value, expiration)
    }
  }

  class LruCache<V(0)> {
    const capacity: nat
    var items: map<string, CacheItem<V>>
    const head: CacheItem<V>
    const tail: CacheItem<V>
    /** The nodes along `next`, sentinels included. */
    ghost var chain: seq<CacheItem<V>>
    /** The entries of the nodes between the sentinels, most recently used first. */
    ghost var contents: seq<Entry<V>>
    /** The calls made so far. */
    ghost var history: seq<Op<V>>
    ghost var Repr: set<object>

    static ghost predicate Differ(c: seq<CacheItem<V>>, i: int, j: int) {
      0 <= i < j < |c| ==> c[i] != c[j]
    }

    static ghost predicate Apart(c: seq<CacheItem<V>>) {
      forall i, j :: Differ(c, i, j)
    }

    static lemma ApartFacts(c: seq<CacheItem<V>>)
      requires Apart(c)
      ensures forall i, j :: 0 <= i < j < |c| ==> c[i] != c[j]
    {
      forall i, j | 0 <= i < j < |c| ensures c[i] != c[j] {
        assert Differ(c, i, j);
      }
    }

    /** The nodes are distinct, and `prev` and `next` are inverse to each other along the chain. */
    ghost predicate Linked()
      reads this`chain, chain`prev, chain`next
    {
      && |chain| >= 2 && chain[0] == head && chain[|chain| - 1] == tail
      && Apart(chain)
      && (forall i {:trigger chain[i].next} :: 0 <= i < |chain| - 1 ==> chain[i].next == chain[i + 1])
      && (forall i {:trigger chain[i].prev} :: 0 < i < |chain| ==> chain[i].prev == chain[i - 1])
    }

    /** `t` lists the payload of the nodes between the sentinels. */
    static ghost predicate Mirrors(t: seq<Entry<V>>, c: seq<CacheItem<V>>)
      reads c`value, c`expiration
    {
      |t| + 2 == |c| && forall i :: 0 < i < |c| - 1 ==> t[i - 1] == c[i].AsEntry()
    }

    /** The map holds exactly the nodes between the sentinels, each under its own key. */
    static ghost predicate Indexes(m: map<string, CacheItem<V>>, c: seq<CacheItem<V>>) {
      && (forall i :: 0 < i < |c| - 1 ==> c[i].key in m && m[c[i].key] == c[i])
      && (forall k :: k in m ==> exists i :: 0 < i < |c| - 1 && c[i].key == k)
    }

    static ghost predicate Within(c: seq<CacheItem<V>>, objects: set<object>) {
      forall i :: 0 <= i < |c| ==> c[i] in objects
    }

    ghost predicate Consistent()
      reads this`chain, this`contents, this`items, this`Repr, chain
    {
      && this in Repr && Within(chain, Repr)
      && Linked() && Mirrors(contents, chain) && Indexes(items, chain)
    }

    ghost predicate Valid()
      reads this, Repr, chain
    {
      Consistent() && |contents| <= capacity && contents == Run(capacity, [], history)
    }

    constructor (capacity: nat)
      ensures Valid() && contents == [] && history == [] && this.capacity == capacity
      ensures fresh(Repr)
    {
      this.capacity := capacity;
      items := map[];
      var h := new CacheItem<V>.Sentinel();
      var t := new CacheItem<V>.Sentinel();
      h.next := t;
      t.prev := h;
      head, tail, chain, contents, history, Repr := h, t, [h, t], [], [], {this, h, t};
    }

    // ----- the linked list -----

    method AddToFront(item: CacheItem<V>)
      requires Linked() && item !in chain
      modifies this`chain, chain`prev, chain`next, item`prev, item`next
      ensures Linked() && chain == old([chain[0], item] + chain[1..])
    {
      ApartFacts(chain);
      assert chain[0].next == chain[1] && chain[1].prev == chain[0];
      item.next := head.next;
      item.prev := head;
      head.next.prev := item;
      head.next := item;
      chain := [chain[0], item] + chain[1..];
    }

    method Remove(item: CacheItem<V>, ghost at: nat)
      requires Linked() && 0 < at < |chain| - 1 && chain[at] == item
      modifies this`chain, chain`prev, chain`next
      ensures Linked() && chain == old(chain[..at] + chain[at + 1..])
    {
      ApartFacts(chain);
      assert item.prev == chain[at - 1] && item.next == chain[at + 1];
      item.prev.next := item.next;
      item.next.prev := item.prev;
      item.prev := null;
      item.next := null;
      chain := chain[..at] + chain[at + 1..];
    }

    method MoveToFront(item: CacheItem<V>, ghost at: nat)
      requires Linked() && 0 < at < |chain| - 1 && chain[at] == item
      modifies this`chain, chain`prev, chain`next
      ensures Linked() && chain == old([chain[0], item] + (chain[..at] + chain[at + 1..])[1..])
    {
      ApartFacts(chain);
      Remove(item, at);
      AddToFront(item);
    }

    // ----- the map over the list -----

    ghost function Position(k: string): (at: nat)
      requires Indexes(items, chain) && k in items
      reads this
      ensures 0 < at < |chain| - 1 && chain[at] == items[k] && items[k].key == k
    {
      var i :| 0 < i < |chain| - 1 && chain[i].key == k;
      i
    }

    /** The entries have the keys of the map, each once. */
    lemma ContentsFacts()
      requires Consistent()
      ensures Distinct(contents) && Keys(contents) == items.Keys && |items| == |contents|
    {
      ApartFacts(chain);
      assert forall i :: 0 <= i < |contents| ==> contents[i] == chain[i + 1].AsEntry();
      forall k | k in items ensures k in Keys(contents) {
        assert contents[Position(k) - 1].key == k;
      }
      DistinctSize(contents);
      assert Keys(contents) == items.Keys;
    }

    lemma PresentFacts(k: string)
      requires Consistent() && k in items
      ensures Lookup(contents, k) == Some(items[k].AsEntry())
      ensures Drop(contents, {k}) == contents[..Position(k) - 1] + contents[Position(k)..]
    {
      ContentsFacts();
      LookupFacts(contents, k);
      assert contents[Position(k) - 1] == items[k].AsEntry();
      DropAt(contents, Position(k) - 1);
    }

    lemma AbsentFacts(k: string)
      requires Consistent() && k !in items
      ensures Lookup(contents, k) == None && k !in Keys(contents) && Drop(contents, {k}) == contents
    {
      ContentsFacts();
      LookupFacts(contents, k);
      DropAgree(contents, {k}, {});
      DropNothing(contents);
    }

    static lemma IndexesWithout(m: map<string, CacheItem<V>>, c: seq<CacheItem<V>>, at: nat)
      requires Indexes(m, c) && 0 < at < |c| - 1
      requires Apart(c)
      ensures Indexes(m - {c[at].key}, c[..at] + c[at + 1..])
    {
      ApartFacts(c);
      var c', m' := c[..at] + c[at + 1..], m - {c[at].key};
      forall k | k in m' ensures exists i :: 0 < i < |c'| - 1 && c'[i].key == k {
        var i :| 0 < i < |c| - 1 && c[i].key == k;
        assert c'[if i < at then i else i - 1].key == k;
      }
    }

    static lemma IndexesWith(m: map<string, CacheItem<V>>, c: seq<CacheItem<V>>, item: CacheItem<V>)
      requires Indexes(m, c) && item.key !in m && |c| >= 2
      ensures Indexes(m[item.key := item], [c[0], item] + c[1..])
    {
      var c', m' := [c[0], item] + c[1..], m[item.key := item];
      forall k | k in m' ensures exists i :: 0 < i < |c'| - 1 && c'[i].key == k {
        if k == item.key {
          assert c'[1].key == k;
        } else {
          var i :| 0 < i < |c| - 1 && c[i].key == k;
          assert c'[i + 1].key == k;
        }
      }
    }

    static lemma IndexesMoved(m: map<string, CacheItem<V>>, c: seq<CacheItem<V>>, at: nat)
      requires Indexes(m, c) && 0 < at < |c| - 1
      requires Apart(c)
      ensures Indexes(m, [c[0], c[at]] + (c[..at] + c[at + 1..])[1..])
    {
      IndexesWithout(m, c, at);
      IndexesWith(m - {c[at].key}, c[..at] + c[at + 1..], c[at]);
      assert m == (m - {c[at].key})[c[at].key := c[at]];
    }

    static lemma MirrorsWithout(t: seq<Entry<V>>, c: seq<CacheItem<V>>, at: nat)
      requires Mirrors(t, c) && 0 < at < |c| - 1
      ensures Mirrors(t[..at - 1] + t[at..], c[..at] + c[at + 1..])
    {
    }

    static lemma MirrorsWith(t: seq<Entry<V>>, c: seq<CacheItem<V>>, item: CacheItem<V>)
      requires Mirrors(t, c)
      ensures Mirrors([item.AsEntry()] + t, [c[0], item] + c[1..])
    {
    }

    /** The representation without the node of a key. */
    lemma WithoutFacts(k: string) returns (at: nat, c': seq<CacheItem<V>>, t': seq<Entry<V>>)
      requires Consistent() && k in items
      ensures 0 < at < |chain| - 1 && chain[at] == items[k]
      ensures c' == chain[..at] + chain[at + 1..]
      ensures t' == Drop(contents, {k})
      ensures Mirrors(t', c') && Indexes(items - {k}, c') && Within(c', Repr)
    {
      at := Position(k);
      c', t' := chain[..at] + chain[at + 1..], Drop(contents, {k});
      PresentFacts(k);
      IndexesWithout(items, chain, at);
      MirrorsWithout(contents, chain, at);
    }

    /** The representation with the node of a key moved to the front. */
    lemma MovedFacts(k: string) returns (at: nat, c': seq<CacheItem<V>>, t': seq<Entry<V>>)
      requires Consistent() && k in items
      ensures 0 < at < |chain| - 1 && chain[at] == items[k]
      ensures c' == [chain[0], items[k]] + (chain[..at] + chain[at + 1..])[1..]
      ensures t' == Promote(contents, items[k].AsEntry())
      ensures Mirrors(t', c') && Indexes(items, c') && Within(c', Repr)
    {
      var without, dropped;
      at, without, dropped := WithoutFacts(k);
      c', t' := [chain[0], items[k]] + without[1..], Promote(contents, items[k].AsEntry());
      IndexesMoved(items, chain, at);
      MirrorsWith(dropped, without, items[k]);
    }

    /** The map and the entries to go with a chain just rewired. */
    method Adopt(m: map<string, CacheItem<V>>, ghost t: seq<Entry<V>>)
      requires this in Repr && Within(chain, Repr) && Linked() && Mirrors(t, chain) && Indexes(m, chain)
      modifies this`items, this`contents
      ensures Consistent() && items == m && contents == t
    {
      items, contents := m, t;
    }

    /** Unlinks a node and deletes its key. */
    method Discard(k: string)
      requires Consistent() && k in items
      modifies Repr
      ensures Consistent() && contents == Drop(old(contents), {k}) && items == old(items) - {k}
      ensures Repr == old(Repr) && history == old(history)
    {
      ghost var at, c', t' := WithoutFacts(k);
      Remove(items[k], at);
      assert chain == c';
      Adopt(items - {k}, t');
    }

    /** Makes the node of a key the most recently used one. */
    method Bump(k: string)
      requires Consistent() && k in items
      modifies Repr
      ensures Consistent() && contents == Promote(old(contents), old(items[k].AsEntry()))
      ensures Repr == old(Repr) && history == old(history)
    {
      ghost var at, c', t' := MovedFacts(k);
      MoveToFront(items[k], at);
      assert chain == c';
      Adopt(items, t');
    }

    lemma UpdateFacts(k: string, e: Entry<V>)
      requires Consistent() && k in items && e.key == k
      ensures Promote(contents[Position(k) - 1 := e], e) == Promote(contents, e)
    {
      ContentsFacts();
      DropAt(contents, Position(k) - 1);
      DropAt(contents[Position(k) - 1 := e], Position(k) - 1);
    }

    /** Gives the node of a key a new value and expiration, where it is. */
    method Assign(k: string, value: V, expiration: int)
      requires Consistent() && k in items
      modifies Repr
      ensures Consistent() && Promote(contents, Entry(k, value, expiration)) == Promote(old(contents), Entry(k, value, expiration))
      ensures Repr == old(Repr) && history == old(history) && items == old(items)
      ensures items[k].AsEntry() == Entry(k, value, expiration)
    {
      ghost var at := Position(k);
      UpdateFacts(k, Entry(k, value, expiration));
      ghost var t' := contents[at - 1 := Entry(k, value, expiration)];
      ApartFacts(chain);
      var item := items[k];
      item.value := value;
      item.expiration := expiration;
      Adopt(items, t');
    }

    method Refresh(k: string, value: V, expiration: int)
      requires Consistent() && k in items
      modifies Repr
      ensures Consistent() && contents == Promote(old(contents), Entry(k, value, expiration))
      ensures Repr == old(Repr) && history == old(history)
    {
      Assign(k, value, expiration);
      Bump(k);
    }

    /** The representation with a node for a new key at the front. */
    lemma InsertedFacts(item: CacheItem<V>) returns (c': seq<CacheItem<V>>, t': seq<Entry<V>>)
      requires Consistent() && item.key !in items
      ensures c' == [chain[0], item] + chain[1..]
      ensures t' == Promote(contents, item.AsEntry())
      ensures Mirrors(t', c') && Indexes(items[item.key := item], c') && Within(c', Repr + {item})
    {
      c', t' := [chain[0], item] + chain[1..], Promote(contents, item.AsEntry());
      AbsentFacts(item.key);
      IndexesWith(items, chain, item);
      MirrorsWith(contents, chain, item);
    }

    method Insert(k: string, value: V, expiration: int)
      requires Consistent() && k !in items
      modifies Repr
      ensures Consistent() && contents == Promote(old(contents), Entry(k, value, expiration))
      ensures fresh(Repr - old(Repr)) && history == old(history)
    {
      var item := new CacheItem(k, value, expiration);
      ghost var c', t' := InsertedFacts(item);
      AddToFront(item);
      assert chain == c';
      Repr := Repr + {item};
      Adopt(items[k := item], t');
    }

    method EvictLast()
      requires Consistent()
      modifies Repr
      ensures Consistent() && contents == if old(contents) == [] then [] else Evict(old(contents))
      ensures Repr == old(Repr) && history == old(history)
    {
      ApartFacts(chain);
      assert chain[|chain| - 1].prev == chain[|chain| - 2];
      if tail.prev == head {
        return;
      }
      var item := tail.prev;
      ContentsFacts();
      assert contents[|chain| - 3] == item.AsEntry();
      EvictFacts(contents);
      Discard(item.key);
    }

    // ----- the public methods -----

    /** Notes a call about to be made. */
    ghost method Log(op: Op<V>)
      requires Valid()
      modifies this`history
      ensures history == old(history) + [op]
      ensures Step(capacity, contents, op) == Run(capacity, [], history)
    {
      RunSnoc(capacity, [], history, op);
      history := history + [op];
    }

    lemma StepFits(op: Op<V>)
      requires Valid()
      ensures |Step(capacity, contents, op)| <= capacity
    {
      ContentsFacts();
      StepOk(capacity, contents, op);
    }

    method Get(k: string, now: int) returns (hit: Option<V>)
      requires Valid()
      modifies Repr
      ensures Valid() && contents == Step(capacity, old(contents), Op.Get(k, now))
      ensures history == old(history) + [Op.Get(k, now)]
      ensures hit == Answer(old(contents), k, now)
      ensures hit.Some? ==> hit == RefAnswer(RefRun(map[], old(history)), k, now)
      ensures hit.None? ==> k !in items && k !in Keys(contents)
      ensures Repr == old(Repr)
    {
      StepFits(Op.Get(k, now));
      HitIsFresh(capacity, history, k, now);
      Log(Op.Get(k, now));
      if k !in items {
        AbsentFacts(k);
        return None;
      }
      PresentFacts(k);
      var item := items[k];
      if now >= item.expiration {
        MissedKeyIsGone(capacity, contents, k, now);
        Discard(k);
        return None;
      }
      hit := Some(item.value);
      Bump(k);
    }

    lemma SetIsStored(k: string, value: V, ttl: int, now: int)
      requires Valid()
      ensures var t := Stored(capacity, contents, Entry(k, value, now + ttl));
              && |t| <= capacity && t == Step(capacity, contents, Op.Set(k, value, ttl, now))
              && t == Run(capacity, [], history + [Op.Set(k, value, ttl, now)])
    {
      StepFits(Op.Set(k, value, ttl, now));
      RunSnoc(capacity, [], history, Op.Set(k, value, ttl, now));
    }

    lemma StoredFacts(k: string, e: Entry<V>)
      requires Consistent() && e.key == k
      ensures var t := Promote(contents, e);
        Stored(capacity, contents, e) == if k !in items && |t| > capacity then Evict(t) else t
    {
      ContentsFacts();
    }

    lemma SizeFacts()
      requires Consistent()
      ensures |items| == |contents|
    {
      ContentsFacts();
    }

    method InsertAndTrim(k: string, value: V, expiration: int)
      requires Consistent() && k !in items
      modifies Repr
      ensures var t := Promote(old(contents), Entry(k, value, expiration));
              Consistent() && contents == if |t| > capacity then Evict(t) else t
      ensures fresh(Repr - old(Repr)) && history == old(history)
    {
      Insert(k, value, expiration);
      SizeFacts();
      if |items| > capacity {
        EvictLast();
      }
    }

    method Put(k: string, value: V, expiration: int, ghost op: Op<V>)
      requires Consistent()
      modifies Repr
      ensures Consistent() && contents == Stored(capacity, old(contents), Entry(k, value, expiration))
      ensures fresh(Repr - old(Repr)) && history == old(history) + [op]
    {
      StoredFacts(k, Entry(k, value, expiration));
      if k in items {
        Refresh(k, value, expiration);
      } else {
        InsertAndTrim(k, value, expiration);
      }
      history := history + [op];
    }

    method Set(k: string, value: V, ttl: int, now: int)
      requires Valid()
      modifies Repr
      ensures Valid() && contents == Step(capacity, old(contents), Op.Set(k, value, ttl, now))
      ensures history == old(history) + [Op.Set(k, value, ttl, now)]
      ensures fresh(Repr - old(Repr))
    {
      SetIsStored(k, value, ttl, now);
      Put(k, value, now + ttl, Op.Set(k, value, ttl, now));
    }

    method Delete(k: string)
      requires Valid()
      modifies Repr
      ensures Valid() && contents == Step(capacity, old(contents), Op.Delete(k))
      ensures history == old(history) + [Op.Delete(k)]
      ensures Repr == old(Repr)
    {
      DropFacts(contents, {k});
      Log(Op.Delete(k));
      if k in items {
        Discard(k);
      } else {
        AbsentFacts(k);
      }
    }

    method Clear()
      requires Valid()
      modifies Repr
      ensures Valid() && contents == Step(capacity, old(contents), Op.Clear)
      ensures history == old(history) + [Op.Clear]
      ensures Repr == old(Repr)
    {
      Log(Op.Clear);
      ApartFacts(chain);
      head.next := tail;
      tail.prev := head;
      items := map[];
      chain, contents := [chain[0], chain[|chain| - 1]], [];
    }

    static lemma NothingSweptYet(was: seq<Entry<V>>, now: int)
      ensures Drop(was, ExpiredKeys(was, now) - Keys(was)) == was
    {
      DropAgree(was, {}, ExpiredKeys(was, now) - Keys(was));
      DropNothing(was);
    }

    static lemma SweepDone(capacity: nat, was: seq<Entry<V>>, now: int, todo: set<string>)
      requires todo == {}
      ensures Drop(was, ExpiredKeys(was, now) - todo) == Step(capacity, was, Op.Cleanup(now))
      ensures |Step(capacity, was, Op.Cleanup(now))| <= |was|
    {
      assert ExpiredKeys(was, now) - todo == ExpiredKeys(was, now);
      DropFacts(was, ExpiredKeys(was, now));
    }

    static lemma SweepOne(was: seq<Entry<V>>, now: int, todo: set<string>, k: string)
      requires Distinct(was) && k in todo
      requires Lookup(Drop(was, ExpiredKeys(was, now) - todo), k).Some?
      ensures var expired := ExpiredKeys(was, now);
              var left := Drop(was, expired - todo);
              Drop(was, expired - (todo - {k})) ==
              if now >= Lookup(left, k).value.expiration then Drop(left, {k}) else left
    {
      var expired := ExpiredKeys(was, now);
      LookupDrop(was, expired - todo, k);
      LookupFacts(was, k);
      var i :| 0 <= i < |was| && was[i].key == k;
      DropDrop(was, expired - todo, {k});
      if now >= was[i].expiration {
        assert (expired - todo) + {k} == expired - (todo - {k});
      } else {
        assert expired - todo == expired - (todo - {k});
      }
    }

    /** The periodic sweep, in whatever order the map is visited. */
    method CleanupExpired(now: int)
      requires Valid()
      modifies Repr
      ensures Valid() && contents == Step(capacity, old(contents), Op.Cleanup(now))
      ensures history == old(history) + [Op.Cleanup(now)]
      ensures Repr == old(Repr)
    {
      Log(Op.Cleanup(now));
      ghost var was := contents;
      ghost var expired := ExpiredKeys(was, now);
      ContentsFacts();
      var todo := items.Keys;
      NothingSweptYet(was, now);
      while todo != {}
        invariant Consistent() && Repr == old(Repr) && history == old(history) + [Op.Cleanup(now)]
        invariant todo <= items.Keys
        invariant contents == Drop(was, expired - todo)
        decreases |todo|
      {
        var k :| k in todo;
        PresentFacts(k);
        SweepOne(was, now, todo, k);
        if now >= items[k].expiration {
          Discard(k);
        }
        todo := todo - {k};
      }
      SweepDone(capacity, was, now, todo);
    }
  }
}
