/**
 * The keyed stack of `go/queue/simple.go`: items pushed and popped at the end
 * of a slice, with a dictionary from key to item for removal by key. Each
 * item records the position it was pushed at. The mutex that serialises the
 * exported methods is not modelled: every call below runs alone.
 */
module SimpleQueue {
  import opened Wrappers

  type Key = string

  /** An entry: its key and content never change; its index is set when it is pushed. */
  class Item<V> {
    const key: Key
    var index: nat
    const content: V

    constructor (key: Key, content: V)
      ensures this.key == key && this.content == content && index == 0
    {
      this.key := key;
      this.content := content;
      index := 0;
    }
  }

  /**
   * The errors of the unexported operations, and the index-out-of-range
   * panic of removing an entry whose recorded position is past the end.
   */
  datatype QueueError = AlreadyPresent(key: Key) | NotPresent(key: Key) | IndexOutOfRange(index: int, length: nat)

  /**
   * Dictionary and slice agree: keys are distinct, and the dictionary maps
   * exactly the keys of the slice to their entries.
   */
  ghost predicate Agree<V>(dict: map<Key, Item<V>>, items: seq<Item<V>>)
  {
    && (forall i, j :: 0 <= i < j < |items| ==> items[i].key != items[j].key)
    && (forall i :: 0 <= i < |items| ==> items[i].key in dict && dict[items[i].key] == items[i])
    && (forall k :: k in dict ==> dict[k].key == k && dict[k] in items)
  }

  /** The slice with the entry at `idx` cut out, the rest in order. */
  function Without<T>(s: seq<T>, idx: nat): (r: seq<T>)
    requires idx < |s|
    ensures |r| == |s| - 1
    ensures forall i :: 0 <= i < idx ==> r[i] == s[i]
    ensures forall i :: idx <= i < |r| ==> r[i] == s[i + 1]
  {
    s[..idx] + s[idx + 1..]
  }

  class Queue<V> {
    var dict: map<Key, Item<V>>
    var items: seq<Item<V>>

    /** The keys of the entries, bottom first. */
    function Keys(): (ks: seq<Key>)
      reads this
      ensures |ks| == |items| && forall i :: 0 <= i < |items| ==> ks[i] == items[i].key
    {
      seq(|items|, i requires 0 <= i < |items| reads this => items[i].key)
    }

    /**
     * Dictionary and slice agree: keys are distinct, and the dictionary maps
     * exactly the keys of the slice to their entries.
     */
    ghost predicate Coherent()
      reads this
    {
      Agree(dict, items)
    }

    /** Every entry's recorded index is its position. */
    ghost predicate Indexed()
      reads this, items
    {
      forall i :: 0 <= i < |items| ==> items[i].index == i
    }

    /** `NewQueue`: an empty queue. */
    constructor ()
      ensures dict == map[] && items == []
    {
      dict := map[];
      items := [];
    }

    /** `Init`: forget every entry. */
    method Init()
      modifies this
      ensures dict == map[] && items == []
      ensures Coherent() && Indexed()
    {
      dict := map[];
      items := [];
    }

    /**
     * `add`: a key already present is refused and nothing changes; otherwise
     * the entry goes on top, records its position and is entered under its key.
     */
    method AddItem(v: Item<V>) returns (err: Option<QueueError>)
      modifies this, v
      ensures v.key in old(dict) ==>
                err == Some(AlreadyPresent(v.key)) && dict == old(dict) && items == old(items) && v.index == old(v.index)
      ensures v.key !in old(dict) ==>
                && err.None?
                && items == old(items) + [v] && v.index == |old(items)|
                && dict == old(dict)[v.key := v]
    {
      if v.key in dict {
        return Some(AlreadyPresent(v.key));
      }
      items := items + [v];
      v.index := |items| - 1;
      dict := dict[v.key := v];
      err := None;
    }

    /** `pop`: nothing on an empty queue; otherwise the top entry is taken off and unkeyed. */
    method PopItem() returns (top: Option<Item<V>>)
      modifies this
      ensures old(items) == [] ==> top.None? && items == [] && dict == old(dict)
      ensures old(items) != [] ==>
                && top == Some(old(items)[|old(items)| - 1])
                && items == old(items)[..|old(items)| - 1]
                && dict == old(dict) - {top.value.key}
    {
      if |items| == 0 {
        return None;
      }
      var last := items[|items| - 1];
      dict := dict - {last.key};
      items := items[..|items| - 1];
      return Some(last);
    }

    /** `peep`: the top entry, left in place; nothing on an empty queue. */
    method PeepItem() returns (top: Option<Item<V>>)
      ensures items == [] ==> top.None?
      ensures items != [] ==> top == Some(items[|items| - 1])
    {
      if |items| == 0 {
        return None;
      }
      return Some(items[|items| - 1]);
    }

    /**
     * `remove`: an absent key is refused. Otherwise the entry at the position
     * the keyed item recorded is cut out of the slice and the key is dropped.
     * The positions of the entries above are not renumbered, so a recorded
     * position can be past the end; building the shorter slice then panics
     * (index out of range) before anything is changed.
     */
    method RemoveKey(k: Key) returns (removed: Option<Item<V>>, err: Option<QueueError>)
      modifies this
      ensures k !in old(dict) ==>
                removed.None? && err == Some(NotPresent(k)) && dict == old(dict) && items == old(items)
      ensures k in old(dict) && old(dict[k].index) >= |old(items)| ==>
                && removed.None? && err == Some(IndexOutOfRange(old(dict[k].index), |old(items)|))
                && dict == old(dict) && items == old(items)
      ensures k in old(dict) && old(dict[k].index) < |old(items)| ==>
                && removed == Some(old(dict[k])) && err.None?
                && items == Without(old(items), old(dict[k].index))
                && dict == old(dict) - {k}
    {
      if k !in dict {
        return None, Some(NotPresent(k));
      }
      var v := dict[k];
      if v.index >= |items| {
        // `make` with length -1, or the first copy loop writing past the copy
        return None, Some(IndexOutOfRange(v.index, |items|));
      }
      var dpcopy := CopyWithout(items, v.index);
      dict := dict - {k};
      items := dpcopy;
      return Some(v), None;
    }

    /**
     * The evidently intended `remove`: the entries above the removed one are
     * renumbered, so every recorded index stays the entry's position and the
     * entry removed is always the one under the key.
     */
    method RemoveKeyRenumbering(k: Key) returns (removed: Option<Item<V>>, err: Option<QueueError>)
      requires Coherent() && Indexed()
      modifies this, items
      ensures k !in old(dict) ==>
                removed.None? && err == Some(NotPresent(k)) && dict == old(dict) && items == old(items)
      ensures k in old(dict) ==>
                && removed == Some(old(dict[k])) && err.None?
                && old(dict[k].index) < |old(items)| && old(items)[old(dict[k].index)] == old(dict[k])
                && items == Without(old(items), old(dict[k].index))
                && dict == old(dict) - {k}
      ensures Coherent() && Indexed()
      ensures forall i :: 0 <= i < |items| ==> items[i].key != k
    {
      if k !in dict {
        return None, Some(NotPresent(k));
      }
      var v := dict[k];
      assert v in items;
      ghost var pos :| 0 <= pos < |items| && items[pos] == v;
      var idx := v.index;
      CutKeepsAgreement(dict, items, idx);
      var rest := Without(items, idx);
      assert v !in rest;
      dict := dict - {k};
      items := rest;
      Renumber(idx);
      return Some(v), None;
    }

    /** Entries from `from` upwards, each one place above its position, take their position as index. */
    method Renumber(from: nat)
      requires from <= |items|
      requires forall i, j :: 0 <= i < j < |items| ==> items[i].key != items[j].key
      requires forall i :: 0 <= i < from ==> items[i].index == i
      requires forall i :: from <= i < |items| ==> items[i].index == i + 1
      modifies items
      ensures Indexed()
    {
      for i := from to |items|
        invariant forall j :: 0 <= j < i ==> items[j].index == j
        invariant forall j :: i <= j < |items| ==> items[j].index == j + 1
      {
        items[i].index := i;
      }
    }

    /** `Add`: a new entry for the key and content is pushed; a key already present is ignored. */
    method Add(k: Key, content: V)
      modifies this
      ensures k in old(dict) ==> dict == old(dict) && items == old(items)
      ensures k !in old(dict) ==>
                && |items| == |old(items)| + 1 && items[..|old(items)|] == old(items)
                && var top := items[|items| - 1];
                   fresh(top) && top.key == k && top.content == content && top.index == |old(items)|
                   && dict == old(dict)[k := top]
      ensures old(Coherent()) ==> Coherent()
      ensures old(Coherent() && Indexed()) ==> Indexed()
    {
      var v := new Item(k, content);
      ghost var before := items;
      var _ := AddItem(v);
      if old(Coherent()) && k !in old(dict) {
        AppendKeepsAgreement(old(dict), before, v);
      }
    }

    /** `Remove`: as `remove`, the outcome dropped; `panicked` reports the index-out-of-range panic. */
    method Remove(k: Key) returns (panicked: bool)
      modifies this
      ensures panicked <==> k in old(dict) && old(dict[k].index) >= |old(items)|
      ensures k !in old(dict) || panicked ==> dict == old(dict) && items == old(items)
      ensures k in old(dict) && !panicked ==>
                items == Without(old(items), old(dict[k].index)) && dict == old(dict) - {k}
      ensures old(Coherent() && Indexed()) ==> !panicked && Coherent() && forall i :: 0 <= i < |items| ==> items[i].key != k
      ensures old(Coherent() && Indexed()) && k in old(dict) ==>
                forall i :: 0 <= i < |items| ==> items[i].index == (if i < old(dict[k].index) then i else i + 1)
    {
      ghost var before := items;
      var _, err := RemoveKey(k);
      panicked := err.Some? && err.value.IndexOutOfRange?;
      if old(Coherent() && Indexed()) && k in old(dict) {
        ghost var pos :| 0 <= pos < |before| && before[pos] == old(dict[k]);
        CutKeepsAgreement(old(dict), before, pos);
      }
    }

    /** `Pop`: as `pop`. */
    method Pop() returns (top: Option<Item<V>>)
      modifies this
      ensures old(items) == [] ==> top.None? && items == [] && dict == old(dict)
      ensures old(items) != [] ==>
                && top == Some(old(items)[|old(items)| - 1])
                && items == old(items)[..|old(items)| - 1]
                && dict == old(dict) - {top.value.key}
      ensures old(Coherent()) ==> Coherent()
      ensures old(Coherent() && Indexed()) ==> Indexed()
    {
      ghost var before := items;
      top := PopItem();
      if old(Coherent()) && before != [] {
        CutKeepsAgreement(old(dict), before, |before| - 1);
        assert Without(before, |before| - 1) == items;
      }
    }

    /** `Peep`: as `peep`. */
    method Peep() returns (top: Option<Item<V>>)
      ensures items == [] ==> top.None?
      ensures items != [] ==> top == Some(items[|items| - 1])
    {
      top := PeepItem();
    }

    /** Last in, first out: pushing a new key and popping gives back that entry and the old queue. */
    method PushThenPop(k: Key, content: V) returns (top: Option<Item<V>>)
      requires k !in dict
      modifies this
      ensures top.Some? && top.value.key == k && top.value.content == content
      ensures items == old(items) && dict == old(dict) - {k}
    {
      Add(k, content);
      top := Pop();
      assert items == old(items);
    }
  }

  /**
   * The copy `remove` builds: a fresh slice one shorter, filled from below
   * the cut and then from above it.
   */
  method CopyWithout<T>(items: seq<T>, idx: nat) returns (copy: seq<T>)
    requires idx < |items|
    ensures copy == Without(items, idx)
  {
    var dpcopy := new T[|items| - 1](_ => items[idx]);
    for i := 0 to idx
      invariant forall j :: 0 <= j < i ==> dpcopy[j] == items[j]
    {
      dpcopy[i] := items[i];
    }
    for i := idx + 1 to |items|
      invariant forall j :: 0 <= j < idx ==> dpcopy[j] == items[j]
      invariant forall j :: idx <= j < i - 1 ==> dpcopy[j] == items[j + 1]
    {
      dpcopy[i - 1] := items[i];
    }
    return dpcopy[..];
  }

  /** In a slice with distinct keys, cutting out the entry with key `k` leaves no entry with that key. */
  lemma RemovedKeyIsGone<V>(s: seq<Item<V>>, idx: nat, k: Key)
    requires idx < |s| && s[idx].key == k
    requires forall i, j :: 0 <= i < j < |s| ==> s[i].key != s[j].key
    ensures forall i :: 0 <= i < |Without(s, idx)| ==> Without(s, idx)[i].key != k
    ensures forall i, j :: 0 <= i < j < |Without(s, idx)| ==> Without(s, idx)[i].key != Without(s, idx)[j].key
  {
    var r := Without(s, idx);
    forall i | 0 <= i < |r| ensures r[i].key != k {
      if i < idx {
        assert r[i] == s[i];
      } else {
        assert r[i] == s[i + 1];
      }
    }
    forall i, j | 0 <= i < j < |r| ensures r[i].key != r[j].key {
      var i' := if i < idx then i else i + 1;
      var j' := if j < idx then j else j + 1;
      assert r[i] == s[i'] && r[j] == s[j'] && i' < j';
    }
  }

  /** Pushing an entry under a new key onto an agreeing slice keeps the two in agreement. */
  lemma AppendKeepsAgreement<V>(dict: map<Key, Item<V>>, items: seq<Item<V>>, v: Item<V>)
    requires Agree(dict, items) && v.key !in dict
    ensures v !in items
    ensures Agree(dict[v.key := v], items + [v])
  {
    var r := items + [v];
    var m := dict[v.key := v];
    forall k | k in m ensures m[k] in r {
      if k != v.key {
        assert dict[k] in items;
      }
    }
  }

  /** Cutting an entry out of an agreeing slice and unkeying it keeps the two in agreement. */
  lemma CutKeepsAgreement<V>(dict: map<Key, Item<V>>, items: seq<Item<V>>, idx: nat)
    requires Agree(dict, items) && idx < |items|
    ensures Agree(dict - {items[idx].key}, Without(items, idx))
    ensures forall i :: 0 <= i < |items| - 1 ==> Without(items, idx)[i].key != items[idx].key
  {
    var k := items[idx].key;
    RemovedKeyIsGone(items, idx, k);
    var rest := Without(items, idx);
    var m := dict - {k};
    forall i | 0 <= i < |rest| ensures rest[i].key in m && m[rest[i].key] == rest[i] {
      var i' := if i < idx then i else i + 1;
      assert rest[i] == items[i'];
    }
    forall j | j in m ensures m[j].key == j && m[j] in rest {
      var i :| 0 <= i < |items| && items[i] == dict[j];
      if i < idx {
        assert rest[i] == dict[j];
      } else {
        assert i != idx;
        assert rest[i - 1] == dict[j];
      }
    }
  }

  /** Three pushes of new keys onto `q`. */
  method PushThree(q: Queue<string>, k1: Key, v1: string, k2: Key, v2: string, k3: Key, v3: string)
    returns (a: Item<string>, b: Item<string>, c: Item<string>)
    requires k1 !in q.dict && k2 !in q.dict && k3 !in q.dict && k1 != k2 && k2 != k3 && k1 != k3
    modifies q
    ensures fresh(a) && fresh(b) && fresh(c)
    ensures q.items == old(q.items) + [a, b, c] && q.dict == old(q.dict)[k1 := a][k2 := b][k3 := c]
    ensures a.key == k1 && b.key == k2 && c.key == k3 && a.content == v1 && b.content == v2 && c.content == v3
    ensures a.index == |old(q.items)| && b.index == |old(q.items)| + 1 && c.index == |old(q.items)| + 2
  {
    a := new Item(k1, v1);
    var _ := q.AddItem(a);
    b := new Item(k2, v2);
    var _ := q.AddItem(b);
    c := new Item(k3, v3);
    var _ := q.AddItem(c);
  }

  /** The first half of `TestQueue`: three pushes, then a peep and a pop at the top. */
  method QueueTestFirstHalf()
    returns (q: Queue<string>, foo: Item<string>, john: Item<string>,
             lengthAfterAdds: nat, peeped: Option<(Key, nat, string)>, popped: Option<string>)
    ensures fresh(q) && fresh(foo) && fresh(john)
    ensures q.items == [foo, john] && q.dict == map["foo" := foo, "john" := john]
    ensures foo.key == "foo" && john.key == "john" && foo.index == 0 && john.index == 1
    ensures lengthAfterAdds == 3 && peeped == Some(("fizz", 2, "bazz")) && popped == Some("bazz")
  {
    q := new Queue<string>();
    q.Init();
    var fizz;
    foo, john, fizz := PushThree(q, "foo", "bar", "john", "doe", "fizz", "bazz");
    lengthAfterAdds := |q.items|;
    var top := q.PeepItem();
    peeped := if top.Some? then Some((top.value.key, top.value.index, top.value.content)) else None;
    top := q.PopItem();
    popped := if top.Some? then Some(top.value.content) else None;
    assert q.items == [foo, john];
  }

  /**
   * The scenario of `TestQueue`: three pushes, a peep and a pop at the top,
   * three more pushes and the removal of a middle entry by key.
   */
  method QueueTestScenario()
    returns (lengthAfterAdds: nat, peeped: Option<(Key, nat, string)>, popped: Option<string>,
             lengthAfterPop: nat, removed: Option<string>, keys: seq<Key>)
    ensures lengthAfterAdds == 3 && peeped == Some(("fizz", 2, "bazz"))
    ensures popped == Some("bazz") && lengthAfterPop == 2
    ensures removed == Some("wang") && keys == ["foo", "john", "key", "biz"]
  {
    var q, foo, john;
    q, foo, john, lengthAfterAdds, peeped, popped := QueueTestFirstHalf();
    lengthAfterPop := |q.items|;
    var key, will, biz := PushThree(q, "key", "val", "will", "wang", "biz", "bam");
    assert q.items == [foo, john, key, will, biz] && q.dict["will"] == will && will.index == 3;
    var gone, _ := q.RemoveKey("will");
    assert q.items == [foo, john, key, biz];
    removed := if gone.Some? then Some(gone.value.content) else None;
    keys := q.Keys();
  }

  /**
   * Removing a key shifts the entries above it without renumbering them: push
   * a, b, c and remove a; removing b then cuts out c (b's stale index 1 is
   * now c's position), leaving b in the slice and only c in the dictionary;
   * removing c afterwards panics (index out of range while copying), because
   * its recorded index 2 is past the end of the one-entry slice.
   */
  method StaleIndexScenario() returns (removedKey: Option<Key>, keys: seq<Key>, dictKeys: set<Key>,
                                       third: Option<QueueError>)
    ensures removedKey == Some("b") && keys == ["b"] && dictKeys == {"c"}
    ensures third == Some(IndexOutOfRange(2, 1))
  {
    var q := new Queue<string>();
    var a, b, c := PushThree(q, "a", "1", "b", "2", "c", "3");
    var _, _ := q.RemoveKey("a");
    assert q.items == [b, c] && q.dict == map["b" := b, "c" := c];
    var gone, _ := q.RemoveKey("b");
    assert q.items == [b] && q.dict == map["c" := c];
    removedKey := if gone.Some? then Some(gone.value.key) else None;
    keys := q.Keys();
    dictKeys := q.dict.Keys;
    var _, err := q.RemoveKey("c");
    third := err;
  }
}
