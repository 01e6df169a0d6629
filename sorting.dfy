// Python 2's `sorted(list, key=attrgetter(field))`: a stable sort of a list
// by the value of one attribute, which may hold any Python value.
//
// Keys that are None, numbers or strings are ordered as Python 2 orders them:
// None before everything, then numbers (bool, int, float, compared by value),
// then strings, compared byte-wise.  Every other value ranks after the strings
// and ties with every other such value, where Python 2 would order it by the
// name of its type.

module Sorting {
  import opened Runtime

  /** The rank of a value's type: None, numbers, strings, then everything else. */
  function TypeRank(v: Value): nat
  {
    match v
    case NoneValue => 0
    case BoolValue(_) => 1
    case IntValue(_) => 1
    case FloatValue(_) => 1
    case StrValue(_) => 2
    case OtherValue => 3
  }

  /** Byte-wise order of strings. */
  predicate StrLe(s: string, t: string)
  {
    |s| == 0 || (|t| > 0 && (s[0] < t[0] || (s[0] == t[0] && StrLe(s[1..], t[1..]))))
  }

  /** `a <= b` between two sort keys. */
  predicate KeyLe(a: Value, b: Value)
  {
    if TypeRank(a) != TypeRank(b) then TypeRank(a) < TypeRank(b)
    else if IsNumber(a) then AsReal(a) <= AsReal(b)
    else if a.StrValue? then StrLe(a.s, b.s)
    else true
  }

  lemma {:induction false} StrLeTotal(s: string, t: string)
    ensures StrLe(s, t) || StrLe(t, s)
  {
    if |s| > 0 && |t| > 0 && s[0] == t[0] {
      StrLeTotal(s[1..], t[1..]);
    }
  }

  lemma {:induction false} StrLeTransitive(s: string, t: string, u: string)
    requires StrLe(s, t) && StrLe(t, u)
    ensures StrLe(s, u)
  {
    if |s| > 0 && |t| > 0 && |u| > 0 && s[0] == t[0] && t[0] == u[0] {
      StrLeTransitive(s[1..], t[1..], u[1..]);
    }
  }

  /** Any two keys are comparable. */
  lemma KeyLeTotal(a: Value, b: Value)
    ensures KeyLe(a, b) || KeyLe(b, a)
  {
    if a.StrValue? && b.StrValue? {
      StrLeTotal(a.s, b.s);
    }
  }

  lemma KeyLeTransitive(a: Value, b: Value, c: Value)
    requires KeyLe(a, b) && KeyLe(b, c)
    ensures KeyLe(a, c)
  {
    if a.StrValue? && b.StrValue? && c.StrValue? {
      StrLeTransitive(a.s, b.s, c.s);
    }
  }

  /** An element of the list being sorted, with its key and its original position. */
  datatype Entry<T> = Entry(key: Value, pos: nat, item: T)

  /** `x` must come before `y`: smaller key, or equivalent key and earlier position. */
  predicate Before<T>(x: Entry<T>, y: Entry<T>)
  {
    KeyLe(x.key, y.key) && (KeyLe(y.key, x.key) ==> x.pos < y.pos)
  }

  /** Sorted by key and, among equivalent keys, by original position. */
  predicate Ordered<T>(s: seq<Entry<T>>)
  {
    forall a, b :: 0 <= a < b < |s| ==> Before(s[a], s[b])
  }

  /** Positions strictly increase along the list: the input as read. */
  predicate Increasing<T>(s: seq<Entry<T>>)
  {
    forall a, b :: 0 <= a < b < |s| ==> s[a].pos < s[b].pos
  }

  /** Inserts `e` before the first entry whose key is strictly greater. */
  function Insert<T>(e: Entry<T>, s: seq<Entry<T>>): (r: seq<Entry<T>>)
    ensures multiset(r) == multiset(s) + multiset{e}
    ensures |r| == |s| + 1
  {
    if |s| == 0 then [e]
    else if !KeyLe(s[0].key, e.key) then [e] + s
    else
      assert s == [s[0]] + s[1..];
      [s[0]] + Insert(e, s[1..])
  }

  /** Insertion sort: each entry in turn is inserted into the sorted prefix. */
  function SortEntries<T>(s: seq<Entry<T>>): (r: seq<Entry<T>>)
    ensures multiset(r) == multiset(s)
    ensures |r| == |s|
  {
    if |s| == 0 then []
    else
      assert s == s[..|s| - 1] + [s[|s| - 1]];
      Insert(s[|s| - 1], SortEntries(s[..|s| - 1]))
  }

  lemma {:induction false} InsertOrdered<T>(e: Entry<T>, s: seq<Entry<T>>)
    requires Ordered(s)
    requires forall k :: 0 <= k < |s| ==> s[k].pos < e.pos
    ensures Ordered(Insert(e, s))
  {
    if |s| == 0 {
    } else if !KeyLe(s[0].key, e.key) {
      InsertFirst(e, s);
    } else {
      assert Ordered(s[1..]) by {
        forall a, b | 0 <= a < b < |s[1..]| ensures Before(s[1..][a], s[1..][b]) {
          assert Before(s[a + 1], s[b + 1]);
        }
      }
      InsertOrdered(e, s[1..]);
      InsertAfterFirst(e, s);
    }
  }

  /** An entry whose key is below the first one goes in front of an ordered list, which stays ordered. */
  lemma InsertFirst<T>(e: Entry<T>, s: seq<Entry<T>>)
    requires Ordered(s) && |s| > 0 && !KeyLe(s[0].key, e.key)
    ensures Ordered(Insert(e, s))
  {
    var r := Insert(e, s);
    KeyLeTotal(s[0].key, e.key);
    forall k | 0 <= k < |s| ensures Before(e, s[k]) {
      if k > 0 {
        assert Before(s[0], s[k]);
        KeyLeTransitive(e.key, s[0].key, s[k].key);
        if KeyLe(s[k].key, e.key) {
          KeyLeTransitive(s[0].key, s[k].key, e.key);
        }
      }
    }
    assert r == [e] + s;
    forall a, b | 0 <= a < b < |r| ensures Before(r[a], r[b]) {
      if a > 0 { assert r[a] == s[a - 1] && r[b] == s[b - 1]; }
    }
  }

  /** An entry inserted after the first one keeps the list ordered once the rest is. */
  lemma InsertAfterFirst<T>(e: Entry<T>, s: seq<Entry<T>>)
    requires Ordered(s) && |s| > 0 && KeyLe(s[0].key, e.key) && s[0].pos < e.pos
    requires Ordered(Insert(e, s[1..]))
    ensures Ordered(Insert(e, s))
  {
    var r := Insert(e, s);
    var tail := Insert(e, s[1..]);
    assert r == [s[0]] + tail;
    forall b | 0 <= b < |tail| ensures Before(s[0], tail[b]) {
      var k := InsertSource(e, s[1..], b);
      if tail[b] != e {
        assert tail[b] == s[k + 1];
      }
    }
    forall a, b | 0 <= a < b < |r| ensures Before(r[a], r[b]) {
      assert r[b] == tail[b - 1];
      if a > 0 {
        assert r[a] == tail[a - 1];
      }
    }
  }

  /** Each entry of an insertion is the inserted one or an entry of the list. */
  lemma InsertSource<T>(e: Entry<T>, s: seq<Entry<T>>, i: nat) returns (k: nat)
    requires i < |Insert(e, s)|
    ensures Insert(e, s)[i] == e || (k < |s| && Insert(e, s)[i] == s[k])
  {
    var x := Insert(e, s)[i];
    assert x in multiset(Insert(e, s));
    k := 0;
    if x != e {
      assert x in multiset(s);
      k :| k < |s| && s[k] == x;
    }
  }

  /** The insertion sort of an input read in order is ordered. */
  lemma {:induction false} SortEntriesOrdered<T>(s: seq<Entry<T>>)
    requires Increasing(s)
    ensures Ordered(SortEntries(s))
  {
    if |s| > 0 {
      var init := s[..|s| - 1];
      assert Increasing(init);
      SortEntriesOrdered(init);
      var sorted := SortEntries(init);
      forall k | 0 <= k < |sorted| ensures sorted[k].pos < s[|s| - 1].pos {
        assert sorted[k] in multiset(init);
        var j :| 0 <= j < |init| && init[j] == sorted[k];
      }
      InsertOrdered(s[|s| - 1], sorted);
    }
  }

  /** The list tagged with its keys and positions. */
  function Tagged<T>(keys: seq<Value>, items: seq<T>): (r: seq<Entry<T>>)
    requires |keys| == |items|
    ensures |r| == |items| && Increasing(r)
    ensures forall k :: 0 <= k < |r| ==> r[k] == Entry(keys[k], k, items[k])
  {
    seq(|items|, k requires 0 <= k < |items| => Entry(keys[k], k, items[k]))
  }

  function Items<T>(s: seq<Entry<T>>): (r: seq<T>)
    ensures |r| == |s| && forall k :: 0 <= k < |s| ==> r[k] == s[k].item
  {
    if |s| == 0 then [] else [s[0].item] + Items(s[1..])
  }

  function Positions<T>(s: seq<Entry<T>>): (r: seq<nat>)
    ensures |r| == |s| && forall k :: 0 <= k < |s| ==> r[k] == s[k].pos
  {
    seq(|s|, k requires 0 <= k < |s| => s[k].pos)
  }

  lemma {:induction false} InsertItems<T>(e: Entry<T>, s: seq<Entry<T>>)
    ensures multiset(Items(Insert(e, s))) == multiset(Items(s)) + multiset{e.item}
  {
    if |s| > 0 {
      assert Items(s) == [s[0].item] + Items(s[1..]);
      if KeyLe(s[0].key, e.key) {
        InsertItems(e, s[1..]);
        assert Items(Insert(e, s)) == [s[0].item] + Items(Insert(e, s[1..]));
      } else {
        assert Items(Insert(e, s)) == [e.item] + Items(s);
      }
    }
  }

  lemma {:induction false} SortEntriesItems<T>(s: seq<Entry<T>>)
    ensures multiset(Items(SortEntries(s))) == multiset(Items(s))
  {
    if |s| > 0 {
      var init, last := s[..|s| - 1], s[|s| - 1];
      SortEntriesItems(init);
      InsertItems(last, SortEntries(init));
      ItemsSnoc(s);
      assert multiset(Items(s)) == multiset(Items(init)) + multiset{last.item};
    }
  }

  lemma ItemsSnoc<T>(s: seq<Entry<T>>)
    requires |s| > 0
    ensures Items(s) == Items(s[..|s| - 1]) + [s[|s| - 1].item]
  {
    var front := Items(s[..|s| - 1]) + [s[|s| - 1].item];
    forall k | 0 <= k < |s| ensures Items(s)[k] == front[k] {
      if k < |s| - 1 {
        assert front[k] == Items(s[..|s| - 1])[k];
      }
    }
  }

  /**
   * `sorted(items, key=...)` with `keys[k]` the key of `items[k]`: the
   * result, and for each output element the position it came from.
   */
  function StableSort<T>(keys: seq<Value>, items: seq<T>): (r: (seq<T>, seq<nat>))
    requires |keys| == |items|
    ensures |r.0| == |items| && |r.1| == |items|
    ensures multiset(r.0) == multiset(items)
    ensures forall k :: 0 <= k < |items| ==> r.1[k] < |items| && r.0[k] == items[r.1[k]]
    ensures forall a, b :: 0 <= a < b < |items| ==> KeyLe(keys[r.1[a]], keys[r.1[b]])
    ensures forall a, b :: 0 <= a < b < |items| && KeyLe(keys[r.1[b]], keys[r.1[a]]) ==> r.1[a] < r.1[b]
  {
    var sorted := SortEntries(Tagged(keys, items));
    StableSortFacts(keys, items, sorted);
    (Items(sorted), Positions(sorted))
  }

  lemma StableSortFacts<T>(keys: seq<Value>, items: seq<T>, sorted: seq<Entry<T>>)
    requires |keys| == |items| && sorted == SortEntries(Tagged(keys, items))
    ensures |sorted| == |items|
    ensures multiset(Items(sorted)) == multiset(items)
    ensures forall k :: 0 <= k < |sorted| ==> sorted[k].pos < |items| && sorted[k] == Entry(keys[sorted[k].pos], sorted[k].pos, items[sorted[k].pos])
    ensures Ordered(sorted)
  {
    var tagged := Tagged(keys, items);
    SortEntriesOrdered(tagged);
    SortEntriesItems(tagged);
    assert Items(tagged) == items by {
      var it := Items(tagged);
      assert |it| == |items|;
      forall k | 0 <= k < |it| ensures it[k] == items[k] {
        assert tagged[k] == Entry(keys[k], k, items[k]);
      }
    }
    forall k | 0 <= k < |sorted|
      ensures sorted[k].pos < |items| && sorted[k] == Entry(keys[sorted[k].pos], sorted[k].pos, items[sorted[k].pos])
    {
      assert sorted[k] in multiset(tagged);
      var j :| 0 <= j < |tagged| && tagged[j] == sorted[k];
    }
  }
}
