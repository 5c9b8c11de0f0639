/**
 * Grouping a sequence by a text key the way the JavaScript code does it: a `reduce` or
 * `forEach` that fills a plain object keyed by the group name, creating an entry the first
 * time a key is seen and adding to its running total and count afterwards, and then
 * `Object.values` of that object, which lists the entries in key-insertion order.
 *
 * The specification functions below (Keys, KeyTotal, KeyCount, FirstOf) describe the result
 * without an accumulator; `Accumulate` is the loop, proved to produce exactly that result.
 */
module Grouping {
  import opened Common
  import opened Collections

  /** One entry of the accumulator object: the key, the first element seen with it, its running total and count. */
  datatype Group<T> = Group(key: string, first: T, total: int, count: int)

  /** The distinct keys of `s`, in the order in which each first occurs. */
  function Keys<T>(s: seq<T>, key: T -> string): seq<string>
    decreases |s|
  {
    if s == [] then []
    else
      var ks := Keys(s[..|s| - 1], key);
      if key(s[|s| - 1]) in ks then ks else ks + [key(s[|s| - 1])]
  }

  /** The amount an element contributes to the group `k`: its own amount if it belongs there, else nothing. */
  function Masked<T>(key: T -> string, amt: T -> int, k: string): T -> int {
    x => if key(x) == k then amt(x) else 0
  }

  /** The sum of the amounts of the elements whose key is `k`. */
  function KeyTotal<T>(s: seq<T>, key: T -> string, amt: T -> int, k: string): int {
    SumOf(s, Masked(key, amt, k))
  }

  function One<T>(x: T): int {
    1
  }

  /** The number of elements whose key is `k`. */
  function KeyCount<T>(s: seq<T>, key: T -> string, k: string): int {
    KeyTotal(s, key, One, k)
  }

  /** The first element of `s` whose key is `k`, if any. */
  function FirstOf<T>(s: seq<T>, key: T -> string, k: string): Option<T>
    decreases |s|
  {
    if s == [] then None
    else
      var f := FirstOf(s[..|s| - 1], key, k);
      if f.Some? then f
      else if key(s[|s| - 1]) == k then Some(s[|s| - 1])
      else None
  }

  /** `r` is `Object.values` of the accumulator after the whole of `s` has been folded in. */
  ghost predicate IsGrouping<T>(s: seq<T>, key: T -> string, amt: T -> int, r: seq<Group<T>>) {
    var ks := Keys(s, key);
    |r| == |ks| &&
    forall i :: 0 <= i < |r| ==>
      r[i].key == ks[i] &&
      FirstOf(s, key, ks[i]) == Some(r[i].first) &&
      r[i].total == KeyTotal(s, key, amt, ks[i]) &&
      r[i].count == KeyCount(s, key, ks[i])
  }

  /**
   * The accumulating loop: `acc` is the JavaScript object (key to entry) and `order` the
   * insertion order of its keys, which `Object.values` follows.
   */
  method Accumulate<T>(s: seq<T>, key: T -> string, amt: T -> int) returns (r: seq<Group<T>>)
    ensures IsGrouping(s, key, amt, r)
  {
    var acc: map<string, Group<T>> := map[];
    var order: seq<string> := [];
    for i := 0 to |s|
      invariant order == Keys(s[..i], key)
      invariant forall k :: k in acc <==> k in order
      invariant forall k :: k in acc ==>
        acc[k].key == k &&
        FirstOf(s[..i], key, k) == Some(acc[k].first) &&
        acc[k].total == KeyTotal(s[..i], key, amt, k) &&
        acc[k].count == KeyCount(s[..i], key, k)
    {
      var x := s[i];
      var k := key(x);
      assert s[..i + 1][..i] == s[..i];
      if k !in acc {
        AbsentKey(s[..i], key, amt, k);
        AbsentKey(s[..i], key, One, k);
        acc := acc[k := Group(k, x, 0, 0)];
        order := order + [k];
      }
      acc := acc[k := acc[k].(total := acc[k].total + amt(x), count := acc[k].count + 1)];
      forall k2 | k2 in acc
        ensures acc[k2].key == k2 && FirstOf(s[..i + 1], key, k2) == Some(acc[k2].first)
        ensures acc[k2].total == KeyTotal(s[..i + 1], key, amt, k2) && acc[k2].count == KeyCount(s[..i + 1], key, k2)
      {
        GroupStep(s, key, amt, i, k2);
      }
    }
    assert s[..|s|] == s;
    r := seq(|order|, j requires 0 <= j < |order| => acc[order[j]]);
  }

  /** Folding in `s[i]` adds its amount and one to its own key's total and count and leaves the other keys alone. */
  lemma GroupStep<T>(s: seq<T>, key: T -> string, amt: T -> int, i: int, k: string)
    requires 0 <= i < |s|
    ensures FirstOf(s[..i + 1], key, k) ==
      if FirstOf(s[..i], key, k).Some? then FirstOf(s[..i], key, k)
      else if key(s[i]) == k then Some(s[i]) else None
    ensures KeyTotal(s[..i + 1], key, amt, k) == KeyTotal(s[..i], key, amt, k) + if key(s[i]) == k then amt(s[i]) else 0
    ensures KeyCount(s[..i + 1], key, k) == KeyCount(s[..i], key, k) + if key(s[i]) == k then 1 else 0
  {
    assert s[..i + 1][..i] == s[..i];
  }

  /** Facts about a key that does not occur: no first element and nothing summed. */
  lemma {:induction false} AbsentKey<T>(s: seq<T>, key: T -> string, amt: T -> int, k: string)
    requires k !in Keys(s, key)
    ensures FirstOf(s, key, k) == None && KeyTotal(s, key, amt, k) == 0
    decreases |s|
  {
    if s != [] {
      var init := s[..|s| - 1];
      assert Keys(init, key) <= Keys(s, key) || Keys(init, key) == Keys(s, key);
      assert forall j :: 0 <= j < |Keys(init, key)| ==> Keys(init, key)[j] in Keys(s, key);
      AbsentKey(init, key, amt, k);
    }
  }

  /** `Keys` lists each key once. */
  lemma {:induction false} KeysDistinct<T>(s: seq<T>, key: T -> string)
    ensures Distinct(Keys(s, key))
    decreases |s|
  {
    if s != [] {
      KeysDistinct(s[..|s| - 1], key);
    }
  }

  /** `Keys` holds exactly the keys that occur in `s`. */
  lemma {:induction false} KeysMembership<T>(s: seq<T>, key: T -> string, k: string)
    ensures k in Keys(s, key) <==> exists i :: 0 <= i < |s| && key(s[i]) == k
    decreases |s|
  {
    if s != [] {
      var init := s[..|s| - 1];
      KeysMembership(init, key, k);
      if exists i :: 0 <= i < |s| && key(s[i]) == k {
        var i :| 0 <= i < |s| && key(s[i]) == k;
        if i < |s| - 1 {
          assert key(init[i]) == k;
        }
      }
      if exists i :: 0 <= i < |init| && key(init[i]) == k {
        var i :| 0 <= i < |init| && key(init[i]) == k;
        assert key(s[i]) == k;
      }
    }
  }

  /** `FirstOf` finds an element exactly for the keys that occur, and it is the earliest one. */
  lemma {:induction false} FirstOfIsFirst<T>(s: seq<T>, key: T -> string, k: string)
    ensures FirstOf(s, key, k).Some? <==> k in Keys(s, key)
    ensures FirstOf(s, key, k).Some? ==>
      exists j :: 0 <= j < |s| && s[j] == FirstOf(s, key, k).value && key(s[j]) == k &&
        forall i :: 0 <= i < j ==> key(s[i]) != k
    decreases |s|
  {
    if s != [] {
      var init := s[..|s| - 1];
      FirstOfIsFirst(init, key, k);
      var f := FirstOf(init, key, k);
      if f.Some? {
        var j :| 0 <= j < |init| && init[j] == f.value && key(init[j]) == k &&
          forall i :: 0 <= i < j ==> key(init[i]) != k;
        assert s[j] == init[j];
        assert forall i :: 0 <= i < j ==> key(s[i]) != k by {
          assert forall i :: 0 <= i < j ==> s[i] == init[i];
        }
      } else if key(s[|s| - 1]) == k {
        assert k !in Keys(init, key);
        KeysMembership(init, key, k);
        assert forall i :: 0 <= i < |s| - 1 ==> key(s[i]) != k by {
          assert forall i :: 0 <= i < |s| - 1 ==> s[i] == init[i];
        }
      }
    }
  }

  /**
   * The keys come in order of first occurrence: if key `a` is listed before key `b`, then
   * `a` occurs in `s` before every occurrence of `b`.
   */
  lemma {:induction false} KeysInFirstOccurrenceOrder<T>(s: seq<T>, key: T -> string, a: nat, b: nat, q: nat)
    requires a < b < |Keys(s, key)|
    requires q < |s| && key(s[q]) == Keys(s, key)[b]
    ensures exists p :: 0 <= p < q && key(s[p]) == Keys(s, key)[a]
    decreases |s|
  {
    var init := s[..|s| - 1];
    var ks := Keys(init, key);
    var kb := Keys(s, key)[b];
    var ka := Keys(s, key)[a];
    assert forall i :: 0 <= i < |init| ==> init[i] == s[i];
    if b < |ks| {
      if q < |s| - 1 {
        KeysInFirstOccurrenceOrder(init, key, a, b, q);
      } else {
        assert kb in ks;
        KeysMembership(init, key, kb);
        var q' :| 0 <= q' < |init| && key(init[q']) == kb;
        KeysInFirstOccurrenceOrder(init, key, a, b, q');
      }
    } else {
      assert kb == key(s[|s| - 1]) && kb !in ks;
      KeysMembership(init, key, kb);
      if q < |s| - 1 {
        assert false;
      }
      assert ka in ks;
      KeysMembership(init, key, ka);
      var p :| 0 <= p < |init| && key(init[p]) == ka;
      assert key(s[p]) == ka;
    }
  }

  /** `k => KeyTotal(s, key, amt, k)`, the per-group total as a function of the key. */
  function KeyTotalOf<T>(s: seq<T>, key: T -> string, amt: T -> int): string -> int {
    k => KeyTotal(s, key, amt, k)
  }

  /** Appending `x` to `s` adds `amt(x)` to the group totals summed over `ks` if and only if its key is in `ks`. */
  lemma {:induction false} AppendShiftsGroupTotals<T>(s: seq<T>, x: T, key: T -> string, amt: T -> int, ks: seq<string>)
    requires Distinct(ks)
    ensures SumOf(ks, KeyTotalOf(s + [x], key, amt)) ==
      SumOf(ks, KeyTotalOf(s, key, amt)) + (if key(x) in ks then amt(x) else 0)
    decreases |ks|
  {
    if ks != [] {
      var init := ks[..|ks| - 1];
      var k := ks[|ks| - 1];
      assert ks == init + [k];
      AppendShiftsGroupTotals(s, x, key, amt, init);
      assert (s + [x])[..|s|] == s;
      assert KeyTotal(s + [x], key, amt, k) == KeyTotal(s, key, amt, k) + (if key(x) == k then amt(x) else 0);
      assert key(x) in ks <==> key(x) in init || key(x) == k;
      if key(x) == k {
        assert k !in init;
      }
    }
  }

  /** Conservation: the group totals add up to the total of all amounts. */
  lemma {:induction false} GroupTotalsConserve<T>(s: seq<T>, key: T -> string, amt: T -> int)
    ensures SumOf(Keys(s, key), KeyTotalOf(s, key, amt)) == SumOf(s, amt)
    decreases |s|
  {
    if s != [] {
      var init := s[..|s| - 1];
      var x := s[|s| - 1];
      assert s == init + [x];
      var ks := Keys(init, key);
      GroupTotalsConserve(init, key, amt);
      KeysDistinct(init, key);
      AppendShiftsGroupTotals(init, x, key, amt, ks);
      if key(x) !in ks {
        AbsentKey(init, key, amt, key(x));
        assert KeyTotal(s, key, amt, key(x)) == amt(x);
        assert Keys(s, key)[..|Keys(s, key)| - 1] == ks;
      }
    }
  }

  /** Counting is summing ones, so the counts add up to the number of elements. */
  lemma {:induction false} OnesCount<T>(s: seq<T>)
    ensures SumOf(s, One) == |s|
    decreases |s|
  {
    if s != [] {
      OnesCount(s[..|s| - 1]);
    }
  }

  /** Reordering the input changes neither the set of keys nor any group's total. */
  lemma KeysAndTotalsIgnoreOrder<T>(s: seq<T>, s': seq<T>, key: T -> string, amt: T -> int, k: string)
    requires multiset(s) == multiset(s')
    ensures k in Keys(s, key) <==> k in Keys(s', key)
    ensures KeyTotal(s, key, amt, k) == KeyTotal(s', key, amt, k)
  {
    SumOfPermutation(s, s', Masked(key, amt, k));
    KeysMembership(s, key, k);
    KeysMembership(s', key, k);
    if exists i :: 0 <= i < |s| && key(s[i]) == k {
      var i :| 0 <= i < |s| && key(s[i]) == k;
      assert s[i] in multiset(s');
      var j :| 0 <= j < |s'| && s'[j] == s[i];
    }
    if exists i :: 0 <= i < |s'| && key(s'[i]) == k {
      var i :| 0 <= i < |s'| && key(s'[i]) == k;
      assert s'[i] in multiset(s);
      var j :| 0 <= j < |s| && s[j] == s'[i];
    }
  }
}
