/**
 * The `java.util.List` operations the health book relies on, stated on
 * sequences: `remove(Object)` (first equal element), replacing the first
 * equal element, and replacing every equal element.
 */
module Sequences {

  /** Position of the first element equal to `x`. */
  function IndexOf<T(==)>(s: seq<T>, x: T): (k: nat)
    requires x in s
    ensures k < |s| && s[k] == x
    ensures forall j :: 0 <= j < k ==> s[j] != x
  {
    if s[0] == x then 0 else 1 + IndexOf(s[1..], x)
  }

  /** `List.remove(Object)`: drops the first element equal to `x`, if any. */
  function RemoveFirst<T(==)>(s: seq<T>, x: T): (r: seq<T>)
    ensures x !in s ==> r == s
    ensures x in s ==> |r| == |s| - 1 && r == s[..IndexOf(s, x)] + s[IndexOf(s, x) + 1..]
    ensures multiset(r) == multiset(s) - multiset{x}
  {
    if x in s then
      var k := IndexOf(s, x);
      assert s == s[..k] + [x] + s[k + 1..];
      s[..k] + s[k + 1..]
    else
      assert multiset(s)[x] == 0;
      s
  }

  /**
   * Overwriting position `k` by `y` and then removing the first `y` takes
   * exactly the old element at `k` out of the multiset and keeps one fewer element.
   */
  lemma UpdateThenRemove<T>(s: seq<T>, k: nat, y: T)
    requires k < |s|
    ensures |RemoveFirst(s[k := y], y)| == |s| - 1
    ensures multiset(RemoveFirst(s[k := y], y)) == multiset(s) - multiset{s[k]}
  {
    var marked := s[k := y];
    assert s == s[..k] + [s[k]] + s[k + 1..];
    assert marked == s[..k] + [y] + s[k + 1..];
    assert y in marked;
  }

  /** Replaces the first element equal to `x` by `y`; no change when `x` is absent. */
  function ReplaceFirst<T(==)>(s: seq<T>, x: T, y: T): (r: seq<T>)
    ensures |r| == |s|
    ensures x !in s ==> r == s
    ensures x in s ==> r == s[IndexOf(s, x) := y]
  {
    if x in s then s[IndexOf(s, x) := y] else s
  }

  /** Replaces every element equal to `x` by `y`, keeping positions. */
  function ReplaceAll<T(==)>(s: seq<T>, x: T, y: T): (r: seq<T>)
    ensures |r| == |s|
    ensures forall i :: 0 <= i < |s| ==> r[i] == (if s[i] == x then y else s[i])
  {
    if s == [] then [] else [if s[0] == x then y else s[0]] + ReplaceAll(s[1..], x, y)
  }

  /** After replacing every `x` by a different `y`, no `x` is left. */
  lemma ReplaceAllRemoves<T>(s: seq<T>, x: T, y: T)
    requires x != y
    ensures x !in ReplaceAll(s, x, y)
  {
    var r := ReplaceAll(s, x, y);
    forall i | 0 <= i < |r| ensures r[i] != x {
      assert r[i] == (if s[i] == x then y else s[i]);
    }
  }

  /** Replacing twice is replacing once, so a list reached through two aliases ends up the same. */
  lemma ReplaceAllIdempotent<T>(s: seq<T>, x: T, y: T)
    ensures ReplaceAll(ReplaceAll(s, x, y), x, y) == ReplaceAll(s, x, y)
  {
    var r := ReplaceAll(s, x, y);
    var rr := ReplaceAll(r, x, y);
    forall i | 0 <= i < |s| ensures rr[i] == r[i] {
      assert rr[i] == (if r[i] == x then y else r[i]);
      assert r[i] == (if s[i] == x then y else s[i]);
    }
  }

  /** In a list where `x` sits at `k` and nowhere before it, replacing the first `x` replaces position `k`. */
  lemma {:induction false} ReplaceFirstAt<T>(s: seq<T>, k: nat, y: T)
    requires k < |s|
    requires forall j :: 0 <= j < k ==> s[j] != s[k]
    ensures ReplaceFirst(s, s[k], y) == s[k := y]
  {
    var i := IndexOf(s, s[k]);
    assert i <= k;
    assert !(i < k);
  }
}
