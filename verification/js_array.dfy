/**
 * The few `Array.prototype` operations the listener is built from:
 * searching for the first match (FindIndex), filtering (Filter), the concatenating
 * flattening (Flatten) and insertion without deletion (Splice), with the facts about them
 * that the lookups and the hook splicing need.
 */
module JsArray {
  import opened Wrappers

  /** Index of the first element satisfying `p`, as `findIndex`; `None` where JS gives -1 (and `find` gives `undefined`). */
  function FindIndex<T>(s: seq<T>, p: T -> bool): (r: Option<nat>)
    ensures r.Some? ==> r.value < |s| && p(s[r.value]) && forall j :: 0 <= j < r.value ==> !p(s[j])
    ensures r.None? ==> forall j :: 0 <= j < |s| ==> !p(s[j])
  {
    if |s| == 0 then None
    else if p(s[0]) then Some(0)
    else
      var rest := FindIndex(s[1..], p);
      assert forall j :: 1 <= j < |s| ==> s[j] == s[1..][j - 1];
      match rest
      case None => None
      case Some(k) => Some(k + 1)
  }

  /** The elements of `s` satisfying `p`, in order. */
  function Filter<T>(s: seq<T>, p: T -> bool): (r: seq<T>)
    ensures |r| <= |s|
    ensures forall k :: 0 <= k < |r| ==> r[k] in s && p(r[k])
    ensures forall k :: 0 <= k < |s| && p(s[k]) ==> s[k] in r
  {
    if |s| == 0 then []
    else (if p(s[0]) then [s[0]] else []) + Filter(s[1..], p)
  }

  /** The lists of `ss` concatenated, first list first: the reference `Flatten` is proved against. */
  function Concat<T>(ss: seq<seq<T>>): seq<T>
  {
    if |ss| == 0 then [] else ss[0] + Concat(ss[1..])
  }

  /** Appending one more list to `ss` appends its elements to the concatenation. */
  lemma {:induction false} ConcatSnoc<T>(ss: seq<seq<T>>, xs: seq<T>)
    ensures Concat(ss + [xs]) == Concat(ss) + xs
  {
    if |ss| == 0 {
      assert ss + [xs] == [xs];
      assert Concat([xs]) == xs + Concat([xs][1..]);
      assert [xs][1..] == [];
    } else {
      assert (ss + [xs])[1..] == ss[1..] + [xs];
      ConcatSnoc(ss[1..], xs);
    }
  }

  /** The lists of `ss` concatenated, as a left fold from the empty list (`reduce` with `concat`). */
  function Flatten<T>(ss: seq<seq<T>>): (r: seq<T>)
    ensures r == Concat(ss)
  {
    if |ss| == 0 then []
    else
      var init, last := ss[..|ss| - 1], ss[|ss| - 1];
      assert ss == init + [last];
      ConcatSnoc(init, last);
      Flatten(init) + last
  }

  /** Every element of every inner list is in the flattened list, and every element of it comes from an inner list. */
  lemma {:induction false} FlattenMembers<T>(ss: seq<seq<T>>)
    ensures forall i, j :: 0 <= i < |ss| && 0 <= j < |ss[i]| ==> ss[i][j] in Flatten(ss)
    ensures forall k :: 0 <= k < |Flatten(ss)| ==> exists i :: 0 <= i < |ss| && Flatten(ss)[k] in ss[i]
  {
    if |ss| > 0 {
      var init := ss[..|ss| - 1];
      FlattenMembers(init);
      assert forall i :: 0 <= i < |ss| - 1 ==> init[i] == ss[i];
      var r := Flatten(ss);
      assert r == Flatten(init) + ss[|ss| - 1];
      forall k | 0 <= k < |r| ensures exists i :: 0 <= i < |ss| && r[k] in ss[i] {
        if k >= |Flatten(init)| {
          assert r[k] == ss[|ss| - 1][k - |Flatten(init)|];
          var n := |ss| - 1;
          assert 0 <= n < |ss| && r[k] in ss[n];
        } else {
          var i :| 0 <= i < |init| && Flatten(init)[k] in init[i];
          assert 0 <= i < |ss| && r[k] in ss[i];
        }
      }
    } else {
      assert Flatten(ss) == [];
    }
  }

  /** Array insertion: `x` goes before position `i`, or at the end when `i` is past it (the start index is clamped). */
  function Splice<T>(s: seq<T>, i: nat, x: T): (r: seq<T>)
    ensures |r| == |s| + 1
  {
    var at := if i <= |s| then i else |s|;
    s[..at] + [x] + s[at..]
  }

  /** Where `Splice` puts the new element. */
  function SplicePoint<T>(s: seq<T>, i: nat): nat
  {
    if i <= |s| then i else |s|
  }

  lemma SpliceAt<T>(s: seq<T>, i: nat, x: T)
    ensures var at := SplicePoint(s, i);
      Splice(s, i, x)[at] == x &&
      (forall q :: 0 <= q < at ==> Splice(s, i, x)[q] == s[q]) &&
      (forall q :: at <= q < |s| ==> Splice(s, i, x)[q + 1] == s[q])
  {
  }

  /** Searching a concatenation searches the left part first. */
  lemma {:induction false} FindIndexAppend<T>(a: seq<T>, b: seq<T>, p: T -> bool)
    ensures FindIndex(a + b, p) ==
      match FindIndex(a, p)
      case Some(k) => Some(k)
      case None =>
        match FindIndex(b, p)
        case Some(k) => Some(|a| + k)
        case None => None
  {
    var r := FindIndex(a + b, p);
    match FindIndex(a, p)
    case Some(k) =>
      assert (a + b)[k] == a[k];
      assert forall j :: 0 <= j < k ==> (a + b)[j] == a[j];
    case None =>
      assert forall j :: 0 <= j < |a| ==> (a + b)[j] == a[j];
      assert forall j :: 0 <= j < |b| ==> (a + b)[|a| + j] == b[j];
      match FindIndex(b, p)
      case Some(k) =>
      case None =>
  }

  /** The position `(i, j)` of `ss` holds an element satisfying `p`. */
  ghost predicate At2<T>(ss: seq<seq<T>>, p: T -> bool, i: int, j: int)
  {
    0 <= i < |ss| && 0 <= j < |ss[i]| && p(ss[i][j])
  }

  /** `(i, j)` is the first position of `ss`, row by row, holding an element satisfying `p`. */
  ghost predicate First2<T>(ss: seq<seq<T>>, p: T -> bool, i: int, j: int)
  {
    At2(ss, p, i, j) &&
    forall i', j' :: At2(ss, p, i', j') ==> i < i' || (i == i' && j <= j')
  }

  /** Searching the flattened sequence finds the first match row by row. */
  lemma {:induction false} FindIndexFlatten<T>(ss: seq<seq<T>>, p: T -> bool)
    ensures FindIndex(Flatten(ss), p).None? <==> forall i, j :: !At2(ss, p, i, j)
    ensures FindIndex(Flatten(ss), p).Some? ==>
      exists i, j :: First2(ss, p, i, j) && Flatten(ss)[FindIndex(Flatten(ss), p).value] == ss[i][j]
  {
    if |ss| == 0 {
    } else {
      var n := |ss| - 1;
      var init, last := ss[..n], ss[n];
      assert Flatten(ss) == Flatten(init) + last;
      assert forall i :: 0 <= i < n ==> init[i] == ss[i];
      assert forall i, j :: At2(init, p, i, j) <==> At2(ss, p, i, j) && i < n;
      FindIndexFlatten(init, p);
      FindIndexAppend(Flatten(init), last, p);
      match FindIndex(Flatten(init), p)
      case Some(k) =>
        var i, j :| First2(init, p, i, j) && Flatten(init)[k] == init[i][j];
        assert First2(ss, p, i, j);
      case None =>
        match FindIndex(last, p)
        case Some(k) =>
          assert At2(ss, p, n, k);
          assert First2(ss, p, n, k);
        case None =>
    }
  }

  lemma {:induction false} FilterAppend<T>(a: seq<T>, b: seq<T>, p: T -> bool)
    ensures Filter(a + b, p) == Filter(a, p) + Filter(b, p)
  {
    if |a| == 0 {
      assert a + b == b;
    } else {
      assert (a + b)[1..] == a[1..] + b;
      FilterAppend(a[1..], b, p);
    }
  }

  /** A filter that rejects the inserted element ignores the insertion. */
  lemma FilterSpliceRejected<T>(s: seq<T>, i: nat, x: T, p: T -> bool)
    requires !p(x)
    ensures Filter(Splice(s, i, x), p) == Filter(s, p)
  {
    var at := SplicePoint(s, i);
    var front, back := s[..at], s[at..];
    assert Splice(s, i, x) == front + ([x] + back);
    assert s == front + back;
    assert Filter([x], p) == [];
    FilterAppend([x], back, p);
    FilterAppend(front, [x] + back, p);
    FilterAppend(front, back, p);
  }

  /** A filter that accepts the inserted element, where nothing after the insertion point passes it, gains that element last. */
  lemma FilterSpliceAccepted<T>(s: seq<T>, i: nat, x: T, p: T -> bool)
    requires p(x)
    requires Filter(s[SplicePoint(s, i)..], p) == []
    ensures Filter(Splice(s, i, x), p) == Filter(s, p) + [x]
  {
    var at := SplicePoint(s, i);
    var front, back := s[..at], s[at..];
    assert s == front + back;
    FilterAppend(front, back, p);
    assert Filter(s, p) == Filter(front, p) + [];
    assert Splice(s, i, x) == front + ([x] + back);
    FilterAppend(front, [x] + back, p);
    FilterAcceptedFirst(x, back, p);
  }

  /** An element the filter accepts, followed by elements it rejects, is all the filter keeps. */
  lemma FilterAcceptedFirst<T>(x: T, back: seq<T>, p: T -> bool)
    requires p(x) && Filter(back, p) == []
    ensures Filter([x] + back, p) == [x]
  {
    assert ([x] + back)[1..] == back;
  }

  lemma {:induction false} FilterRejectsAll<T>(s: seq<T>, p: T -> bool)
    requires forall q :: 0 <= q < |s| ==> !p(s[q])
    ensures Filter(s, p) == []
  {
    if |s| > 0 {
      FilterRejectsAll(s[1..], p);
    }
  }

  lemma {:induction false} FilterKeepsAll<T>(s: seq<T>, p: T -> bool)
    requires forall q :: 0 <= q < |s| ==> p(s[q])
    ensures Filter(s, p) == s
  {
    if |s| > 0 {
      FilterKeepsAll(s[1..], p);
    }
  }
}
