/**
 * Sequence operations the canvas model is built from: JavaScript's
 * `Array.prototype.slice`, order-preserving removal (`filter`), reversal, and
 * the distinctness of an object list.
 */
module Seqs {

  ghost predicate Distinct<T>(s: seq<T>) {
    forall i, j :: 0 <= i < j < |s| ==> s[i] != s[j]
  }

  function Elems<T(!new)>(s: seq<T>): (r: set<T>)
    ensures forall x :: x in r <==> x in s
  {
    set x | x in s
  }

  /** Where `slice` reads an index: negative counts from the end, then clamped to `[0, len]`. */
  function SliceIndex(i: int, len: nat): (r: nat)
    ensures r <= len
    ensures 0 <= i <= len ==> r == i
    ensures i > len ==> r == len
    ensures i < 0 ==> r == if len + i < 0 then 0 else len + i
  {
    if i < 0 then (if len + i < 0 then 0 else len + i)
    else if i > len then len
    else i
  }

  /** `s.slice(start, end)`. */
  function Slice<T>(s: seq<T>, start: int, end: int): (r: seq<T>)
    ensures |r| <= |s|
    ensures forall x :: x in r ==> x in s
    ensures 0 <= start <= end <= |s| ==> r == s[start..end]
    ensures 0 <= start && |s| <= end ==> r == s[if start <= |s| then start else |s|..]
  {
    var from := SliceIndex(start, |s|);
    var to := SliceIndex(end, |s|);
    if from >= to then [] else s[from..to]
  }

  /** `s.filter(x => !(x in d))`: the elements outside `d`, in their order. */
  function Without<T(==,!new)>(s: seq<T>, d: set<T>): (r: seq<T>)
    ensures forall x :: x in r <==> x in s && x !in d
    ensures |r| <= |s|
  {
    if s == [] then []
    else
      var rest := Without(s[1..], d);
      if s[0] in d then rest else [s[0]] + rest
  }

  lemma {:induction false} WithoutDistinct<T(!new)>(s: seq<T>, d: set<T>)
    requires Distinct(s)
    ensures Distinct(Without(s, d))
  {
    if s != [] {
      assert s[0] !in s[1..] && Distinct(s[1..]) by {
        forall k | 0 <= k < |s[1..]| ensures s[1..][k] != s[0] {
          assert s[1..][k] == s[k + 1];
        }
      }
      WithoutDistinct(s[1..], d);
    }
  }

  /** Removing elements that do not occur changes nothing. */
  lemma {:induction false} WithoutNothing<T(!new)>(s: seq<T>, d: set<T>)
    requires forall x :: x in s ==> x !in d
    ensures Without(s, d) == s
  {
    if s != [] {
      WithoutNothing(s[1..], d);
      assert [s[0]] + s[1..] == s;
    }
  }

  /** Removing every element leaves nothing. */
  lemma WithoutEverything<T(!new)>(s: seq<T>, d: set<T>)
    requires forall x :: x in s ==> x in d
    ensures Without(s, d) == []
  {
    if Without(s, d) != [] {
      assert Without(s, d)[0] in Without(s, d);
    }
  }

  lemma {:induction false} WithoutAppend<T(!new)>(a: seq<T>, b: seq<T>, d: set<T>)
    ensures Without(a + b, d) == Without(a, d) + Without(b, d)
  {
    if a == [] {
      assert a + b == b;
    } else {
      var ab := a + b;
      assert ab[0] == a[0] && ab[1..] == a[1..] + b;
      WithoutAppend(a[1..], b, d);
      if a[0] !in d {
        assert [a[0]] + (Without(a[1..], d) + Without(b, d)) == ([a[0]] + Without(a[1..], d)) + Without(b, d);
      }
    }
  }

  lemma {:induction false} WithoutTwice<T(!new)>(s: seq<T>, d: set<T>, e: set<T>)
    ensures Without(Without(s, d), e) == Without(s, d + e)
  {
    if s != [] {
      WithoutTwice(s[1..], d, e);
    }
  }

  /** Removing the elements of `init` and then `x` removes the elements of `init + [x]`. */
  lemma WithoutSnoc<T(!new)>(s: seq<T>, init: seq<T>, x: T)
    ensures Without(Without(s, Elems(init)), {x}) == Without(s, Elems(init + [x]))
  {
    WithoutTwice(s, Elems(init), {x});
    assert Elems(init) + {x} == Elems(init + [x]);
  }

  function Reverse<T>(s: seq<T>): (r: seq<T>)
    ensures |r| == |s|
    ensures forall i :: 0 <= i < |s| ==> r[i] == s[|s| - 1 - i]
  {
    if s == [] then [] else Reverse(s[1..]) + [s[0]]
  }

  lemma ReverseMembers<T>(s: seq<T>)
    ensures forall x :: x in Reverse(s) <==> x in s
  {
    forall x | x in s ensures x in Reverse(s) {
      var i :| 0 <= i < |s| && s[i] == x;
      assert Reverse(s)[|s| - 1 - i] == x;
    }
  }

  /** Appending to a sequence prepends to its reversal. */
  lemma ReverseSnoc<T>(s: seq<T>, x: T)
    ensures Reverse(s + [x]) == [x] + Reverse(s)
  {
    assert forall i :: 0 <= i < |s| + 1 ==> Reverse(s + [x])[i] == ([x] + Reverse(s))[i];
  }
}
