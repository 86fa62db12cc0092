/** The array operations the dashboard uses to derive new lists: `filter`
    with an element test and `filter` with an index test. */
module Seqs {

  /** `s.filter(keep)` */
  function Filter<T>(s: seq<T>, keep: T -> bool): (r: seq<T>)
    ensures |r| <= |s|
  {
    if s == [] then []
    else (if keep(s[0]) then [s[0]] else []) + Filter(s[1..], keep)
  }

  /** The filtered list holds exactly the elements of the list that pass the test. */
  lemma {:induction false} FilterMembers<T>(s: seq<T>, keep: T -> bool)
    ensures forall x | x in Filter(s, keep) :: x in s && keep(x)
    ensures forall x | x in s && keep(x) :: x in Filter(s, keep)
    decreases |s|
  {
    if s != [] {
      FilterMembers(s[1..], keep);
      assert forall x | x in s :: x == s[0] || x in s[1..];
    }
  }

  /** Filtering distributes over concatenation, so it keeps the order of what it keeps. */
  lemma {:induction false} FilterConcat<T>(a: seq<T>, b: seq<T>, keep: T -> bool)
    ensures Filter(a + b, keep) == Filter(a, keep) + Filter(b, keep)
    decreases |a|
  {
    if a != [] {
      assert (a + b)[0] == a[0];
      assert (a + b)[1..] == a[1..] + b;
      FilterConcat(a[1..], b, keep);
      var h := if keep(a[0]) then [a[0]] else [];
      calc {
        Filter(a + b, keep);
        h + Filter(a[1..] + b, keep);
        h + (Filter(a[1..], keep) + Filter(b, keep));
        (h + Filter(a[1..], keep)) + Filter(b, keep);
      }
    } else {
      assert a + b == b;
    }
  }

  /** A filter that keeps every element returns the list unchanged. */
  lemma {:induction false} FilterKeepsAll<T>(s: seq<T>, keep: T -> bool)
    requires forall x | x in s :: keep(x)
    ensures Filter(s, keep) == s
    decreases |s|
  {
    if s != [] {
      FilterKeepsAll(s[1..], keep);
    }
  }

  /** Two lists that keep the same positions, and agree wherever they keep, filter alike. */
  lemma {:induction false} FilterAgree<T>(a: seq<T>, b: seq<T>, keep: T -> bool)
    requires |a| == |b|
    requires forall j :: 0 <= j < |a| ==> keep(a[j]) == keep(b[j]) && (keep(a[j]) ==> a[j] == b[j])
    ensures Filter(a, keep) == Filter(b, keep)
    decreases |a|
  {
    if a != [] {
      assert keep(a[0]) == keep(b[0]);
      FilterAgree(a[1..], b[1..], keep);
    }
  }

  /** `s.filter((_, i) => i !== index)`, applied to the part of an array that starts
      at position `offset`. */
  function DropPosition<T>(s: seq<T>, index: int, offset: int): (r: seq<T>)
    decreases |s|
    ensures offset <= index < offset + |s| ==> r == s[..index - offset] + s[index - offset + 1..]
    ensures !(offset <= index < offset + |s|) ==> r == s
  {
    if s == [] then []
    else (if offset == index then [] else [s[0]]) + DropPosition(s[1..], index, offset + 1)
  }

  /** `s.filter((_, i) => i !== index)`: the list without the element at `index`,
      the others in their order; an index out of range removes nothing. */
  function RemoveAt<T>(s: seq<T>, index: int): (r: seq<T>)
    ensures |r| == if 0 <= index < |s| then |s| - 1 else |s|
    ensures 0 <= index < |s| ==> r == s[..index] + s[index + 1..]
    ensures forall k :: 0 <= k < |r| ==> r[k] == if 0 <= index <= k then s[k + 1] else s[k]
  {
    DropPosition(s, index, 0)
  }
}
