/**
 * The JavaScript array built-ins the form editor relies on, on immutable sequences:
 * `splice` (insert one element, remove one element), `filter` and `findIndex`.
 */
module Arrays {

  /** `splice` clamps a start index past the end of the array to its length. */
  function Clamp(start: nat, len: nat): (c: nat)
    ensures c <= len
    ensures c == start || (start > len && c == len)
  {
    if start <= len then start else len
  }

  /** A copy of `s` after `copy.splice(start, 0, x)`. */
  function InsertAt<T>(s: seq<T>, start: nat, x: T): (r: seq<T>)
    ensures |r| == |s| + 1
    ensures r[Clamp(start, |s|)] == x
    ensures forall j :: 0 <= j < Clamp(start, |s|) ==> r[j] == s[j]
    ensures forall j :: Clamp(start, |s|) <= j < |s| ==> r[j + 1] == s[j]
    ensures multiset(r) == multiset(s) + multiset{x}
  {
    var c := Clamp(start, |s|);
    assert s == s[..c] + s[c..];
    s[..c] + [x] + s[c..]
  }

  /** A copy of `s` after `copy.splice(start, 1)` with `start` an index of `s`. */
  function RemoveAt<T>(s: seq<T>, start: nat): (r: seq<T>)
    requires start < |s|
    ensures |r| == |s| - 1
    ensures forall j :: 0 <= j < start ==> r[j] == s[j]
    ensures forall j :: start <= j < |r| ==> r[j] == s[j + 1]
    ensures multiset(r) + multiset{s[start]} == multiset(s)
  {
    assert s == s[..start] + [s[start]] + s[start + 1..];
    s[..start] + s[start + 1..]
  }

  /** Removing the element just inserted gives the original sequence back. */
  lemma RemoveInserted<T>(s: seq<T>, start: nat, x: T)
    ensures RemoveAt(InsertAt(s, start, x), Clamp(start, |s|)) == s
  {
    var c := Clamp(start, |s|);
    var r := RemoveAt(InsertAt(s, start, x), c);
    assert forall j :: 0 <= j < |s| ==> r[j] == s[j];
  }

  /** `s.filter(p)`: the elements that satisfy `p`, in their original order. */
  function Filter<T>(s: seq<T>, p: T -> bool): (r: seq<T>)
    ensures |r| <= |s|
    ensures forall i :: 0 <= i < |r| ==> p(r[i])
  {
    if |s| == 0 then []
    else if p(s[0]) then [s[0]] + Filter(s[1..], p)
    else Filter(s[1..], p)
  }

  /** `filter` keeps exactly the elements that satisfy `p`. */
  lemma {:induction false} FilterMembers<T>(s: seq<T>, p: T -> bool, x: T)
    ensures x in Filter(s, p) <==> x in s && p(x)
  {
    if |s| > 0 {
      FilterMembers(s[1..], p, x);
      assert s == [s[0]] + s[1..];
    }
  }

  /** Filtering a concatenation filters each part: the kept elements keep their order. */
  lemma {:induction false} FilterConcat<T>(a: seq<T>, b: seq<T>, p: T -> bool)
    ensures Filter(a + b, p) == Filter(a, p) + Filter(b, p)
  {
    if |a| == 0 {
      assert a + b == b;
    } else {
      assert (a + b)[0] == a[0];
      assert (a + b)[1..] == a[1..] + b;
      FilterConcat(a[1..], b, p);
    }
  }

  /** A filter that every element passes returns its input unchanged. */
  lemma {:induction false} FilterKeepsAll<T>(s: seq<T>, p: T -> bool)
    requires forall i :: 0 <= i < |s| ==> p(s[i])
    ensures Filter(s, p) == s
  {
    if |s| > 0 {
      FilterKeepsAll(s[1..], p);
    }
  }

  /** A filter that rejects exactly one element between two kept runs drops just that element. */
  lemma {:induction false} FilterDropsOne<T>(a: seq<T>, x: T, b: seq<T>, p: T -> bool)
    requires forall i :: 0 <= i < |a| ==> p(a[i])
    requires forall i :: 0 <= i < |b| ==> p(b[i])
    requires !p(x)
    ensures Filter(a + [x] + b, p) == a + b
  {
    if |a| == 0 {
      assert a + [x] + b == [x] + b && ([x] + b)[1..] == b;
      FilterKeepsAll(b, p);
    } else {
      assert (a + [x] + b)[1..] == a[1..] + [x] + b;
      FilterDropsOne(a[1..], x, b, p);
      assert [a[0]] + (a[1..] + b) == a + b;
    }
  }

  /** The number of elements of `s` that satisfy `p`. */
  function CountIf<T>(s: seq<T>, p: T -> bool): nat
  {
    if |s| == 0 then 0 else (if p(s[0]) then 1 else 0) + CountIf(s[1..], p)
  }

  /** `filter` drops exactly the elements that fail `p`. */
  lemma {:induction false} FilterLength<T>(s: seq<T>, p: T -> bool)
    ensures |Filter(s, p)| == CountIf(s, p)
  {
    if |s| > 0 {
      FilterLength(s[1..], p);
    }
  }

  /** `s.findIndex(p)`: the first index whose element satisfies `p`, or -1 when there is none. */
  function FindIndex<T>(s: seq<T>, p: T -> bool): (r: int)
    ensures -1 <= r < |s|
    ensures r == -1 <==> forall i :: 0 <= i < |s| ==> !p(s[i])
    ensures r != -1 ==> p(s[r]) && forall j :: 0 <= j < r ==> !p(s[j])
  {
    if |s| == 0 then -1
    else if p(s[0]) then 0
    else
      var k := FindIndex(s[1..], p);
      if k == -1 then -1 else k + 1
  }
}
