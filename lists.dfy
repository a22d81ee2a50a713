/** `Array.prototype.filter` on the script's immutable event list. */
module Lists {

  function Filter<T(!new)>(s: seq<T>, p: T -> bool): (r: seq<T>)
    ensures |r| <= |s|
  {
    if s == [] then [] else (if p(s[0]) then [s[0]] else []) + Filter(s[1..], p)
  }

  /** A filter keeps exactly the elements that satisfy its predicate. */
  lemma {:induction false} FilterMembers<T(!new)>(s: seq<T>, p: T -> bool)
    ensures forall x :: x in Filter(s, p) <==> x in s && p(x)
  {
    if s != [] {
      FilterMembers(s[1..], p);
      assert s == [s[0]] + s[1..];
    }
  }

  /** A filter that selects every element keeps the sequence whole, and one
      that selects none leaves nothing. */
  lemma {:induction false} FilterAllOrNone<T(!new)>(s: seq<T>, p: T -> bool)
    ensures (forall x :: x in s ==> p(x)) ==> Filter(s, p) == s
    ensures (forall x :: x in s ==> !p(x)) ==> Filter(s, p) == []
  {
    if s != [] {
      FilterAllOrNone(s[1..], p);
      assert forall x :: x in s[1..] ==> x in s;
      assert s == [s[0]] + s[1..];
    }
  }

  /** Filtering a concatenation filters each part and keeps them in order;
      with `Filter([x], p)` this pins down the result completely, so a filter
      keeps the selected elements in their original order. */
  lemma {:induction false} FilterAppend<T(!new)>(s: seq<T>, t: seq<T>, p: T -> bool)
    ensures Filter(s + t, p) == Filter(s, p) + Filter(t, p)
  {
    if s == [] {
      assert s + t == t;
    } else {
      var head := if p(s[0]) then [s[0]] else [];
      assert (s + t)[0] == s[0] && (s + t)[1..] == s[1..] + t;
      assert Filter(s + t, p) == head + Filter(s[1..] + t, p);
      FilterAppend(s[1..], t, p);
      assert head + (Filter(s[1..], p) + Filter(t, p)) == (head + Filter(s[1..], p)) + Filter(t, p);
    }
  }

  /** Where the k-th element of a filtered sequence comes from: a selected
      position of the input with exactly k selected positions before it, so
      that positions grow with k and the filter keeps the input's order. */
  function FilterPosition<T(!new)>(s: seq<T>, p: T -> bool, k: nat): (i: nat)
    requires k < |Filter(s, p)|
    ensures i < |s| && s[i] == Filter(s, p)[k] && p(s[i])
    ensures |Filter(s[..i], p)| == k
  {
    if p(s[0]) && k == 0 then
      assert s[..0] == [];
      0
    else
      var k' := if p(s[0]) then k - 1 else k;
      var j := FilterPosition(s[1..], p, k');
      FilterPositionShift(s, p, k, j);
      j + 1
  }

  /** A position in the tail of `s` is one further along in `s`, with one
      more selected position before it when the head is selected. */
  lemma FilterPositionShift<T(!new)>(s: seq<T>, p: T -> bool, k: nat, j: nat)
    requires s != [] && k < |Filter(s, p)| && !(p(s[0]) && k == 0)
    requires j < |s| - 1
    requires s[1..][j] == Filter(s[1..], p)[if p(s[0]) then k - 1 else k]
    requires |Filter(s[1..][..j], p)| == if p(s[0]) then k - 1 else k
    ensures s[j + 1] == Filter(s, p)[k]
    ensures |Filter(s[..j + 1], p)| == k
  {
    assert s[..j + 1] == [s[0]] + s[1..][..j];
    FilterAppend([s[0]], s[1..][..j], p);
  }
}
