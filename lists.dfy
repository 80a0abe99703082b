/** Array operations the source performs on label lists and detection lists. */
module Lists {

  predicate NoDuplicates<T(==)>(s: seq<T>) {
    forall i, j :: 0 <= i < j < |s| ==> s[i] != s[j]
  }

  /** JavaScript `indexOf`: the first position of `x`, or `|s|` when `x` does not occur. */
  function IndexOf<T(==)>(s: seq<T>, x: T): (i: nat)
    ensures i <= |s|
    ensures i < |s| <==> x in s
    ensures i < |s| ==> s[i] == x
    ensures forall k :: 0 <= k < i ==> s[k] != x
  {
    if s == [] then 0
    else if s[0] == x then 0
    else 1 + IndexOf(s[1..], x)
  }

  /** The last element of a concatenation with a non-empty right part, and what precedes it. */
  lemma DropLastOfAppend<T>(a: seq<T>, b: seq<T>)
    requires b != []
    ensures (a + b)[..|a + b| - 1] == a + b[..|b| - 1]
    ensures (a + b)[|a + b| - 1] == b[|b| - 1]
  {
  }

  /** The first element of a concatenation with a non-empty left part, and what follows it. */
  lemma DropFirstOfAppend<T>(a: seq<T>, b: seq<T>)
    requires a != []
    ensures (a + b)[1..] == a[1..] + b
    ensures (a + b)[0] == a[0]
  {
  }

  /** Appending nothing leaves a list as it is. */
  lemma AppendEmpty<T>(s: seq<T>)
    ensures s + [] == s
  {
  }

  /** Concatenation is associative; stated once so that list proofs need not redo it element by element. */
  lemma AppendAssoc<T>(x: seq<T>, y: seq<T>, z: seq<T>)
    ensures (x + y) + z == x + (y + z)
  {
  }

  /** Pushing an element that is not yet present keeps a list duplicate-free. */
  lemma PushFresh<T>(s: seq<T>, x: T)
    requires x !in s
    ensures (s + [x])[..|s|] == s
    ensures forall y :: y in s + [x] <==> y in s || y == x
    ensures NoDuplicates(s) ==> NoDuplicates(s + [x])
  {
  }

  /** Appending after the first occurrence of `x` does not move it. */
  lemma IndexOfPrefix<T>(s: seq<T>, t: seq<T>, x: T)
    requires x in s
    ensures IndexOf(s + t, x) == IndexOf(s, x)
  {
    var i := IndexOf(s, x);
    assert (s + t)[i] == x;
    assert forall k :: 0 <= k < i ==> (s + t)[k] == s[k];
  }

  /** An element absent from `s` is found in `s + t` after all of `s`. */
  lemma IndexOfAfter<T>(s: seq<T>, t: seq<T>, x: T)
    requires x !in s && x in t
    ensures IndexOf(s + t, x) == |s| + IndexOf(t, x)
  {
    var i := IndexOf(t, x);
    assert (s + t)[|s| + i] == x;
    assert forall k :: 0 <= k < |s| ==> (s + t)[k] == s[k];
    assert forall k :: 0 <= k < i ==> (s + t)[|s| + k] == t[k];
  }

  /**
   * JavaScript `s.splice(i, 1)` for a non-negative index: removes the element at `i`
   * and keeps the others in their order; an index past the end changes nothing.
   */
  function RemoveAt<T>(s: seq<T>, i: nat): (r: seq<T>)
    ensures i >= |s| ==> r == s
    ensures i < |s| ==> |r| == |s| - 1
    ensures i < |s| ==> forall j :: 0 <= j < |r| ==> r[j] == s[if j < i then j else j + 1]
  {
    if i < |s| then s[..i] + s[i + 1..] else s
  }

  /** Removing one element takes exactly that element out of the multiset of elements. */
  lemma RemoveAtMultiset<T>(s: seq<T>, i: nat)
    requires i < |s|
    ensures multiset(RemoveAt(s, i)) + multiset{s[i]} == multiset(s)
  {
    assert s == s[..i] + [s[i]] + s[i + 1..];
  }

  /** Removing an element from a list without duplicates leaves a list without duplicates. */
  lemma RemoveAtNoDuplicates<T>(s: seq<T>, i: nat)
    requires NoDuplicates(s)
    ensures NoDuplicates(RemoveAt(s, i))
  {
    var r := RemoveAt(s, i);
    if i < |s| {
      forall a, b | 0 <= a < b < |r|
        ensures r[a] != r[b]
      {
        assert r[a] == s[if a < i then a else a + 1];
        assert r[b] == s[if b < i then b else b + 1];
      }
    }
  }
}
