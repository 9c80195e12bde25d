/**
 * The one `List<T>` operation the game's scripts use that is more than an
 * append or a clear: `List.Remove(item)`, which removes the first element
 * equal to `item` and leaves the list alone when there is none.
 */
module Collections {

  /** The index of the first occurrence of `x` in `s`, or `|s|` if none. */
  function IndexOf<T(==)>(s: seq<T>, x: T): (k: nat)
    ensures k <= |s|
    ensures k < |s| <==> x in s
    ensures k < |s| ==> s[k] == x
    ensures forall j :: 0 <= j < k ==> s[j] != x
  {
    if s == [] then 0 else if s[0] == x then 0 else 1 + IndexOf(s[1..], x)
  }

  /** `List.Remove(x)`. */
  function RemoveFirst<T(==)>(s: seq<T>, x: T): (r: seq<T>)
    ensures x !in s ==> r == s
    ensures x in s ==> |r| == |s| - 1
    ensures x in s ==> r == s[..IndexOf(s, x)] + s[IndexOf(s, x) + 1..]
  {
    var k := IndexOf(s, x);
    if k == |s| then s else s[..k] + s[k + 1..]
  }

  /** Exactly one occurrence of `x` is removed, and nothing else. */
  lemma RemoveFirstMultiset<T>(s: seq<T>, x: T)
    ensures multiset(RemoveFirst(s, x)) == multiset(s) - multiset{x}
  {
    var k := IndexOf(s, x);
    if k < |s| {
      assert s == s[..k] + [x] + s[k + 1..];
      assert multiset(s) == multiset(s[..k]) + multiset{x} + multiset(s[k + 1..]);
    } else {
      assert multiset(s)[x] == 0;
    }
  }

  /**
   * The elements that stay keep their relative order: the element at `i`
   * after the removal is the one at `i` before it, or at `i + 1` once past
   * the removed occurrence.
   */
  lemma {:induction false} RemoveFirstKeepsOrder<T>(s: seq<T>, x: T)
    ensures forall i :: 0 <= i < |RemoveFirst(s, x)| ==>
      RemoveFirst(s, x)[i] == s[if i < IndexOf(s, x) then i else i + 1]
  {
  }
}
