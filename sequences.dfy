/** The JavaScript array operations the controllers use on id lists:
    `includes`, `indexOf`, and `splice(indexOf(x), 1)` to drop one entry. */
module Sequences {

  /** No entry occurs twice. */
  predicate NoDup<T(==)>(s: seq<T>) {
    forall i, j :: 0 <= i < j < |s| ==> s[i] != s[j]
  }

  /** The set of entries of a list. */
  function Elements<T>(s: seq<T>): set<T> {
    set x | x in s
  }

  /** `s.indexOf(x)` for an `x` that `s.includes`: the first position holding `x`. */
  function IndexOf<T(==)>(s: seq<T>, x: T): (i: nat)
    requires x in s
    ensures i < |s| && s[i] == x
    ensures x !in s[..i]
  {
    if s[0] == x then 0 else 1 + IndexOf(s[1..], x)
  }

  /** `s.splice(s.indexOf(x), 1)`, applied only after `s.includes(x)`: the
      entries before the first `x` stay where they were, and the ones after it
      move up by one place. */
  function RemoveFirst<T(==)>(s: seq<T>, x: T): (r: seq<T>)
    requires x in s
    ensures |r| == |s| - 1
    ensures forall k :: 0 <= k < IndexOf(s, x) ==> r[k] == s[k]
    ensures forall k :: IndexOf(s, x) <= k < |r| ==> r[k] == s[k + 1]
  {
    s[..IndexOf(s, x)] + s[IndexOf(s, x) + 1..]
  }

  /** Removing the first occurrence takes exactly one copy of `x` out of the list. */
  lemma RemoveFirstMultiset<T>(s: seq<T>, x: T)
    requires x in s
    ensures |RemoveFirst(s, x)| == |s| - 1
    ensures multiset(RemoveFirst(s, x)) == multiset(s) - multiset{x}
    ensures multiset(RemoveFirst(s, x)) + multiset{x} == multiset(s)
  {
    var i := IndexOf(s, x);
    assert s == s[..i] + [x] + s[i + 1..];
    calc {
      multiset(s);
      multiset(s[..i] + [x] + s[i + 1..]);
      multiset(s[..i]) + multiset{x} + multiset(s[i + 1..]);
    }
  }

  /** Removing `x` does not change the membership of any other entry `y`. */
  lemma RemoveFirstKeepsOthers<T>(s: seq<T>, x: T, y: T)
    requires x in s && y != x
    ensures y in RemoveFirst(s, x) <==> y in s
  {
  }

  /** On a duplicate-free list the removed entry is gone altogether and the
      list stays duplicate-free. */
  lemma RemoveFirstNoDup<T>(s: seq<T>, x: T)
    requires x in s && NoDup(s)
    ensures NoDup(RemoveFirst(s, x))
    ensures x !in RemoveFirst(s, x)
  {
  }

  /** Appending an entry that is absent keeps a duplicate-free list duplicate-free. */
  lemma AppendNoDup<T>(s: seq<T>, x: T)
    requires NoDup(s) && x !in s
    ensures NoDup(s + [x])
  {
  }

  /** Dropping position 0 is taking the tail. */
  lemma DropAtHead<T>(s: seq<T>)
    requires 0 < |s|
    ensures s[..0] + s[1..] == s[1..]
    ensures multiset(s[1..]) <= multiset(s)
  {
    assert s == [s[0]] + s[1..];
  }

  /** Dropping position k + 1 of a list is keeping its head and dropping
      position k of its tail. */
  lemma DropAtCons<T>(s: seq<T>, k: nat)
    requires k + 1 < |s|
    ensures [s[0]] + (s[1..][..k] + s[1..][k + 1..]) == s[..k + 1] + s[k + 2..]
  {
    assert s[..k + 1] == [s[0]] + s[1..][..k];
    assert s[k + 2..] == s[1..][k + 1..];
  }

  /** Dropping one position shortens the list by one and adds no entry. */
  lemma DropAtMultiset<T>(s: seq<T>, k: nat)
    requires k < |s|
    ensures |s[..k] + s[k + 1..]| == |s| - 1
    ensures multiset(s[..k] + s[k + 1..]) <= multiset(s)
  {
    assert s == s[..k] + [s[k]] + s[k + 1..];
  }

  /** Dropping one position keeps a duplicate-free list duplicate-free. */
  lemma DropAtNoDup<T>(s: seq<T>, k: nat)
    requires k < |s| && NoDup(s)
    ensures NoDup(s[..k] + s[k + 1..])
  {
    var r := s[..k] + s[k + 1..];
    forall i, j | 0 <= i < j < |r| ensures r[i] != r[j] {
      var i' := if i < k then i else i + 1;
      var j' := if j < k then j else j + 1;
      assert r[i] == s[i'] && r[j] == s[j'];
    }
  }
}
