/** Python list operations on sequences: `list.remove` and the duplicate-free lists
    that the subscriber list and the task queue keep. */
module Lists {

  predicate NoDuplicates<T(==)>(s: seq<T>) {
    forall i, j :: 0 <= i < j < |s| ==> s[i] != s[j]
  }

  /** Python's `list.remove(x)`: the first occurrence of `x` goes (the source's
      callers check membership first, or catch the error). */
  function RemoveFirst<T(==)>(s: seq<T>, x: T): (r: seq<T>)
    ensures x in s ==> |r| == |s| - 1
    ensures x !in s ==> r == s
  {
    if s == [] then []
    else if s[0] == x then s[1..]
    else [s[0]] + RemoveFirst(s[1..], x)
  }

  /** `list.remove` cuts the list at the first occurrence. */
  lemma {:induction false} RemoveFirstAt<T>(s: seq<T>, x: T, i: nat)
    requires i < |s| && s[i] == x && x !in s[..i]
    ensures RemoveFirst(s, x) == s[..i] + s[i + 1..]
  {
    if i > 0 {
      assert s[0] in s[..i];
      assert s[1..][..i - 1] == s[1..i];
      RemoveFirstAt(s[1..], x, i - 1);
      assert s[1..][i..] == s[i + 1..];
      assert [s[0]] + s[1..i] == s[..i];
    }
  }

  /** Cutting position `i` out of a duplicate-free list removes exactly `s[i]`, keeps
      every other element and leaves no duplicate. */
  lemma CutExact<T>(s: seq<T>, i: nat)
    requires NoDuplicates(s) && i < |s|
    ensures var r := s[..i] + s[i + 1..];
      && NoDuplicates(r)
      && s[i] !in r
      && forall m :: m != s[i] ==> (m in r <==> m in s)
  {
    var r := s[..i] + s[i + 1..];
    assert forall k :: 0 <= k < |r| ==> r[k] == if k < i then s[k] else s[k + 1];
  }

  /** Removing from a duplicate-free list takes out exactly that element and keeps
      the others. */
  lemma RemoveFirstExact<T>(s: seq<T>, x: T)
    requires NoDuplicates(s)
    ensures NoDuplicates(RemoveFirst(s, x))
    ensures x !in RemoveFirst(s, x)
    ensures forall m :: m != x ==> (m in RemoveFirst(s, x) <==> m in s)
  {
    if x in s {
      var i :| 0 <= i < |s| && s[i] == x;
      RemoveFirstAt(s, x, i);
      CutExact(s, i);
    }
  }

  /** Appending an element not yet present keeps a list duplicate-free. */
  lemma AppendFresh<T>(s: seq<T>, x: T)
    requires NoDuplicates(s) && x !in s
    ensures NoDuplicates(s + [x])
  {
    var r := s + [x];
    forall i, j | 0 <= i < j < |r| ensures r[i] != r[j] {
      if j == |s| {
        assert r[i] == s[i];
      }
    }
  }

  /** Dropping the last element keeps a list duplicate-free and removes only that
      element. */
  lemma DropLast<T>(s: seq<T>)
    requires NoDuplicates(s) && s != []
    ensures NoDuplicates(s[..|s| - 1])
    ensures s[|s| - 1] !in s[..|s| - 1]
    ensures forall m :: m != s[|s| - 1] ==> (m in s[..|s| - 1] <==> m in s)
  {
    CutExact(s, |s| - 1);
    assert s[|s| - 1 + 1..] == [];
    assert s[..|s| - 1] + [] == s[..|s| - 1];
  }
}
