/** The behaviour of the Python list primitives that ListSet relies on,
    stated over Dafny sequences: how often a value occurs (the bag view),
    where it first occurs (what `in` and `list.remove` scan for), and what
    `list.remove` leaves behind (the first occurrence deleted, later
    elements shifted one place to the left). */
module PyList {

  /** Number of elements of `s` equal to `x`. */
  function Count<T(==)>(s: seq<T>, x: T): nat
  {
    if s == [] then 0
    else (if s[0] == x then 1 else 0) + Count(s[1..], x)
  }

  /** Least index at which `x` occurs in `s`. */
  function FirstIndex<T(==)>(s: seq<T>, x: T): (i: nat)
    requires x in s
    ensures i < |s| && s[i] == x
    ensures forall j :: 0 <= j < i ==> s[j] != x
  {
    if s[0] == x then 0 else 1 + FirstIndex(s[1..], x)
  }

  /** `list.remove(x)` on a list that holds `x`: the first element equal
      to `x` is dropped, everything before it stays, everything after it
      moves one place forward. */
  function RemoveFirst<T(==)>(s: seq<T>, x: T): (r: seq<T>)
    requires x in s
    ensures |r| == |s| - 1
  {
    if s[0] == x then s[1..] else [s[0]] + RemoveFirst(s[1..], x)
  }

  /** `s` with every occurrence of `x` dropped, the rest in order. */
  function Others<T(==)>(s: seq<T>, x: T): seq<T>
  {
    if s == [] then []
    else (if s[0] == x then [] else [s[0]]) + Others(s[1..], x)
  }

  /** Count agrees with the multiplicity of Dafny's built-in multiset. */
  lemma {:induction false} CountIsMultiplicity<T>(s: seq<T>, x: T)
    ensures Count(s, x) == multiset(s)[x]
  {
    if s != [] {
      CountIsMultiplicity(s[1..], x);
      assert s == [s[0]] + s[1..];
    }
  }

  /** A value is a member exactly when it occurs at least once. */
  lemma {:induction false} CountPositive<T>(s: seq<T>, x: T)
    ensures Count(s, x) > 0 <==> x in s
  {
    if s != [] {
      CountPositive(s[1..], x);
      assert x in s <==> s[0] == x || x in s[1..];
    }
  }

  /** Counting distributes over concatenation. */
  lemma {:induction false} CountConcat<T>(s: seq<T>, t: seq<T>, x: T)
    ensures Count(s + t, x) == Count(s, x) + Count(t, x)
  {
    if s == [] {
      assert s + t == t;
    } else {
      assert (s + t)[1..] == s[1..] + t;
      CountConcat(s[1..], t, x);
    }
  }

  /** Dropping every `x` commutes with concatenation. */
  lemma {:induction false} OthersConcat<T>(s: seq<T>, t: seq<T>, x: T)
    ensures Others(s + t, x) == Others(s, x) + Others(t, x)
  {
    if s == [] {
      assert s + t == t;
    } else {
      assert (s + t)[1..] == s[1..] + t;
      OthersConcat(s[1..], t, x);
    }
  }

  /** The recursive definition of list.remove is deletion at the first
      index holding `x`. */
  lemma {:induction false} RemoveFirstDeletesAt<T>(s: seq<T>, x: T)
    requires x in s
    ensures RemoveFirst(s, x) == s[..FirstIndex(s, x)] + s[FirstIndex(s, x) + 1..]
  {
    if s[0] != x {
      RemoveFirstDeletesAt(s[1..], x);
      var i := FirstIndex(s[1..], x);
      assert s[1..][..i] == s[1..i + 1];
      assert s[1..][i + 1..] == s[i + 2..];
      assert [s[0]] + s[1..i + 1] == s[..i + 1];
    }
  }

  /** list.remove takes away exactly one `x` and keeps the count of every
      other value. */
  lemma {:induction false} RemoveFirstCount<T>(s: seq<T>, x: T, y: T)
    requires x in s
    ensures Count(RemoveFirst(s, x), y) == Count(s, y) - (if x == y then 1 else 0)
  {
    var i := FirstIndex(s, x);
    RemoveFirstDeletesAt(s, x);
    assert s == s[..i] + ([s[i]] + s[i + 1..]);
    CountConcat(s[..i], [s[i]] + s[i + 1..], y);
    CountConcat([s[i]], s[i + 1..], y);
    CountConcat(s[..i], s[i + 1..], y);
  }

  /** The same fact in multiset terms: one copy of `x` leaves the bag. */
  lemma RemoveFirstMultiset<T>(s: seq<T>, x: T)
    requires x in s
    ensures multiset(RemoveFirst(s, x)) == multiset(s) - multiset{x}
  {
    forall y
      ensures multiset(RemoveFirst(s, x))[y] == (multiset(s) - multiset{x})[y]
    {
      RemoveFirstCount(s, x, y);
      CountIsMultiplicity(RemoveFirst(s, x), y);
      CountIsMultiplicity(s, y);
    }
  }

  /** After list.remove, `x` is still a member exactly when it occurred
      more than once. */
  lemma RemoveFirstStillMember<T>(s: seq<T>, x: T)
    requires x in s
    ensures x in RemoveFirst(s, x) <==> Count(s, x) > 1
  {
    RemoveFirstCount(s, x, x);
    CountPositive(RemoveFirst(s, x), x);
  }

  /** list.remove keeps every other value and their relative order: with
      all copies of `x` dropped, before and after are the same sequence. */
  lemma {:induction false} RemoveFirstKeepsOthers<T>(s: seq<T>, x: T)
    requires x in s
    ensures Others(RemoveFirst(s, x), x) == Others(s, x)
  {
    if s[0] != x {
      RemoveFirstKeepsOthers(s[1..], x);
      OthersConcat([s[0]], RemoveFirst(s[1..], x), x);
      assert Others([s[0]], x) == [s[0]] by {
        assert [s[0]][1..] == [];
      }
    }
  }

  /** Appending `x` adds one occurrence of `x`, keeps every other count,
      and makes `x` a member. */
  lemma AppendCount<T>(s: seq<T>, x: T, y: T)
    ensures Count(s + [x], y) == Count(s, y) + (if x == y then 1 else 0)
    ensures x in s + [x]
  {
    CountConcat(s, [x], y);
    assert [x][1..] == [];
  }

  /** Appending never deduplicates: after two appends of `x`, two
      successive list.remove calls for `x` both find it, and afterwards
      the bag is what it was before the appends. */
  lemma AppendTwiceRemoveTwice<T>(s: seq<T>, x: T)
    ensures x in s + [x] + [x]
    ensures x in RemoveFirst(s + [x] + [x], x)
    ensures multiset(RemoveFirst(RemoveFirst(s + [x] + [x], x), x)) == multiset(s)
  {
    var t := s + [x] + [x];
    AppendCount(s, x, x);
    AppendCount(s + [x], x, x);
    CountPositive(s + [x], x);
    RemoveFirstStillMember(t, x);
    RemoveFirstMultiset(t, x);
    RemoveFirstMultiset(RemoveFirst(t, x), x);
    assert multiset(t) == multiset(s) + multiset{x} + multiset{x};
  }
}
