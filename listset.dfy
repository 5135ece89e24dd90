/** ListSet: a "set" kept in a plain list. Elements are stored in
    insertion order and duplicates are never removed, so the structure
    behaves as an insertion-ordered multiset (a bag). */
module ListSets {
  import opened PyList

  class ListSet<T(==)> {
    /** The backing list, `self.set` in the Python class. */
    var elements: seq<T>

    /** Builds the set by appending the elements of `init` one by one, in
        order and with duplicates kept. */
    constructor (init: seq<T>)
      ensures elements == init
    {
      elements := [];
      new;
      for k := 0 to |init|
        invariant elements == init[..k]
      {
        elements := elements + [init[k]];
      }
    }

    /** Membership: `x in self.set`. */
    method Contains(x: T) returns (b: bool)
      ensures b <==> exists i :: 0 <= i < |elements| && elements[i] == x
      ensures b <==> Count(elements, x) > 0
    {
      b := x in elements;
      CountPositive(elements, x);
    }

    /** Truthiness: the set is true when its list is non-empty. */
    method NonEmpty() returns (b: bool)
      ensures b <==> |elements| > 0
      ensures !b <==> forall y :: y !in elements
    {
      b := |elements| != 0;
      if b {
        assert elements[0] in elements;
      }
    }

    /** Appends `x`, whether or not an equal element is already there. */
    method Add(x: T)
      modifies this
      ensures elements == old(elements) + [x]
    {
      elements := elements + [x];
    }

    /** `list.remove(x)`: scans from the front for the first element equal
        to `x`, deletes it and closes the gap. When no element equals `x`
        the Python list raises ValueError; here `ok` is false and the list
        is left exactly as it was. */
    method Remove(x: T) returns (ok: bool)
      modifies this
      ensures ok <==> x in old(elements)
      ensures ok ==> elements == old(elements)[..FirstIndex(old(elements), x)]
                                 + old(elements)[FirstIndex(old(elements), x) + 1..]
      ensures ok ==> elements == RemoveFirst(old(elements), x)
      ensures !ok ==> elements == old(elements)
    {
      var i := 0;
      while i < |elements| && elements[i] != x
        invariant 0 <= i <= |elements|
        invariant forall j :: 0 <= j < i ==> elements[j] != x
      {
        i := i + 1;
      }
      if i == |elements| {
        return false;
      }
      assert FirstIndex(elements, x) == i;
      RemoveFirstDeletesAt(elements, x);
      elements := elements[..i] + elements[i + 1..];
      ok := true;
    }
  }

  /** A caller's view of `add` never deduplicating: after adding `x` twice,
      two removals of `x` both succeed and leave the same bag as before. */
  method AddTwiceRemoveTwice<T(==)>(ls: ListSet<T>, x: T) returns (ok1: bool, ok2: bool)
    modifies ls
    ensures ok1 && ok2
    ensures multiset(ls.elements) == multiset(old(ls.elements))
  {
    ls.Add(x);
    ls.Add(x);
    AppendTwiceRemoveTwice(old(ls.elements), x);
    ok1 := ls.Remove(x);
    ok2 := ls.Remove(x);
  }

  /** The worked examples of the set's documented behaviour. */
  method Scenarios()
  {
    var e := new ListSet<int>([]);
    var b := e.NonEmpty();
    assert !b;
    var ok := e.Remove(1);
    assert !ok && e.elements == [];

    var one := new ListSet([1]);
    b := one.NonEmpty();
    assert b;

    var abc := new ListSet([1, 2, 3]);
    abc.Add(4);
    assert abc.elements == [1, 2, 3, 4];
    ok := abc.Remove(2);
    assert ok;
    assert abc.elements == [1, 3, 4];
    b := abc.Contains(2);
    assert !b;
    b := abc.Contains(1);
    assert b;
    b := abc.Contains(3);
    assert b;
  }
}
