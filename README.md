# ListSet in Dafny

A model of `ListSet[T]`, a "set" that keeps its elements in a plain Python
list. Construction appends the given elements in order, membership is
`x in list`, truthiness is "the list is non-empty", `add` always appends and
`remove` is `list.remove`: it deletes the first equal element, shifts the
later ones left, and raises `ValueError` when there is none. Since `add`
never checks for an equal element, the structure is really an
insertion-ordered multiset (a bag), and the model keeps it that way.

Layout:

- `pylist.dfy`, module `PyList`: the list primitives the class calls,
  stated over `seq<T>`. `Count` gives the bag view, `FirstIndex` gives the
  index `list.remove` stops at, `RemoveFirst` is a recursive reference
  definition of `list.remove` on a list that holds the value, and `Others`
  drops every copy of one value. The lemmas relate them: `Count` is
  multiset multiplicity, `RemoveFirst` is deletion at the first index, it
  takes away one copy and keeps the others in order, and so on.
- `listset.dfy`, module `ListSets`: class `ListSet<T(==)>` with one mutable
  field `elements: seq<T>`, which is the Python attribute `self.set`. The
  class also annotates `data: list[T]` (src/listset.py:13), but no method
  uses that name; every method works on `self.set`, so the model has that
  one field. The constructor fills the field with a `for` loop, as the
  source does. `Remove` spells out the scan that `list.remove` performs and
  reports a missing element with `ok == false` instead of an exception,
  leaving the list untouched. `AddTwiceRemoveTwice` is a caller showing
  that duplicates survive `add`. `Scenarios` runs through the documented
  examples: an empty set is false, `[1]` is true, and
  `[1,2,3]` + `add(4)` − `remove(2)` is `[1,3,4]`.

## Model

| member | source | states |
|---|---|---|
| ListSets.ListSet.constructor | src/listset.py:15-19 | the stored sequence is exactly the input elements in their original order, duplicates included |
| ListSets.ListSet.Contains | src/listset.py:21-23 | the result is true iff some position holds an element equal to `x`, equivalently iff `x` occurs at least once; the state is not changed |
| ListSets.ListSet.NonEmpty | src/listset.py:25-32 | the result is true iff the stored sequence has length greater than 0, and false exactly when no value is a member; the state is not changed |
| ListSets.ListSet.Add | src/listset.py:34-36 | the new sequence is the old one with `x` appended at the end (no deduplication, old elements keep their order) |
| ListSets.ListSet.Remove | src/listset.py:38-40 | succeeds iff `x` was present; on success the new sequence is the old one with index `FirstIndex(old, x)` deleted, which is `RemoveFirst(old, x)`; on failure (the source's ValueError) the sequence is unchanged |
| ListSets.AddTwiceRemoveTwice | src/listset.py:34-40 | after `add(x); add(x)` both following `remove(x)` calls succeed and the bag of elements is the one before the adds |
| PyList.FirstIndex | src/listset.py:40 | when `x` is present, the index returned holds `x` and no earlier index does (the position `list.remove` deletes) |
| PyList.RemoveFirst | src/listset.py:40 | removing a present element shortens the sequence by exactly one |
| PyList.CountIsMultiplicity | src/listset.py:34-40 | the occurrence count of the model equals the multiplicity in the multiset of the stored elements |
| PyList.CountPositive | src/listset.py:23 | `x` is a member iff it occurs at least once |
| PyList.CountConcat | src/listset.py:36 | occurrence counts add up over concatenation |
| PyList.AppendCount | src/listset.py:36 | appending `x` raises the count of `x` by one, keeps every other count, and makes `x` a member |
| PyList.RemoveFirstDeletesAt | src/listset.py:40 | removing a present `x` equals `s[..i] + s[i+1..]` for the least index `i` with `s[i] == x` |
| PyList.RemoveFirstCount | src/listset.py:40 | removing `x` lowers the count of `x` by one and keeps the count of every other value |
| PyList.RemoveFirstMultiset | src/listset.py:40 | removing `x` takes exactly one copy of `x` out of the multiset of elements |
| PyList.RemoveFirstStillMember | src/listset.py:40 | after removing `x`, `x` is still a member iff it occurred more than once before |
| PyList.RemoveFirstKeepsOthers | src/listset.py:40 | removing `x` keeps all other elements in their relative order (with every `x` dropped, before and after are equal) |
| PyList.AppendTwiceRemoveTwice | src/listset.py:34-40 | after two appends of `x`, `x` is present, still present after one removal, and two removals restore the original multiset |

## Left out

- The `typing` machinery (`Generic`, `TypeVar`, `Iterable`, src/listset.py:3-7): a Dafny type parameter `T(==)` stands for it.
- The unused `data: list[T]` annotation (src/listset.py:13): it has no behaviour.
- ListSets.ListSet.constructor: takes a finite `seq<T>` rather than an arbitrary Python iterable; iterating a general iterable (generators, side effects while iterating) is not modelled.
- The growth policy of the Python list (capacity doubling, amortised cost): the list is a `seq<T>` with no capacity.
- The exception class `ValueError`: a failed `remove` is reported as `ok == false`.
- Equality is Dafny's built-in equality on `T`; a user-defined `__eq__` with side effects or without the usual laws is not modelled.
