# ListMapping: a lazy, read-only mapping view, in Dafny

clj-xchart keeps chart settings in immutable Clojure lists. When it has to hand one of
them to Java as a `java.util.List` of transformed values, it does not build a second
list. It wraps the original in `ListMapping`, a read-only view whose element `i` is
`fn(l[i])`, computed again on every access. This project models that view and
`ListMappingIterator`, its bidirectional cursor, and proves what they compute.

- `SeqRef` (seq_ref.dfy) holds reference definitions on plain sequences:
  - `Mapped(f, s)`, the sequence the view denotes;
  - `FirstIndex` and `LastIndex`, characterised as the least and greatest index holding
    an element, or -1;
  - lemmas that pin these results down and relate them.
- `MappingView` (list_mapping.dfy) defines the view as the immutable datatype
  `ListMapping(l, fn)`. The source's final fields become the datatype's fields.
  - The single-expression operations are functions: `Size`, `IsEmpty`, `Get`, `SubList`
    and the rejecting mutators.
  - The loops are methods proved against the reference definitions: `IndexOf` walks the
    view's own cursor, `LastIndexOf` counts down with `Get`, `ContainsAll` asks
    `Contains` for each element, `ToArray` overwrites a copy of the raw elements in
    place, and `ToArrayInto` fills the caller's array.
- `MappingIterator` (list_mapping_iterator.dfy) defines the cursor as a class. It holds
  the backing list, the function and a mutable position `pos`. `Valid()` keeps `pos`
  within `0..|l|`, and each method says how `pos` moves and what it hands out.
- `Outcomes` (outcomes.dfy) defines `Outcome` (success, or Java's
  `UnsupportedOperationException`) and `Option` (`None` stands for Java's `null` in an
  output array).
- `Scenarios` (scenarios.dfy) works through the view of `[1, 2, 3]` under
  `x -> 10 * x` and the view of the empty list.

Java's view is a `List<Object>` over a raw `List` with an untyped Clojure function.
The model therefore uses one element type `E`, standing for `Object`, on both sides of
`fn : E -> E`. That is what makes `toArray()`'s in-place overwrite of the raw-element
array well-typed. The function is a pure Dafny function value. Index failures that the
source leaves to the backing list or backing cursor are preconditions: `get`, `subList`,
`listIterator(start)`, and `next`/`previous` past an end.

## Model

| member | source | states |
|---|---|---|
| SeqRef.Mapped | src/java/com/hypirion/clj_xchart/ListMapping.java:11-20 | the denotation of a view: same length as the backing list, element i is f(s[i]) |
| SeqRef.MappedSlice | src/java/com/hypirion/clj_xchart/ListMapping.java:30-32 | mapping a sub-range of the backing list gives that sub-range of the mapped list |
| SeqRef.FirstIndex | src/java/com/hypirion/clj_xchart/ListMapping.java:67-76 | result in [-1, \|s\|); when >= 0 it holds e and no earlier index does; -1 only when e is absent |
| SeqRef.LastIndex | src/java/com/hypirion/clj_xchart/ListMapping.java:50-57 | result in [-1, \|s\|); when >= 0 it holds e and no later index does; -1 only when e is absent |
| SeqRef.FirstIndexUnique | src/java/com/hypirion/clj_xchart/ListMapping.java:67-76 | any index holding e with no e before it is FirstIndex |
| SeqRef.LastIndexUnique | src/java/com/hypirion/clj_xchart/ListMapping.java:50-57 | any index holding e with no e after it is LastIndex |
| SeqRef.FirstLastAgree | src/java/com/hypirion/clj_xchart/ListMapping.java:50-76 | forward and backward search agree on whether e occurs, which is exactly e in s, and first <= last |
| MappingView.ListMapping.Size | src/java/com/hypirion/clj_xchart/ListMapping.java:46-48 | the size is the backing length and the length of the mapped contents |
| MappingView.ListMapping.IsEmpty | src/java/com/hypirion/clj_xchart/ListMapping.java:63-65 | empty exactly when the size is 0, exactly when the mapped contents are empty |
| MappingView.ListMapping.Get | src/java/com/hypirion/clj_xchart/ListMapping.java:78-80 | for 0 <= i < size, returns element i of the mapped contents, fn(l[i]) |
| MappingView.ListMapping.SubList | src/java/com/hypirion/clj_xchart/ListMapping.java:30-32 | same fn over l[from..to]; size to - from; contents are contents[from..to]; element k is Get(from + k) |
| MappingView.ListMapping.ListIteratorAt | src/java/com/hypirion/clj_xchart/ListMapping.java:34-36 | a fresh valid cursor over the same list and fn, at pos == start |
| MappingView.ListMapping.ListIterator | src/java/com/hypirion/clj_xchart/ListMapping.java:38-40 | a fresh valid cursor over the same list and fn, at pos == 0 |
| MappingView.ListMapping.Iterator | src/java/com/hypirion/clj_xchart/ListMapping.java:42-44 | the same as ListIterator: a fresh cursor at pos == 0 |
| MappingView.ListMapping.IndexOf | src/java/com/hypirion/clj_xchart/ListMapping.java:67-76 | the least k with Get(k) == e, or -1 when there is none; equals FirstIndex of the contents |
| MappingView.ListMapping.LastIndexOf | src/java/com/hypirion/clj_xchart/ListMapping.java:50-57 | the greatest k with Get(k) == e, or -1 when there is none; equals LastIndex of the contents |
| MappingView.ListMapping.Contains | src/java/com/hypirion/clj_xchart/ListMapping.java:59-61 | true exactly when e is in the mapped contents, i.e. some Get(k) == e |
| MappingView.ListMapping.ContainsAll | src/java/com/hypirion/clj_xchart/ListMapping.java:109-117 | true exactly when every element of c is in the mapped contents |
| MappingView.ListMapping.ToArray | src/java/com/hypirion/clj_xchart/ListMapping.java:129-135 | a fresh array of length size whose contents are the mapped contents |
| MappingView.ListMapping.ToArrayInto | src/java/com/hypirion/clj_xchart/ListMapping.java:119-128 | too small: a fresh array of length size with the mapped elements, a untouched; else a itself with slots [0, size) mapped, slot size set to null when it exists, later slots unchanged |
| MappingView.ListMapping.Add | src/java/com/hypirion/clj_xchart/ListMapping.java:22-24 | always rejected as unsupported |
| MappingView.ListMapping.AddAt | src/java/com/hypirion/clj_xchart/ListMapping.java:26-28 | always rejected as unsupported, whatever the index |
| MappingView.ListMapping.RemoveAt | src/java/com/hypirion/clj_xchart/ListMapping.java:82-84 | always rejected as unsupported, whatever the index |
| MappingView.ListMapping.Remove | src/java/com/hypirion/clj_xchart/ListMapping.java:85-87 | always rejected as unsupported |
| MappingView.ListMapping.Set | src/java/com/hypirion/clj_xchart/ListMapping.java:89-91 | always rejected as unsupported, whatever the index |
| MappingView.ListMapping.Clear | src/java/com/hypirion/clj_xchart/ListMapping.java:93-95 | always rejected as unsupported |
| MappingView.ListMapping.RetainAll | src/java/com/hypirion/clj_xchart/ListMapping.java:97-99 | always rejected as unsupported |
| MappingView.ListMapping.RemoveAll | src/java/com/hypirion/clj_xchart/ListMapping.java:100-102 | always rejected as unsupported |
| MappingView.ListMapping.AddAllAt | src/java/com/hypirion/clj_xchart/ListMapping.java:103-105 | always rejected as unsupported, whatever the index |
| MappingView.ListMapping.AddAll | src/java/com/hypirion/clj_xchart/ListMapping.java:106-108 | always rejected as unsupported |
| MappingIterator.ListMappingIterator.constructor | src/java/com/hypirion/clj_xchart/ListMappingIterator.java:10-13 | wraps a backing cursor at start, 0 <= start <= \|l\|, establishing Valid() |
| MappingIterator.ListMappingIterator.HasNext | src/java/com/hypirion/clj_xchart/ListMappingIterator.java:27-29 | true exactly when pos < \|l\| |
| MappingIterator.ListMappingIterator.HasPrevious | src/java/com/hypirion/clj_xchart/ListMappingIterator.java:30-32 | true exactly when pos > 0 |
| MappingIterator.ListMappingIterator.Next | src/java/com/hypirion/clj_xchart/ListMappingIterator.java:33-35 | when pos < \|l\|: returns fn(l[pos]) and advances pos by one, staying valid |
| MappingIterator.ListMappingIterator.Previous | src/java/com/hypirion/clj_xchart/ListMappingIterator.java:36-38 | when pos > 0: moves pos back by one and returns fn(l[pos]) at the new position, staying valid |
| MappingIterator.ListMappingIterator.NextIndex | src/java/com/hypirion/clj_xchart/ListMappingIterator.java:39-41 | returns pos, which lies in [0, \|l\|]; nothing changes |
| MappingIterator.ListMappingIterator.PreviousIndex | src/java/com/hypirion/clj_xchart/ListMappingIterator.java:42-44 | returns pos - 1, which lies in [-1, \|l\|); nothing changes |
| MappingIterator.ListMappingIterator.Add | src/java/com/hypirion/clj_xchart/ListMappingIterator.java:15-17 | always rejected as unsupported; pos unchanged |
| MappingIterator.ListMappingIterator.Remove | src/java/com/hypirion/clj_xchart/ListMappingIterator.java:19-21 | always rejected as unsupported; pos unchanged |
| MappingIterator.ListMappingIterator.Set | src/java/com/hypirion/clj_xchart/ListMappingIterator.java:23-25 | always rejected as unsupported; pos unchanged |
| MappingIterator.NextThenPrevious | src/java/com/hypirion/clj_xchart/ListMappingIterator.java:33-38 | next then previous return the same mapped element and restore pos |
| Scenarios.TimesTen | src/java/com/hypirion/clj_xchart/ListMapping.java:22-80 | the view of [1, 2, 3] under x -> 10x has size 3, get(1) = 20, contents [10, 20, 30], 30 first at index 2, subList(1, 3).get(0) = 20, and add(40) is rejected |
| Scenarios.EmptyList | src/java/com/hypirion/clj_xchart/ListMapping.java:63-76 | the view of the empty list is empty and finds no element |
| Scenarios.WalkTimesTen | src/java/com/hypirion/clj_xchart/ListMappingIterator.java:27-35 | a forward walk of the cursor over that view yields 10, 20, 30 in order and then has no next element |
| Scenarios.AskTimesTen | src/java/com/hypirion/clj_xchart/ListMapping.java:42-135 | on that view indexOf(30) returns 2 and toArray() holds [10, 20, 30]; the empty view's iterator() has no next element |

## Left out

- Clojure's dynamic `IFn.invoke` is a pure Dafny function value. Side effects of `fn`, and
  the fact that `fn` runs again on every access with nothing cached, cannot be observed in
  a pure model.
- Java `equals` is Dafny `==` on an equality-supporting type. The NullPointerException that
  `e.equals(...)` raises when the searched element is null is not modelled.
- Bounds failures of the backing `List` and `ListIterator` are preconditions rather than
  exceptions: `get`, `subList`, `listIterator(start)`, and `next`/`previous` past an end.
- `Arrays.copyOf(..., a.getClass())` with its reflection and unchecked cast is the
  allocation of a fresh array of the output element type. In that output type, `null` is
  `Option.None` and a mapped element `x` is `Some(x)`, so a mapped value that is itself
  Java `null` is not told apart from a real element.
- The backing list's cursor is the backing list plus a position. The backing
  `ListIterator` object and any aliasing of it are not modelled.
- The argument of `containsAll` is a `seq`: generic `Collection` iteration becomes
  iteration over the sequence in order.
- Indices and sizes are unbounded integers and the backing list has no length bound, so the
  contracts also cover lists longer than Java can hold, where `size()` and the `int loc`
  counter of `indexOf` would overflow. The 32-bit limit is not modelled because the backing
  Clojure collections count with a Java `int`: no backing list has more than
  `Integer.MAX_VALUE` elements, and for every list Java can hold the results agree.
- MappingView.ListMapping.ToArrayInto: does not model the exceptions of `toArray(T[] a)`:
  the `ArrayStoreException` that `Arrays.copyOf(..., a.getClass())` throws when a mapped
  element is not an instance of the array's component type; the same exception from
  `System.arraycopy`, which leaves the caller's array overwritten up to the offending
  element; and the `NullPointerException` of `a.length` when `a` is null. The array's type
  `array<Option<E>>` is non-null and holds every mapped element, so these cases cannot
  arise in the model.
- Concurrency and thread-safety are not modelled, and neither is the rest of the library:
  the charting wrapper is not part of this model.
