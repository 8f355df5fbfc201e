/** Two concrete uses of the mapping view: the list [1, 2, 3] seen through
    x -> 10 * x, and the empty list. */
module Scenarios {
  import opened Outcomes
  import SeqRef
  import opened MappingView

  lemma TimesTen()
    ensures var v := ListMapping([1, 2, 3], (x: int) => 10 * x);
      v.Size() == 3 && v.Get(1) == 20 && v.Contents() == [10, 20, 30]
      && SeqRef.FirstIndex(v.Contents(), 30) == 2
      && v.SubList(1, 3).Get(0) == 20
      && v.Add(40) == Unsupported
  {
  }

  lemma EmptyList(e: int)
    ensures var v := ListMapping([], (x: int) => 10 * x);
      v.IsEmpty() && SeqRef.FirstIndex(v.Contents(), e) == -1
  {
  }

  /** A forward walk over the view's cursor hands out 10, 20, 30 in order and
      then reports that nothing is left. */
  method WalkTimesTen() returns (xs: seq<int>, more: bool)
    ensures xs == [10, 20, 30]
    ensures !more
  {
    var v := ListMapping([1, 2, 3], (x: int) => 10 * x);
    var it := v.Iterator();
    xs := [];
    more := it.HasNext();
    while more
      invariant it.Valid() && it.l == [1, 2, 3] && it.fn == v.fn
      invariant more <==> it.pos < 3
      invariant xs == v.Contents()[..it.pos]
      decreases 3 - it.pos
    {
      var x := it.Next();
      xs := xs + [x];
      more := it.HasNext();
    }
    assert xs == v.Contents();
  }

  /** The same facts asked of the operations themselves: indexOf(30) is 2 and
      toArray() holds 10, 20, 30 on [1, 2, 3]; the empty view's cursor has no
      next element. */
  method AskTimesTen() returns (i: int, arr: array<int>, more: bool)
    ensures i == 2
    ensures arr[..] == [10, 20, 30]
    ensures !more
  {
    var v := ListMapping([1, 2, 3], (x: int) => 10 * x);
    assert v.Contents() == [10, 20, 30];
    i := v.IndexOf(30);
    arr := v.ToArray();
    var empty := ListMapping([], (x: int) => 10 * x);
    var it := empty.Iterator();
    more := it.HasNext();
  }
}
