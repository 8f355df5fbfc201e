/** The read-only, lazy mapping view over an immutable list. Its element i is
    `fn(l[i])`, computed on every access; the view never changes, and every
    structural change is rejected. Java's view is a `List<Object>` over a raw
    `List` with an untyped function, so one element type `E` stands for Java's
    `Object` on both sides of `fn`. */
module MappingView {
  import opened Outcomes
  import SeqRef
  import opened MappingIterator

  datatype ListMapping<!E(==)> = ListMapping(l: seq<E>, fn: E -> E) {

    /** What the view denotes: the backing list with `fn` applied to each element. */
    function Contents(): seq<E>
    {
      SeqRef.Mapped(fn, l)
    }

    function Size(): (n: nat)
      ensures n == |l|
      ensures n == |Contents()|
    {
      |l|
    }

    function IsEmpty(): (b: bool)
      ensures b <==> Size() == 0
      ensures b <==> Contents() == []
    {
      l == []
    }

    /** Maps the backing element on every access; an index outside the list
        is the backing list's own bounds failure. */
    function Get(i: int): (r: E)
      requires 0 <= i < Size()
      ensures r == Contents()[i]
    {
      fn(l[i])
    }

    /** A view of the same function over the backing sub-list: nothing is copied. */
    function SubList(from: int, to: int): (r: ListMapping<E>)
      requires 0 <= from <= to <= Size()
      ensures r.fn == fn && r.l == l[from..to]
      ensures r.Size() == to - from
      ensures r.Contents() == Contents()[from..to]
      ensures forall k :: 0 <= k < to - from ==> r.Get(k) == Get(from + k)
    {
      SeqRef.MappedSlice(fn, l, from, to);
      ListMapping(l[from..to], fn)
    }

    method ListIteratorAt(start: int) returns (it: ListMappingIterator<E>)
      requires 0 <= start <= Size()
      ensures fresh(it) && it.Valid()
      ensures it.l == l && it.fn == fn && it.pos == start
    {
      it := new ListMappingIterator(fn, l, start);
    }

    method ListIterator() returns (it: ListMappingIterator<E>)
      ensures fresh(it) && it.Valid()
      ensures it.l == l && it.fn == fn && it.pos == 0
    {
      it := new ListMappingIterator(fn, l, 0);
    }

    method Iterator() returns (it: ListMappingIterator<E>)
      ensures fresh(it) && it.Valid()
      ensures it.l == l && it.fn == fn && it.pos == 0
    {
      it := ListIterator();
    }

    /** Walks forward with the view's own cursor and counts the steps. */
    method IndexOf(e: E) returns (r: int)
      ensures -1 <= r < Size()
      ensures r >= 0 ==> Get(r) == e && forall k :: 0 <= k < r ==> Get(k) != e
      ensures r == -1 ==> forall k :: 0 <= k < Size() ==> Get(k) != e
      ensures r == SeqRef.FirstIndex(Contents(), e)
    {
      var loc := 0;
      var it := Iterator();
      ghost var s := Contents();
      var more := it.HasNext();
      while more
        invariant it.Valid() && it.l == l && it.fn == fn
        invariant loc == it.pos
        invariant more <==> it.pos < |l|
        invariant forall k :: 0 <= k < loc ==> s[k] != e
        decreases |l| - it.pos
      {
        var element := it.Next();
        if e == element {
          r := loc;
          SeqRef.FirstIndexUnique(s, e, r);
          return;
        }
        loc := loc + 1;
        more := it.HasNext();
      }
      r := -1;
    }

    /** Walks backward from the last index with `Get`. */
    method LastIndexOf(e: E) returns (r: int)
      ensures -1 <= r < Size()
      ensures r >= 0 ==> Get(r) == e && forall k :: r < k < Size() ==> Get(k) != e
      ensures r == -1 ==> forall k :: 0 <= k < Size() ==> Get(k) != e
      ensures r == SeqRef.LastIndex(Contents(), e)
    {
      ghost var s := Contents();
      var loc := Size() - 1;
      while loc >= 0
        invariant -1 <= loc < Size()
        invariant forall k :: loc < k < Size() ==> s[k] != e
      {
        if e == Get(loc) {
          r := loc;
          SeqRef.LastIndexUnique(s, e, r);
          return;
        }
        loc := loc - 1;
      }
      r := -1;
    }

    method Contains(e: E) returns (b: bool)
      ensures b <==> e in Contents()
      ensures b <==> exists k :: 0 <= k < Size() && Get(k) == e
    {
      var i := IndexOf(e);
      b := i >= 0;
    }

    /** Asks `Contains` for each element of `c` in turn and stops at the first miss. */
    method ContainsAll(c: seq<E>) returns (b: bool)
      ensures b <==> forall x :: x in c ==> x in Contents()
    {
      var j := 0;
      while j < |c|
        invariant 0 <= j <= |c|
        invariant forall k :: 0 <= k < j ==> c[k] in Contents()
      {
        var found := Contains(c[j]);
        if !found {
          b := false;
          return;
        }
        j := j + 1;
      }
      b := true;
    }

    /** Copies the raw backing elements into a fresh array and overwrites each
        slot with its mapped value. */
    method ToArray() returns (arr: array<E>)
      ensures fresh(arr)
      ensures arr.Length == Size()
      ensures arr[..] == Contents()
    {
      arr := new E[|l|](i requires 0 <= i < |l| => l[i]);
      for i := 0 to arr.Length
        invariant forall k :: 0 <= k < i ==> arr[k] == fn(l[k])
        invariant forall k :: i <= k < arr.Length ==> arr[k] == l[k]
      {
        arr[i] := fn(arr[i]);
      }
    }

    /** Fills the caller's array when it is large enough, marking the end with
        `None` (Java's null) when there is room; otherwise returns a fresh
        array of exactly the view's size. */
    method ToArrayInto(a: array<Option<E>>) returns (r: array<Option<E>>)
      modifies a
      ensures a.Length < Size() ==> fresh(r) && a[..] == old(a[..])
      ensures a.Length >= Size() ==> r == a
      ensures r.Length >= Size()
      ensures forall k :: 0 <= k < Size() ==> r[k] == Some(Get(k))
      ensures a.Length > Size() ==> a[Size()] == None
      ensures a.Length >= Size() ==> forall k :: Size() < k < a.Length ==> a[k] == old(a[k])
      ensures a.Length < Size() ==> r.Length == Size()
    {
      var mapped := ToArray();
      var n := |l|;
      if a.Length < n {
        r := new Option<E>[n](i requires 0 <= i < n reads mapped => Some(mapped[i]));
        return;
      }
      for i := 0 to n
        modifies a
        invariant forall k :: 0 <= k < i ==> a[k] == Some(Get(k))
        invariant forall k :: n <= k < a.Length ==> a[k] == old(a[k])
      {
        a[i] := Some(mapped[i]);
      }
      if a.Length > n {
        a[n] := None;
      }
      r := a;
    }

    // Every structural change is rejected, whatever its arguments; the view
    // itself is an immutable value, so it is unchanged by the attempt.

    function Add(e: E): (r: Outcome<bool>)
      ensures r == Unsupported
    {
      Unsupported
    }

    function AddAt(index: int, element: E): (r: Outcome<()>)
      ensures r == Unsupported
    {
      Unsupported
    }

    function RemoveAt(loc: int): (r: Outcome<E>)
      ensures r == Unsupported
    {
      Unsupported
    }

    function Remove(o: E): (r: Outcome<bool>)
      ensures r == Unsupported
    {
      Unsupported
    }

    function Set(loc: int, o: E): (r: Outcome<E>)
      ensures r == Unsupported
    {
      Unsupported
    }

    function Clear(): (r: Outcome<()>)
      ensures r == Unsupported
    {
      Unsupported
    }

    function RetainAll(c: seq<E>): (r: Outcome<bool>)
      ensures r == Unsupported
    {
      Unsupported
    }

    function RemoveAll(c: seq<E>): (r: Outcome<bool>)
      ensures r == Unsupported
    {
      Unsupported
    }

    function AddAllAt(i: int, c: seq<E>): (r: Outcome<bool>)
      ensures r == Unsupported
    {
      Unsupported
    }

    function AddAll(c: seq<E>): (r: Outcome<bool>)
      ensures r == Unsupported
    {
      Unsupported
    }
  }
}
