/** The bidirectional cursor of a mapping view. It decorates a cursor over the
    backing list: the backing cursor is the list `l` together with a position
    `pos` in 0..|l|, and every element the cursor passes is handed out as
    `fn` of the backing element. */
module MappingIterator {
  import opened Outcomes

  class ListMappingIterator<E> {
    /** The backing list and the transformation shared with the view. */
    const l: seq<E>
    const fn: E -> E
    /** The backing cursor's position: the index of the element `Next` returns. */
    var pos: nat

    /** The cursor stays between the first and the last gap of the list. */
    ghost predicate Valid()
      reads this
    {
      pos <= |l|
    }

    /** Wraps a backing cursor that stands at `start`. */
    constructor (fn: E -> E, l: seq<E>, start: nat)
      requires start <= |l|
      ensures Valid()
      ensures this.fn == fn && this.l == l && pos == start
    {
      this.fn := fn;
      this.l := l;
      pos := start;
    }

    method HasNext() returns (b: bool)
      requires Valid()
      ensures b <==> pos < |l|
    {
      b := pos < |l|;
    }

    method HasPrevious() returns (b: bool)
      requires Valid()
      ensures b <==> pos > 0
    {
      b := pos > 0;
    }

    /** Moves the backing cursor one step forward and maps the element passed. */
    method Next() returns (x: E)
      requires Valid() && pos < |l|
      modifies this
      ensures Valid()
      ensures pos == old(pos) + 1
      ensures x == fn(l[old(pos)])
    {
      x := fn(l[pos]);
      pos := pos + 1;
    }

    /** Moves the backing cursor one step back and maps the element passed. */
    method Previous() returns (x: E)
      requires Valid() && pos > 0
      modifies this
      ensures Valid()
      ensures pos == old(pos) - 1
      ensures x == fn(l[pos])
    {
      pos := pos - 1;
      x := fn(l[pos]);
    }

    method NextIndex() returns (i: int)
      requires Valid()
      ensures 0 <= i <= |l|
      ensures i == pos
    {
      i := pos;
    }

    method PreviousIndex() returns (i: int)
      requires Valid()
      ensures -1 <= i < |l|
      ensures i == pos - 1
    {
      i := pos - 1;
    }

    /** The cursor is read-only: inserting is always rejected and the
        position stays where it was. */
    method Add(e: E) returns (r: Outcome<()>)
      requires Valid()
      ensures r == Unsupported
    {
      r := Unsupported;
    }

    /** Removing the last element passed is always rejected. */
    method Remove() returns (r: Outcome<()>)
      requires Valid()
      ensures r == Unsupported
    {
      r := Unsupported;
    }

    /** Replacing the last element passed is always rejected. */
    method Set(e: E) returns (r: Outcome<()>)
      requires Valid()
      ensures r == Unsupported
    {
      r := Unsupported;
    }
  }

  /** A step forward followed by a step back hands out the same mapped
      element twice and leaves the cursor where it started. */
  method NextThenPrevious<E>(it: ListMappingIterator<E>) returns (x: E, y: E)
    requires it.Valid() && it.pos < |it.l|
    modifies it
    ensures it.Valid()
    ensures x == y == it.fn(it.l[old(it.pos)])
    ensures it.pos == old(it.pos)
  {
    x := it.Next();
    y := it.Previous();
  }
}
