/** Reference definitions on plain sequences: what a mapping view denotes,
    and the first and last positions of an element. */
module SeqRef {

  /** The sequence whose element i is f(s[i]), built element by element. */
  function Mapped<T, U>(f: T -> U, s: seq<T>): (r: seq<U>)
    ensures |r| == |s|
    ensures forall i :: 0 <= i < |s| ==> r[i] == f(s[i])
  {
    if s == [] then [] else [f(s[0])] + Mapped(f, s[1..])
  }

  /** Mapping commutes with taking a sub-range. */
  lemma MappedSlice<T, U>(f: T -> U, s: seq<T>, from: int, to: int)
    requires 0 <= from <= to <= |s|
    ensures Mapped(f, s[from..to]) == Mapped(f, s)[from..to]
  {
    var a, b := Mapped(f, s[from..to]), Mapped(f, s)[from..to];
    assert |a| == |b|;
    forall k | 0 <= k < |a| ensures a[k] == b[k] {
      assert s[from..to][k] == s[from + k];
    }
  }

  /** The least index holding e, or -1 when e does not occur. */
  function FirstIndex<T(==)>(s: seq<T>, e: T): (r: int)
    ensures -1 <= r < |s|
    ensures r >= 0 ==> s[r] == e && forall k :: 0 <= k < r ==> s[k] != e
    ensures r == -1 ==> forall k :: 0 <= k < |s| ==> s[k] != e
  {
    if s == [] then -1
    else if s[0] == e then 0
    else
      var k := FirstIndex(s[1..], e);
      if k < 0 then -1 else k + 1
  }

  /** The greatest index holding e, or -1 when e does not occur. */
  function LastIndex<T(==)>(s: seq<T>, e: T): (r: int)
    ensures -1 <= r < |s|
    ensures r >= 0 ==> s[r] == e && forall k :: r < k < |s| ==> s[k] != e
    ensures r == -1 ==> forall k :: 0 <= k < |s| ==> s[k] != e
  {
    if s == [] then -1
    else if s[|s| - 1] == e then |s| - 1
    else LastIndex(s[..|s| - 1], e)
  }

  /** The conditions FirstIndex meets pin its result down: any index that
      holds e with no e before it is FirstIndex. */
  lemma FirstIndexUnique<T>(s: seq<T>, e: T, r: int)
    requires 0 <= r < |s| && s[r] == e
    requires forall k :: 0 <= k < r ==> s[k] != e
    ensures r == FirstIndex(s, e)
  {
  }

  /** Any index that holds e with no e after it is LastIndex. */
  lemma LastIndexUnique<T>(s: seq<T>, e: T, r: int)
    requires 0 <= r < |s| && s[r] == e
    requires forall k :: r < k < |s| ==> s[k] != e
    ensures r == LastIndex(s, e)
  {
  }

  /** Forward and backward search agree on whether e occurs at all, and
      the first match never lies after the last one. */
  lemma FirstLastAgree<T>(s: seq<T>, e: T)
    ensures FirstIndex(s, e) >= 0 <==> LastIndex(s, e) >= 0
    ensures FirstIndex(s, e) <= LastIndex(s, e)
    ensures FirstIndex(s, e) >= 0 <==> e in s
  {
  }
}
