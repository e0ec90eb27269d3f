/** Small building blocks shared by the models. */
module Common {

  datatype Option<+T> = None | Some(value: T)

  /** The arithmetic of the C++ `uint32_t` fields: results wrap modulo 2^32. */
  const TWO_32: int := 0x1_0000_0000

  type uint32 = x: int | 0 <= x < TWO_32

  function Add32(x: uint32, y: uint32): (r: uint32)
  {
    (x + y) % TWO_32
  }

  function Sub32(x: uint32, y: uint32): (r: uint32)
  {
    (x - y) % TWO_32
  }

  lemma Exact32(x: uint32, y: uint32)
    ensures x + y < TWO_32 ==> Add32(x, y) == x + y
    ensures y <= x ==> Sub32(x, y) == x - y
    ensures x < y ==> Sub32(x, y) == x - y + TWO_32
  {
    if x < y {
      assert (x - y) % TWO_32 == (x - y + TWO_32) % TWO_32;
    }
  }

  predicate Distinct<T(==)>(s: seq<T>)
  {
    forall i, j :: 0 <= i < j < |s| ==> s[i] != s[j]
  }

  /** The next element of a walk over an unordered set. */
  method Pick<T(==)>(s: set<T>) returns (x: T)
    requires s != {}
    ensures x in s
  {
    x :| x in s;
  }
}
