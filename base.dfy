/** Small value types shared by the other modules: an optional value, Go's
    64-bit `int` with its wrap-around addition, and distinctness of a sequence. */
module Base {

  datatype Option<+T> = None | Some(value: T) {
    function GetOr(default: T): T {
      match this
      case Some(v) => v
      case None => default
    }
  }

  const INT64_MIN: int := -0x8000_0000_0000_0000
  const INT64_MAX: int := 0x7FFF_FFFF_FFFF_FFFF

  /** Go's `int` on a 64-bit platform. */
  newtype int64 = x: int | -0x8000_0000_0000_0000 <= x < 0x8000_0000_0000_0000

  /** Go's `a + b` on `int`: two's-complement addition modulo 2^64. */
  function WrappingAdd(a: int64, b: int64): (r: int64)
    ensures (r as int - (a as int + b as int)) % 0x1_0000_0000_0000_0000 == 0
    ensures INT64_MIN <= a as int + b as int <= INT64_MAX ==> r as int == a as int + b as int
  {
    var s := a as int + b as int;
    if s > INT64_MAX then (s - 0x1_0000_0000_0000_0000) as int64
    else if s < INT64_MIN then (s + 0x1_0000_0000_0000_0000) as int64
    else s as int64
  }

  predicate Distinct<T(==)>(s: seq<T>) {
    forall i, j :: 0 <= i < j < |s| ==> s[i] != s[j]
  }

  /** A sequence of distinct elements has as many elements as its set. */
  lemma {:induction false} DistinctCardinality<T>(s: seq<T>)
    requires Distinct(s)
    ensures |set x | x in s| == |s|
  {
    if s != [] {
      var last := s[|s| - 1];
      var init := s[..|s| - 1];
      assert Distinct(init);
      DistinctCardinality(init);
      assert (set x | x in s) == (set x | x in init) + {last};
      assert last !in (set x | x in init);
    }
  }
}
