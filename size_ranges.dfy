/**
 Sets of byte sizes of the form `lo <= size < limit` or `lo <= size`: the
 shape of the set of sizes that every size trait accepts.
 */
module SizeRanges {

  /** The upper end of a range: every size below `limit`, or no upper end. */
  datatype Limit = Below(limit: nat) | Unbounded

  datatype SizeRange = SizeRange(lo: nat, hi: Limit) {

    predicate Contains(size: nat) {
      lo <= size && (hi.Below? ==> size < hi.limit)
    }

    predicate IsEmpty() {
      hi.Below? && hi.limit <= lo
    }

    /** The sizes both ranges contain. */
    function Intersect(other: SizeRange): (r: SizeRange)
      ensures forall size :: r.Contains(size) <==> Contains(size) && other.Contains(size)
    {
      var lo' := if lo < other.lo then other.lo else lo;
      var hi' :=
        match (hi, other.hi)
        case (Unbounded, _) => other.hi
        case (_, Unbounded) => hi
        case (Below(a), Below(b)) => Below(if a < b then a else b);
      SizeRange(lo', hi')
    }
  }

  /** Every size. */
  const Everything := SizeRange(0, Unbounded)

  /** `IsEmpty` is exactly "contains no size". */
  lemma EmptyIffNoMember(r: SizeRange)
    ensures r.IsEmpty() <==> forall size :: !r.Contains(size)
  {
    if !r.IsEmpty() {
      assert r.Contains(r.lo);
    }
  }
}
