/**
 The ground layer of `size_trait` (its private `mod sealed`).

 A type is known to this library only through its byte size, so every
 statement about "a type T" is a statement about `size: nat`. Each sealed
 trait has a single blanket impl whose computed const parameter is the
 result of one comparison on `size_of::<T>()`, or for `Size` the size
 itself; the trait holds for T exactly when the parameter written at the use
 site equals that computed one.
 */
module Sealed {

  /** The four sealed traits, each with its const parameters. */
  datatype GroundTrait =
    | SizeLessThan(bound: nat, check: bool)
    | SizeGreaterThan(bound: nat, check: bool)
    | Size(bound: nat)
    | ZeroSize(zero: bool)

  /**
   `T: sealed::g` for a type of `size` bytes: the parameter that the blanket
   impl computes must agree with the one that `g` names.
   */
  predicate Implemented(size: nat, g: GroundTrait) {
    match g
    case SizeLessThan(b, c) => c == (size < b)
    case SizeGreaterThan(b, c) => c == (size > b)
    case Size(b) => b == size
    case ZeroSize(z) => z == (size == 0)
  }

  /**
   Two instances of the same trait that may differ only in the parameter the
   blanket impl computes: the claimed boolean of a comparison (the bound stays
   fixed), the size of `Size`, the claimed boolean of `ZeroSize`.
   */
  predicate SameFamily(g: GroundTrait, h: GroundTrait) {
    match (g, h)
    case (SizeLessThan(b, _), SizeLessThan(b', _)) => b == b'
    case (SizeGreaterThan(b, _), SizeGreaterThan(b', _)) => b == b'
    case (Size(_), Size(_)) => true
    case (ZeroSize(_), ZeroSize(_)) => true
    case _ => false
  }

  /**
   The instance of `g`'s family that the blanket impl provides for a type of
   `size` bytes. It is implemented, and it is the only implemented member of
   the family: the claim a use site makes is either this one or unsatisfiable.
   */
  function ImplInstance(size: nat, g: GroundTrait): (r: GroundTrait)
    ensures SameFamily(g, r)
    ensures Implemented(size, r)
    ensures forall h :: SameFamily(g, h) && Implemented(size, h) ==> h == r
  {
    match g
    case SizeLessThan(b, _) => SizeLessThan(b, size < b)
    case SizeGreaterThan(b, _) => SizeGreaterThan(b, size > b)
    case Size(_) => Size(size)
    case ZeroSize(_) => ZeroSize(size == 0)
  }

  /** For every size and bound exactly one of the two claimed booleans holds. */
  lemma ClaimedBooleanExclusive(size: nat, bound: nat)
    ensures Implemented(size, SizeLessThan(bound, true)) != Implemented(size, SizeLessThan(bound, false))
    ensures Implemented(size, SizeGreaterThan(bound, true)) != Implemented(size, SizeGreaterThan(bound, false))
    ensures Implemented(size, ZeroSize(true)) != Implemented(size, ZeroSize(false))
  {
  }

  /** A type satisfies `Size<s>` for its own size and for no other `s`. */
  lemma ExactSizeUnique(size: nat, s: nat, s': nat)
    requires Implemented(size, Size(s)) && Implemented(size, Size(s'))
    ensures s == s' == size
  {
  }
}
