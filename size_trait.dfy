/**
 The public traits of `size_trait` and the hierarchy they form.

 Every public trait is declared as `pub trait X: Supers {}` together with the
 blanket impl `impl<T: Supers> X for T {}`. A type therefore satisfies `X`
 exactly when it satisfies all of `X`'s supertraits, and at the bottom of the
 hierarchy sit the sealed traits, decided by one comparison on the size (or,
 for `Size`, by the size itself).
 */
module SizeTrait {
  import Sealed
  import opened SizeRanges

  /** A trait with its const parameters, as written in a bound `T: ...`. */
  datatype Trait =
    | Ground(g: Sealed.GroundTrait)
    | SizeLessThan(bound: nat, check: bool)
    | SizeGreaterThan(bound: nat, check: bool)
    | Size(bound: nat)
    | ZeroSize(zero: bool)
    | MaxSize(bound: nat)
    | MinSize(bound: nat)
    | BoundedSize(min: nat, max: nat)

  /** Depth in the hierarchy: every supertrait sits strictly lower. */
  function Level(t: Trait): nat {
    match t
    case Ground(_) => 0
    case SizeLessThan(_, _) => 1
    case SizeGreaterThan(_, _) => 1
    case Size(_) => 1
    case ZeroSize(_) => 1
    case MaxSize(_) => 2
    case MinSize(_) => 2
    case BoundedSize(_, _) => 3
  }

  /** The supertraits in each trait declaration; the sealed traits have none. */
  function Supertraits(t: Trait): (r: seq<Trait>)
    ensures forall s :: s in r ==> Level(s) < Level(t)
  {
    match t
    case Ground(_) => []
    case SizeLessThan(b, c) => [Ground(Sealed.SizeLessThan(b, c))]
    case SizeGreaterThan(b, c) => [Ground(Sealed.SizeGreaterThan(b, c))]
    case Size(b) => [Ground(Sealed.Size(b))]
    case ZeroSize(z) => [Ground(Sealed.ZeroSize(z))]
    case MaxSize(b) => [SizeGreaterThan(b, false)]
    case MinSize(b) => [SizeLessThan(b, false)]
    case BoundedSize(lo, hi) => [MinSize(lo), MaxSize(hi)]
  }

  /**
   `T: t` for a type of `size` bytes. A sealed trait holds by its blanket
   impl; a public trait holds by its blanket impl, whose bounds are exactly the
   trait's supertraits.
   */
  predicate Holds(size: nat, t: Trait)
    decreases Level(t)
  {
    match t
    case Ground(g) => Sealed.Implemented(size, g)
    case _ => forall s :: s in Supertraits(t) ==> Holds(size, s)
  }

  /** A bound list `T: A + B + ...`: every trait in it holds. */
  predicate SatisfiesBounds(size: nat, bounds: seq<Trait>) {
    forall s :: s in bounds ==> Holds(size, s)
  }

  /** The public wrapper that re-exports a sealed trait. */
  function Public(g: Sealed.GroundTrait): Trait {
    match g
    case SizeLessThan(b, c) => SizeLessThan(b, c)
    case SizeGreaterThan(b, c) => SizeGreaterThan(b, c)
    case Size(b) => Size(b)
    case ZeroSize(z) => ZeroSize(z)
  }

  /**
   What a hand-written `impl t for X {}` outside the crate has to meet: the
   sealed traits cannot be named there (their module is private), and a
   public trait's supertrait bounds must hold for X.
   */
  predicate ImplAdmissible(size: nat, t: Trait) {
    !t.Ground? && SatisfiesBounds(size, Supertraits(t))
  }

  // ---------------------------------------------------------------------
  // The public layer agrees with the sealed layer: nothing can be forged.
  // ---------------------------------------------------------------------

  /** A public comparison trait holds exactly when its sealed counterpart does. */
  lemma PublicMatchesSealed(size: nat, g: Sealed.GroundTrait)
    ensures Holds(size, Public(g)) <==> Sealed.Implemented(size, g)
  {
    var t := Public(g);
    assert Supertraits(t) == [Ground(g)];
    assert Holds(size, t) <==> Holds(size, Ground(g)) by {
      assert Ground(g) in Supertraits(t);
    }
  }

  /**
   A hand-written impl is admitted only where the claim it makes is already
   true, so it can never make a false size claim hold; conversely the claims
   that do hold are exactly those whose supertraits hold.
   */
  lemma NoForgery(size: nat, t: Trait)
    ensures ImplAdmissible(size, t) ==> Holds(size, t)
    ensures !t.Ground? ==> (ImplAdmissible(size, t) <==> Holds(size, t))
  {
  }

  // ---------------------------------------------------------------------
  // Closed forms of each trait.
  // ---------------------------------------------------------------------

  lemma SizeLessThanClosedForm(size: nat, bound: nat, check: bool)
    ensures Holds(size, SizeLessThan(bound, check)) <==> (size < bound) == check
  {
    PublicMatchesSealed(size, Sealed.SizeLessThan(bound, check));
  }

  lemma SizeGreaterThanClosedForm(size: nat, bound: nat, check: bool)
    ensures Holds(size, SizeGreaterThan(bound, check)) <==> (size > bound) == check
  {
    PublicMatchesSealed(size, Sealed.SizeGreaterThan(bound, check));
  }

  lemma SizeClosedForm(size: nat, bound: nat)
    ensures Holds(size, Size(bound)) <==> bound == size
  {
    PublicMatchesSealed(size, Sealed.Size(bound));
  }

  lemma ZeroSizeClosedForm(size: nat, zero: bool)
    ensures Holds(size, ZeroSize(zero)) <==> (size == 0) == zero
  {
    PublicMatchesSealed(size, Sealed.ZeroSize(zero));
  }

  /** `MaxSize<S>` is "at most S bytes". */
  lemma MaxSizeClosedForm(size: nat, bound: nat)
    ensures Holds(size, MaxSize(bound)) <==> size <= bound
  {
    SizeGreaterThanClosedForm(size, bound, false);
    assert Supertraits(MaxSize(bound)) == [SizeGreaterThan(bound, false)];
  }

  /** `MinSize<S>` is "at least S bytes". */
  lemma MinSizeClosedForm(size: nat, bound: nat)
    ensures Holds(size, MinSize(bound)) <==> size >= bound
  {
    SizeLessThanClosedForm(size, bound, false);
    assert Supertraits(MinSize(bound)) == [SizeLessThan(bound, false)];
  }

  /**
   `BoundedSize<MIN, MAX>` is "between MIN and MAX bytes inclusive". Nothing
   requires MIN <= MAX; an inverted range is accepted by no size at all.
   */
  lemma BoundedSizeClosedForm(size: nat, min: nat, max: nat)
    ensures Holds(size, BoundedSize(min, max)) <==> min <= size <= max
    ensures max < min ==> !Holds(size, BoundedSize(min, max))
  {
    MinSizeClosedForm(size, min);
    MaxSizeClosedForm(size, max);
    assert Supertraits(BoundedSize(min, max)) == [MinSize(min), MaxSize(max)];
  }

  // ---------------------------------------------------------------------
  // Exclusivity, uniqueness, edge cases.
  // ---------------------------------------------------------------------

  /**
   Exactly one of the two claimed booleans holds, for every size and bound:
   the exclusivity of the sealed layer carried through the public wrappers.
   */
  lemma ClaimExclusive(size: nat, bound: nat)
    ensures Holds(size, SizeLessThan(bound, true)) != Holds(size, SizeLessThan(bound, false))
    ensures Holds(size, SizeGreaterThan(bound, true)) != Holds(size, SizeGreaterThan(bound, false))
    ensures Holds(size, ZeroSize(true)) != Holds(size, ZeroSize(false))
  {
    Sealed.ClaimedBooleanExclusive(size, bound);
    PublicMatchesSealed(size, Sealed.SizeLessThan(bound, true));
    PublicMatchesSealed(size, Sealed.SizeLessThan(bound, false));
    PublicMatchesSealed(size, Sealed.SizeGreaterThan(bound, true));
    PublicMatchesSealed(size, Sealed.SizeGreaterThan(bound, false));
    PublicMatchesSealed(size, Sealed.ZeroSize(true));
    PublicMatchesSealed(size, Sealed.ZeroSize(false));
  }

  /**
   For each public wrapper, the instance the blanket impl provides holds, and
   no other instance of the same family does: a use site that names any other
   claimed boolean (or, for `Size`, any other size) is unsatisfiable.
   */
  lemma PublicInstanceUnique(size: nat, g: Sealed.GroundTrait)
    ensures Holds(size, Public(Sealed.ImplInstance(size, g)))
    ensures forall h :: Sealed.SameFamily(g, h) && Holds(size, Public(h)) ==> h == Sealed.ImplInstance(size, g)
  {
    PublicMatchesSealed(size, Sealed.ImplInstance(size, g));
    forall h | Sealed.SameFamily(g, h) && Holds(size, Public(h))
      ensures h == Sealed.ImplInstance(size, g)
    {
      PublicMatchesSealed(size, h);
    }
  }

  /** A type satisfies `Size<S>` for exactly one S, its own size. */
  lemma ExactSizeUnique(size: nat)
    ensures Holds(size, Size(size))
    ensures forall s :: Holds(size, Size(s)) ==> s == size
  {
    PublicMatchesSealed(size, Sealed.Size(size));
    forall s | Holds(size, Size(s)) ensures s == size {
      PublicMatchesSealed(size, Sealed.Size(s));
      Sealed.ExactSizeUnique(size, s, size);
    }
  }

  /** With bound 0 the comparisons degenerate. */
  lemma EdgeCasesAtZero(size: nat)
    ensures !Holds(size, SizeLessThan(0, true))
    ensures Holds(size, SizeLessThan(0, false))
    ensures Holds(size, SizeGreaterThan(0, false)) <==> size == 0
    ensures Holds(size, MinSize(0))
    ensures Holds(size, MaxSize(0)) <==> size == 0
  {
    SizeLessThanClosedForm(size, 0, true);
    SizeLessThanClosedForm(size, 0, false);
    SizeGreaterThanClosedForm(size, 0, false);
    MinSizeClosedForm(size, 0);
    MaxSizeClosedForm(size, 0);
  }

  /** `ZeroSize` says the same thing as the exact and comparative traits. */
  lemma ZeroSizeAgreement(size: nat)
    ensures Holds(size, ZeroSize(true)) <==> Holds(size, Size(0))
    ensures Holds(size, ZeroSize(true)) <==> Holds(size, SizeLessThan(1, true))
    ensures Holds(size, ZeroSize(false)) <==> Holds(size, SizeGreaterThan(0, true))
  {
    ZeroSizeClosedForm(size, true);
    ZeroSizeClosedForm(size, false);
    SizeClosedForm(size, 0);
    SizeLessThanClosedForm(size, 1, true);
    SizeGreaterThanClosedForm(size, 0, true);
  }

  // ---------------------------------------------------------------------
  // The set of sizes each trait accepts.
  // ---------------------------------------------------------------------

  /** The sizes a sealed trait accepts. */
  function GroundRange(g: Sealed.GroundTrait): (r: SizeRange)
    ensures forall size :: r.Contains(size) <==> Sealed.Implemented(size, g)
  {
    match g
    case SizeLessThan(b, c) => if c then SizeRange(0, Below(b)) else SizeRange(b, Unbounded)
    case SizeGreaterThan(b, c) => if c then SizeRange(b + 1, Unbounded) else SizeRange(0, Below(b + 1))
    case Size(b) => SizeRange(b, Below(b + 1))
    case ZeroSize(z) => if z then SizeRange(0, Below(1)) else SizeRange(1, Unbounded)
  }

  /** The highest level of any trait in a bound list. */
  function MaxLevel(bounds: seq<Trait>): (m: nat)
    ensures forall s :: s in bounds ==> Level(s) <= m
    ensures m == 0 || exists s :: s in bounds && Level(s) == m
  {
    if bounds == [] then 0
    else
      var rest := MaxLevel(bounds[1..]);
      if Level(bounds[0]) < rest then rest else Level(bounds[0])
  }

  /** The sizes a trait accepts, computed through the trait hierarchy. */
  function Accepted(t: Trait): (r: SizeRange)
    decreases Level(t), 1
    ensures forall size :: r.Contains(size) <==> Holds(size, t)
  {
    match t
    case Ground(g) => GroundRange(g)
    case _ => AcceptedAll(Supertraits(t))
  }

  /** The sizes a bound list `A + B + ...` accepts: the intersection of its parts. */
  function AcceptedAll(bounds: seq<Trait>): (r: SizeRange)
    decreases MaxLevel(bounds) + 1, 0, |bounds|
    ensures forall size :: r.Contains(size) <==> SatisfiesBounds(size, bounds)
  {
    if bounds == [] then Everything
    else
      assert bounds == [bounds[0]] + bounds[1..];
      Accepted(bounds[0]).Intersect(AcceptedAll(bounds[1..]))
  }

  /**
   Some size satisfies `t`. Sizes range over all naturals here; Rust itself
   has no type larger than `isize::MAX` bytes.
   */
  ghost predicate Satisfiable(t: Trait) {
    exists size :: Holds(size, t)
  }

  /** A trait can be satisfied exactly when its accepted range is not empty. */
  lemma SatisfiableIffNonEmpty(t: Trait)
    ensures Satisfiable(t) <==> !Accepted(t).IsEmpty()
  {
    EmptyIffNoMember(Accepted(t));
  }

  /**
   `BoundedSize<MIN, MAX>` can be satisfied exactly when MIN <= MAX;
   `SizeLessThan<0, true>` never can, `SizeLessThan<0, false>` always can.
   */
  lemma BoundedSizeSatisfiable(min: nat, max: nat)
    ensures Satisfiable(BoundedSize(min, max)) <==> min <= max
    ensures !Satisfiable(SizeLessThan(0, true))
    ensures Satisfiable(SizeLessThan(0, false))
  {
    if min <= max {
      BoundedSizeClosedForm(min, min, max);
    } else {
      forall size ensures !Holds(size, BoundedSize(min, max)) {
        BoundedSizeClosedForm(size, min, max);
      }
    }
    forall size ensures !Holds(size, SizeLessThan(0, true)) {
      EdgeCasesAtZero(size);
    }
    EdgeCasesAtZero(0);
  }

  /** A trait with a single supertrait accepts what that supertrait accepts. */
  lemma AcceptedSingleSupertrait(t: Trait)
    requires !t.Ground? && |Supertraits(t)| == 1
    ensures Accepted(t) == Accepted(Supertraits(t)[0])
  {
    var bounds := Supertraits(t);
    assert bounds[1..] == [];
    assert AcceptedAll(bounds) == Accepted(bounds[0]).Intersect(AcceptedAll(bounds[1..]));
  }

  /**
   The compound traits in interval form: `MaxSize<S>` accepts 0..=S,
   `MinSize<S>` accepts S.., and `BoundedSize<MIN, MAX>` accepts exactly
   MIN..=MAX (empty when MAX < MIN).
   */
  lemma AcceptedCompound(min: nat, max: nat)
    ensures Accepted(MaxSize(max)) == SizeRange(0, Below(max + 1))
    ensures Accepted(MinSize(min)) == SizeRange(min, Unbounded)
    ensures Accepted(BoundedSize(min, max)) == SizeRange(min, Below(max + 1))
  {
    AcceptedSingleSupertrait(SizeLessThan(min, false));
    AcceptedSingleSupertrait(SizeGreaterThan(max, false));
    AcceptedSingleSupertrait(MinSize(min));
    AcceptedSingleSupertrait(MaxSize(max));
    var bounds := Supertraits(BoundedSize(min, max));
    assert bounds[1..] == [MaxSize(max)];
    assert bounds[1..][1..] == [];
    assert AcceptedAll(bounds) == Accepted(MinSize(min)).Intersect(AcceptedAll(bounds[1..]));
    assert AcceptedAll(bounds[1..]) == Accepted(MaxSize(max)).Intersect(Everything);
  }
}
