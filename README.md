# size_trait, modelled in Dafny

`size_trait` is a Rust library of traits that constrain the byte size of a
type at compile time: `SizeLessThan<SIZE, CHECK>`, `SizeGreaterThan<SIZE, CHECK>`,
`Size<SIZE>`, `ZeroSize<ZERO>`, `MaxSize<SIZE>`, `MinSize<SIZE>` and
`BoundedSize<MIN, MAX>`. Rust's trait resolution decides each bound when a
generic parameter is instantiated; this model restates those decisions as
predicates over the type's size.

A type is represented only by its byte size, a `nat`.

- `Sealed` (file `sealed.dfy`) models the private `mod sealed`. Each sealed
  trait has one blanket impl whose const parameter is computed from
  `size_of::<T>()` by a single comparison, or for `Size` is the size
  itself. `Sealed.Implemented` states when the parameter written at a use
  site unifies with that computed one.
  `Sealed.ImplInstance` is the one instance the impl provides.
- `SizeTrait` (file `size_trait.dfy`) models the public traits as one
  datatype `Trait`. `Supertraits` mirrors each `pub trait X: Supers` line.
  `Holds(size, t)` is "a type of `size` bytes satisfies `t`". A sealed trait
  holds by comparison. A public trait holds exactly when all its supertraits
  hold, because its only impl is the blanket `impl<T: Supers> X for T`.
  `ImplAdmissible` is what a hand-written impl outside the crate must meet.
  `Accepted(t)` computes the set of sizes `t` accepts by walking the
  hierarchy; it is an interval (`SizeRanges.SizeRange`).
- `SizeRanges` (file `size_ranges.dfy`) is a helper for half-open intervals
  of sizes.
- `DocExamples` (file `doc_examples.dfy`) restates every documentation
  example, the unit tests and the integration test as concrete lemmas. An
  example that compiles becomes `Holds`. A `compile_fail` example that passes
  a value becomes `!Holds`. A `compile_fail` example that writes an impl by
  hand becomes `!ImplAdmissible`.

## Model

| member | source | states |
|---|---|---|
| `Sealed.Implemented` | src/lib.rs:6-22 | definition, no contract: a sealed trait is implemented iff its written parameter equals the one the blanket impl computes (`size < SIZE`, `size > SIZE`, the size itself, `size == 0`) |
| `SizeTrait.Supertraits` | src/lib.rs:65-310 | the supertraits in each `pub trait X: Supers` declaration (lines 65-66, 117-118, 151, 179, 213, 259, 308); every supertrait sits lower in the hierarchy |
| `SizeTrait.Holds` | src/lib.rs:65-310 | definition, no contract: the blanket impls (lines 70-73, 122-125, 153, 181, 215-218, 261, 310) make a public trait hold exactly when all its supertraits hold; a sealed trait holds when `Sealed.Implemented` |
| `SizeTrait.ImplAdmissible` | src/lib.rs:54-64 | definition, no contract: a hand-written impl outside the crate must be of a public trait and discharge its supertrait bounds, the rule behind the `compile_fail` impl examples (also lines 106-116, 146-150, 174-178, 208-212, 236-246, 285-295) |
| `Sealed.ImplInstance` | src/lib.rs:6-22 | the blanket impl of each sealed trait supplies an instance of the queried family; that instance is implemented, and it is the only implemented instance of the family |
| `Sealed.ClaimedBooleanExclusive` | src/lib.rs:9-21 | for every size and bound, exactly one of `CHECK = true` / `CHECK = false` is implemented for the sealed `SizeLessThan` and `SizeGreaterThan`, and likewise exactly one `ZERO` for `ZeroSize` |
| `Sealed.ExactSizeUnique` | src/lib.rs:15-17 | the sealed `Size<S>` is implemented only for S equal to the type's size |
| `SizeTrait.PublicMatchesSealed` | src/lib.rs:65-310 | each of the four public wrappers (lines 65-73, 117-125, 259-261, 308-310: supertrait plus blanket impl) holds exactly when its sealed trait is implemented |
| `SizeTrait.NoForgery` | src/lib.rs:54-64 | a hand-written impl can be admitted only where the claim already holds; for a public trait, admissible is the same as holding |
| `SizeTrait.SizeLessThanClosedForm` | src/lib.rs:9 | `SizeLessThan<S, C>` holds iff `(size < S) == C` |
| `SizeTrait.SizeGreaterThanClosedForm` | src/lib.rs:13 | `SizeGreaterThan<S, C>` holds iff `(size > S) == C` |
| `SizeTrait.SizeClosedForm` | src/lib.rs:259-261 | `Size<S>` holds iff `S == size` |
| `SizeTrait.ZeroSizeClosedForm` | src/lib.rs:308-310 | `ZeroSize<Z>` holds iff `(size == 0) == Z` |
| `SizeTrait.MaxSizeClosedForm` | src/lib.rs:151-153 | `MaxSize<S>` (= `SizeGreaterThan<S, false>`) holds iff `size <= S` |
| `SizeTrait.MinSizeClosedForm` | src/lib.rs:179-181 | `MinSize<S>` (= `SizeLessThan<S, false>`) holds iff `size >= S` |
| `SizeTrait.BoundedSizeClosedForm` | src/lib.rs:213-218 | `BoundedSize<MIN, MAX>` (= `MinSize<MIN> + MaxSize<MAX>`) holds iff `MIN <= size <= MAX`; when `MAX < MIN` it holds for no size |
| `SizeTrait.ClaimExclusive` | src/lib.rs:65-310 | at the public level (wrappers at lines 65-73, 117-125, 308-310), exactly one of the two claimed booleans holds for `SizeLessThan`, `SizeGreaterThan` and `ZeroSize`; derived from `Sealed.ClaimedBooleanExclusive` |
| `SizeTrait.PublicInstanceUnique` | src/lib.rs:6-22 | through each public wrapper, the instance the sealed blanket impl provides holds and no other instance of its family does |
| `SizeTrait.ExactSizeUnique` | src/lib.rs:236-261 | a type satisfies `Size<S>` for its own size and for no other S; derived from `Sealed.ExactSizeUnique` |
| `SizeTrait.EdgeCasesAtZero` | src/lib.rs:9-181 | `SizeLessThan<0, true>` holds for no size; `SizeLessThan<0, false>` and `MinSize<0>` hold for every size; `SizeGreaterThan<0, false>` and `MaxSize<0>` hold only for size 0 (from lines 9, 13, 151-153, 179-181; the `compile_fail` block at 112-116 is one instance) |
| `SizeTrait.ZeroSizeAgreement` | src/lib.rs:336-354 | `ZeroSize<true>` is equivalent to `Size<0>` and to `SizeLessThan<1, true>`; `ZeroSize<false>` is equivalent to `SizeGreaterThan<0, true>` |
| `SizeTrait.GroundRange` | src/lib.rs:6-22 | the interval it returns contains exactly the sizes for which the sealed trait is implemented |
| `SizeTrait.Accepted` | src/lib.rs:65-310 | the interval it returns contains exactly the sizes for which the trait holds, computed through the supertrait hierarchy |
| `SizeTrait.AcceptedAll` | src/lib.rs:213-218 | the interval it returns contains exactly the sizes that satisfy every bound of a list `A + B + ...` |
| `SizeTrait.SatisfiableIffNonEmpty` | src/lib.rs:65-310 | some size satisfies a trait iff the interval of sizes it accepts is not empty |
| `SizeTrait.BoundedSizeSatisfiable` | src/lib.rs:213-218 | `BoundedSize<MIN, MAX>` is satisfiable iff `MIN <= MAX`; `SizeLessThan<0, true>` is never satisfiable and `SizeLessThan<0, false>` always is |
| `SizeTrait.AcceptedCompound` | src/lib.rs:151-218 | `MaxSize<S>` accepts exactly the interval 0..=S, `MinSize<S>` exactly S.., and `BoundedSize<MIN, MAX>` exactly MIN..=MAX |
| `DocExamples.SizeLessThanDoc` | src/lib.rs:24-64 | sizes 5 and 20 pass `<10, true>` and `<2, false>`; 11 and 0 fail them; hand-written impls claiming `<10, true>` for 11 bytes and `<10, false>` for 1 byte are refused |
| `DocExamples.SizeGreaterThanDoc` | src/lib.rs:75-116 | 11 passes `<10, true>`; 1 and 0 pass `<1, false>`; 0 fails `<10, true>`; 2 fails `<1, false>`; impls claiming `<10, true>` for 9 bytes and `<0, false>` for 1 byte are refused |
| `DocExamples.MaxSizeDoc` | src/lib.rs:127-150 | 0 and 9 pass `MaxSize<10>`; 11 fails it; an impl of `MaxSize<5>` for 10 bytes is refused |
| `DocExamples.MinSizeDoc` | src/lib.rs:155-178 | 10 and 16 pass `MinSize<10>`; 0 fails it; an impl of `MinSize<15>` for 10 bytes is refused |
| `DocExamples.BoundedSizeDoc` | src/lib.rs:183-212 | 1 and 9 pass `BoundedSize<1, 10>`; 0 and 11 fail it; an impl of `BoundedSize<15, 100>` for 2 bytes is refused |
| `DocExamples.SizeDoc` | src/lib.rs:220-258 | 1 byte passes `Size<1>`, 4 bytes `Size<4>`; impls of `Size<0>` for 1 byte and `Size<1>` for 0 bytes are refused; 1 byte fails `Size<0>` and `Size<2>` |
| `DocExamples.ZeroSizeDoc` | src/lib.rs:263-307 | size-0 types pass `ZeroSize<true>`; sizes 1, 2, 4, 16 and 100 pass `ZeroSize<false>`; impls of `ZeroSize<true>` for 1 byte and `ZeroSize<false>` for 0 bytes are refused; 1 byte fails `ZeroSize<true>`, 0 bytes fails `ZeroSize<false>` |
| `DocExamples.ZeroSizeTest` | src/lib.rs:316-332 | the `zero_size` unit test: zero-size values pass `ZeroSize<true>`, sized ones pass `ZeroSize<false>`, and the commented-out error lines fail |
| `DocExamples.SizeTest` | src/lib.rs:334-345 | the `size` unit test: size-0 values pass `Size<0>`; 2-byte values pass `Size<2>` |
| `DocExamples.SizeLessThanTest` | src/lib.rs:347-359 | the `size_less_than` unit test: 0 and 9 pass `<10, true>`, 0 passes `<1, true>`, 2 and 20 pass `<2, false>` |
| `DocExamples.SizeGreaterThanTest` | src/lib.rs:361-370 | the `size_greater_than` unit test: 11 and 16 pass `<10, true>`; 0 and 1 pass `<1, false>` |
| `DocExamples.MinSizeTest` | src/lib.rs:372-381 | the `min_size` unit test: 10 and 16 pass `MinSize<10>`; 10 and 1 pass `MinSize<1>` |
| `DocExamples.MaxSizeTest` | src/lib.rs:383-392 | the `max_size` unit test: 0 and 9 pass `MaxSize<10>`; 0 and 1 pass `MaxSize<1>` |
| `DocExamples.BoundedTest` | src/lib.rs:394-402 | the `bounded` unit test: 1 and 9 pass `BoundedSize<1, 10>`; 1 passes `BoundedSize<1, 1>` |
| `DocExamples.IntegrationTest` | tests/test.rs:6-15 | `()` passes `ZeroSize<true>`; 8 bytes pass `SizeLessThan<10, true>` |

## Left out

- Rust trait-resolution mechanics: how `generic_const_exprs` evaluates the impl's const expression, and the `E0308` diagnostics. "The bound holds" is a Dafny predicate, and "does not compile" is a lemma that the predicate is false.
- Coherence: in Rust a hand-written impl of a public trait also overlaps the blanket impl (`E0119`), so it is refused even when its claim is true. `ImplAdmissible` models only the supertrait obligation that refuses a false claim.
- How `core::mem::size_of` computes a layout: padding, alignment, `PhantomData`, empty arrays and fat pointers are facts of the compiler. `DocExamples` takes each concrete type's size as a given constant for a 64-bit target.
- Zero size of nested tuples and wrappers (src/lib.rs:273, 280, 324): this is a property of the compiler's layout. The model assumes it by giving such composites the constant size 0 (or 2 for the `(u8, u8)` case); it is not proved.
- `usize` width: sizes and bounds are unbounded naturals. The library does no arithmetic on them and cannot overflow. `Satisfiable` therefore ranges over all naturals, although Rust has no type larger than `isize::MAX` bytes; `BoundedSize<usize::MAX, usize::MAX>` counts as satisfiable in the model.
- The crate attributes and the README inclusion (src/lib.rs:1-4): documentation and build settings only.
