/**
 The crate's documentation examples and tests, as concrete statements about
 the model. An example that compiles becomes `Holds(size, t)`; a
 `compile_fail` example that passes a value to a bounded wrapper becomes
 `!Holds(size, t)`, and one that writes an impl by hand becomes
 `!ImplAdmissible(size, t)`.

 The byte size of each concrete Rust type is a fact of the compiler's
 layout, not of this library; the constants below take them as given for a
 64-bit target.
 */
module DocExamples {
  import opened SizeTrait

  const UNIT: nat := 0          // `()`
  const PHANTOM: nat := 0       // `PhantomData<u8>`
  const EMPTY_U64_ARRAY: nat := 0 // `[u64; 0]`
  const NESTED_ZST: nat := 0    // wrappers and tuples whose parts are all zero-size
  const U8: nat := 1
  const BOOL: nat := 1
  const U16: nat := 2
  const U8_PAIR: nat := 2       // `(u8, u8)` and wrappers of it
  const U32: nat := 4
  const I32: nat := 4           // an unsuffixed integer literal
  const U128: nat := 16
  const U64_SLICE_REF: nat := 16 // `&[u64]`, a pointer and a length

  /** `[u8; n]` */
  function ByteArray(n: nat): nat { n }

  lemma SizeLessThanDoc()
    ensures Holds(ByteArray(5), SizeLessThan(10, true))
    ensures Holds(ByteArray(20), SizeLessThan(2, false))
    ensures !Holds(ByteArray(11), SizeLessThan(10, true))
    ensures !Holds(UNIT, SizeLessThan(2, false))
    ensures !ImplAdmissible(ByteArray(11), SizeLessThan(10, true))
    ensures !ImplAdmissible(U8, SizeLessThan(10, false))
  {
    SizeLessThanClosedForm(5, 10, true);
    SizeLessThanClosedForm(20, 2, false);
    SizeLessThanClosedForm(11, 10, true);
    SizeLessThanClosedForm(0, 2, false);
    NoForgery(11, SizeLessThan(10, true));
    SizeLessThanClosedForm(1, 10, false);
    NoForgery(1, SizeLessThan(10, false));
  }

  lemma SizeGreaterThanDoc()
    ensures Holds(ByteArray(11), SizeGreaterThan(10, true))
    ensures Holds(ByteArray(1), SizeGreaterThan(1, false))
    ensures Holds(UNIT, SizeGreaterThan(1, false))
    ensures !Holds(UNIT, SizeGreaterThan(10, true))
    ensures !Holds(ByteArray(2), SizeGreaterThan(1, false))
    ensures !ImplAdmissible(ByteArray(9), SizeGreaterThan(10, true))
    ensures !ImplAdmissible(U8, SizeGreaterThan(0, false))
  {
    SizeGreaterThanClosedForm(11, 10, true);
    SizeGreaterThanClosedForm(1, 1, false);
    SizeGreaterThanClosedForm(0, 1, false);
    SizeGreaterThanClosedForm(0, 10, true);
    SizeGreaterThanClosedForm(2, 1, false);
    SizeGreaterThanClosedForm(9, 10, true);
    NoForgery(9, SizeGreaterThan(10, true));
    SizeGreaterThanClosedForm(1, 0, false);
    NoForgery(1, SizeGreaterThan(0, false));
  }

  lemma MaxSizeDoc()
    ensures Holds(UNIT, MaxSize(10))
    ensures Holds(ByteArray(9), MaxSize(10))
    ensures !Holds(ByteArray(11), MaxSize(10))
    ensures !ImplAdmissible(ByteArray(10), MaxSize(5))
  {
    MaxSizeClosedForm(0, 10);
    MaxSizeClosedForm(9, 10);
    MaxSizeClosedForm(11, 10);
    MaxSizeClosedForm(10, 5);
    NoForgery(10, MaxSize(5));
  }

  lemma MinSizeDoc()
    ensures Holds(ByteArray(10), MinSize(10))
    ensures Holds(U128, MinSize(10))
    ensures !Holds(UNIT, MinSize(10))
    ensures !ImplAdmissible(ByteArray(10), MinSize(15))
  {
    MinSizeClosedForm(10, 10);
    MinSizeClosedForm(16, 10);
    MinSizeClosedForm(0, 10);
    MinSizeClosedForm(10, 15);
    NoForgery(10, MinSize(15));
  }

  lemma BoundedSizeDoc()
    ensures Holds(U8, BoundedSize(1, 10))
    ensures Holds(ByteArray(9), BoundedSize(1, 10))
    ensures !Holds(UNIT, BoundedSize(1, 10))
    ensures !Holds(ByteArray(11), BoundedSize(1, 10))
    ensures !ImplAdmissible(ByteArray(2), BoundedSize(15, 100))
  {
    BoundedSizeClosedForm(1, 1, 10);
    BoundedSizeClosedForm(9, 1, 10);
    BoundedSizeClosedForm(0, 1, 10);
    BoundedSizeClosedForm(11, 1, 10);
    BoundedSizeClosedForm(2, 15, 100);
    NoForgery(2, BoundedSize(15, 100));
  }

  lemma SizeDoc()
    ensures Holds(U8, Size(1))
    ensures Holds(ByteArray(4), Size(4))
    ensures Holds(U32, Size(4))
    ensures !ImplAdmissible(U8, Size(0))
    ensures !ImplAdmissible(UNIT, Size(1))
    ensures !Holds(U8, Size(0))
    ensures !Holds(U8, Size(2))
  {
    SizeClosedForm(1, 1);
    SizeClosedForm(4, 4);
    SizeClosedForm(1, 0);
    NoForgery(1, Size(0));
    SizeClosedForm(0, 1);
    NoForgery(0, Size(1));
    SizeClosedForm(1, 2);
  }

  lemma ZeroSizeDoc()
    ensures Holds(UNIT, ZeroSize(true))
    ensures Holds(PHANTOM, ZeroSize(true))
    ensures Holds(EMPTY_U64_ARRAY, ZeroSize(true))
    ensures Holds(NESTED_ZST, ZeroSize(true))
    ensures Holds(I32, ZeroSize(false))
    ensures Holds(BOOL, ZeroSize(false))
    ensures Holds(U64_SLICE_REF, ZeroSize(false))
    ensures Holds(ByteArray(100), ZeroSize(false))
    ensures Holds(U8, ZeroSize(false)) && Holds(U8_PAIR, ZeroSize(false))
    ensures !ImplAdmissible(U8, ZeroSize(true))
    ensures !ImplAdmissible(UNIT, ZeroSize(false))
    ensures !Holds(U8, ZeroSize(true))
    ensures !Holds(UNIT, ZeroSize(false))
  {
    ZeroSizeClosedForm(0, true);
    ZeroSizeClosedForm(0, false);
    ZeroSizeClosedForm(1, true);
    ZeroSizeClosedForm(1, false);
    ZeroSizeClosedForm(2, false);
    ZeroSizeClosedForm(4, false);
    ZeroSizeClosedForm(16, false);
    ZeroSizeClosedForm(100, false);
    NoForgery(1, ZeroSize(true));
    NoForgery(0, ZeroSize(false));
  }

  lemma ZeroSizeTest()
    ensures Holds(UNIT, ZeroSize(true)) && Holds(PHANTOM, ZeroSize(true))
    ensures Holds(EMPTY_U64_ARRAY, ZeroSize(true)) && Holds(NESTED_ZST, ZeroSize(true))
    ensures !Holds(U8, ZeroSize(true))
    ensures Holds(I32, ZeroSize(false)) && Holds(BOOL, ZeroSize(false))
    ensures Holds(U64_SLICE_REF, ZeroSize(false)) && Holds(ByteArray(100), ZeroSize(false))
    ensures !Holds(UNIT, ZeroSize(false))
  {
    ZeroSizeDoc();
  }

  lemma SizeTest()
    ensures Holds(UNIT, Size(0)) && Holds(PHANTOM, Size(0)) && Holds(EMPTY_U64_ARRAY, Size(0))
    ensures Holds(ByteArray(2), Size(2)) && Holds(U16, Size(2)) && Holds(U8_PAIR, Size(2))
  {
    SizeClosedForm(0, 0);
    SizeClosedForm(2, 2);
  }

  lemma SizeLessThanTest()
    ensures Holds(UNIT, SizeLessThan(10, true)) && Holds(ByteArray(9), SizeLessThan(10, true))
    ensures Holds(UNIT, SizeLessThan(1, true))
    ensures Holds(U8_PAIR, SizeLessThan(2, false)) && Holds(ByteArray(20), SizeLessThan(2, false))
  {
    SizeLessThanClosedForm(0, 10, true);
    SizeLessThanClosedForm(9, 10, true);
    SizeLessThanClosedForm(0, 1, true);
    SizeLessThanClosedForm(2, 2, false);
    SizeLessThanClosedForm(20, 2, false);
  }

  lemma SizeGreaterThanTest()
    ensures Holds(ByteArray(11), SizeGreaterThan(10, true)) && Holds(U128, SizeGreaterThan(10, true))
    ensures Holds(UNIT, SizeGreaterThan(1, false)) && Holds(U8, SizeGreaterThan(1, false))
  {
    SizeGreaterThanClosedForm(11, 10, true);
    SizeGreaterThanClosedForm(16, 10, true);
    SizeGreaterThanClosedForm(0, 1, false);
    SizeGreaterThanClosedForm(1, 1, false);
  }

  lemma MinSizeTest()
    ensures Holds(ByteArray(10), MinSize(10)) && Holds(U128, MinSize(10))
    ensures Holds(ByteArray(10), MinSize(1)) && Holds(U8, MinSize(1))
  {
    MinSizeClosedForm(10, 10);
    MinSizeClosedForm(16, 10);
    MinSizeClosedForm(10, 1);
    MinSizeClosedForm(1, 1);
  }

  lemma MaxSizeTest()
    ensures Holds(UNIT, MaxSize(10)) && Holds(ByteArray(9), MaxSize(10))
    ensures Holds(UNIT, MaxSize(1)) && Holds(U8, MaxSize(1))
  {
    MaxSizeClosedForm(0, 10);
    MaxSizeClosedForm(9, 10);
    MaxSizeClosedForm(0, 1);
    MaxSizeClosedForm(1, 1);
  }

  lemma BoundedTest()
    ensures Holds(U8, BoundedSize(1, 10)) && Holds(ByteArray(9), BoundedSize(1, 10))
    ensures Holds(U8, BoundedSize(1, 1))
  {
    BoundedSizeClosedForm(1, 1, 10);
    BoundedSizeClosedForm(9, 1, 10);
    BoundedSizeClosedForm(1, 1, 1);
  }

  /** The crate's integration test. */
  lemma IntegrationTest()
    ensures Holds(UNIT, ZeroSize(true))
    ensures Holds(ByteArray(8), SizeLessThan(10, true))
  {
    ZeroSizeClosedForm(0, true);
    SizeLessThanClosedForm(8, 10, true);
  }
}
