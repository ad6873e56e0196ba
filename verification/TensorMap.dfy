/** The tensor-map validator, and what its nested-stride check buys: distinct coordinates of an
    accepted map never share a byte. */
module TensorMap {
  import opened Outcome

  datatype Element = U8 | U16 | U32 | I32 | I64 | F16 | F32 | F64 | BF16 | TF32 | TF32x32 | F8E4M3 | F8E5M2
  datatype Interleave = NoInterleave | Interleave16 | Interleave32
  datatype Swizzle = NoSwizzle | Swizzle32 | Swizzle64 | Swizzle128 | Swizzle128Atom32
  datatype Promotion = NoPromotion | Promote64 | Promote128 | Promote256
  datatype OobFill = NoFill | ZeroFill | NanFill

  function ElementBytes(e: Element): (n: int)
    ensures n in {1, 2, 4, 8}
  {
    match e
    case U8 => 1 case F8E4M3 => 1 case F8E5M2 => 1
    case U16 => 2 case F16 => 2 case BF16 => 2
    case U32 => 4 case I32 => 4 case F32 => 4 case TF32 => 4 case TF32x32 => 4
    case I64 => 8 case F64 => 8
  }

  predicate IsFloat(e: Element) {
    e in {F16, F32, F64, BF16, TF32, TF32x32}
  }

  function SwizzleLimit(s: Swizzle): Option<int> {
    match s
    case NoSwizzle => None
    case Swizzle32 => Some(32)
    case Swizzle64 => Some(64)
    case Swizzle128 => Some(128)
    case Swizzle128Atom32 => Some(128)
  }

  /** A resolved map: every dimension, stride and box already evaluated to a positive integer. */
  datatype Descriptor = Descriptor(
    address: nat, element: Element, dims: seq<int>, strides: seq<int>, box: seq<int>, elementStrides: seq<int>,
    interleave: Interleave, swizzle: Swizzle, promotion: Promotion, oob: OobFill)
  {
    predicate Resolved() {
      && |strides| == (if |dims| == 0 then 0 else |dims| - 1) && |box| == |elementStrides| == |dims|
      && (forall i :: 0 <= i < |dims| ==> dims[i] > 0)
      && (forall i :: 0 <= i < |strides| ==> strides[i] > 0)
      && (forall i :: 0 <= i < |box| ==> box[i] > 0)
      && (forall i :: 0 <= i < |elementStrides| ==> elementStrides[i] > 0)
    }
  }

  datatype TmaError =
    | RankOutside | InterleavedRank | AddressMisaligned | DimensionTooLarge | StrideTooLarge
    | StrideMisaligned | NotNested | BoxTooLarge | ElementStrideTooLarge | InnerBoxMisaligned
    | InnerBoxAboveSwizzle | InterleaveNeedsSwizzle | NanNeedsFloat

  function Alignment(d: Descriptor): int {
    if d.interleave == Interleave32 then 32 else 16
  }

  /** Bytes spanned by the first `k + 1` dimensions. */
  function Extent(dims: seq<int>, strides: seq<int>, width: int, k: nat): int
    requires k < |dims| && k <= |strides|
  {
    if k == 0 then dims[0] * width else strides[k - 1] * dims[k]
  }

  /** Each stride covers everything the dimensions inside it span. */
  predicate Nested(dims: seq<int>, strides: seq<int>, width: int)
    requires |dims| >= 1 && |strides| == |dims| - 1
  {
    forall k :: 0 <= k < |strides| ==> strides[k] >= Extent(dims, strides, width, k)
  }

  predicate AllAtMost(s: seq<int>, bound: int) {
    forall i :: 0 <= i < |s| ==> s[i] <= bound
  }

  predicate AllMultiples(s: seq<int>, n: int)
    requires n > 0
  {
    forall i :: 0 <= i < |s| ==> s[i] % n == 0
  }

  function InnerBytes(d: Descriptor): int
    requires |d.box| >= 1
  {
    d.box[0] * ElementBytes(d.element)
  }

  /** What an accepted map satisfies. */
  predicate Admitted(d: Descriptor)
    requires d.Resolved()
  {
    && 1 <= |d.dims| <= 5
    && (d.interleave == NoInterleave || |d.dims| >= 3)
    && Aligned(d.address, d.interleave)
    && (forall i :: 0 <= i < |d.dims| ==> d.dims[i] <= 0x1_0000_0000)
    && (forall i :: 0 <= i < |d.strides| ==> d.strides[i] < 0x100_0000_0000)
    && (forall i :: 0 <= i < |d.strides| ==> Aligned(d.strides[i], d.interleave))
    && Nested(d.dims, d.strides, ElementBytes(d.element))
    && (forall i :: 0 <= i < |d.box| ==> d.box[i] <= 256)
    && (forall i :: 0 <= i < |d.elementStrides| ==> d.elementStrides[i] <= 8)
    && (d.interleave == NoInterleave ==> InnerFits(d.box[0] * ElementBytes(d.element), d.swizzle))
    && (d.interleave == Interleave32 ==> d.swizzle == Swizzle32)
    && (d.oob == NanFill ==> d.element in {F16, F32, F64, BF16, TF32, TF32x32})
  }

  predicate Aligned(n: int, interleave: Interleave) {
    match interleave
    case NoInterleave => n % 16 == 0
    case Interleave16 => n % 16 == 0
    case Interleave32 => n % 32 == 0
  }

  /** The bytes of the innermost box: whole 16-byte units within one swizzle span. */
  predicate InnerFits(bytes: int, swizzle: Swizzle) {
    && bytes % 16 == 0
    && (swizzle == Swizzle32 ==> bytes <= 32)
    && (swizzle == Swizzle64 ==> bytes <= 64)
    && (swizzle in {Swizzle128, Swizzle128Atom32} ==> bytes <= 128)
  }

  lemma AlignmentDecides(d: Descriptor, n: int)
    ensures n % Alignment(d) == 0 <==> Aligned(n, d.interleave)
  {
  }

  lemma SwizzleDecides(bytes: int, swizzle: Swizzle)
    ensures InnerFits(bytes, swizzle) <==>
              bytes % 16 == 0 && (SwizzleLimit(swizzle).Some? ==> bytes <= SwizzleLimit(swizzle).value)
  {
  }

  /** The widths of the element types. */
  lemma ElementWidths(e: Element)
    ensures ElementBytes(e) == 1 <==> e in {U8, F8E4M3, F8E5M2}
    ensures ElementBytes(e) == 2 <==> e in {U16, F16, BF16}
    ensures ElementBytes(e) == 8 <==> e in {I64, F64}
  {
  }

  /** The running check over the strides. */
  method CheckNested(dims: seq<int>, strides: seq<int>, width: int) returns (ok: bool)
    requires |dims| >= 1 && |strides| == |dims| - 1
    ensures ok <==> Nested(dims, strides, width)
  {
    var minimum := dims[0] * width;
    for k := 0 to |strides|
      invariant minimum == Extent(dims, strides, width, k)
      invariant forall j :: 0 <= j < k ==> strides[j] >= Extent(dims, strides, width, j)
    {
      if strides[k] < minimum {
        return false;
      }
      minimum := strides[k] * dims[k + 1];
    }
    return true;
  }

  method Validate(d: Descriptor) returns (r: Result<(), TmaError>)
    requires d.Resolved()
    ensures r.Ok? <==> Admitted(d)
  {
    forall n
      ensures n % Alignment(d) == 0 <==> Aligned(n, d.interleave)
    {
      AlignmentDecides(d, n);
    }
    hide Aligned, InnerFits, SwizzleLimit, Nested, ElementBytes, Alignment;
    if !(1 <= |d.dims| <= 5) { return Err(RankOutside); }
    if d.interleave != NoInterleave && |d.dims| < 3 { return Err(InterleavedRank); }
    if d.address % Alignment(d) != 0 { return Err(AddressMisaligned); }
    if !AllAtMost(d.dims, 0x1_0000_0000) { return Err(DimensionTooLarge); }
    if !AllAtMost(d.strides, 0x100_0000_0000 - 1) { return Err(StrideTooLarge); }
    if !AllMultiples(d.strides, Alignment(d)) { return Err(StrideMisaligned); }
    var nested := CheckNested(d.dims, d.strides, ElementBytes(d.element));
    if !nested { return Err(NotNested); }
    if !AllAtMost(d.box, 256) { return Err(BoxTooLarge); }
    if !AllAtMost(d.elementStrides, 8) { return Err(ElementStrideTooLarge); }
    var inner := InnerBytes(d);
    if d.interleave == NoInterleave {
      SwizzleDecides(inner, d.swizzle);
      if inner % 16 != 0 { return Err(InnerBoxMisaligned); }
      var limit := SwizzleLimit(d.swizzle);
      if limit.Some? && inner > limit.value { return Err(InnerBoxAboveSwizzle); }
    }
    if d.interleave == Interleave32 && d.swizzle != Swizzle32 { return Err(InterleaveNeedsSwizzle); }
    if d.oob == NanFill && !IsFloat(d.element) { return Err(NanNeedsFloat); }
    return Ok(());
  }

  // ---- What nested strides guarantee ----

  predicate InRange(c: seq<int>, dims: seq<int>) {
    |c| == |dims| && forall i :: 0 <= i < |c| ==> 0 <= c[i] < dims[i]
  }

  /** Byte offset of the element at the first `k + 1` coordinates. */
  function Offset(c: seq<int>, strides: seq<int>, width: int, k: nat): int
    requires k < |c| && k <= |strides|
  {
    if k == 0 then c[0] * width else Offset(c, strides, width, k - 1) + c[k] * strides[k - 1]
  }

  lemma NonNegative(a: int, b: int)
    requires a >= 0 && b >= 0
    ensures a * b >= 0
  {
  }

  lemma ScaleBounds(c: int, d: int, s: int)
    requires 0 <= c < d && s >= 0
    ensures 0 <= c * s && c * s + s <= d * s
  {
    NonNegative(d - 1 - c, s);
    NonNegative(c, s);
    assert (d - 1 - c) * s == d * s - s - c * s;
  }

  lemma {:induction false} OffsetInside(c: seq<int>, dims: seq<int>, strides: seq<int>, width: int, k: nat)
    requires |dims| >= 1 && |strides| == |dims| - 1 && k < |dims| && width > 0
    requires InRange(c, dims) && Nested(dims, strides, width)
    requires forall i :: 0 <= i < |strides| ==> strides[i] > 0
    ensures 0 <= Offset(c, strides, width, k) <= Extent(dims, strides, width, k) - width
  {
    if k == 0 {
      ScaleBounds(c[0], dims[0], width);
    } else {
      OffsetInside(c, dims, strides, width, k - 1);
      ScaleBounds(c[k], dims[k], strides[k - 1]);
    }
  }

  /** The first coordinate (from the outside) where two vectors differ keeps them a whole element
      apart, whatever the inner coordinates are. */
  lemma {:induction false} OffsetsApart(a: seq<int>, b: seq<int>, dims: seq<int>, strides: seq<int>, width: int, k: nat)
    requires |dims| >= 1 && |strides| == |dims| - 1 && k < |dims| && width > 0
    requires InRange(a, dims) && InRange(b, dims) && Nested(dims, strides, width)
    requires forall i :: 0 <= i < |strides| ==> strides[i] > 0
    requires a[..k + 1] != b[..k + 1]
    ensures var x, y := Offset(a, strides, width, k), Offset(b, strides, width, k);
            x + width <= y || y + width <= x
  {
    assert a[..k + 1] == a[..k] + [a[k]] && b[..k + 1] == b[..k] + [b[k]];
    if k == 0 {
      assert a[..k] == b[..k];
      StepApart(a[0], b[0], width);
    } else if a[k] == b[k] {
      OffsetsApart(a, b, dims, strides, width, k - 1);
    } else {
      OffsetInside(a, dims, strides, width, k - 1);
      OffsetInside(b, dims, strides, width, k - 1);
      StepApart(a[k], b[k], strides[k - 1]);
    }
  }

  lemma StepApart(a: int, b: int, s: int)
    requires a != b && s >= 0
    ensures a * s + s <= b * s || b * s + s <= a * s
  {
    if a < b {
      NonNegative(b - a - 1, s);
      assert (b - a - 1) * s == b * s - a * s - s;
    } else {
      NonNegative(a - b - 1, s);
      assert (a - b - 1) * s == a * s - b * s - s;
    }
  }

  /** Any two distinct in-range coordinates of a nested map address disjoint byte ranges, for
      every rank. */
  lemma DistinctElementsDisjoint(a: seq<int>, b: seq<int>, dims: seq<int>, strides: seq<int>, width: int)
    requires |dims| >= 1 && |strides| == |dims| - 1 && width > 0
    requires forall i :: 0 <= i < |strides| ==> strides[i] > 0
    requires Nested(dims, strides, width)
    requires InRange(a, dims) && InRange(b, dims) && a != b
    ensures var x, y := Offset(a, strides, width, |dims| - 1), Offset(b, strides, width, |dims| - 1);
            x + width <= y || y + width <= x
  {
    assert a[..|dims|] == a && b[..|dims|] == b;
    OffsetsApart(a, b, dims, strides, width, |dims| - 1);
  }

  /** Every element lies inside the extent of the outermost dimension. */
  lemma ElementsInside(c: seq<int>, dims: seq<int>, strides: seq<int>, width: int)
    requires |dims| >= 1 && |strides| == |dims| - 1 && width > 0
    requires forall i :: 0 <= i < |strides| ==> strides[i] > 0
    requires Nested(dims, strides, width) && InRange(c, dims)
    ensures var x := Offset(c, strides, width, |dims| - 1);
            0 <= x && x + width <= Extent(dims, strides, width, |dims| - 1)
  {
    OffsetInside(c, dims, strides, width, |dims| - 1);
  }

  /** The validator as a whole: an accepted map separates its elements and contains them. */
  lemma AdmittedSeparates(d: Descriptor, a: seq<int>, b: seq<int>)
    requires d.Resolved() && Admitted(d) && InRange(a, d.dims) && InRange(b, d.dims) && a != b
    ensures var w, k := ElementBytes(d.element), |d.dims| - 1;
            var x, y := Offset(a, d.strides, w, k), Offset(b, d.strides, w, k);
            (x + w <= y || y + w <= x) && 0 <= x && x + w <= Extent(d.dims, d.strides, w, k)
  {
    DistinctElementsDisjoint(a, b, d.dims, d.strides, ElementBytes(d.element));
    ElementsInside(a, d.dims, d.strides, ElementBytes(d.element));
  }
}
