/** Sealed allocation shapes and their live evaluation.

    A declared tensor dimension is `ceil(product(factors) / divisor)`.  Every factor is a
    static integer or a projection of a live resource with a sealed upper bound.  Sealing
    bounds the maxima; evaluation re-checks the live values.  The theorem is that, past the
    per-factor bound, none of the live guards can fire. */
module Shapes {
  import opened Outcome
  import opened Arithmetic

  const MAX_FACTOR: int := 0x7FFF_FFFF
  const MAX_FACTOR_PRODUCT: int := 0x7FFF_FFFF_FFFF_FFFF
  const MAX_EXTENT: int := 0x7FFF_FFFF
  const MAX_ELEMENTS: int := 0x10_0000_0000
  const MAX_RESOURCE_BYTES: int := 0x10_0000_0000
  const MAX_ALIGNMENT: int := 0x10_0000
  const MAX_RANK: int := 16
  const MAX_FACTORS: int := 8

  /** How a tensor's elements lie in memory. */
  datatype Layout = Layout(stride: seq<int>, dtype: string, device: string)

  /** A live validator resource.  `id` stands for Python object identity where the data alone
      does not determine it. */
  datatype Value =
    | Tensor(pointer: nat, dims: seq<int>, layout: Layout, id: nat)
    | Scalar(n: int)
    | Group(id: nat, size: int)
    | Stream(id: nat)
    | Token(state: PreparedState)

  /** The owner-bound result of a prepare call. */
  datatype PreparedState = PreparedState(owner: nat, key: Frame, token: nat, id: nat)

  /** A named set of live resources. */
  datatype Frame = Frame(values: map<string, Value>) {
    predicate Has(name: string) {
      name in values
    }

    function Get(name: string): Value
      requires Has(name)
    {
      values[name]
    }

    function With(name: string, v: Value): Frame {
      Frame(values[name := v])
    }

    function Update(other: Frame): Frame {
      Frame(values + other.values)
    }
  }

  const EMPTY_FRAME := Frame(map[])

  datatype Projection = OfValue | OfShape(axis: nat) | OfNumel | OfRank | OfSize

  datatype Factor =
    | Static(n: int)
    | Dynamic(source: string, projection: Projection, upper: int)
  {
    predicate Sealed() {
      match this
      case Static(n) => 1 <= n <= MAX_FACTOR
      case Dynamic(_, _, upper) => 1 <= upper <= MAX_FACTOR
    }

    function Maximum(): int {
      match this
      case Static(n) => n
      case Dynamic(_, _, upper) => upper
    }
  }

  /** Divisors are positive; sealing also bounds them above. */
  type Positive = n: int | n >= 1 witness 1

  datatype Extent = Extent(factors: seq<Factor>, divisor: Positive) {
    predicate Sealed() {
      && 1 <= |factors| <= MAX_FACTORS
      && (forall f :: f in factors ==> f.Sealed())
      && divisor <= MAX_FACTOR
      && (forall k :: 0 <= k <= |factors| ==> MaxProduct(factors[..k]) <= MAX_FACTOR_PRODUCT)
      && 1 <= Maximum() <= MAX_EXTENT
    }

    function Maximum(): int {
      CeilDiv(MaxProduct(factors), divisor)
    }
  }

  /** One declared artifact tensor; `width` is the storage size of its dtype. */
  datatype Resource = Resource(name: string, width: int, alignment: int, shape: seq<Extent>) {
    predicate Sealed() {
      && width in {1, 2, 4, 8}
      && width <= alignment <= MAX_ALIGNMENT
      && PowerOfTwo(alignment)
      && 1 <= |shape| <= MAX_RANK
      && (forall e :: e in shape ==> e.Sealed())
      && MaxElements() <= MAX_ELEMENTS
      && MaxBytes() <= MAX_RESOURCE_BYTES
    }

    function MaxElements(): int {
      Prod(Maxima(shape))
    }

    function MaxBytes(): int {
      MaxElements() * width
    }
  }

  predicate PowerOfTwo(n: int) {
    n == 1 || (n > 1 && n % 2 == 0 && PowerOfTwo(n / 2))
  }

  function CeilDiv(n: int, d: Positive): int {
    (n + d - 1) / d
  }

  function Prod(dims: seq<int>): int {
    if dims == [] then 1 else Prod(dims[..|dims| - 1]) * dims[|dims| - 1]
  }

  function MaxProduct(factors: seq<Factor>): int {
    if factors == [] then 1
    else MaxProduct(factors[..|factors| - 1]) * factors[|factors| - 1].Maximum()
  }

  function Maxima(extents: seq<Extent>): seq<int> {
    if extents == [] then []
    else Maxima(extents[..|extents| - 1]) + [extents[|extents| - 1].Maximum()]
  }

  datatype ShapeError =
    | MissingSource        // the named resource is not in the frame
    | NotProjectable       // the resource cannot yield that projection
    | OutsideBound         // the projected value is outside [0, upper]
    | ProductOverflow      // guard: running product above i64
    | ExtentAboveMaximum   // guard: extent above its sealed maximum
    | ElementsAboveMaximum // guard: element count above its sealed maximum

  function Project(v: Value, p: Projection): Option<int> {
    match p
    case OfValue => if v.Scalar? then Some(v.n) else None
    case OfShape(axis) => if v.Tensor? && axis < |v.dims| then Some(v.dims[axis]) else None
    case OfNumel => if v.Tensor? then Some(Prod(v.dims)) else None
    case OfRank => if v.Tensor? then Some(|v.dims|) else None
    case OfSize => if v.Group? then Some(v.size) else None
  }

  function FactorValue(f: Factor, frame: Frame): Result<int, ShapeError> {
    match f
    case Static(n) => Ok(n)
    case Dynamic(source, projection, upper) =>
      if !frame.Has(source) then Err(MissingSource)
      else match Project(frame.Get(source), projection)
        case None => Err(NotProjectable)
        case Some(v) => if 0 <= v <= upper then Ok(v) else Err(OutsideBound)
  }

  // ---- What evaluation means, without any of the live guards ----

  function LiveProduct(factors: seq<Factor>, frame: Frame): Result<int, ShapeError> {
    if factors == [] then Ok(1) else
    match LiveProduct(factors[..|factors| - 1], frame)
    case Err(e) => Err(e)
    case Ok(p) =>
      match FactorValue(factors[|factors| - 1], frame)
      case Err(e) => Err(e)
      case Ok(v) => Ok(p * v)
  }

  function LiveDims(extents: seq<Extent>, frame: Frame): Result<seq<int>, ShapeError> {
    if extents == [] then Ok([]) else
    match LiveDims(extents[..|extents| - 1], frame)
    case Err(e) => Err(e)
    case Ok(dims) =>
      var last := extents[|extents| - 1];
      match LiveProduct(last.factors, frame)
      case Err(e) => Err(e)
      case Ok(p) => Ok(dims + [CeilDiv(p, last.divisor)])
  }

  // ---- Live values stay under sealed maxima ----

  lemma CeilDivMono(a: int, b: int, d: Positive)
    requires 0 <= a <= b
    ensures 0 <= CeilDiv(a, d) <= CeilDiv(b, d)
  {
    DivMono(a + d - 1, b + d - 1, d);
  }

  lemma DivMono(a: int, b: int, d: int)
    requires 0 <= a <= b && d >= 1
    ensures 0 <= a / d <= b / d
  {
    var x, y := a / d, b / d;
    assert a == d * x + a % d && b == d * y + b % d;
    assert d * x == d * (x - y - 1) + d * y + d;
    if y + 1 <= x {
      MulMono(0, x - y - 1, 0, d);
    }
  }

  lemma {:induction false} LiveProductBounded(factors: seq<Factor>, frame: Frame)
    requires forall f :: f in factors ==> f.Sealed()
    ensures LiveProduct(factors, frame).Ok? ==> 0 <= LiveProduct(factors, frame).value <= MaxProduct(factors)
    ensures LiveProduct(factors, frame).Err? ==>
              LiveProduct(factors, frame).error in {MissingSource, NotProjectable, OutsideBound}
  {
    if factors != [] {
      var front, last := factors[..|factors| - 1], factors[|factors| - 1];
      LiveProductBounded(front, frame);
      assert last.Sealed();
      if LiveProduct(front, frame).Ok? && FactorValue(last, frame).Ok? {
        MulMono(LiveProduct(front, frame).value, MaxProduct(front), FactorValue(last, frame).value, last.Maximum());
      }
    }
  }

  /** Dimension by dimension and in the product, `dims` stays under `maxima`. */
  ghost predicate Within(dims: seq<int>, maxima: seq<int>) {
    && |dims| == |maxima| && 0 <= Prod(dims) <= Prod(maxima)
    && forall i :: 0 <= i < |dims| ==> 0 <= dims[i] <= maxima[i]
  }

  lemma WithinStep(dims: seq<int>, maxima: seq<int>, d: int, m: int)
    requires Within(dims, maxima) && 0 <= d <= m
    ensures Within(dims + [d], maxima + [m])
  {
    MulMono(Prod(dims), Prod(maxima), d, m);
    assert (dims + [d])[..|dims|] == dims;
    assert (maxima + [m])[..|maxima|] == maxima;
  }

  lemma {:induction false} LiveDimsWithin(extents: seq<Extent>, frame: Frame)
    requires forall e :: e in extents ==> e.Sealed()
    ensures LiveDims(extents, frame).Ok? ==> Within(LiveDims(extents, frame).value, Maxima(extents))
    ensures LiveDims(extents, frame).Err? ==>
              LiveDims(extents, frame).error in {MissingSource, NotProjectable, OutsideBound}
  {
    if extents != [] {
      hide LiveProduct, MaxProduct, CeilDiv, FactorValue, Within;
      var front, last := extents[..|extents| - 1], extents[|extents| - 1];
      LiveDimsWithin(front, frame);
      assert last.Sealed();
      LiveProductBounded(last.factors, frame);
      if LiveDims(extents, frame).Ok? {
        var p := LiveProduct(last.factors, frame).value;
        CeilDivMono(p, MaxProduct(last.factors), last.divisor);
        WithinStep(LiveDims(front, frame).value, Maxima(front), CeilDiv(p, last.divisor), last.Maximum());
      }
    }
  }

  lemma {:induction false} MaximaAt(extents: seq<Extent>)
    requires forall e :: e in extents ==> e.Sealed()
    ensures |Maxima(extents)| == |extents|
    ensures forall i :: 0 <= i < |extents| ==> Maxima(extents)[i] == extents[i].Maximum()
  {
    if extents != [] {
      MaximaAt(extents[..|extents| - 1]);
    }
  }

  lemma LiveDimsBounded(extents: seq<Extent>, frame: Frame)
    requires forall e :: e in extents ==> e.Sealed()
    ensures LiveDims(extents, frame).Ok? ==>
              var dims := LiveDims(extents, frame).value;
              && |dims| == |extents| == |Maxima(extents)|
              && (forall i :: 0 <= i < |dims| ==> 0 <= dims[i] <= extents[i].Maximum() == Maxima(extents)[i])
              && 0 <= Prod(dims) <= Prod(Maxima(extents))
    ensures LiveDims(extents, frame).Err? ==>
              LiveDims(extents, frame).error in {MissingSource, NotProjectable, OutsideBound}
  {
    hide LiveDims, Maxima, Prod;
    LiveDimsWithin(extents, frame);
    MaximaAt(extents);
  }

  // ---- What a live shape is, independently of its evaluation ----

  /** `n` is that projection of the resource. */
  ghost predicate Projects(v: Value, p: Projection, n: int) {
    match p
    case OfValue => v == Scalar(n)
    case OfShape(axis) => v.Tensor? && axis < |v.dims| && n == v.dims[axis]
    case OfNumel => v.Tensor? && n == Prod(v.dims)
    case OfRank => v.Tensor? && n == |v.dims|
    case OfSize => v.Group? && n == v.size
  }

  ghost predicate Yields(f: Factor, frame: Frame, n: int) {
    match f
    case Static(m) => m == n
    case Dynamic(source, projection, upper) =>
      source in frame.values && Projects(frame.values[source], projection, n) && 0 <= n <= upper
  }

  ghost predicate AllYield(factors: seq<Factor>, frame: Frame, values: seq<int>) {
    |values| == |factors| && forall k :: 0 <= k < |factors| ==> Yields(factors[k], frame, values[k])
  }

  /** The product of the factors' values, divided and rounded up. */
  ghost predicate ExtentIs(e: Extent, frame: Frame, n: int) {
    exists values :: AllYield(e.factors, frame, values) && n * e.divisor - e.divisor < Prod(values) <= n * e.divisor
  }

  ghost predicate ShapeIs(extents: seq<Extent>, frame: Frame, dims: seq<int>) {
    |dims| == |extents| && forall i :: 0 <= i < |extents| ==> ExtentIs(extents[i], frame, dims[i])
  }

  lemma FactorYields(f: Factor, frame: Frame, n: int)
    ensures FactorValue(f, frame) == Ok(n) <==> Yields(f, frame, n)
  {
  }

  lemma {:induction false} LiveProductIs(factors: seq<Factor>, frame: Frame, values: seq<int>)
    requires AllYield(factors, frame, values)
    ensures LiveProduct(factors, frame) == Ok(Prod(values))
  {
    if factors != [] {
      hide Yields, FactorValue;
      var n := |factors| - 1;
      LiveProductIs(factors[..n], frame, values[..n]);
      FactorYields(factors[n], frame, values[n]);
    }
  }

  lemma {:induction false} LiveProductYields(factors: seq<Factor>, frame: Frame) returns (values: seq<int>)
    requires LiveProduct(factors, frame).Ok?
    ensures AllYield(factors, frame, values)
  {
    values := [];
    if factors != [] {
      hide Yields, FactorValue;
      var n := |factors| - 1;
      values := LiveProductYields(factors[..n], frame);
      var last := FactorValue(factors[n], frame).value;
      FactorYields(factors[n], frame, last);
      values := values + [last];
    }
  }

  lemma CeilDivRounds(p: int, d: Positive, n: int)
    ensures n == CeilDiv(p, d) <==> n * d - d < p <= n * d
  {
    var q := CeilDiv(p, d);
    assert p + d - 1 == d * q + (p + d - 1) % d;
    if n * d - d < p <= n * d {
      DivUnique(p + d - 1, d, n);
    }
  }

  lemma LiveExtentIs(e: Extent, frame: Frame, n: int)
    ensures ExtentIs(e, frame, n) <==>
              LiveProduct(e.factors, frame).Ok? && n == CeilDiv(LiveProduct(e.factors, frame).value, e.divisor)
  {
    hide AllYield, LiveProduct, CeilDiv, Prod;
    if LiveProduct(e.factors, frame).Ok? {
      var values := LiveProductYields(e.factors, frame);
      LiveProductIs(e.factors, frame, values);
      CeilDivRounds(Prod(values), e.divisor, n);
    }
    if values :| AllYield(e.factors, frame, values) &&
                 n * e.divisor - e.divisor < Prod(values) <= n * e.divisor {
      LiveProductIs(e.factors, frame, values);
      CeilDivRounds(Prod(values), e.divisor, n);
    }
  }

  /** Evaluating a shape gives the one shape there is, if there is one. */
  lemma {:induction false} LiveDimsIs(extents: seq<Extent>, frame: Frame, dims: seq<int>)
    ensures LiveDims(extents, frame) == Ok(dims) <==> ShapeIs(extents, frame, dims)
  {
    hide ExtentIs, LiveProduct, CeilDiv;
    if extents != [] {
      var n := |extents| - 1;
      if |dims| == |extents| {
        LiveDimsIs(extents[..n], frame, dims[..n]);
        LiveExtentIs(extents[n], frame, dims[n]);
        assert dims == dims[..n] + [dims[n]];
        if ShapeIs(extents, frame, dims) {
          assert ShapeIs(extents[..n], frame, dims[..n]);
        }
      }
      if LiveDims(extents, frame) == Ok(dims) {
        var front := LiveDims(extents[..n], frame).value;
        LiveDimsIs(extents[..n], frame, front);
        assert dims[..n] == front;
      }
    }
  }

  lemma LiveDimsDecides(extents: seq<Extent>, frame: Frame)
    ensures forall dims :: LiveDims(extents, frame) == Ok(dims) <==> ShapeIs(extents, frame, dims)
  {
    forall dims
      ensures LiveDims(extents, frame) == Ok(dims) <==> ShapeIs(extents, frame, dims)
    {
      LiveDimsIs(extents, frame, dims);
    }
  }

  /** The element count of one dimension is the dimension, and that of a concatenation is the product
      of the counts. */
  lemma {:induction false} ProdSplits(a: seq<int>, b: seq<int>)
    ensures Prod(a + b) == Prod(a) * Prod(b)
    ensures |a| == 1 ==> Prod(a) == a[0]
  {
    if b == [] {
      assert a + b == a;
    } else {
      var n := |b| - 1;
      assert (a + b)[..|a| + n] == a + b[..n];
      ProdSplits(a, b[..n]);
      hide Prod;
      MulAssociates(Prod(a), Prod(b[..n]), b[n]);
    }
  }

  /** The running product of one extent, with the i64 guard of the live evaluator. */
  method EvaluateProduct(extent: Extent, frame: Frame) returns (res: Result<int, ShapeError>)
    requires extent.Sealed()
    ensures res == LiveProduct(extent.factors, frame)
  {
    var product := 1;
    for k := 0 to |extent.factors|
      invariant LiveProduct(extent.factors[..k], frame) == Ok(product)
    {
      assert extent.factors[..k + 1][..k] == extent.factors[..k];
      var factor := FactorValue(extent.factors[k], frame);
      if factor.Err? {
        ErrorPropagates(extent.factors, k + 1, frame);
        return Err(factor.error);
      }
      product := product * factor.value;
      LiveProductBounded(extent.factors[..k + 1], frame);
      assert MaxProduct(extent.factors[..k + 1]) <= MAX_FACTOR_PRODUCT;
      if product > MAX_FACTOR_PRODUCT {
        assert false;
        return Err(ProductOverflow);
      }
    }
    assert extent.factors[..|extent.factors|] == extent.factors;
    return Ok(product);
  }

  /** The live evaluator with every guard it carries.  It equals the guard-free meaning, so the
      i64, extent and element-count guards are dead code for every frame. */
  method EvaluateShape(r: Resource, frame: Frame) returns (res: Result<seq<int>, ShapeError>)
    requires r.Sealed()
    ensures res == LiveDims(r.shape, frame)
    ensures forall dims :: res == Ok(dims) <==> ShapeIs(r.shape, frame, dims)
    ensures res.Err? ==> res.error in {MissingSource, NotProjectable, OutsideBound}
    ensures res.Ok? ==> |res.value| == |r.shape| && 0 <= Prod(res.value) <= r.MaxElements()
    ensures res.Ok? ==> forall i :: 0 <= i < |res.value| ==> 0 <= res.value[i] <= r.shape[i].Maximum()
  {
    LiveDimsBounded(r.shape, frame);
    NoDims(frame);
    LiveDimsDecides(r.shape, frame);
    hide ShapeIs, LiveDims, LiveProduct, MaxProduct, Prod, Maxima, CeilDiv, FactorValue;
    var shape: seq<int> := [];
    for i := 0 to |r.shape|
      invariant LiveDims(r.shape[..i], frame) == Ok(shape)
    {
      var extent := r.shape[i];
      assert extent.Sealed();
      LiveDimsStep(r.shape, i, frame, shape);
      var product := EvaluateProduct(extent, frame);
      if product.Err? {
        DimsErrorPropagates(r.shape, i + 1, frame);
        return Err(product.error);
      }
      LiveProductBounded(extent.factors, frame);
      CeilDivMono(product.value, MaxProduct(extent.factors), extent.divisor);
      var value := CeilDiv(product.value, extent.divisor);
      if !(0 <= value <= extent.Maximum()) {
        assert false;
        return Err(ExtentAboveMaximum);
      }
      shape := shape + [value];
    }
    assert r.shape[..|r.shape|] == r.shape;
    if Prod(shape) > r.MaxElements() {
      assert false;
      return Err(ElementsAboveMaximum);
    }
    return Ok(shape);
  }

  lemma NoDims(frame: Frame)
    ensures LiveDims([], frame) == Ok([])
  {
  }

  /** One more extent, or its error. */
  lemma LiveDimsStep(extents: seq<Extent>, i: nat, frame: Frame, shape: seq<int>)
    requires i < |extents| && LiveDims(extents[..i], frame) == Ok(shape)
    ensures match LiveProduct(extents[i].factors, frame)
            case Ok(p) => LiveDims(extents[..i + 1], frame) == Ok(shape + [CeilDiv(p, extents[i].divisor)])
            case Err(e) => LiveDims(extents[..i + 1], frame) == Err(e)
  {
    hide LiveProduct, CeilDiv;
    assert extents[..i + 1][..i] == extents[..i];
  }

  lemma {:induction false} ErrorPropagates(factors: seq<Factor>, k: nat, frame: Frame)
    requires k <= |factors| && LiveProduct(factors[..k], frame).Err?
    ensures LiveProduct(factors, frame) == LiveProduct(factors[..k], frame)
    decreases |factors| - k
  {
    if k == |factors| {
      assert factors[..k] == factors;
    } else {
      assert factors[..k + 1][..k] == factors[..k];
      ErrorPropagates(factors, k + 1, frame);
    }
  }

  lemma {:induction false} DimsErrorPropagates(extents: seq<Extent>, k: nat, frame: Frame)
    requires k <= |extents| && LiveDims(extents[..k], frame).Err?
    ensures LiveDims(extents, frame) == LiveDims(extents[..k], frame)
    decreases |extents| - k
  {
    if k == |extents| {
      assert extents[..k] == extents;
    } else {
      assert extents[..k + 1][..k] == extents[..k];
      DimsErrorPropagates(extents, k + 1, frame);
    }
  }

  // ---- Bytes: what is charged, what is requested, where the view lands ----

  lemma {:induction false} MaximaPositive(extents: seq<Extent>)
    requires forall e :: e in extents ==> e.Sealed()
    ensures Prod(Maxima(extents)) >= 1
  {
    if extents != [] {
      var front, last := extents[..|extents| - 1], extents[|extents| - 1];
      MaximaPositive(front);
      assert last.Sealed();
      assert Maxima(extents)[..|Maxima(front)|] == Maxima(front);
      MulMono(1, Prod(Maxima(front)), 1, last.Maximum());
    }
  }

  /** Payload bytes, with the element width re-derived from the sealed maxima. */
  function PayloadBytes(r: Resource, dims: seq<int>): int
    requires r.Sealed()
  {
    MaximaPositive(r.shape);
    Prod(dims) * (r.MaxBytes() / r.MaxElements())
  }

  /** The bytes charged to the budget for one allocation. */
  function ReservationBytes(r: Resource, dims: seq<int>): int
    requires r.Sealed()
  {
    PayloadBytes(r, dims) + r.alignment - 1
  }

  /** The backing buffer the provider asks for. */
  function BackingBytes(dims: seq<int>, width: int, alignment: int): int {
    Prod(dims) * width + alignment - 1
  }

  /** The provider's view offset into a backing buffer at `pointer`. */
  function ViewOffset(pointer: int, alignment: int): int
    requires alignment > 0
  {
    (-pointer) % alignment
  }

  /** The charge is exactly the backing buffer, and the aligned view fits inside it. */
  lemma ChargeCoversAlignedView(r: Resource, dims: seq<int>, pointer: int)
    requires r.Sealed() && Prod(dims) >= 0
    ensures ReservationBytes(r, dims) == BackingBytes(dims, r.width, r.alignment)
    ensures var offset := ViewOffset(pointer, r.alignment);
            && 0 <= offset
            && (pointer + offset) % r.alignment == 0
            && offset + Prod(dims) * r.width <= ReservationBytes(r, dims)
    ensures ReservationBytes(r, dims) >= 0
  {
    PayloadIsWidth(r, dims);
    assert r.alignment >= 1 && r.width >= 1;
    hide Resource.Sealed, PayloadBytes, ViewOffset, Prod;
    AlignedOffset(pointer, r.alignment);
    MulMono(0, Prod(dims), 0, r.width);
  }

  lemma PayloadIsWidth(r: Resource, dims: seq<int>)
    requires r.Sealed()
    ensures PayloadBytes(r, dims) == Prod(dims) * r.width
  {
    MaximaPositive(r.shape);
    MulDivCancel(r.MaxElements(), r.width);
  }

  lemma AlignedOffset(pointer: int, a: int)
    requires a >= 1
    ensures 0 <= ViewOffset(pointer, a) < a && (pointer + ViewOffset(pointer, a)) % a == 0
  {
    var q := (-pointer) / a;
    assert -pointer == q * a + ViewOffset(pointer, a);
    assert pointer + ViewOffset(pointer, a) == (-q) * a;
    MulModZero(-q, a);
  }

  lemma MulDivCancel(m: int, w: int)
    requires m >= 1
    ensures (m * w) / m == w
  {
    var q, rem := (m * w) / m, (m * w) % m;
    assert m * w == m * q + rem;
    assert m * (w - q) == rem;
    if w - q >= 1 { MulMono(1, w - q, m, m); } else if w - q <= -1 { MulMono(1, q - w, m, m); }
  }

  lemma MulModZero(q: int, a: int)
    requires a >= 1
    ensures (q * a) % a == 0
  {
    MulDivCancel(a, q);
    assert a * q == q * a;
  }
}
