/** From a sealed parameter plan and live bindings to one kernel parameter. */
module Parameters {
  import opened Outcome
  import opened Bytes
  import opened ByteLayout
  import opened Permutation
  import opened Expression
  import FastDivmod
  import TensorMap

  const MAX_PARAMETER_BYTES: int := 4096
  const MAX_FIELDS: int := 64

  datatype IntWidth = W8 | W16 | W32 | W64
  datatype FloatWidth = F16 | F32 | F64

  datatype ScalarType = TBool | TInt(width: IntWidth, signed: bool) | TFloat(precision: FloatWidth) {
    function Width(): (n: nat)
      ensures n in {1, 2, 4, 8}
    {
      match this
      case TBool => 1
      case TInt(w, _) => (match w case W8 => 1 case W16 => 2 case W32 => 4 case W64 => 8)
      case TFloat(w) => (match w case F16 => 2 case F32 => 4 case F64 => 8)
    }
  }

  datatype Content =
    | ScalarField(ty: ScalarType, expr: Expr)
    | Literal(bytes: seq<Byte>)
    | TensorPointer(binding: nat)

  datatype Field = Field(offset: nat, content: Content) {
    function Size(): nat {
      match content
      case ScalarField(ty, _) => ty.Width()
      case Literal(bytes) => |bytes|
      case TensorPointer(_) => 8
    }

    predicate Sealed(fl: FloatOps) {
      && offset < MAX_PARAMETER_BYTES
      && (match content
          case ScalarField(_, expr) => expr.Sealed(fl)
          case Literal(bytes) => 1 <= |bytes| <= MAX_PARAMETER_BYTES
          case TensorPointer(binding) => binding < MAX_BINDINGS)
    }

    predicate Covers(j: int) {
      offset <= j < offset + Size()
    }

    predicate Overlaps(other: Field) {
      offset < other.offset + other.Size() && other.offset < offset + Size()
    }
  }

  datatype TmaPlan = TmaPlan(
    binding: nat, element: TensorMap.Element,
    dims: seq<Expr>, strides: seq<Expr>, box: seq<Expr>, elementStrides: seq<Expr>,
    interleave: TensorMap.Interleave, swizzle: TensorMap.Swizzle, promotion: TensorMap.Promotion,
    oob: TensorMap.OobFill)
  {
    predicate Sealed(fl: FloatOps) {
      && binding < MAX_BINDINGS
      && 1 <= |dims| <= 5 && |strides| == |dims| - 1 && |box| == |elementStrides| == |dims|
      && forall e :: e in dims + strides + box + elementStrides ==> e.Sealed(fl)
    }
  }

  datatype Primitive =
    | ScalarParam(ty: ScalarType, expr: Expr)
    | PointerParam(binding: nat)
    | PackedParam(fields: seq<Field>)
    | TmaParam(tma: TmaPlan)
    | CutlassParam(expr: Expr)
    | CuteParam(expr: Expr)
    | GroupParam(binding: nat, native: bool)

  datatype ParameterPlan = ParameterPlan(size: nat, primitive: Primitive) {
    /** What plan construction enforces. */
    predicate Sealed(fl: FloatOps) {
      && 1 <= size <= MAX_PARAMETER_BYTES
      && match primitive
         case ScalarParam(ty, expr) => expr.Sealed(fl) && size == ty.Width()
         case PointerParam(binding) => binding < MAX_BINDINGS && size == 8
         case PackedParam(fields) =>
           && 1 <= |fields| <= MAX_FIELDS
           && (forall f :: f in fields ==> f.Sealed(fl))
           && LiteralBytes(fields) <= MAX_PARAMETER_BYTES
           && LaidOut(fields, size)
         case TmaParam(tma) => tma.Sealed(fl) && size == 128
         case CutlassParam(expr) => expr.Sealed(fl) && size == 12
         case CuteParam(expr) => expr.Sealed(fl) && size == 12
         case GroupParam(binding, _) => binding < MAX_BINDINGS && size == 8
    }
  }

  function LiteralBytes(fields: seq<Field>): nat {
    if fields == [] then 0
    else LiteralBytes(fields[1..]) + if fields[0].content.Literal? then fields[0].Size() else 0
  }

  /** Every field inside the struct, no two on the same byte. */
  predicate LaidOut(fields: seq<Field>, size: nat) {
    && (forall f :: f in fields ==> f.offset + f.Size() <= size)
    && forall i, k :: 0 <= i < k < |fields| ==> !fields[i].Overlaps(fields[k])
  }

  function Span(f: Field): set<int> {
    set j: int | f.offset <= j < f.offset + f.Size() && f.Covers(j)
  }

  /** The admission loop: it keeps the set of occupied bytes. */
  method CheckLayout(fields: seq<Field>, size: nat) returns (ok: bool)
    requires forall f :: f in fields ==> f.Size() > 0
    ensures ok <==> LaidOut(fields, size)
  {
    var occupied: set<int> := {};
    for i := 0 to |fields|
      invariant forall j :: j in occupied <==> exists k :: 0 <= k < i && j in Span(fields[k])
      invariant forall k :: 0 <= k < i ==> fields[k].offset + fields[k].Size() <= size
      invariant forall a, b :: 0 <= a < b < i ==> !fields[a].Overlaps(fields[b])
    {
      var f := fields[i];
      assert f in fields;
      if f.offset + f.Size() > size {
        return false;
      }
      var span := Span(f);
      if occupied * span != {} {
        var j :| j in occupied * span;
        var k :| 0 <= k < i && j in Span(fields[k]);
        assert fields[k].Overlaps(f);
        return false;
      }
      forall a | 0 <= a < i
        ensures !fields[a].Overlaps(f)
      {
        var g := fields[a];
        assert g in fields;
        var j := if g.offset <= f.offset then f.offset else g.offset;
        assert g.Overlaps(f) ==> j in Span(g) && j in span;
        assert j in Span(g) ==> j in occupied;
        assert j !in occupied * span;
      }
      occupied := occupied + span;
    }
    return true;
  }

  /** Validator-owned live authority: float arithmetic, the tensor-map encoder and the group
      handle resolvers.  The last two may fail or answer anything. */
  datatype Registry = Registry(
    fl: FloatOps,
    encode: TensorMap.Descriptor -> Option<seq<Byte>>,
    group: (Live, bool) -> Option<int>)

  datatype MaterialError =
    | Evaluation(eval: EvalError) | ScalarOutside | PointerOutside | DivisorOutside | NotPositive
    | MapRejected | MapMalformed | GroupUnavailable

  datatype Materialized = Value(ty: ScalarType, v: Scalar) | Pointer(address: int) | Opaque(raw: seq<Byte>)

  const UINT64_LIMIT: int := 0x1_0000_0000_0000_0000

  /** Little-endian image of a scalar, if the value has exactly that type and range. */
  function PackScalar(ty: ScalarType, v: Scalar, fl: FloatOps): (r: Option<seq<Byte>>)
    ensures r.Some? ==> |r.value| == ty.Width()
  {
    match ty
    case TBool => if v.B? then Some([if v.b then 1 else 0]) else None
    case TInt(_, signed) =>
      var half := Pow2(8 * ty.Width() - 1);
      if !v.I? then None
      else if signed then
        if 0 - half <= v.i < half then Some(SignedImage(v.i, ty.Width())) else None
      else if 0 <= v.i < Pow2(8 * ty.Width()) then Some(LittleEndian(v.i, ty.Width())) else None
    case TFloat(_) =>
      if v.F? && fl.finite(v.bits) && fl.fits(v.bits, ty.Width())
      then Some(seq(ty.Width(), i requires 0 <= i < ty.Width() => fl.byteAt(v.bits, ty.Width(), i)))
      else None
  }

  /** Integers read back exactly. */
  lemma PackedIntegerReadsBack(w: IntWidth, signed: bool, i: int, fl: FloatOps)
    ensures var raw := PackScalar(TInt(w, signed), I(i), fl);
            raw.Some? ==> i == if signed then FromSigned(raw.value) else FromLittleEndian(raw.value)
  {
    var ty := TInt(w, signed);
    var raw := PackScalar(ty, I(i), fl);
    if raw.Some? {
      if signed { SignedRoundTrip(i, ty.Width()); } else { LittleEndianRoundTrip(i, ty.Width()); }
    }
  }

  /** The bytes a materialized parameter contributes to the launch buffer. */
  function PackMaterialized(m: Materialized, fl: FloatOps): Option<seq<Byte>> {
    match m
    case Value(ty, v) => PackScalar(ty, v, fl)
    case Pointer(address) => if 0 <= address < UINT64_LIMIT then Some(LittleEndian(address, 8)) else None
    case Opaque(raw) => Some(raw)
  }

  function Eval(e: Expr, frame: seq<Live>, fl: FloatOps): (r: Result<Scalar, MaterialError>)
    requires e.Sealed(fl)
    ensures r.Ok? ==> InPolicy(r.value, fl)
  {
    match Evaluate(e, frame, fl)
    case Err(err) => Err(Evaluation(err))
    case Ok(v) => Ok(v)
  }

  // ---- Packed structs ----

  function RawField(f: Field, frame: seq<Live>, fl: FloatOps): (r: Result<seq<Byte>, MaterialError>)
    requires f.Sealed(fl)
    ensures r.Ok? ==> |r.value| == f.Size()
  {
    match f.content
    case Literal(bytes) => Ok(bytes)
    case TensorPointer(binding) =>
      (match ReadTensor(binding, frame)
       case Err(e) => Err(Evaluation(e))
       case Ok(facts) =>
         if facts.address < UINT64_LIMIT then Ok(LittleEndian(facts.address, 8)) else Err(PointerOutside))
    case ScalarField(ty, expr) =>
      match Eval(expr, frame, fl)
      case Err(e) => Err(e)
      case Ok(v) =>
        match PackScalar(ty, v, fl)
        case None => Err(ScalarOutside)
        case Some(raw) => Ok(raw)
  }

  predicate AllSealed(fields: seq<Field>, fl: FloatOps) {
    forall i :: 0 <= i < |fields| ==> fields[i].Sealed(fl)
  }

  /** The segments of the fields, in order, up to the first that cannot be resolved. */
  function Segments(fields: seq<Field>, frame: seq<Live>, fl: FloatOps): (r: Result<seq<Segment>, MaterialError>)
    requires AllSealed(fields, fl)
    ensures r.Ok? ==> |r.value| == |fields|
  {
    if fields == [] then Ok([]) else
    var n := |fields| - 1;
    match Segments(fields[..n], frame, fl)
    case Err(e) => Err(e)
    case Ok(segments) =>
      match RawField(fields[n], frame, fl)
      case Err(e) => Err(e)
      case Ok(raw) => Ok(segments + [Segment(fields[n].offset, raw)])
  }

  lemma {:induction false} SegmentsFacts(fields: seq<Field>, frame: seq<Live>, fl: FloatOps)
    requires AllSealed(fields, fl)
    ensures var r := Segments(fields, frame, fl);
            r.Ok? ==> forall i :: 0 <= i < |fields| ==>
              RawField(fields[i], frame, fl) == Ok(r.value[i].raw) && r.value[i].offset == fields[i].offset
    ensures var r := Segments(fields, frame, fl);
            r.Err? ==> exists i :: 0 <= i < |fields| && RawField(fields[i], frame, fl) == Err(r.error)
    decreases |fields|
  {
    hide RawField;
    if fields != [] {
      var n := |fields| - 1;
      SegmentsFacts(fields[..n], frame, fl);
      var r := Segments(fields, frame, fl);
      if r.Err? && Segments(fields[..n], frame, fl).Err? {
        var i :| 0 <= i < n && RawField(fields[..n][i], frame, fl) == Err(r.error);
        assert RawField(fields[i], frame, fl) == Err(r.error);
      }
    }
  }

  lemma SegmentsLaidOut(fields: seq<Field>, size: nat, frame: seq<Live>, fl: FloatOps)
    requires AllSealed(fields, fl) && LaidOut(fields, size) && Segments(fields, frame, fl).Ok?
    ensures Fits(Segments(fields, frame, fl).value, size) && Disjoint(Segments(fields, frame, fl).value)
  {
    hide Segments, RawField;
    SegmentsFacts(fields, frame, fl);
    var segments := Segments(fields, frame, fl).value;
    forall i | 0 <= i < |segments|
      ensures segments[i].End() <= size
    {
      assert fields[i] in fields;
    }
    forall i, k | 0 <= i < k < |segments|
      ensures Apart(segments[i], segments[k])
    {
      assert !fields[i].Overlaps(fields[k]);
    }
  }

  /** The struct image: a zeroed buffer with every field written at its offset. */
  function StructImage(fields: seq<Field>, size: nat, frame: seq<Live>, fl: FloatOps): (r: Result<seq<Byte>,
                       MaterialError>)
    requires AllSealed(fields, fl) && LaidOut(fields, size)
    ensures r.Ok? ==> |r.value| == size
  {
    match Segments(fields, frame, fl)
    case Err(e) => Err(e)
    case Ok(segments) => SegmentsLaidOut(fields, size, frame, fl); Ok(WriteAll(segments, size))
  }

  /** The loop over the bytearray. */
  method PackStruct(fields: seq<Field>, size: nat, frame: seq<Live>, fl: FloatOps)
    returns (r: Result<seq<Byte>, MaterialError>)
    requires AllSealed(fields, fl) && LaidOut(fields, size)
    ensures r == StructImage(fields, size, frame, fl)
  {
    hide RawField;
    var packed := new Byte[size](_ => 0);
    ghost var segments: seq<Segment> := [];
    assert packed[..] == Zeros(size);
    for i := 0 to |fields|
      invariant Segments(fields[..i], frame, fl) == Ok(segments)
      invariant Fits(segments, size) && packed[..] == WriteAll(segments, size)
    {
      assert fields[..i + 1][..i] == fields[..i];
      var raw := RawField(fields[i], frame, fl);
      if raw.Err? {
        SegmentsError(fields, i + 1, frame, fl);
        return Err(raw.error);
      }
      var segment := Segment(fields[i].offset, raw.value);
      assert fields[i] in fields;
      ghost var next := segments + [segment];
      assert next[..|next| - 1] == segments;
      WriteInPlace(packed, segment);
      segments := next;
    }
    assert fields[..|fields|] == fields;
    return Ok(packed[..]);
  }

  lemma {:induction false} SegmentsError(fields: seq<Field>, k: nat, frame: seq<Live>, fl: FloatOps)
    requires AllSealed(fields, fl) && k <= |fields| && Segments(fields[..k], frame, fl).Err?
    ensures Segments(fields, frame, fl) == Segments(fields[..k], frame, fl)
    decreases |fields| - k
  {
    hide RawField;
    if k == |fields| {
      assert fields[..k] == fields;
    } else {
      assert fields[..k + 1][..k] == fields[..k];
      SegmentsError(fields, k + 1, frame, fl);
    }
  }

  /** Every field's bytes read back at its offset. */
  lemma StructReadsBack(fields: seq<Field>, size: nat, frame: seq<Live>, fl: FloatOps, i: nat)
    requires AllSealed(fields, fl) && LaidOut(fields, size) && i < |fields|
    requires StructImage(fields, size, frame, fl).Ok?
    ensures fields[i].offset + fields[i].Size() <= size
    ensures Ok(StructImage(fields, size, frame, fl).value[fields[i].offset..fields[i].offset + fields[i].Size()])
            == RawField(fields[i], frame, fl)
  {
    hide RawField, Segments;
    assert fields[i] in fields;
    SegmentsFacts(fields, frame, fl);
    SegmentsLaidOut(fields, size, frame, fl);
    ReadBack(Segments(fields, frame, fl).value, size, i);
  }

  /** Bytes between the fields are zero. */
  lemma StructGapsZero(fields: seq<Field>, size: nat, frame: seq<Live>, fl: FloatOps, j: nat)
    requires AllSealed(fields, fl) && LaidOut(fields, size) && j < size
    requires StructImage(fields, size, frame, fl).Ok?
    requires forall f :: f in fields ==> j !in Span(f)
    ensures StructImage(fields, size, frame, fl).value[j] == 0
  {
    hide RawField, Segments;
    SegmentsFacts(fields, frame, fl);
    SegmentsLaidOut(fields, size, frame, fl);
    var segments := Segments(fields, frame, fl).value;
    forall s | s in segments
      ensures !s.Covers(j)
    {
      var i :| 0 <= i < |segments| && segments[i] == s;
      assert fields[i] in fields && j !in Span(fields[i]);
    }
    GapsAreZero(segments, size, j);
  }

  /** Reordering the fields changes neither success nor the bytes. */
  lemma StructOrderIndependent(a: seq<Field>, b: seq<Field>, size: nat, frame: seq<Live>, fl: FloatOps)
    requires AllSealed(a, fl) && LaidOut(a, size) && AllSealed(b, fl) && LaidOut(b, size)
    requires multiset(a) == multiset(b)
    ensures StructImage(a, size, frame, fl).Ok? <==> StructImage(b, size, frame, fl).Ok?
    ensures StructImage(a, size, frame, fl).Ok? ==> StructImage(a, size, frame, fl) == StructImage(b, size, frame, fl)
  {
    hide RawField, Segments, WriteAll, LaidOut;
    SameMembers(a, b);
    SegmentsFacts(a, frame, fl);
    SegmentsFacts(b, frame, fl);
    assert forall i :: 0 <= i < |a| ==> a[i] in b;
    assert forall i :: 0 <= i < |b| ==> b[i] in a;
    if StructImage(a, size, frame, fl).Ok? && StructImage(b, size, frame, fl).Ok? {
      var s, t := Segments(a, frame, fl).value, Segments(b, frame, fl).value;
      SegmentsLaidOut(a, size, frame, fl);
      SegmentsLaidOut(b, size, frame, fl);
      SameSegments(a, b, s, t, frame, fl);
      forall j | 0 <= j < size
        ensures WriteAll(s, size)[j] == WriteAll(t, size)[j]
      {
        SameByte(s, t, size, j);
      }
      assert WriteAll(s, size) == WriteAll(t, size);
    }
  }

  lemma SameSegments(a: seq<Field>, b: seq<Field>, s: seq<Segment>, t: seq<Segment>, frame: seq<Live>, fl: FloatOps)
    requires AllSealed(a, fl) && AllSealed(b, fl) && (forall f :: f in a <==> f in b)
    requires Segments(a, frame, fl) == Ok(s) && Segments(b, frame, fl) == Ok(t)
    ensures forall x :: x in s <==> x in t
  {
    hide RawField, Segments;
    SegmentsFacts(a, frame, fl);
    SegmentsFacts(b, frame, fl);
    forall x | x in s
      ensures x in t
    {
      var i :| 0 <= i < |s| && s[i] == x;
      assert a[i] in b;
      var k :| 0 <= k < |b| && b[k] == a[i];
      assert t[k] == x;
    }
    forall x | x in t
      ensures x in s
    {
      var i :| 0 <= i < |t| && t[i] == x;
      assert b[i] in a;
      var k :| 0 <= k < |a| && a[k] == b[i];
      assert s[k] == x;
    }
  }

  // ---- Tensor maps ----

  /** All rows evaluated to integers, then all required positive. */
  function Integers(rows: seq<Expr>, frame: seq<Live>, fl: FloatOps): (r: Result<seq<int>, MaterialError>)
    requires forall e :: e in rows ==> e.Sealed(fl)
    ensures r.Ok? ==> |r.value| == |rows|
  {
    if rows == [] then Ok([]) else
    match Integers(rows[..|rows| - 1], frame, fl)
    case Err(e) => Err(e)
    case Ok(values) =>
      assert rows[|rows| - 1] in rows;
      match Eval(rows[|rows| - 1], frame, fl)
      case Err(e) => Err(e)
      case Ok(v) => if v.I? then Ok(values + [v.i]) else Err(ScalarOutside)
  }

  function Positives(rows: seq<Expr>, frame: seq<Live>, fl: FloatOps): (r: Result<seq<int>, MaterialError>)
    requires forall e :: e in rows ==> e.Sealed(fl)
    ensures r.Ok? ==> |r.value| == |rows| && forall i :: 0 <= i < |r.value| ==> r.value[i] > 0
  {
    match Integers(rows, frame, fl)
    case Err(e) => Err(e)
    case Ok(values) => if exists i :: 0 <= i < |values| && values[i] <= 0 then Err(NotPositive) else Ok(values)
  }

  function ResolveMap(tma: TmaPlan, frame: seq<Live>, fl: FloatOps): (r: Result<TensorMap.Descriptor, MaterialError>)
    requires tma.Sealed(fl)
    ensures r.Ok? ==> r.value.Resolved()
  {
    match ReadTensor(tma.binding, frame)
    case Err(e) => Err(Evaluation(e))
    case Ok(facts) =>
      match (Positives(tma.dims, frame, fl), Positives(tma.strides, frame, fl),
             Positives(tma.box, frame, fl), Positives(tma.elementStrides, frame, fl))
      case (Ok(dims), Ok(strides), Ok(box), Ok(elementStrides)) =>
        Ok(TensorMap.Descriptor(facts.address, tma.element, dims, strides, box, elementStrides,
                                tma.interleave, tma.swizzle, tma.promotion, tma.oob))
      case (Err(e), _, _, _) => Err(e)
      case (_, Err(e), _, _) => Err(e)
      case (_, _, Err(e), _) => Err(e)
      case (_, _, _, Err(e)) => Err(e)
  }

  // ---- One parameter ----

  function Divisor(v: Scalar): Option<FastDivmod.Divisor> {
    if v.I? && 1 <= v.i < 0x8000_0000 then Some(v.i) else None
  }

  function Materialize(plan: ParameterPlan, frame: seq<Live>, reg: Registry): Result<Materialized, MaterialError>
    requires plan.Sealed(reg.fl)
  {
    match plan.primitive
    case ScalarParam(ty, expr) =>
      (match Eval(expr, frame, reg.fl)
       case Err(e) => Err(e)
       case Ok(v) => if PackScalar(ty, v, reg.fl).Some? then Ok(Value(ty, v)) else Err(ScalarOutside))
    case PointerParam(binding) =>
      (match ReadBinding(binding, frame)
       case Err(e) => Err(Evaluation(e))
       case Ok(live) =>
         var address := if live.LiveScalar? && live.v.I? then Some(live.v.i)
                        else if live.LiveTensor? then Some(live.facts.address) else None;
         if address.None? then Err(Evaluation(NotTensor))
         else if 0 <= address.value < UINT64_LIMIT then Ok(Pointer(address.value)) else Err(PointerOutside))
    case PackedParam(fields) =>
      (match StructImage(fields, plan.size, frame, reg.fl)
       case Err(e) => Err(e)
       case Ok(raw) => Ok(Opaque(raw)))
    case CutlassParam(expr) =>
      (match Eval(expr, frame, reg.fl)
       case Err(e) => Err(e)
       case Ok(v) =>
         if Divisor(v).Some? then Ok(Opaque(FastDivmod.CutlassBytes(Divisor(v).value))) else Err(DivisorOutside))
    case CuteParam(expr) =>
      (match Eval(expr, frame, reg.fl)
       case Err(e) => Err(e)
       case Ok(v) =>
         if Divisor(v).Some? then Ok(Opaque(FastDivmod.CuteBytes(Divisor(v).value))) else Err(DivisorOutside))
    case GroupParam(binding, native) =>
      (match ReadBinding(binding, frame)
       case Err(e) => Err(Evaluation(e))
       case Ok(live) =>
         match reg.group(live, native)
         case None => Err(GroupUnavailable)
         case Some(address) => if 0 <= address < UINT64_LIMIT then Ok(Pointer(address)) else Err(PointerOutside))
    case TmaParam(tma) =>
      match ResolveMap(tma, frame, reg.fl)
      case Err(e) => Err(e)
      case Ok(d) =>
        if !TensorMap.Admitted(d) then Err(MapRejected)
        else match reg.encode(d)
          case None => Err(MapMalformed)
          case Some(raw) => if |raw| == 128 then Ok(Opaque(raw)) else Err(MapMalformed)
  }

  /** Whatever the live frame and the registry answer, a materialized parameter packs to exactly
      its declared width. */
  lemma MaterializedWidth(plan: ParameterPlan, frame: seq<Live>, reg: Registry)
    requires plan.Sealed(reg.fl) && Materialize(plan, frame, reg).Ok?
    ensures PackMaterialized(Materialize(plan, frame, reg).value, reg.fl).Some?
    ensures |PackMaterialized(Materialize(plan, frame, reg).value, reg.fl).value| == plan.size
  {
    hide Segments, RawField, Evaluate, TensorMap.Admitted;
  }

  /** The bytes of an integer parameter read back as the value its expression denotes. */
  lemma ScalarParameterReadsBack(plan: ParameterPlan, frame: seq<Live>, reg: Registry)
    requires plan.Sealed(reg.fl) && plan.primitive.ScalarParam? && plan.primitive.ty.TInt? &&
             Materialize(plan, frame, reg).Ok?
    ensures var raw := PackMaterialized(Materialize(plan, frame, reg).value, reg.fl);
            raw.Some? &&
            Evaluate(plan.primitive.expr, frame, reg.fl) ==
              Ok(I(if plan.primitive.ty.signed then FromSigned(raw.value) else FromLittleEndian(raw.value)))
  {
    hide Evaluate;
    var ty := plan.primitive.ty;
    var v := Evaluate(plan.primitive.expr, frame, reg.fl).value;
    PackedIntegerReadsBack(ty.width, ty.signed, v.i, reg.fl);
  }

  /** The bytes of a pointer parameter read back as the live address. */
  lemma PointerParameterReadsBack(plan: ParameterPlan, frame: seq<Live>, reg: Registry)
    requires plan.Sealed(reg.fl) && plan.primitive.PointerParam? && Materialize(plan, frame, reg).Ok?
    ensures var raw := PackMaterialized(Materialize(plan, frame, reg).value, reg.fl);
            && raw.Some? && plan.primitive.binding < |frame|
            && var live := frame[plan.primitive.binding];
               (live.LiveTensor? ==> FromLittleEndian(raw.value) == live.facts.address) &&
               (live.LiveScalar? && live.v.I? ==> FromLittleEndian(raw.value) == live.v.i)
  {
    hide LittleEndian, FromLittleEndian, Pow2, StructImage, ResolveMap, PackScalar, Evaluate, TensorMap.Admitted;
    Pow2Facts();
    LittleEndianRoundTrip(Materialize(plan, frame, reg).value.address, 8);
  }

  /** End to end: the bytes of a CuTe divisor parameter divide by the value the expression
      denotes, for every 32-bit dividend. */
  lemma CuteParameterDivides(plan: ParameterPlan, frame: seq<Live>, reg: Registry, n: int)
    requires plan.Sealed(reg.fl) && plan.primitive.CuteParam? && Materialize(plan, frame, reg).Ok?
    requires 0 <= n < FastDivmod.TWO32
    ensures var d := Evaluate(plan.primitive.expr, frame, reg.fl);
            var m := Materialize(plan, frame, reg).value;
            && d.Ok? && d.value.I? && d.value.i >= 1
            && m.Opaque? && |m.raw| == 12
            && var fields := FastDivmod.CuteDecode(m.raw);
               fields.shift1 >= 0 && fields.shift2 >= 0 && FastDivmod.CuteQuotient(fields, n) == n / d.value.i
  {
    hide Evaluate, Segments, RawField;
    var d := Divisor(Evaluate(plan.primitive.expr, frame, reg.fl).value).value;
    FastDivmod.CuteBytesDivide(d, n);
  }

  /** The CUTLASS form, for divisors from 2 and 31-bit dividends. */
  lemma CutlassParameterDivides(plan: ParameterPlan, frame: seq<Live>, reg: Registry, n: int)
    requires plan.Sealed(reg.fl) && plan.primitive.CutlassParam? && Materialize(plan, frame, reg).Ok?
    requires 0 <= n < FastDivmod.TWO31
    ensures var d := Evaluate(plan.primitive.expr, frame, reg.fl);
            var m := Materialize(plan, frame, reg).value;
            && d.Ok? && d.value.I? && d.value.i >= 1
            && m.Opaque? && |m.raw| == 12
            && (d.value.i >= 2 ==>
                  var fields := FastDivmod.CutlassDecode(m.raw);
                  fields.shiftRight >= 0 && FastDivmod.CutlassQuotient(fields, n) == n / d.value.i)
  {
    hide Evaluate, Segments, RawField;
    var d := Divisor(Evaluate(plan.primitive.expr, frame, reg.fl).value).value;
    if d >= 2 {
      FastDivmod.CutlassBytesDivide(d, n);
    }
  }

  /** A tensor map that was materialized separates its elements. */
  lemma MapParameterSeparates(plan: ParameterPlan, frame: seq<Live>, reg: Registry, a: seq<int>, b: seq<int>)
    requires plan.Sealed(reg.fl) && plan.primitive.TmaParam? && Materialize(plan, frame, reg).Ok?
    ensures ResolveMap(plan.primitive.tma, frame, reg.fl).Ok?
    ensures var d := ResolveMap(plan.primitive.tma, frame, reg.fl).value;
            |d.dims| >= 1 && |d.strides| == |d.dims| - 1 &&
            (TensorMap.InRange(a, d.dims) && TensorMap.InRange(b, d.dims) && a != b ==>
               var w, k := TensorMap.ElementBytes(d.element), |d.dims| - 1;
               var x, y := TensorMap.Offset(a, d.strides, w, k), TensorMap.Offset(b, d.strides, w, k);
               x + w <= y || y + w <= x)
  {
    hide Evaluate, Segments, RawField, Integers;
    var d := ResolveMap(plan.primitive.tma, frame, reg.fl).value;
    if TensorMap.InRange(a, d.dims) && TensorMap.InRange(b, d.dims) && a != b {
      TensorMap.AdmittedSeparates(d, a, b);
    }
  }

  // ---- Static binding validation ----

  predicate RowsValid(rows: seq<Expr>, kinds: seq<Kind>) {
    forall e :: e in rows ==> ReferencesValid(e.nodes, kinds)
  }

  predicate TensorAt(binding: nat, kinds: seq<Kind>) {
    binding < |kinds| && kinds[binding] == KTensor
  }

  predicate FieldBindingsValid(f: Field, kinds: seq<Kind>) {
    match f.content
    case ScalarField(_, expr) => ReferencesValid(expr.nodes, kinds)
    case TensorPointer(binding) => TensorAt(binding, kinds)
    case Literal(_) => true
  }

  /** Every reference of a parameter names an existing binding of an allowed kind. */
  predicate BindingsValid(plan: ParameterPlan, kinds: seq<Kind>) {
    match plan.primitive
    case ScalarParam(_, expr) => ReferencesValid(expr.nodes, kinds)
    case PointerParam(binding) => binding < |kinds| && kinds[binding] in {KTensor, KPointer, KOpaque}
    case PackedParam(fields) => forall f :: f in fields ==> FieldBindingsValid(f, kinds)
    case TmaParam(tma) =>
      TensorAt(tma.binding, kinds) && RowsValid(tma.dims + tma.strides + tma.box + tma.elementStrides, kinds)
    case CutlassParam(expr) => ReferencesValid(expr.nodes, kinds)
    case CuteParam(expr) => ReferencesValid(expr.nodes, kinds)
    case GroupParam(binding, _) => binding < |kinds| && kinds[binding] == KGroup
  }

  /** A reference that names nothing, or a tensor reference to something else. */
  predicate Lost(e: MaterialError) {
    e.Evaluation? && Dangling(e.eval)
  }

  lemma EvalNotLost(e: Expr, frame: seq<Live>, kinds: seq<Kind>, fl: FloatOps)
    requires e.Sealed(fl) && ReferencesValid(e.nodes, kinds) && Conforms(frame, kinds)
    ensures Eval(e, frame, fl).Err? ==> !Lost(Eval(e, frame, fl).error)
  {
    NoDanglingReference(e, frame, kinds, fl);
  }

  lemma {:induction false} IntegersNotLost(rows: seq<Expr>, frame: seq<Live>, kinds: seq<Kind>, fl: FloatOps)
    requires (forall e :: e in rows ==> e.Sealed(fl)) && RowsValid(rows, kinds) && Conforms(frame, kinds)
    ensures Integers(rows, frame, fl).Err? ==> !Lost(Integers(rows, frame, fl).error)
  {
    hide Lost, Conforms, ReferencesValid, Eval, Expr.Sealed;
    if rows != [] {
      var last := rows[|rows| - 1];
      assert last in rows;
      IntegersNotLost(rows[..|rows| - 1], frame, kinds, fl);
      EvalNotLost(last, frame, kinds, fl);
      NotLost(ScalarOutside);
    }
  }

  lemma NotLost(e: MaterialError)
    ensures !e.Evaluation? ==> !Lost(e)
  {
  }

  lemma MapNotLost(tma: TmaPlan, frame: seq<Live>, kinds: seq<Kind>, fl: FloatOps)
    requires tma.Sealed(fl) && Conforms(frame, kinds) && TensorAt(tma.binding, kinds)
    requires RowsValid(tma.dims + tma.strides + tma.box + tma.elementStrides, kinds)
    ensures ResolveMap(tma, frame, fl).Err? ==> !Lost(ResolveMap(tma, frame, fl).error)
  {
    hide Lost, ReferencesValid, Integers, Expr.Sealed;
    NotLost(NotPositive);
    var all := tma.dims + tma.strides + tma.box + tma.elementStrides;
    assert forall e :: e in tma.dims || e in tma.strides || e in tma.box || e in tma.elementStrides ==> e in all;
    IntegersNotLost(tma.dims, frame, kinds, fl);
    IntegersNotLost(tma.strides, frame, kinds, fl);
    IntegersNotLost(tma.box, frame, kinds, fl);
    IntegersNotLost(tma.elementStrides, frame, kinds, fl);
  }

  lemma FieldNotLost(f: Field, frame: seq<Live>, kinds: seq<Kind>, fl: FloatOps)
    requires f.Sealed(fl) && Conforms(frame, kinds) && FieldBindingsValid(f, kinds)
    ensures RawField(f, frame, fl).Err? ==> !Lost(RawField(f, frame, fl).error)
  {
    hide ReferencesValid, Eval;
    if f.content.ScalarField? {
      EvalNotLost(f.content.expr, frame, kinds, fl);
    }
  }

  /** A validated parameter never loses a reference at run time; only a pointer bound to neither a
      tensor nor an integer can still turn out not to be one. */
  lemma NoLostReference(plan: ParameterPlan, frame: seq<Live>, kinds: seq<Kind>, reg: Registry)
    requires plan.Sealed(reg.fl) && BindingsValid(plan, kinds) && Conforms(frame, kinds)
    ensures Materialize(plan, frame, reg).Err? ==>
              var e := Materialize(plan, frame, reg).error;
              e != Evaluation(MissingBinding) && (Lost(e) ==>
                        plan.primitive.PointerParam? && !TensorAt(plan.primitive.binding, kinds))
  {
    hide ReferencesValid, Eval, Segments, RawField, ResolveMap, TensorMap.Admitted;
    match plan.primitive
    case ScalarParam(_, expr) => EvalNotLost(expr, frame, kinds, reg.fl);
    case PointerParam(_) =>
    case PackedParam(fields) =>
      SegmentsFacts(fields, frame, reg.fl);
      if Segments(fields, frame, reg.fl).Err? {
        var i :| 0 <= i < |fields| && RawField(fields[i], frame, reg.fl) == Err(Segments(fields, frame, reg.fl).error);
        FieldNotLost(fields[i], frame, kinds, reg.fl);
      }
    case TmaParam(tma) => MapNotLost(tma, frame, kinds, reg.fl);
    case CutlassParam(expr) => EvalNotLost(expr, frame, kinds, reg.fl);
    case CuteParam(expr) => EvalNotLost(expr, frame, kinds, reg.fl);
    case GroupParam(_, _) =>
  }
}
