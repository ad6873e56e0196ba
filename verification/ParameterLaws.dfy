/** What the bytes of a kernel parameter say, kind by kind, written down without the code that packs
    them, and the packer's agreement with it in both directions. */
module ParameterLaws {
  import opened Outcome
  import opened Bytes
  import opened ByteLayout
  import opened Expression
  import opened Parameters
  import FastDivmod
  import TensorMap

  // ---- Scalars ----

  ghost function IntBits(w: IntWidth): nat {
    match w
    case W8 => 8
    case W16 => 16
    case W32 => 32
    case W64 => 64
  }

  ghost function FloatBits(w: FloatWidth): nat {
    match w
    case F16 => 16
    case F32 => 32
    case F64 => 64
  }

  /** The bytes are a little-endian image of the value in a scalar of that type. */
  ghost predicate ScalarHolds(ty: ScalarType, v: Scalar, raw: seq<Byte>, fl: FloatOps) {
    match ty
    case TBool => v.B? && raw == [if v.b then 1 else 0]
    case TInt(w, signed) =>
      v.I? && 8 * |raw| == IntBits(w) && v.i == if signed then FromSigned(raw) else FromLittleEndian(raw)
    case TFloat(w) =>
      && v.F? && 8 * |raw| == FloatBits(w) && fl.finite(v.bits) && fl.fits(v.bits, |raw|)
      && forall i :: 0 <= i < |raw| ==> raw[i] == fl.byteAt(v.bits, |raw|, i)
  }

  lemma {:induction false} DecodedBound(raw: seq<Byte>)
    ensures FromLittleEndian(raw) < Pow2(8 * |raw|)
  {
    if raw != [] {
      DecodedBound(raw[1..]);
      Pow2Add(8, 8 * |raw| - 8);
      Pow2Facts();
    }
  }

  lemma SignedBound(raw: seq<Byte>)
    requires raw != []
    ensures -(Pow2(8 * |raw| - 1) as int) <= FromSigned(raw) < Pow2(8 * |raw| - 1)
  {
    DecodedBound(raw);
    assert Pow2(8 * |raw|) == 2 * Pow2(8 * |raw| - 1);
  }

  /** A scalar packs exactly if some bytes hold it, and packs to bytes that do. */
  lemma PackScalarHolds(ty: ScalarType, v: Scalar, fl: FloatOps)
    ensures PackScalar(ty, v, fl).Some? ==> ScalarHolds(ty, v, PackScalar(ty, v, fl).value, fl)
    ensures PackScalar(ty, v, fl).None? ==> forall raw :: !ScalarHolds(ty, v, raw, fl)
  {
    hide Pow2, SignedImage, FromSigned, LittleEndian, FromLittleEndian;
    if ty.TInt? && v.I? {
      PackedIntegerReadsBack(ty.width, ty.signed, v.i, fl);
      forall raw | ScalarHolds(ty, v, raw, fl)
        ensures PackScalar(ty, v, fl).Some?
      {
        assert |raw| == ty.Width();
        DecodedBound(raw);
        SignedBound(raw);
      }
    }
  }

  // ---- Packed structs ----

  /** What the bytes of one field say. */
  ghost predicate FieldHolds(content: Content, frame: seq<Live>, fl: FloatOps, raw: seq<Byte>)
    requires content.ScalarField? ==> content.expr.Sealed(fl)
  {
    match content
    case Literal(bytes) => raw == bytes
    case TensorPointer(binding) =>
      && binding < |frame| && frame[binding].LiveTensor?
      && |raw| == 8 && FromLittleEndian(raw) == frame[binding].facts.address
    case ScalarField(ty, expr) =>
      Evaluate(expr, frame, fl).Ok? && ScalarHolds(ty, Evaluate(expr, frame, fl).value, raw, fl)
  }

  lemma RawFieldHolds(f: Field, frame: seq<Live>, fl: FloatOps)
    requires f.Sealed(fl)
    ensures RawField(f, frame, fl).Ok? ==> FieldHolds(f.content, frame, fl, RawField(f, frame, fl).value)
    ensures RawField(f, frame, fl).Err? ==> forall raw :: !FieldHolds(f.content, frame, fl, raw)
  {
    hide Evaluate, ScalarHolds, PackScalar, LittleEndian, FromLittleEndian, Pow2;
    match f.content
    case Literal(_) =>
    case TensorPointer(binding) =>
      Pow2Facts();
      if binding < |frame| && frame[binding].LiveTensor? {
        var address := frame[binding].facts.address;
        if address < UINT64_LIMIT {
          LittleEndianRoundTrip(address, 8);
        }
      }
      forall raw | FieldHolds(f.content, frame, fl, raw)
        ensures RawField(f, frame, fl).Ok?
      {
        DecodedBound(raw);
      }
    case ScalarField(ty, expr) =>
      if Evaluate(expr, frame, fl).Ok? {
        PackScalarHolds(ty, Evaluate(expr, frame, fl).value, fl);
      }
  }

  /** Every field's bytes stand at its offset, and whatever no field covers is zero. */
  ghost predicate StructHolds(fields: seq<Field>, frame: seq<Live>, fl: FloatOps, raw: seq<Byte>)
    requires AllSealed(fields, fl)
  {
    && (forall i :: 0 <= i < |fields| ==>
          fields[i].offset + fields[i].Size() <= |raw| && FieldStands(fields[i], frame, fl, raw))
    && forall j :: 0 <= j < |raw| && (forall i :: 0 <= i < |fields| ==> Outside(fields[i], j)) ==> raw[j] == 0
  }

  ghost predicate Outside(f: Field, j: int) {
    j < f.offset || f.offset + f.Size() <= j
  }

  ghost predicate FieldStands(f: Field, frame: seq<Live>, fl: FloatOps, raw: seq<Byte>)
    requires f.Sealed(fl) && f.offset + f.Size() <= |raw|
  {
    FieldHolds(f.content, frame, fl, raw[f.offset..f.offset + f.Size()])
  }

  lemma StructImageHolds(fields: seq<Field>, size: nat, frame: seq<Live>, fl: FloatOps)
    requires AllSealed(fields, fl) && LaidOut(fields, size)
    ensures StructImage(fields, size, frame, fl).Ok? ==>
              StructHolds(fields, frame, fl, StructImage(fields, size, frame, fl).value)
    ensures StructImage(fields, size, frame, fl).Err? ==> forall raw :: !StructHolds(fields, frame, fl, raw)
  {
    hide RawField, FieldHolds, Segments, Evaluate, WriteAll;
    if StructImage(fields, size, frame, fl).Ok? {
      var image := StructImage(fields, size, frame, fl).value;
      forall i | 0 <= i < |fields|
        ensures fields[i].offset + fields[i].Size() <= |image| && FieldStands(fields[i], frame, fl, image)
      {
        StructReadsBack(fields, size, frame, fl, i);
        RawFieldHolds(fields[i], frame, fl);
      }
      forall j | 0 <= j < |image| && (forall i :: 0 <= i < |fields| ==> Outside(fields[i], j))
        ensures image[j] == 0
      {
        assert forall f :: f in fields ==> Outside(f, j);
        StructGapsZero(fields, size, frame, fl, j);
      }
    } else {
      SegmentsFacts(fields, frame, fl);
      var e := Segments(fields, frame, fl).error;
      var i :| 0 <= i < |fields| && RawField(fields[i], frame, fl) == Err(e);
      RawFieldHolds(fields[i], frame, fl);
      var f := fields[i];
      forall raw: seq<Byte>
        ensures !StructHolds(fields, frame, fl, raw)
      {
        if f.offset + f.Size() <= |raw| {
          assert !FieldHolds(f.content, frame, fl, raw[f.offset..f.offset + f.Size()]);
          assert !FieldStands(f, frame, fl, raw);
        }
      }
    }
  }

  // ---- Tensor maps ----

  /** Each value is what its own expression evaluates to, and positive. */
  ghost predicate RowsAre(rows: seq<Expr>, frame: seq<Live>, fl: FloatOps, values: seq<int>)
    requires forall e :: e in rows ==> e.Sealed(fl)
  {
    |values| == |rows| && forall i :: 0 <= i < |rows| ==> RowIs(rows[i], frame, fl, values[i])
  }

  ghost predicate RowIs(e: Expr, frame: seq<Live>, fl: FloatOps, value: int)
    requires e.Sealed(fl)
  {
    Reads(e, frame, fl, value) && value > 0
  }

  ghost predicate Reads(e: Expr, frame: seq<Live>, fl: FloatOps, value: int)
    requires e.Sealed(fl)
  {
    Evaluate(e, frame, fl) == Ok(I(value))
  }

  /** The descriptor the plan describes for this frame. */
  ghost predicate MapIs(tma: TmaPlan, frame: seq<Live>, fl: FloatOps, d: TensorMap.Descriptor)
    requires tma.Sealed(fl)
  {
    && tma.binding < |frame| && frame[tma.binding].LiveTensor? && d.address == frame[tma.binding].facts.address
    && RowsAre(tma.dims, frame, fl, d.dims) && RowsAre(tma.strides, frame, fl, d.strides)
    && RowsAre(tma.box, frame, fl, d.box) && RowsAre(tma.elementStrides, frame, fl, d.elementStrides)
    && d.element == tma.element && d.interleave == tma.interleave && d.swizzle == tma.swizzle
    && d.promotion == tma.promotion && d.oob == tma.oob
  }

  lemma {:induction false} IntegersAre(rows: seq<Expr>, frame: seq<Live>, fl: FloatOps)
    requires forall e :: e in rows ==> e.Sealed(fl)
    ensures Integers(rows, frame, fl).Ok? ==>
              forall i :: 0 <= i < |rows| ==> Reads(rows[i], frame, fl, Integers(rows, frame, fl).value[i])
    ensures Integers(rows, frame, fl).Err? ==> forall values :: !RowsAre(rows, frame, fl, values)
  {
    hide Evaluate, Expr.Sealed;
    if rows != [] {
      var n := |rows| - 1;
      assert rows[n] in rows;
      IntegersAre(rows[..n], frame, fl);
      forall values | RowsAre(rows, frame, fl, values)
        ensures Integers(rows, frame, fl).Ok?
      {
        assert RowsAre(rows[..n], frame, fl, values[..n]);
        assert RowIs(rows[n], frame, fl, values[n]);
      }
    }
  }

  lemma PositivesAre(rows: seq<Expr>, frame: seq<Live>, fl: FloatOps)
    requires forall e :: e in rows ==> e.Sealed(fl)
    ensures Positives(rows, frame, fl).Ok? ==> RowsAre(rows, frame, fl, Positives(rows, frame, fl).value)
    ensures Positives(rows, frame, fl).Err? ==> forall values :: !RowsAre(rows, frame, fl, values)
  {
    hide Evaluate, Integers;
    IntegersAre(rows, frame, fl);
    forall values | RowsAre(rows, frame, fl, values)
      ensures Positives(rows, frame, fl).Ok?
    {
      var found := Integers(rows, frame, fl).value;
      forall i | 0 <= i < |rows|
        ensures found[i] > 0
      {
        assert RowIs(rows[i], frame, fl, values[i]);
      }
    }
  }

  lemma ResolveMapIs(tma: TmaPlan, frame: seq<Live>, fl: FloatOps)
    requires tma.Sealed(fl)
    ensures ResolveMap(tma, frame, fl).Ok? ==> MapIs(tma, frame, fl, ResolveMap(tma, frame, fl).value)
    ensures ResolveMap(tma, frame, fl).Err? ==> forall d :: !MapIs(tma, frame, fl, d)
    ensures forall d :: MapIs(tma, frame, fl, d) ==> ResolveMap(tma, frame, fl) == Ok(d)
  {
    hide Positives, Expr.Sealed;
    var all := tma.dims + tma.strides + tma.box + tma.elementStrides;
    assert forall e :: e in tma.dims || e in tma.strides || e in tma.box || e in tma.elementStrides ==> e in all;
    PositivesAre(tma.dims, frame, fl);
    PositivesAre(tma.strides, frame, fl);
    PositivesAre(tma.box, frame, fl);
    PositivesAre(tma.elementStrides, frame, fl);
    hide RowsAre;
    forall d | MapIs(tma, frame, fl, d)
      ensures ResolveMap(tma, frame, fl) == Ok(d)
    {
      RowsUnique(tma.dims, frame, fl, d.dims, Positives(tma.dims, frame, fl).value);
      RowsUnique(tma.strides, frame, fl, d.strides, Positives(tma.strides, frame, fl).value);
      RowsUnique(tma.box, frame, fl, d.box, Positives(tma.box, frame, fl).value);
      RowsUnique(tma.elementStrides, frame, fl, d.elementStrides, Positives(tma.elementStrides, frame, fl).value);
    }
  }

  lemma RowsUnique(rows: seq<Expr>, frame: seq<Live>, fl: FloatOps, a: seq<int>, b: seq<int>)
    requires forall e :: e in rows ==> e.Sealed(fl)
    requires RowsAre(rows, frame, fl, a) && RowsAre(rows, frame, fl, b)
    ensures a == b
  {
    hide Evaluate, Expr.Sealed;
    forall i | 0 <= i < |rows|
      ensures a[i] == b[i]
    {
      assert RowIs(rows[i], frame, fl, a[i]) && RowIs(rows[i], frame, fl, b[i]);
    }
  }

  // ---- One parameter ----

  /** The address a pointer parameter stands for. */
  ghost predicate Addresses(live: Live, address: int) {
    match live
    case LiveTensor(facts) => address == facts.address
    case LiveScalar(v) => v == I(address)
    case LiveOther(_) => false
  }

  ghost predicate CuteDividesBy(raw: seq<Byte>, d: int) {
    && |raw| == 12 && d > 0
    && var f := FastDivmod.CuteDecode(raw);
       && f.shift1 >= 0 && f.shift2 >= 0
       && forall n :: 0 <= n < FastDivmod.TWO32 ==> FastDivmod.CuteQuotient(f, n) == n / d
  }

  ghost predicate CutlassDividesBy(raw: seq<Byte>, d: int) {
    && |raw| == 12 && d > 0
    && var f := FastDivmod.CutlassDecode(raw);
       && f.shiftRight >= 0
       && forall n :: 0 <= n < FastDivmod.TWO31 ==> FastDivmod.CutlassQuotient(f, n) == n / d
  }

  /** What the bytes of a parameter say of the plan and the frame. */
  ghost predicate Arrives(plan: ParameterPlan, frame: seq<Live>, reg: Registry, raw: seq<Byte>)
    requires plan.Sealed(reg.fl)
  {
    match plan.primitive
    case ScalarParam(ty, expr) =>
      Evaluate(expr, frame, reg.fl).Ok? && ScalarHolds(ty, Evaluate(expr, frame, reg.fl).value, raw, reg.fl)
    case PointerParam(binding) =>
      binding < |frame| && |raw| == 8 && Addresses(frame[binding], FromLittleEndian(raw))
    case PackedParam(fields) => |raw| == plan.size && StructHolds(fields, frame, reg.fl, raw)
    case TmaParam(tma) =>
      |raw| == 128 && exists d :: MapIs(tma, frame, reg.fl, d) && MapAdmitted(d) && reg.encode(d) == Some(raw)
    case CutlassParam(expr) =>
      var d := Evaluate(expr, frame, reg.fl);
      && d.Ok? && d.value.I? && 1 <= d.value.i < 0x8000_0000 && |raw| == 12
      && FastDivmod.CutlassDecode(raw).divisor == d.value.i
      && if d.value.i == 1 then FastDivmod.CutlassDecode(raw) == FastDivmod.CutlassFields(1, 0, 0)
         else CutlassDividesBy(raw, d.value.i)
    case CuteParam(expr) =>
      var d := Evaluate(expr, frame, reg.fl);
      && d.Ok? && d.value.I? && 1 <= d.value.i < 0x8000_0000
      && CuteDividesBy(raw, d.value.i) && FastDivmod.CuteDecode(raw).divisor == d.value.i
    case GroupParam(binding, native) =>
      binding < |frame| && |raw| == 8 && reg.group(frame[binding], native) == Some(FromLittleEndian(raw))
  }

  ghost predicate MapAdmitted(d: TensorMap.Descriptor) {
    d.Resolved() && TensorMap.Admitted(d)
  }

  lemma CuteBytesServe(d: FastDivmod.Divisor)
    ensures CuteDividesBy(FastDivmod.CuteBytes(d), d) && FastDivmod.CuteDecode(FastDivmod.CuteBytes(d)).divisor == d
  {
    FastDivmod.DivisorsKept(d);
    hide FastDivmod.CuteBytes, FastDivmod.CuteDecode, FastDivmod.CuteEncode;
    FastDivmod.ShiftsAreNatural(d);
    FastDivmod.CuteBytesDivide(d, 0);
    forall n | 0 <= n < FastDivmod.TWO32
      ensures FastDivmod.CuteQuotient(FastDivmod.CuteDecode(FastDivmod.CuteBytes(d)), n) == n / d
    {
      FastDivmod.CuteBytesDivide(d, n);
    }
  }

  lemma CutlassBytesServe(d: FastDivmod.Divisor)
    requires d >= 2
    ensures CutlassDividesBy(FastDivmod.CutlassBytes(d), d)
    ensures FastDivmod.CutlassDecode(FastDivmod.CutlassBytes(d)).divisor == d
  {
    FastDivmod.DivisorsKept(d);
    hide FastDivmod.CutlassBytes, FastDivmod.CutlassDecode, FastDivmod.CutlassEncode;
    FastDivmod.ShiftsAreNatural(d);
    FastDivmod.CutlassBytesDivide(d, 0);
    forall n | 0 <= n < FastDivmod.TWO31
      ensures FastDivmod.CutlassQuotient(FastDivmod.CutlassDecode(FastDivmod.CutlassBytes(d)), n) == n / d
    {
      FastDivmod.CutlassBytesDivide(d, n);
    }
  }

  /** A parameter materialises exactly if some bytes say what the plan and the frame say, and then
      packs to bytes that do. */
  lemma MaterializeArrives(plan: ParameterPlan, frame: seq<Live>, reg: Registry)
    requires plan.Sealed(reg.fl)
    ensures Materialize(plan, frame, reg).Ok? ==>
              var raw := PackMaterialized(Materialize(plan, frame, reg).value, reg.fl);
              raw.Some? && Arrives(plan, frame, reg, raw.value)
    ensures Materialize(plan, frame, reg).Err? ==> forall raw :: !Arrives(plan, frame, reg, raw)
  {
    match plan.primitive
    case ScalarParam(_, _) => ScalarArrives(plan, frame, reg);
    case PointerParam(_) => AddressArrives(plan, frame, reg);
    case PackedParam(_) => StructArrives(plan, frame, reg);
    case TmaParam(_) => MapArrives(plan, frame, reg);
    case CutlassParam(_) => DivisorArrives(plan, frame, reg);
    case CuteParam(_) => DivisorArrives(plan, frame, reg);
    case GroupParam(_, _) => AddressArrives(plan, frame, reg);
  }

  lemma ScalarArrives(plan: ParameterPlan, frame: seq<Live>, reg: Registry)
    requires plan.Sealed(reg.fl) && plan.primitive.ScalarParam?
    ensures Materialize(plan, frame, reg).Ok? ==>
              var raw := PackMaterialized(Materialize(plan, frame, reg).value, reg.fl);
              raw.Some? && Arrives(plan, frame, reg, raw.value)
    ensures Materialize(plan, frame, reg).Err? ==> forall raw :: !Arrives(plan, frame, reg, raw)
  {
    hide Evaluate, ScalarHolds, PackScalar;
    var v := Evaluate(plan.primitive.expr, frame, reg.fl);
    if v.Ok? {
      PackScalarHolds(plan.primitive.ty, v.value, reg.fl);
    }
  }

  lemma AddressArrives(plan: ParameterPlan, frame: seq<Live>, reg: Registry)
    requires plan.Sealed(reg.fl) && (plan.primitive.PointerParam? || plan.primitive.GroupParam?)
    ensures Materialize(plan, frame, reg).Ok? ==>
              var raw := PackMaterialized(Materialize(plan, frame, reg).value, reg.fl);
              raw.Some? && Arrives(plan, frame, reg, raw.value)
    ensures Materialize(plan, frame, reg).Err? ==> forall raw :: !Arrives(plan, frame, reg, raw)
  {
    hide LittleEndian, FromLittleEndian, Pow2, StructImage, ResolveMap, PackScalar, Evaluate, TensorMap.Admitted;
    Pow2Facts();
    var m := Materialize(plan, frame, reg);
    if m.Ok? {
      LittleEndianRoundTrip(m.value.address, 8);
    }
    forall raw | Arrives(plan, frame, reg, raw)
      ensures m.Ok?
    {
      DecodedBound(raw);
    }
  }

  lemma StructArrives(plan: ParameterPlan, frame: seq<Live>, reg: Registry)
    requires plan.Sealed(reg.fl) && plan.primitive.PackedParam?
    ensures Materialize(plan, frame, reg).Ok? ==>
              var raw := PackMaterialized(Materialize(plan, frame, reg).value, reg.fl);
              raw.Some? && Arrives(plan, frame, reg, raw.value)
    ensures Materialize(plan, frame, reg).Err? ==> forall raw :: !Arrives(plan, frame, reg, raw)
  {
    hide StructImage, StructHolds, Evaluate;
    StructImageHolds(plan.primitive.fields, plan.size, frame, reg.fl);
  }

  lemma MapArrives(plan: ParameterPlan, frame: seq<Live>, reg: Registry)
    requires plan.Sealed(reg.fl) && plan.primitive.TmaParam?
    ensures Materialize(plan, frame, reg).Ok? ==>
              var raw := PackMaterialized(Materialize(plan, frame, reg).value, reg.fl);
              raw.Some? && Arrives(plan, frame, reg, raw.value)
    ensures Materialize(plan, frame, reg).Err? ==> forall raw :: !Arrives(plan, frame, reg, raw)
  {
    hide ResolveMap, MapIs, TensorMap.Admitted, Evaluate, StructImage, TmaPlan.Sealed;
    ResolveMapIs(plan.primitive.tma, frame, reg.fl);
    var d := ResolveMap(plan.primitive.tma, frame, reg.fl);
    if Materialize(plan, frame, reg).Ok? {
      assert MapIs(plan.primitive.tma, frame, reg.fl, d.value) && MapAdmitted(d.value);
    }
  }

  lemma DivisorArrives(plan: ParameterPlan, frame: seq<Live>, reg: Registry)
    requires plan.Sealed(reg.fl) && (plan.primitive.CutlassParam? || plan.primitive.CuteParam?)
    ensures Materialize(plan, frame, reg).Ok? ==>
              var raw := PackMaterialized(Materialize(plan, frame, reg).value, reg.fl);
              raw.Some? && Arrives(plan, frame, reg, raw.value)
    ensures Materialize(plan, frame, reg).Err? ==> forall raw :: !Arrives(plan, frame, reg, raw)
  {
    hide Evaluate, StructImage, ResolveMap, TensorMap.Admitted, CutlassDividesBy, CuteDividesBy, PackScalar;
    hide FastDivmod.CutlassBytes, FastDivmod.CuteBytes, FastDivmod.CutlassDecode, FastDivmod.CuteDecode;
    var v := Evaluate(plan.primitive.expr, frame, reg.fl);
    if v.Ok? && Divisor(v.value).Some? {
      var d := Divisor(v.value).value;
      CuteBytesServe(d);
      FastDivmod.CutlassUnitDecode();
      if d >= 2 {
        CutlassBytesServe(d);
      }
    }
  }
}
