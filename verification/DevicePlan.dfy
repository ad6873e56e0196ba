/** Device launch plans, the kernel ABIs the driver reports, and the parameter packer between
    them.  The result is a typing theorem: an admitted plan never trips the packer's checks. */
module DevicePlan {
  import opened Outcome
  import opened Names
  import opened Bytes
  import opened ByteLayout
  import opened Expression
  import opened Parameters
  import opened ParameterLaws

  const MAX_PLAN_KERNELS: int := 1024
  const MAX_CUBIN_KERNELS: int := 4096
  const MAX_LAUNCHES: int := 256
  const MAX_PARAMETERS: int := 256
  const MAX_BUFFER: int := 32764

  // ---- Contracts and ABIs ----

  datatype Contract = Contract(name: string, sizes: seq<nat>) {
    predicate Sealed() {
      |sizes| <= MAX_PARAMETERS && forall i :: 0 <= i < |sizes| ==> 1 <= sizes[i] <= MAX_BUFFER
    }
  }

  function ContractNames(kernels: seq<Contract>): (names: seq<string>)
    ensures |names| == |kernels| && forall i :: 0 <= i < |kernels| ==> names[i] == kernels[i].name
  {
    seq(|kernels|, i requires 0 <= i < |kernels| => kernels[i].name)
  }

  predicate InventorySealed(kernels: seq<Contract>, limit: int) {
    && 1 <= |kernels| <= limit
    && (forall i :: 0 <= i < |kernels| ==> kernels[i].Sealed())
    && Canonical(ContractNames(kernels))
  }

  /** One formal parameter as the driver reports it. */
  datatype Formal = Formal(offset: nat, size: nat) {
    predicate Sealed() {
      offset < MAX_BUFFER && 1 <= size && offset + size <= MAX_BUFFER
    }
  }

  datatype KernelAbi = KernelAbi(name: string, formals: seq<Formal>) {
    predicate Sealed() {
      && |formals| <= MAX_PARAMETERS
      && (forall i :: 0 <= i < |formals| ==> formals[i].Sealed())
      && Ascending(formals)
    }

    function BufferSize(): nat {
      if formals == [] then 0 else formals[|formals| - 1].offset + formals[|formals| - 1].size
    }

    function AsContract(): (c: Contract)
      ensures c.name == name && |c.sizes| == |formals|
      ensures forall i :: 0 <= i < |formals| ==> c.sizes[i] == formals[i].size
    {
      Contract(name, seq(|formals|, i requires 0 <= i < |formals| => formals[i].size))
    }
  }

  /** Each formal starts at or after the end of the one before. */
  predicate Ascending(formals: seq<Formal>) {
    forall i :: 0 < i < |formals| ==> formals[i - 1].offset + formals[i - 1].size <= formals[i].offset
  }

  function AbiNames(abis: seq<KernelAbi>): (names: seq<string>)
    ensures |names| == |abis| && forall i :: 0 <= i < |abis| ==> names[i] == abis[i].name
  {
    ContractNames(ContractsOf(abis))
  }

  predicate AbiSealed(abis: seq<KernelAbi>) {
    && 1 <= |abis| <= MAX_CUBIN_KERNELS
    && (forall i :: 0 <= i < |abis| ==> abis[i].Sealed())
    && Canonical(AbiNames(abis))
  }

  /** Where a new name goes in a sorted inventory. */
  function Insert(abis: seq<KernelAbi>, abi: KernelAbi): seq<KernelAbi> {
    if abis == [] || NameLess(abi.name, abis[0].name) then [abi] + abis
    else [abis[0]] + Insert(abis[1..], abi)
  }

  lemma {:induction false} InsertAdds(abis: seq<KernelAbi>, abi: KernelAbi)
    ensures multiset(Insert(abis, abi)) == multiset(abis) + multiset{abi}
  {
    hide NameLess;
    if abis != [] && !NameLess(abi.name, abis[0].name) {
      InsertAdds(abis[1..], abi);
      assert abis == [abis[0]] + abis[1..];
    }
  }

  lemma {:induction false} InsertKeepsOrder(abis: seq<KernelAbi>, abi: KernelAbi)
    requires Canonical(AbiNames(abis)) && forall a :: a in abis ==> a.name != abi.name
    ensures Canonical(AbiNames(Insert(abis, abi)))
    ensures |Insert(abis, abi)| == |abis| + 1 && forall a :: a in Insert(abis, abi) <==> a in abis || a == abi
  {
    hide NameLess, Canonical;
    if abis == [] {
      Consed(abi, abis);
    } else if NameLess(abi.name, abis[0].name) {
      Consed(abi, abis);
      NamesBelow(abi.name, abis);
    } else {
      NameLessTotal(abi.name, abis[0].name);
      var first, rest := abis[0], abis[1..];
      assert abis == [first] + rest;
      Consed(first, rest);
      InsertKeepsOrder(rest, abi);
      var tail := Insert(rest, abi);
      forall a | a in tail
        ensures NameLess(first.name, a.name)
      {
        assert a in rest || a == abi;
      }
      Consed(first, tail);
    }
  }

  /** One more name in front keeps the order exactly when it is below all others. */
  lemma Consed(first: KernelAbi, rest: seq<KernelAbi>)
    ensures Canonical(AbiNames([first] + rest)) <==>
              Canonical(AbiNames(rest)) && forall a :: a in rest ==> NameLess(first.name, a.name)
  {
    hide NameLess;
    var all, names := AbiNames([first] + rest), AbiNames(rest);
    assert all == [first.name] + names;
    CanonicalCons(first.name, names);
    assert forall i :: 0 <= i < |rest| ==> rest[i] in rest && names[i] == rest[i].name;
  }

  lemma CanonicalCons(first: string, names: seq<string>)
    ensures Canonical([first] + names) <==>
              Canonical(names) && forall i :: 0 <= i < |names| ==> NameLess(first, names[i])
  {
    hide NameLess;
    var all := [first] + names;
    assert forall i :: 0 <= i < |names| ==> all[i + 1] == names[i];
    if Canonical(all) {
      forall i, j | 0 <= i < j < |names|
        ensures NameLess(names[i], names[j])
      {
        assert NameLess(all[i + 1], all[j + 1]);
      }
      forall i | 0 <= i < |names|
        ensures NameLess(first, names[i])
      {
        assert NameLess(all[0], all[i + 1]);
      }
    }
  }

  lemma NamesBelow(name: string, abis: seq<KernelAbi>)
    requires abis != [] && Canonical(AbiNames(abis)) && NameLess(name, abis[0].name)
    ensures forall a :: a in abis ==> NameLess(name, a.name)
  {
    hide NameLess;
    forall i | 0 <= i < |abis|
      ensures NameLess(name, abis[i].name)
    {
      if i > 0 {
        assert NameLess(AbiNames(abis)[0], AbiNames(abis)[i]);
        NameLessTransitive(name, abis[0].name, abis[i].name);
      }
    }
  }

  /** The GPU-free projection of an observed inventory. */
  function ContractsOf(abis: seq<KernelAbi>): (kernels: seq<Contract>)
    ensures |kernels| == |abis| && forall i :: 0 <= i < |abis| ==> kernels[i] == abis[i].AsContract()
  {
    seq(|abis|, i requires 0 <= i < |abis| => abis[i].AsContract())
  }

  /** Projecting a checked ABI cannot fail, so no loaded handle can be lost to that step. */
  lemma ProjectionIsSealed(abis: seq<KernelAbi>)
    requires AbiSealed(abis)
    ensures InventorySealed(ContractsOf(abis), MAX_CUBIN_KERNELS)
  {
    var kernels := ContractsOf(abis);
    forall i | 0 <= i < |kernels|
      ensures kernels[i].Sealed()
    {
      assert abis[i].Sealed();
    }
    assert ContractNames(kernels) == AbiNames(abis);
  }

  function Lookup(abis: seq<KernelAbi>, name: string): (r: Option<KernelAbi>)
    ensures r.Some? ==> r.value in abis && r.value.name == name
    ensures r.None? ==> forall abi :: abi in abis ==> abi.name != name
  {
    if abis == [] then None
    else if abis[0].name == name then Some(abis[0])
    else Lookup(abis[1..], name)
  }

  // ---- Launch plans ----

  datatype Dim3 = Dim3(x: Expr, y: Expr, z: Expr) {
    predicate Sealed(fl: FloatOps) {
      x.Sealed(fl) && y.Sealed(fl) && z.Sealed(fl)
    }
  }

  /** One planned launch; `clusterAttributes` says that a launch attribute needs a cluster. */
  datatype Invocation = Invocation(
    kernel: string, grid: Dim3, block: Dim3, cluster: Option<Dim3>, shared: Expr,
    parameters: seq<ParameterPlan>, stream: Option<nat>, clusterAttributes: bool)
  {
    predicate Sealed(fl: FloatOps) {
      && grid.Sealed(fl) && block.Sealed(fl) && (cluster.Some? ==> cluster.value.Sealed(fl)) && shared.Sealed(fl)
      && |parameters| <= MAX_PARAMETERS
      && (forall i :: 0 <= i < |parameters| ==> parameters[i].Sealed(fl))
      && (stream.Some? ==> stream.value < MAX_BINDINGS)
    }

    function Widths(): (w: seq<nat>)
      ensures |w| == |parameters| && forall i :: 0 <= i < |parameters| ==> w[i] == parameters[i].size
    {
      seq(|parameters|, i requires 0 <= i < |parameters| => parameters[i].size)
    }
  }

  /** Launches are in ordinal order. */
  datatype LaunchPlan = LaunchPlan(kernels: seq<Contract>, launches: seq<Invocation>) {
    predicate Sealed(fl: FloatOps) {
      && InventorySealed(kernels, MAX_PLAN_KERNELS)
      && 1 <= |launches| <= MAX_LAUNCHES
      && (forall i :: 0 <= i < |launches| ==> launches[i].Sealed(fl))
      && (forall i :: 0 <= i < |launches| ==> DeclaredAs(kernels, launches[i]))
    }
  }

  /** Some declared kernel has the launch's name, and its widths are the launch's widths. */
  predicate DeclaredAs(kernels: seq<Contract>, launch: Invocation) {
    exists k :: 0 <= k < |kernels| && kernels[k].name == launch.kernel && kernels[k].sizes == launch.Widths()
  }

  function IndexOf(kernels: seq<Contract>, name: string): (r: Option<nat>)
    ensures r.Some? ==> r.value < |kernels| && kernels[r.value].name == name
    ensures r.None? ==> forall k :: 0 <= k < |kernels| ==> kernels[k].name != name
  {
    if kernels == [] then None
    else
      var n := |kernels| - 1;
      if kernels[n].name == name then Some(n) else IndexOf(kernels[..n], name)
  }

  predicate SameWidths(a: seq<Contract>, b: seq<Contract>) {
    |a| == |b| && forall i :: 0 <= i < |a| ==> a[i].sizes == b[i].sizes
  }

  /** Resolve logical kernel names by position against the observed inventory. */
  function BindObserved(plan: LaunchPlan, observed: seq<Contract>): Option<LaunchPlan> {
    if !SameWidths(plan.kernels, observed) then None
    else Some(LaunchPlan(observed, seq(|plan.launches|, i requires 0 <= i < |plan.launches| =>
      Rename(plan.kernels, observed, plan.launches[i]))))
  }

  function Rename(declared: seq<Contract>, observed: seq<Contract>, launch: Invocation): Invocation
    requires |declared| == |observed|
  {
    match IndexOf(declared, launch.kernel)
    case Some(k) => launch.(kernel := observed[k].name)
    case None => launch
  }

  /** Binding by position succeeds exactly when the widths agree position by position, and the
      bound plan then passes every check of plan construction. */
  lemma BindingYieldsSealedPlan(plan: LaunchPlan, observed: seq<Contract>, fl: FloatOps)
    requires plan.Sealed(fl) && InventorySealed(observed, MAX_CUBIN_KERNELS)
    ensures BindObserved(plan, observed).Some? <==> SameWidths(plan.kernels, observed)
    ensures BindObserved(plan, observed).Some? ==>
              BindObserved(plan, observed).value.Sealed(fl) && BindObserved(plan, observed).value.kernels == observed
  {
    if SameWidths(plan.kernels, observed) {
      var bound := BindObserved(plan, observed).value;
      forall i | 0 <= i < |bound.launches|
        ensures bound.launches[i].Sealed(fl) && DeclaredAs(observed, bound.launches[i])
      {
        assert plan.launches[i].Sealed(fl);
        RenamedIsDeclared(plan.kernels, observed, plan.launches[i]);
      }
    }
  }

  /** A launch of the `k`-th declared kernel becomes a launch of the `k`-th observed one; nothing
      else about it changes. */
  lemma BindingIsPositional(plan: LaunchPlan, observed: seq<Contract>, fl: FloatOps, i: nat, k: nat)
    requires plan.Sealed(fl) && SameWidths(plan.kernels, observed)
    requires i < |plan.launches| && k < |plan.kernels| && plan.kernels[k].name == plan.launches[i].kernel
    ensures |BindObserved(plan, observed).value.launches| == |plan.launches|
    ensures BindObserved(plan, observed).value.launches[i] == plan.launches[i].(kernel := observed[k].name)
  {
    var found := IndexOf(plan.kernels, plan.launches[i].kernel);
    CanonicalDistinct(ContractNames(plan.kernels), k, found.value);
  }

  lemma RenamedIsDeclared(declared: seq<Contract>, observed: seq<Contract>, launch: Invocation)
    requires Canonical(ContractNames(declared)) && SameWidths(declared, observed) && DeclaredAs(declared, launch)
    ensures DeclaredAs(observed, Rename(declared, observed, launch))
  {
    var k :| 0 <= k < |declared| && declared[k].name == launch.kernel && declared[k].sizes == launch.Widths();
    var found := IndexOf(declared, launch.kernel);
    CanonicalDistinct(ContractNames(declared), k, found.value);
    var renamed := Rename(declared, observed, launch);
    assert renamed.Widths() == launch.Widths();
    assert observed[k].name == renamed.kernel && observed[k].sizes == renamed.Widths();
  }

  // ---- The parameter packer ----

  datatype LaunchError =
    | LibraryClosed | NoSealedKernel | CountDiffers | SizeDiffers | NotMaterialized
    | Material(material: MaterialError) | DimensionsOutside | SharedOutside | SpecRefused
    | StreamMissing | DriverFailed

  /** Packing at the driver's offsets, with every check the packer makes. */
  function Pack(abi: KernelAbi, parameters: seq<Materialized>, fl: FloatOps): Result<seq<Segment>, LaunchError>
    requires |parameters| == |abi.formals|
  {
    PackPrefix(abi, parameters, |parameters|, fl)
  }

  function PackPrefix(abi: KernelAbi, parameters: seq<Materialized>, n: nat, fl: FloatOps): (r: Result<seq<Segment>,
                      LaunchError>)
    requires |parameters| == |abi.formals| && n <= |parameters|
    ensures r.Ok? ==> |r.value| == n && forall i :: 0 <= i < n ==>
              r.value[i].offset == abi.formals[i].offset && |r.value[i].raw| == abi.formals[i].size &&
              PackMaterialized(parameters[i], fl) == Some(r.value[i].raw)
  {
    if n == 0 then Ok([]) else
    match PackPrefix(abi, parameters, n - 1, fl)
    case Err(e) => Err(e)
    case Ok(segments) =>
      match PackMaterialized(parameters[n - 1], fl)
      case None => Err(NotMaterialized)
      case Some(raw) =>
        if |raw| != abi.formals[n - 1].size then Err(SizeDiffers)
        else Ok(segments + [Segment(abi.formals[n - 1].offset, raw)])
  }

  lemma {:induction false} AscendingFits(formals: seq<Formal>, i: nat, k: nat)
    requires Ascending(formals) && i < k < |formals|
    ensures formals[i].offset + formals[i].size <= formals[k].offset
    decreases k
  {
    if i < k - 1 {
      AscendingFits(formals, i, k - 1);
    }
  }

  /** The segments of a checked ABI are disjoint and end with the buffer. */
  lemma PackedSegmentsLaidOut(abi: KernelAbi, parameters: seq<Materialized>, n: nat, fl: FloatOps)
    requires abi.Sealed() && |parameters| == |abi.formals| && n <= |parameters| &&
             PackPrefix(abi, parameters, n, fl).Ok?
    ensures var segments := PackPrefix(abi, parameters, n, fl).value;
            Fits(segments, abi.BufferSize()) && Disjoint(segments)
  {
    var segments := PackPrefix(abi, parameters, n, fl).value;
    forall i | 0 <= i < n
      ensures segments[i].End() <= abi.BufferSize()
    {
      if i < |abi.formals| - 1 { AscendingFits(abi.formals, i, |abi.formals| - 1); }
    }
    forall i, k | 0 <= i < k < n
      ensures Apart(segments[i], segments[k])
    {
      AscendingFits(abi.formals, i, k);
    }
  }

  /** The packer's loop over the parameter buffer. */
  method PackKernelParameters(abi: KernelAbi, parameters: seq<Materialized>, fl: FloatOps)
    returns (r: Result<seq<Byte>, LaunchError>)
    requires abi.Sealed()
    ensures r == Err(CountDiffers) <==> |parameters| != |abi.formals|
    ensures |parameters| == |abi.formals| ==>
              match Pack(abi, parameters, fl)
              case Err(e) => r == Err(e)
              case Ok(segments) => Fits(segments, abi.BufferSize()) && r == Ok(WriteAll(segments, abi.BufferSize()))
  {
    hide PackMaterialized, Ascending, Disjoint, WriteAll, PackPrefix;
    if |parameters| != |abi.formals| {
      return Err(CountDiffers);
    }
    var size := abi.BufferSize();
    var packed := new Byte[size](_ => 0);
    ghost var segments: seq<Segment> := [];
    PackNothing(abi, parameters, fl);
    assert packed[..] == Zeros(size);
    for i := 0 to |parameters|
      invariant PackPrefix(abi, parameters, i, fl) == Ok(segments)
      invariant Fits(segments, size) && packed[..] == WriteAll(segments, size)
    {
      var raw := PackMaterialized(parameters[i], fl);
      PackStep(abi, parameters, i, fl);
      if raw.None? {
        PackErrorStays(abi, parameters, i + 1, fl);
        return Err(NotMaterialized);
      }
      if |raw.value| != abi.formals[i].size {
        PackErrorStays(abi, parameters, i + 1, fl);
        return Err(SizeDiffers);
      }
      WriteInPlace(packed, Segment(abi.formals[i].offset, raw.value));
      segments := segments + [Segment(abi.formals[i].offset, raw.value)];
    }
    return Ok(packed[..]);
  }

  lemma PackNothing(abi: KernelAbi, parameters: seq<Materialized>, fl: FloatOps)
    requires |parameters| == |abi.formals|
    ensures PackPrefix(abi, parameters, 0, fl) == Ok([])
    ensures Fits([], abi.BufferSize()) && WriteAll([], abi.BufferSize()) == Zeros(abi.BufferSize())
  {
  }

  /** One turn of the packing loop. */
  lemma PackStep(abi: KernelAbi, parameters: seq<Materialized>, i: nat, fl: FloatOps)
    requires abi.Sealed() && |parameters| == |abi.formals| && i < |parameters|
    requires PackPrefix(abi, parameters, i, fl).Ok?
    ensures PackMaterialized(parameters[i], fl).None? ==> PackPrefix(abi, parameters, i + 1, fl) == Err(NotMaterialized)
    ensures PackMaterialized(parameters[i], fl).Some? ==>
              var raw, formal := PackMaterialized(parameters[i], fl).value, abi.formals[i];
              var segments := PackPrefix(abi, parameters, i, fl).value;
              if |raw| != formal.size then PackPrefix(abi, parameters, i + 1, fl) == Err(SizeDiffers)
              else
                var segment, size := Segment(formal.offset, raw), abi.BufferSize();
                && PackPrefix(abi, parameters, i + 1, fl) == Ok(segments + [segment])
                && segment.End() <= size && Fits(segments, size) && Fits(segments + [segment], size)
                && WriteAll(segments + [segment], size) == Write(WriteAll(segments, size), segment)
  {
    hide PackMaterialized, Ascending, Disjoint;
    PackedSegmentsLaidOut(abi, parameters, i, fl);
    if PackPrefix(abi, parameters, i + 1, fl).Ok? {
      PackedSegmentsLaidOut(abi, parameters, i + 1, fl);
      var next := PackPrefix(abi, parameters, i + 1, fl).value;
      assert next[..i] == PackPrefix(abi, parameters, i, fl).value && next[i] in next;
    }
  }

  lemma {:induction false} PackErrorStays(abi: KernelAbi, parameters: seq<Materialized>, n: nat, fl: FloatOps)
    requires |parameters| == |abi.formals| && n <= |parameters| && PackPrefix(abi, parameters, n, fl).Err?
    ensures Pack(abi, parameters, fl) == PackPrefix(abi, parameters, n, fl)
    ensures PackPrefix(abi, parameters, n, fl).error in {NotMaterialized, SizeDiffers}
    decreases |parameters| - n
  {
    if n < |parameters| {
      PackErrorStays(abi, parameters, n + 1, fl);
    }
    PackErrorKinds(abi, parameters, n, fl);
  }

  lemma {:induction false} PackErrorKinds(abi: KernelAbi, parameters: seq<Materialized>, n: nat, fl: FloatOps)
    requires |parameters| == |abi.formals| && n <= |parameters| && PackPrefix(abi, parameters, n, fl).Err?
    ensures PackPrefix(abi, parameters, n, fl).error in {NotMaterialized, SizeDiffers}
  {
    if n > 0 && PackPrefix(abi, parameters, n - 1, fl).Err? {
      PackErrorKinds(abi, parameters, n - 1, fl);
    }
  }

  /** Each parameter reads back from the launch buffer at the driver's offset. */
  lemma KernelBufferReadsBack(abi: KernelAbi, parameters: seq<Materialized>, fl: FloatOps, i: nat)
    requires abi.Sealed() && |parameters| == |abi.formals| && i < |parameters| && Pack(abi, parameters, fl).Ok?
    ensures Fits(Pack(abi, parameters, fl).value, abi.BufferSize())
    ensures var f := abi.formals[i];
            f.offset + f.size <= abi.BufferSize() &&
            PackMaterialized(parameters[i], fl) ==
              Some(WriteAll(Pack(abi, parameters, fl).value, abi.BufferSize())[f.offset..f.offset + f.size])
  {
    PackedSegmentsLaidOut(abi, parameters, |parameters|, fl);
    ReadBack(Pack(abi, parameters, fl).value, abi.BufferSize(), i);
  }

  // ---- Admitted plans do not go wrong ----

  /** All parameters of one launch, or the first error. */
  function MaterializeAll(plans: seq<ParameterPlan>, frame: seq<Live>, reg: Registry): (r: Result<seq<Materialized>,
                          MaterialError>)
    requires forall i :: 0 <= i < |plans| ==> plans[i].Sealed(reg.fl)
    ensures r.Ok? ==> |r.value| == |plans|
  {
    if plans == [] then Ok([]) else
    var n := |plans| - 1;
    match MaterializeAll(plans[..n], frame, reg)
    case Err(e) => Err(e)
    case Ok(values) =>
      match Materialize(plans[n], frame, reg)
      case Err(e) => Err(e)
      case Ok(v) => Ok(values + [v])
  }

  lemma {:induction false} MaterializedWidths(plans: seq<ParameterPlan>, frame: seq<Live>, reg: Registry)
    requires forall i :: 0 <= i < |plans| ==> plans[i].Sealed(reg.fl)
    requires MaterializeAll(plans, frame, reg).Ok?
    ensures var values := MaterializeAll(plans, frame, reg).value;
            forall i :: 0 <= i < |plans| ==> PacksTo(values[i], plans[i].size, reg.fl)
    decreases |plans|
  {
    hide Materialize;
    if plans != [] {
      var n := |plans| - 1;
      MaterializedWidths(plans[..n], frame, reg);
      MaterializedWidth(plans[n], frame, reg);
    }
  }

  lemma {:induction false} MaterializedEach(plans: seq<ParameterPlan>, frame: seq<Live>, reg: Registry, p: nat)
    requires forall i :: 0 <= i < |plans| ==> plans[i].Sealed(reg.fl)
    requires MaterializeAll(plans, frame, reg).Ok? && p < |plans|
    ensures Materialize(plans[p], frame, reg) == Ok(MaterializeAll(plans, frame, reg).value[p])
    decreases |plans|
  {
    hide Materialize;
    if p < |plans| - 1 {
      MaterializedEach(plans[..|plans| - 1], frame, reg, p);
    }
  }

  /** A launch's parameters fail to materialise only if one of them does. */
  lemma {:induction false} SomeParameterFails(plans: seq<ParameterPlan>, frame: seq<Live>, reg: Registry)
    requires forall i :: 0 <= i < |plans| ==> plans[i].Sealed(reg.fl)
    requires MaterializeAll(plans, frame, reg).Err?
    ensures exists p :: 0 <= p < |plans| && Fails(plans[p], frame, reg)
    decreases |plans|
  {
    hide Materialize, Arrives;
    var n := |plans| - 1;
    if MaterializeAll(plans[..n], frame, reg).Err? {
      SomeParameterFails(plans[..n], frame, reg);
      var p :| 0 <= p < n && Fails(plans[..n][p], frame, reg);
      assert Fails(plans[p], frame, reg);
    } else {
      MaterializeArrives(plans[n], frame, reg);
      assert Fails(plans[n], frame, reg);
    }
  }

  /** No bytes say what the plan and the frame say. */
  ghost predicate Fails(plan: ParameterPlan, frame: seq<Live>, reg: Registry)
    requires plan.Sealed(reg.fl)
  {
    forall raw :: !Arrives(plan, frame, reg, raw)
  }

  predicate PacksTo(m: Materialized, size: nat, fl: FloatOps) {
    PackMaterialized(m, fl).Some? && |PackMaterialized(m, fl).value| == size
  }

  lemma {:induction false} MatchingWidthsPack(abi: KernelAbi, values: seq<Materialized>, n: nat, fl: FloatOps)
    requires |values| == |abi.formals| && n <= |values|
    requires forall i :: 0 <= i < |values| ==> PacksTo(values[i], abi.formals[i].size, fl)
    ensures PackPrefix(abi, values, n, fl).Ok?
  {
    if n > 0 {
      MatchingWidthsPack(abi, values, n - 1, fl);
      assert PacksTo(values[n - 1], abi.formals[n - 1].size, fl);
    }
  }

  /** For a plan whose kernels are the observed inventory: every launch finds its kernel, and
      whatever the frame makes of its parameters, the packer accepts them. */
  lemma LaunchNeverMistyped(plan: LaunchPlan, abis: seq<KernelAbi>, i: nat, frame: seq<Live>, reg: Registry)
    requires plan.Sealed(reg.fl) && AbiSealed(abis) && plan.kernels == ContractsOf(abis) && i < |plan.launches|
    ensures Lookup(abis, plan.launches[i].kernel).Some?
    ensures var abi := Lookup(abis, plan.launches[i].kernel).value;
            abi.Sealed() &&
            (MaterializeAll(plan.launches[i].parameters, frame, reg).Ok? ==>
               var values := MaterializeAll(plan.launches[i].parameters, frame, reg).value;
               |values| == |abi.formals| && Pack(abi, values, reg.fl).Ok?)
  {
    hide Materialize, MaterializeAll, PackPrefix;
    var launch := plan.launches[i];
    assert launch.Sealed(reg.fl) && DeclaredAs(plan.kernels, launch);
    var k :| 0 <= k < |plan.kernels| && plan.kernels[k].name == launch.kernel &&
             plan.kernels[k].sizes == launch.Widths();
    assert abis[k].name == launch.kernel && abis[k] in abis;
    var abi := Lookup(abis, launch.kernel).value;
    var j :| 0 <= j < |abis| && abis[j] == abi;
    CanonicalDistinct(AbiNames(abis), j, k);
    assert abi.Sealed();
    if MaterializeAll(launch.parameters, frame, reg).Ok? {
      var values := MaterializeAll(launch.parameters, frame, reg).value;
      MaterializedWidths(launch.parameters, frame, reg);
      assert abi.AsContract().sizes == launch.Widths();
      forall p | 0 <= p < |values|
        ensures PacksTo(values[p], abi.formals[p].size, reg.fl)
      {
        assert PacksTo(values[p], launch.parameters[p].size, reg.fl);
        assert launch.Widths()[p] == abi.AsContract().sizes[p];
      }
      MatchingWidthsPack(abi, values, |values|, reg.fl);
    }
  }

  /** The bytes the launch buffer holds for one parameter, at the offset the driver gave. */
  function Slot(abi: KernelAbi, values: seq<Materialized>, p: nat, fl: FloatOps): seq<Byte>
    requires |values| == |abi.formals| && p < |values| && Placed(abi, values, p, fl)
  {
    var f := abi.formals[p];
    WriteAll(Pack(abi, values, fl).value, abi.BufferSize())[f.offset..f.offset + f.size]
  }

  /** The parameters pack, and formal `p` lies inside the buffer. */
  predicate Placed(abi: KernelAbi, values: seq<Materialized>, p: nat, fl: FloatOps)
    requires |values| == |abi.formals| && p < |values|
  {
    && Pack(abi, values, fl).Ok? && Fits(Pack(abi, values, fl).value, abi.BufferSize())
    && abi.formals[p].offset + abi.formals[p].size <= abi.BufferSize()
  }

  lemma LaunchIsSealed(plan: LaunchPlan, i: nat, fl: FloatOps)
    requires plan.Sealed(fl) && i < |plan.launches|
    ensures plan.launches[i].Sealed(fl)
  {
  }

  /** From plan to buffer: for an admitted plan, what the launch buffer holds for a parameter is what
      the plan and the frame say. */
  lemma ArgumentsArrive(plan: LaunchPlan, abis: seq<KernelAbi>, i: nat, p: nat, frame: seq<Live>, reg: Registry)
    requires plan.Sealed(reg.fl) && AbiSealed(abis) && plan.kernels == ContractsOf(abis) && i < |plan.launches|
    requires p < |plan.launches[i].parameters| && MaterializeAll(plan.launches[i].parameters, frame, reg).Ok?
    ensures Lookup(abis, plan.launches[i].kernel).Some?
    ensures var abi := Lookup(abis, plan.launches[i].kernel).value;
            var values := MaterializeAll(plan.launches[i].parameters, frame, reg).value;
            && |values| == |abi.formals| && p < |values| && Placed(abi, values, p, reg.fl)
            && Arrives(plan.launches[i].parameters[p], frame, reg, Slot(abi, values, p, reg.fl))
  {
    hide Materialize, MaterializeAll, PackPrefix, PackMaterialized, Arrives, WriteAll, Fits, AbiSealed,
         LaunchPlan.Sealed, KernelAbi.Sealed, ParameterPlan.Sealed;
    LaunchNeverMistyped(plan, abis, i, frame, reg);
    var parameters := plan.launches[i].parameters;
    LaunchIsSealed(plan, i, reg.fl);
    MaterializedEach(parameters, frame, reg, p);
    var abi, values := Lookup(abis, plan.launches[i].kernel).value, MaterializeAll(parameters, frame, reg).value;
    KernelBufferReadsBack(abi, values, reg.fl, p);
    MaterializeArrives(parameters[p], frame, reg);
  }

  // ---- Joining a plan to its bindings ----

  function Expressions(inv: Invocation): seq<Expr> {
    [inv.grid.x, inv.grid.y, inv.grid.z, inv.block.x, inv.block.y, inv.block.z] +
    (if inv.cluster.Some? then [inv.cluster.value.x, inv.cluster.value.y, inv.cluster.value.z] else []) + [inv.shared]
  }

  predicate InvocationBindingsValid(inv: Invocation, kinds: seq<Kind>) {
    && (inv.stream.Some? ==> inv.stream.value < |kinds| && kinds[inv.stream.value] == KStream)
    && RowsValid(Expressions(inv), kinds)
    && forall p :: p in inv.parameters ==> BindingsValid(p, kinds)
  }

  /** A validated invocation finds its stream, no expression of it loses a reference, and no
      parameter of it misses a binding, whatever the live values are. */
  lemma InvocationFindsBindings(inv: Invocation, kinds: seq<Kind>, frame: seq<Live>, reg: Registry)
    requires inv.Sealed(reg.fl) && InvocationBindingsValid(inv, kinds) && Conforms(frame, kinds)
    ensures inv.stream.Some? ==> inv.stream.value < |frame|
    ensures forall e :: e in Expressions(inv) ==> e.Sealed(reg.fl) && (Eval(e, frame, reg.fl).Err? ==>
              !Lost(Eval(e, frame, reg.fl).error))
    ensures MaterializeAll(inv.parameters, frame, reg).Err? ==>
              MaterializeAll(inv.parameters, frame, reg).error != Evaluation(MissingBinding)
  {
    hide Eval, Lost, ReferencesValid, BindingsValid, Expr.Sealed;
    forall e | e in Expressions(inv)
      ensures e.Sealed(reg.fl) && (Eval(e, frame, reg.fl).Err? ==> !Lost(Eval(e, frame, reg.fl).error))
    {
      EvalNotLost(e, frame, kinds, reg.fl);
    }
    ParametersFindBindings(inv.parameters, kinds, frame, reg);
  }

  lemma {:induction false} ParametersFindBindings(plans: seq<ParameterPlan>, kinds: seq<Kind>, frame: seq<Live>,
                                                  reg: Registry)
    requires Conforms(frame, kinds)
    requires forall i :: 0 <= i < |plans| ==> plans[i].Sealed(reg.fl) && BindingsValid(plans[i], kinds)
    ensures MaterializeAll(plans, frame, reg).Err? ==>
              MaterializeAll(plans, frame, reg).error != Evaluation(MissingBinding)
    decreases |plans|
  {
    hide Materialize, BindingsValid, Conforms, ParameterPlan.Sealed;
    if plans != [] {
      ParametersFindBindings(plans[..|plans| - 1], kinds, frame, reg);
      NoLostReference(plans[|plans| - 1], frame, kinds, reg);
    }
  }
}
