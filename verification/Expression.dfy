/** The checked scalar expression DAG: a list evaluator over topologically ordered nodes, against
    a recursive meaning of each node. */
module Expression {
  import opened Outcome
  import opened Bytes
  import opened Arithmetic

  const MAX_NODES: int := 128
  const MAX_OPERANDS: int := 8
  const MAX_BINDINGS: int := 64
  const MAX_TENSOR_RANK: int := 16
  const INT64_MIN: int := -0x8000_0000_0000_0000
  const INT64_MAX: int := 0x7FFF_FFFF_FFFF_FFFF

  /** Scalars; a float is an opaque binary64 pattern. */
  datatype Scalar = B(b: bool) | I(i: int) | F(bits: nat)

  /** Whatever IEEE arithmetic does to those patterns.  Nothing below depends on it. */
  datatype FloatOps = FloatOps(
    negate: nat -> nat,
    add: (nat, nat) -> nat,
    sub: (nat, nat) -> nat,
    mul: (nat, nat) -> nat,
    less: (nat, nat) -> bool,
    same: (nat, nat) -> bool,
    finite: nat -> bool,
    fits: (nat, nat) -> bool,
    byteAt: (nat, nat, nat) -> Byte)

  /** Live facts of one tensor binding. */
  datatype Facts = Facts(address: nat, shape: seq<nat>, stride: seq<int>, elementSize: int, storageOffset: nat) {
    predicate Valid() {
      && address < 0x1_0000_0000_0000_0000
      && 1 <= |shape| <= MAX_TENSOR_RANK && |stride| == |shape|
      && 1 <= elementSize <= 32
    }

    function Numel(): int {
      Product(shape)
    }
  }

  function Product(dims: seq<nat>): nat {
    if dims == [] then 1 else dims[0] * Product(dims[1..])
  }

  /** One live binding handed to a launch. */
  datatype Live = LiveScalar(v: Scalar) | LiveTensor(facts: Facts) | LiveOther(id: nat)

  datatype ArithmeticOp = Add | Sub | Mul
  datatype DivisionOp = FloorDiv | CeilDiv | Mod
  datatype ComparisonOp = Eq | Ne | Lt | Le | Gt | Ge

  /** What a node may read from the live bindings. */
  datatype Source =
    | ScalarOf(binding: nat)
    | DimOf(binding: nat, axis: nat)
    | StrideOf(binding: nat, axis: nat)
    | NumelOf(binding: nat)
    | OffsetOf(binding: nat)
    | ElementSizeOf(binding: nat)

  datatype Node =
    | Const(v: Scalar)
    | Read(source: Source)
    | Neg(a: nat)
    | Not(a: nat)
    | And(a: nat, b: nat)
    | Or(a: nat, b: nat)
    | Arithmetic(arithmetic: ArithmeticOp, a: nat, b: nat)
    | Division(division: DivisionOp, a: nat, b: nat)
    | Comparison(comparison: ComparisonOp, a: nat, b: nat)
    | Min(args: seq<nat>)
    | Max(args: seq<nat>)
    | Select(c: nat, a: nat, b: nat)
  {
    function Operands(): seq<nat> {
      match this
      case Neg(a) => [a]
      case Not(a) => [a]
      case And(a, b) => [a, b]
      case Or(a, b) => [a, b]
      case Arithmetic(_, a, b) => [a, b]
      case Division(_, a, b) => [a, b]
      case Comparison(_, a, b) => [a, b]
      case Min(args) => args
      case Max(args) => args
      case Select(c, a, b) => [c, a, b]
      case _ => []
    }

    predicate Sealed(fl: FloatOps) {
      && (Const? ==> InPolicy(v, fl))
      && (Read? ==> source.binding < MAX_BINDINGS)
      && (Read? && (source.DimOf? || source.StrideOf?) ==> source.axis < MAX_TENSOR_RANK)
      && (Min? || Max? ==> 1 <= |args| <= MAX_OPERANDS)
    }
  }

  datatype Expr = Expr(nodes: seq<Node>, result: nat) {
    predicate Sealed(fl: FloatOps) {
      && 1 <= |nodes| <= MAX_NODES
      && (forall i :: 0 <= i < |nodes| ==> nodes[i].Sealed(fl))
      && Ordered(nodes)
      && result < |nodes|
    }
  }

  /** Operands refer to earlier nodes only. */
  predicate Ordered(nodes: seq<Node>) {
    forall i, k :: 0 <= i < |nodes| && 0 <= k < |nodes[i].Operands()| ==> nodes[i].Operands()[k] < i
  }

  datatype EvalError =
    | MissingBinding | NotTensor | AxisOutside | TypesDiffer | DivisorNotPositive | OutsideInt64 | NotFiniteScalar

  /** Exact bool, signed 64-bit integer, or finite float. */
  predicate InPolicy(v: Scalar, fl: FloatOps) {
    match v
    case B(_) => true
    case I(i) => INT64_MIN <= i <= INT64_MAX
    case F(bits) => fl.finite(bits)
  }

  /** The policy's integers are exactly the signed 64-bit ones. */
  lemma PolicyIntegers(i: int, fl: FloatOps)
    ensures InPolicy(I(i), fl) <==> 0 - Pow2(63) <= i < Pow2(63)
  {
    Pow2Facts();
  }

  function Checked(v: Scalar, fl: FloatOps): (r: Result<Scalar, EvalError>)
    ensures r.Ok? ==> r.value == v && InPolicy(v, fl)
  {
    if InPolicy(v, fl) then Ok(v) else Err(if v.I? then OutsideInt64 else NotFiniteScalar)
  }

  // ---- Integer division, as Python's // and % behave for positive divisors ----

  function FloorQuotient(n: int, d: int): int
    requires d > 0
  {
    n / d
  }

  function CeilQuotient(n: int, d: int): int
    requires d > 0
  {
    -FloorQuotient(-n, d)
  }

  /** The true floor and the true ceiling, also below zero. */
  lemma QuotientsAreExact(n: int, d: int)
    requires d > 0
    ensures FloorQuotient(n, d) * d <= n < FloorQuotient(n, d) * d + d
    ensures CeilQuotient(n, d) * d - d < n <= CeilQuotient(n, d) * d
    ensures n % d == n - FloorQuotient(n, d) * d
  {
    assert n == (n / d) * d + n % d;
    assert -n == ((-n) / d) * d + (-n) % d;
    assert (-((-n) / d)) * d == -(((-n) / d) * d);
  }

  // ---- One node ----

  predicate SameType(a: Scalar, b: Scalar) {
    (a.B? && b.B?) || (a.I? && b.I?) || (a.F? && b.F?)
  }

  predicate Less(a: Scalar, b: Scalar, fl: FloatOps)
    requires SameType(a, b)
  {
    match a
    case B(x) => !x && b.b
    case I(i) => i < b.i
    case F(bits) => fl.less(bits, b.bits)
  }

  predicate Equal(a: Scalar, b: Scalar, fl: FloatOps)
    requires SameType(a, b)
  {
    match a
    case B(x) => x == b.b
    case I(i) => i == b.i
    case F(bits) => fl.same(bits, b.bits)
  }

  function Compare(op: ComparisonOp, a: Scalar, b: Scalar, fl: FloatOps): bool
    requires SameType(a, b)
  {
    match op
    case Eq => Equal(a, b, fl)
    case Ne => !Equal(a, b, fl)
    case Lt => Less(a, b, fl)
    case Le => Less(a, b, fl) || Equal(a, b, fl)
    case Gt => Less(b, a, fl)
    case Ge => Less(b, a, fl) || Equal(a, b, fl)
  }

  function Combine(op: ArithmeticOp, a: Scalar, b: Scalar, fl: FloatOps): Result<Scalar, EvalError> {
    match (a, b)
    case (I(x), I(y)) =>
      Ok(I(match op case Add => x + y case Sub => x - y case Mul => x * y))
    case (F(x), F(y)) =>
      Ok(F(match op case Add => fl.add(x, y) case Sub => fl.sub(x, y) case Mul => fl.mul(x, y)))
    case _ => Err(TypesDiffer)
  }

  function Divide(op: DivisionOp, a: Scalar, b: Scalar): Result<Scalar, EvalError> {
    match (a, b)
    case (I(x), I(y)) =>
      if y <= 0 then Err(DivisorNotPositive)
      else Ok(I(match op case FloorDiv => FloorQuotient(x, y) case CeilDiv => CeilQuotient(x, y) case Mod => x % y))
    case _ => Err(TypesDiffer)
  }

  /** The first extreme argument, scanning left to right. */
  function Extreme(args: seq<Scalar>, least: bool, fl: FloatOps): (r: Scalar)
    requires |args| >= 1 && forall x :: x in args ==> SameType(x, args[0])
    ensures r in args
  {
    if |args| == 1 then args[0]
    else
      var best, x := Extreme(args[..|args| - 1], least, fl), args[|args| - 1];
      assert best in args && SameType(best, args[0]) && SameType(x, args[0]);
      if (if least then Less(x, best, fl) else Less(best, x, fl)) then x else best
  }

  function ReadBinding(n: nat, frame: seq<Live>): Result<Live, EvalError> {
    if n < |frame| then Ok(frame[n]) else Err(MissingBinding)
  }

  function ReadTensor(n: nat, frame: seq<Live>): Result<Facts, EvalError> {
    if n >= |frame| then Err(MissingBinding)
    else if !frame[n].LiveTensor? then Err(NotTensor)
    else Ok(frame[n].facts)
  }

  function ReadSource(source: Source, frame: seq<Live>): Result<Scalar, EvalError> {
    if source.ScalarOf? then
      match ReadBinding(source.binding, frame)
      case Err(e) => Err(e)
      case Ok(live) => if live.LiveScalar? then Ok(live.v) else Err(NotFiniteScalar)
    else
      match ReadTensor(source.binding, frame)
      case Err(e) => Err(e)
      case Ok(facts) => ReadFact(source, facts)
  }

  function ReadFact(source: Source, facts: Facts): Result<Scalar, EvalError> {
    match source
    case DimOf(_, axis) => if axis < |facts.shape| then Ok(I(facts.shape[axis])) else Err(AxisOutside)
    case StrideOf(_, axis) => if axis < |facts.stride| then Ok(I(facts.stride[axis])) else Err(AxisOutside)
    case NumelOf(_) => Ok(I(facts.Numel()))
    case ElementSizeOf(_) => Ok(I(facts.elementSize))
    case OffsetOf(_) => Ok(I(facts.storageOffset))
    case ScalarOf(_) => Err(NotFiniteScalar)
  }

  function ExtremeOf(args: seq<Scalar>, least: bool, fl: FloatOps): Result<Scalar, EvalError> {
    if args == [] || args[0].B? || exists k :: 0 <= k < |args| && !SameType(args[k], args[0]) then Err(TypesDiffer)
    else Ok(Extreme(args, least, fl))
  }

  function Unchecked(node: Node, args: seq<Scalar>, frame: seq<Live>, fl: FloatOps): Result<Scalar, EvalError>
    requires |args| == |node.Operands()|
  {
    match node
    case Const(v) => Ok(v)
    case Read(source) => ReadSource(source, frame)
    case Neg(_) =>
      if args[0].B? then Err(TypesDiffer)
      else Ok(if args[0].I? then I(-args[0].i) else F(fl.negate(args[0].bits)))
    case Not(_) => if args[0].B? then Ok(B(!args[0].b)) else Err(TypesDiffer)
    case And(_, _) => if args[0].B? && args[1].B? then Ok(B(args[0].b && args[1].b)) else Err(TypesDiffer)
    case Or(_, _) => if args[0].B? && args[1].B? then Ok(B(args[0].b || args[1].b)) else Err(TypesDiffer)
    case Arithmetic(op, _, _) => Combine(op, args[0], args[1], fl)
    case Division(op, _, _) => Divide(op, args[0], args[1])
    case Comparison(op, _, _) =>
      if SameType(args[0], args[1]) then Ok(B(Compare(op, args[0], args[1], fl))) else Err(TypesDiffer)
    case Select(_, _, _) =>
      if args[0].B? && SameType(args[1], args[2]) then Ok(if args[0].b then args[1] else args[2]) else Err(TypesDiffer)
    case Min(_) => ExtremeOf(args, true, fl)
    case Max(_) => ExtremeOf(args, false, fl)
  }

  /** Apply one node to its operand values and check the result. */
  function Apply(node: Node, args: seq<Scalar>, frame: seq<Live>, fl: FloatOps): (r: Result<Scalar, EvalError>)
    requires |args| == |node.Operands()|
    ensures r.Ok? ==> InPolicy(r.value, fl)
  {
    match Unchecked(node, args, frame, fl)
    case Err(e) => Err(e)
    case Ok(v) => Checked(v, fl)
  }

  // ---- The recursive meaning ----

  function Meaning(nodes: seq<Node>, i: nat, frame: seq<Live>, fl: FloatOps): (r: Result<Scalar, EvalError>)
    requires Ordered(nodes) && i < |nodes|
    ensures r.Ok? ==> InPolicy(r.value, fl)
    decreases i, 1, 0
  {
    match Arguments(nodes, i, |nodes[i].Operands()|, frame, fl)
    case Err(e) => Err(e)
    case Ok(args) => Apply(nodes[i], args, frame, fl)
  }

  /** Meanings of the first `n` operands of node `i`. */
  function Arguments(nodes: seq<Node>, i: nat, n: nat, frame: seq<Live>, fl: FloatOps): (r: Result<seq<Scalar>,
                     EvalError>)
    requires Ordered(nodes) && i < |nodes| && n <= |nodes[i].Operands()|
    ensures r.Ok? ==> |r.value| == n
    decreases i, 0, n
  {
    if n == 0 then Ok([]) else
    match Arguments(nodes, i, n - 1, frame, fl)
    case Err(e) => Err(e)
    case Ok(args) =>
      match Meaning(nodes, nodes[i].Operands()[n - 1], frame, fl)
      case Err(e) => Err(e)
      case Ok(v) => Ok(args + [v])
  }

  /** The error of the first of nodes `0 .. n` that has no value. */
  function FirstFailure(nodes: seq<Node>, n: nat, frame: seq<Live>, fl: FloatOps): Option<EvalError>
    requires Ordered(nodes) && n <= |nodes|
  {
    if n == 0 then None
    else match FirstFailure(nodes, n - 1, frame, fl)
      case Some(e) => Some(e)
      case None =>
        match Meaning(nodes, n - 1, frame, fl)
        case Err(e) => Some(e)
        case Ok(_) => None
  }

  /** What evaluating an expression yields: every node is evaluated, needed or not. */
  function Evaluate(e: Expr, frame: seq<Live>, fl: FloatOps): (r: Result<Scalar, EvalError>)
    requires Ordered(e.nodes) && e.result < |e.nodes|
    ensures r.Ok? ==> InPolicy(r.value, fl)
  {
    match FirstFailure(e.nodes, |e.nodes|, frame, fl)
    case Some(err) => Err(err)
    case None => Meaning(e.nodes, e.result, frame, fl)
  }

  predicate HasValue(nodes: seq<Node>, i: nat, frame: seq<Live>, fl: FloatOps)
    requires Ordered(nodes) && i < |nodes|
  {
    Meaning(nodes, i, frame, fl).Ok?
  }

  lemma {:induction false} NoFailureMeansValues(nodes: seq<Node>, n: nat, frame: seq<Live>, fl: FloatOps)
    requires Ordered(nodes) && n <= |nodes|
    ensures FirstFailure(nodes, n, frame, fl).None? <==> forall i :: 0 <= i < n ==> HasValue(nodes, i, frame, fl)
  {
    hide Meaning;
    if n != 0 {
      NoFailureMeansValues(nodes, n - 1, frame, fl);
      assert HasValue(nodes, n - 1, frame, fl) <==> Meaning(nodes, n - 1, frame, fl).Ok?;
    }
  }

  /** Success is exactly: every node has a value, and the answer is the meaning of the result
      node.  So one unused failing node is enough to refuse. */
  lemma EvaluateMeaning(e: Expr, frame: seq<Live>, fl: FloatOps)
    requires Ordered(e.nodes) && e.result < |e.nodes|
    ensures Evaluate(e, frame, fl).Ok? <==> forall i :: 0 <= i < |e.nodes| ==> HasValue(e.nodes, i, frame, fl)
    ensures Evaluate(e, frame, fl).Ok? ==> Evaluate(e, frame, fl) == Meaning(e.nodes, e.result, frame, fl)
  {
    hide Meaning;
    NoFailureMeansValues(e.nodes, |e.nodes|, frame, fl);
    assert HasValue(e.nodes, e.result, frame, fl) <==> Meaning(e.nodes, e.result, frame, fl).Ok?;
  }

  // ---- What the nodes mean, independently of the evaluator ----

  /** The order of finite floats: comparing with one that is neither less nor greater changes
      nothing. */
  ghost predicate OrderLaws(fl: FloatOps) {
    && (forall a | fl.finite(a) :: !fl.less(a, a))
    && (forall a, b, c | fl.finite(a) && fl.finite(b) && fl.finite(c) && fl.less(a, b) && fl.less(b, c) ::
          fl.less(a, c))
    && (forall a, b, c | fl.finite(a) && fl.finite(b) && fl.finite(c) && fl.less(a, b) ::
          fl.less(a, c) || fl.less(c, b))
  }

  /** The named fact of the named live binding. */
  ghost predicate Supplies(source: Source, frame: seq<Live>, v: Scalar) {
    && source.binding < |frame|
    && var live := frame[source.binding];
       match source
       case ScalarOf(_) => live == LiveScalar(v)
       case DimOf(_, axis) => live.LiveTensor? && axis < |live.facts.shape| && v == I(live.facts.shape[axis])
       case StrideOf(_, axis) => live.LiveTensor? && axis < |live.facts.stride| && v == I(live.facts.stride[axis])
       case NumelOf(_) => live.LiveTensor? && v == I(Product(live.facts.shape))
       case OffsetOf(_) => live.LiveTensor? && v == I(live.facts.storageOffset)
       case ElementSizeOf(_) => live.LiveTensor? && v == I(live.facts.elementSize)
  }

  /** Integer comparison; booleans compare as 0 and 1. */
  ghost predicate Related(op: ComparisonOp, x: int, y: int) {
    match op
    case Eq => x == y
    case Ne => x < y || y < x
    case Lt => x < y
    case Le => x <= y
    case Gt => y < x
    case Ge => y <= x
  }

  ghost predicate FloatRelated(op: ComparisonOp, x: nat, y: nat, fl: FloatOps) {
    match op
    case Eq => fl.same(x, y)
    case Ne => !fl.same(x, y)
    case Lt => fl.less(x, y)
    case Le => fl.less(x, y) || fl.same(x, y)
    case Gt => fl.less(y, x)
    case Ge => fl.less(y, x) || fl.same(x, y)
  }

  ghost function AsInt(b: bool): int {
    if b then 1 else 0
  }

  ghost predicate ComparesTo(op: ComparisonOp, x: Scalar, y: Scalar, fl: FloatOps, answer: bool) {
    match (x, y)
    case (B(p), B(q)) => answer <==> Related(op, AsInt(p), AsInt(q))
    case (I(m), I(n)) => answer <==> Related(op, m, n)
    case (F(p), F(q)) => answer <==> FloatRelated(op, p, q, fl)
    case _ => false
  }

  /** Exact sums, differences and products; floats by the float operation of that name. */
  ghost predicate CombinesTo(op: ArithmeticOp, x: Scalar, y: Scalar, fl: FloatOps, v: Scalar) {
    match (x, y, v)
    case (I(m), I(n), I(r)) => (match op case Add => r - n == m case Sub => r + n == m case Mul => r == n * m)
    case (F(p), F(q), F(r)) =>
      (match op case Add => r == fl.add(p, q) case Sub => r == fl.sub(p, q) case Mul => r == fl.mul(p, q))
    case _ => false
  }

  /** The floor, the ceiling and the remainder of a division by a positive integer. */
  ghost predicate DividesTo(op: DivisionOp, x: Scalar, y: Scalar, v: Scalar) {
    && x.I? && y.I? && v.I? && y.i > 0
    && match op
       case FloorDiv => v.i * y.i <= x.i < v.i * y.i + y.i
       case CeilDiv => v.i * y.i - y.i < x.i <= v.i * y.i
       case Mod => 0 <= v.i < y.i && (x.i - v.i) % y.i == 0
  }

  ghost predicate Within(args: seq<nat>, table: seq<Scalar>) {
    forall k :: 0 <= k < |args| ==> args[k] < |table|
  }

  ghost function Values(args: seq<nat>, table: seq<Scalar>): (values: seq<Scalar>)
    requires Within(args, table)
    ensures |values| == |args| && forall k :: 0 <= k < |args| ==> values[k] == table[args[k]]
  {
    seq(|args|, k requires 0 <= k < |args| => table[args[k]])
  }

  /** One of the values, all of one numeric type, that no other undercuts (or exceeds); of floats the
      first such. */
  ghost predicate ExtremeAmong(values: seq<Scalar>, least: bool, fl: FloatOps, v: Scalar) {
    match v
    case B(_) => false
    case I(n) =>
      && v in values
      && forall x :: x in values ==> x.I? && if least then n <= x.i else x.i <= n
    case F(bits) =>
      && (forall x :: x in values ==> x.F?)
      && exists k :: FirstExtreme(values, least, fl, k) && values[k] == v
  }

  /** Every earlier float is worse, and no later one is better. */
  ghost predicate FirstExtreme(values: seq<Scalar>, least: bool, fl: FloatOps, k: int) {
    && 0 <= k < |values| && (forall x :: x in values ==> x.F?)
    && (forall j :: 0 <= j < k ==> Better(values[k].bits, values[j].bits, least, fl))
    && forall j :: k < j < |values| ==> !Better(values[j].bits, values[k].bits, least, fl)
  }

  ghost predicate Better(x: nat, y: nat, least: bool, fl: FloatOps) {
    if least then fl.less(x, y) else fl.less(y, x)
  }

  /** `v` is what the node says of the live bindings and of the values of the nodes it names. */
  ghost predicate Denotes(node: Node, table: seq<Scalar>, frame: seq<Live>, fl: FloatOps, v: Scalar) {
    match node
    case Const(c) => v == c
    case Read(source) => Supplies(source, frame, v)
    case Neg(a) =>
      && a < |table|
      && (match table[a] case B(_) => false case I(n) => v.I? && v.i + n == 0 case F(p) => v == F(fl.negate(p)))
    case Not(a) => a < |table| && table[a].B? && v.B? && v.b != table[a].b
    case And(a, b) =>
      a < |table| && b < |table| && table[a].B? && table[b].B? && v.B? && (v.b <==> table[b].b && table[a].b)
    case Or(a, b) =>
      a < |table| && b < |table| && table[a].B? && table[b].B? && v.B? && (!v.b <==> !table[a].b && !table[b].b)
    case Arithmetic(op, a, b) => a < |table| && b < |table| && CombinesTo(op, table[a], table[b], fl, v)
    case Division(op, a, b) => a < |table| && b < |table| && DividesTo(op, table[a], table[b], v)
    case Comparison(op, a, b) => a < |table| && b < |table| && v.B? && ComparesTo(op, table[a], table[b], fl, v.b)
    case Min(args) => Within(args, table) && ExtremeAmong(Values(args, table), true, fl, v)
    case Max(args) => Within(args, table) && ExtremeAmong(Values(args, table), false, fl, v)
    case Select(c, a, b) =>
      && c < |table| && a < |table| && b < |table| && table[c].B?
      && (table[a].I? == table[b].I? && table[a].B? == table[b].B?)
      && (table[c].b ==> v == table[a]) && (!table[c].b ==> v == table[b])
  }

  /** One value per node, each in the scalar policy and each what its node denotes. */
  ghost predicate Valuation(nodes: seq<Node>, table: seq<Scalar>, frame: seq<Live>, fl: FloatOps) {
    && |table| == |nodes|
    && forall i :: 0 <= i < |nodes| ==> InPolicy(table[i], fl) && Denotes(nodes[i], table, frame, fl, table[i])
  }

  // ---- The evaluator gives the one valuation, if there is one ----

  /** The argument values of a node are those of the nodes it names. */
  ghost predicate Gathered(node: Node, args: seq<Scalar>, table: seq<Scalar>) {
    && |args| == |node.Operands()|
    && forall k :: 0 <= k < |args| ==> node.Operands()[k] < |table| && args[k] == table[node.Operands()[k]]
  }

  lemma {:induction false} ExtremeOfInts(args: seq<Scalar>, least: bool, fl: FloatOps)
    requires |args| >= 1 && forall x :: x in args ==> x.I?
    ensures ExtremeAmong(args, least, fl, Extreme(args, least, fl))
  {
    if |args| > 1 {
      var front, last := args[..|args| - 1], args[|args| - 1];
      ExtremeOfInts(front, least, fl);
      assert args == front + [last];
      assert Extreme(front, least, fl) in args;
    }
  }

  /** What beats the best so far beats everything that does not. */
  lemma Beats(x: nat, best: nat, y: nat, least: bool, fl: FloatOps)
    requires OrderLaws(fl) && fl.finite(x) && fl.finite(best) && fl.finite(y)
    requires Better(x, best, least, fl) && (Better(best, y, least, fl) || !Better(y, best, least, fl))
    ensures Better(x, y, least, fl)
  {
  }

  ghost predicate FiniteFloats(args: seq<Scalar>, fl: FloatOps) {
    forall x :: x in args ==> x.F? && fl.finite(x.bits)
  }

  lemma ExtremeUnfolds(args: seq<Scalar>, least: bool, fl: FloatOps)
    requires |args| > 1 && FiniteFloats(args, fl) && FiniteFloats(args[..|args| - 1], fl)
    ensures var front, last := Extreme(args[..|args| - 1], least, fl), args[|args| - 1];
            && front.F? && last.F?
            && Extreme(args, least, fl) == if Better(last.bits, front.bits, least, fl) then last else front
  {
    assert args[|args| - 1] in args;
    assert Extreme(args[..|args| - 1], least, fl) in args[..|args| - 1];
  }

  lemma FirstIsInside(args: seq<Scalar>, least: bool, fl: FloatOps, k: nat)
    requires FirstExtreme(args, least, fl, k)
    ensures k < |args| && args[k].F?
  {
    assert args[k] in args;
  }

  lemma StillExtreme(args: seq<Scalar>, k: nat, last: Scalar, least: bool, fl: FloatOps)
    requires FirstExtreme(args, least, fl, k) && last.F? && !Better(last.bits, args[k].bits, least, fl)
    ensures FirstExtreme(args + [last], least, fl, k)
  {
    hide Better;
  }

  lemma NewExtreme(args: seq<Scalar>, k: nat, last: Scalar, least: bool, fl: FloatOps)
    requires OrderLaws(fl) && FiniteFloats(args, fl) && last.F? && fl.finite(last.bits)
    requires FirstExtreme(args, least, fl, k) && Better(last.bits, args[k].bits, least, fl)
    ensures FirstExtreme(args + [last], least, fl, |args|)
  {
    hide OrderLaws, Better;
    assert forall j :: 0 <= j < |args| ==> args[j] in args;
    forall j | 0 <= j < |args|
      ensures Better(last.bits, args[j].bits, least, fl)
    {
      if j != k {
        Beats(last.bits, args[k].bits, args[j].bits, least, fl);
      }
    }
  }

  lemma {:induction false} ExtremeOfFloats(args: seq<Scalar>, least: bool, fl: FloatOps) returns (k: nat)
    requires OrderLaws(fl) && |args| >= 1 && FiniteFloats(args, fl)
    ensures FirstExtreme(args, least, fl, k) && args[k] == Extreme(args, least, fl)
  {
    if |args| == 1 {
      k := 0;
    } else {
      hide OrderLaws, Extreme, Better, FirstExtreme;
      var n := |args| - 1;
      var front, last := args[..n], args[n];
      assert args == front + [last];
      k := ExtremeOfFloats(front, least, fl);
      assert last in args;
      FirstIsInside(front, least, fl, k);
      ExtremeUnfolds(args, least, fl);
      if Better(last.bits, front[k].bits, least, fl) {
        NewExtreme(front, k, last, least, fl);
        k := n;
      } else {
        StillExtreme(front, k, last, least, fl);
      }
    }
  }

  lemma ExtremeDenoted(args: seq<Scalar>, least: bool, fl: FloatOps)
    requires OrderLaws(fl) && ExtremeOf(args, least, fl).Ok? && forall x :: x in args ==> InPolicy(x, fl)
    ensures ExtremeAmong(args, least, fl, ExtremeOf(args, least, fl).value)
  {
    assert forall k :: 0 <= k < |args| ==> args[k] in args;
    if args[0].I? {
      ExtremeOfInts(args, least, fl);
    } else {
      var k := ExtremeOfFloats(args, least, fl);
    }
  }

  /** A value is computed exactly when the node denotes one. */
  lemma DenotedComputes(node: Node, args: seq<Scalar>, table: seq<Scalar>, frame: seq<Live>, fl: FloatOps, v: Scalar)
    requires Gathered(node, args, table) && Denotes(node, table, frame, fl, v)
    ensures Unchecked(node, args, frame, fl).Ok?
  {
    hide Extreme;
    match node
    case Min(names) => assert args == Values(names, table) && forall k :: 0 <= k < |args| ==> args[k] in args;
    case Max(names) => assert args == Values(names, table) && forall k :: 0 <= k < |args| ==> args[k] in args;
    case _ =>
  }

  /** What is computed is what the node denotes. */
  lemma UncheckedDenotes(node: Node, args: seq<Scalar>, table: seq<Scalar>, frame: seq<Live>, fl: FloatOps)
    requires OrderLaws(fl) && Gathered(node, args, table) && forall x :: x in args ==> InPolicy(x, fl)
    requires Unchecked(node, args, frame, fl).Ok?
    ensures Denotes(node, table, frame, fl, Unchecked(node, args, frame, fl).value)
  {
    hide OrderLaws, Extreme, ExtremeAmong;
    match node
    case Division(op, _, _) => DivideDenotes(op, args[0], args[1]);
    case Min(names) =>
      assert args == Values(names, table);
      ExtremeDenoted(args, true, fl);
    case Max(names) =>
      assert args == Values(names, table);
      ExtremeDenoted(args, false, fl);
    case _ =>
  }

  lemma DivideDenotes(op: DivisionOp, x: Scalar, y: Scalar)
    requires Divide(op, x, y).Ok?
    ensures DividesTo(op, x, y, Divide(op, x, y).value)
  {
    QuotientsAreExact(x.i, y.i);
    hide FloorQuotient, CeilQuotient;
    if op.Mod? {
      RemainderLeavesMultiple(x.i, y.i);
    }
  }

  lemma RemainderLeavesMultiple(n: int, d: int)
    requires d > 0
    ensures (n - n % d) % d == 0
  {
    var q := n / d;
    assert n - n % d == q * d + 0;
    ModUnique(n - n % d, d, q, 0);
  }

  lemma QuotientUnique(op: DivisionOp, x: Scalar, y: Scalar, v: Scalar, w: Scalar)
    requires DividesTo(op, x, y, v) && DividesTo(op, x, y, w)
    ensures v == w
  {
    var d := y.i;
    match op
    case FloorDiv =>
      DivUnique(x.i, d, v.i);
      DivUnique(x.i, d, w.i);
    case CeilDiv =>
      DivUnique(x.i + d - 1, d, v.i);
      DivUnique(x.i + d - 1, d, w.i);
    case Mod =>
      RemainderUnique(x.i, d, v.i);
      RemainderUnique(x.i, d, w.i);
  }

  lemma ExtremeUnique(values: seq<Scalar>, least: bool, fl: FloatOps, v: Scalar, w: Scalar)
    requires ExtremeAmong(values, least, fl, v) && ExtremeAmong(values, least, fl, w)
    ensures v == w
  {
    if v.F? {
      var j :| FirstExtreme(values, least, fl, j) && values[j] == v;
      var k :| FirstExtreme(values, least, fl, k) && values[k] == w;
    }
  }

  /** A node denotes at most one value. */
  lemma DenotesOne(node: Node, table: seq<Scalar>, frame: seq<Live>, fl: FloatOps, v: Scalar, w: Scalar)
    requires Denotes(node, table, frame, fl, v) && Denotes(node, table, frame, fl, w)
    ensures v == w
  {
    hide ExtremeAmong, DividesTo;
    match node
    case Division(op, a, b) => QuotientUnique(op, table[a], table[b], v, w);
    case Min(args) => ExtremeUnique(Values(args, table), true, fl, v, w);
    case Max(args) => ExtremeUnique(Values(args, table), false, fl, v, w);
    case _ =>
  }

  /** What a node denotes, it evaluates to, unless the scalar policy refuses it. */
  lemma DenotedApplies(node: Node, args: seq<Scalar>, table: seq<Scalar>, frame: seq<Live>, fl: FloatOps, v: Scalar)
    requires OrderLaws(fl) && Gathered(node, args, table) && forall x :: x in args ==> InPolicy(x, fl)
    requires Denotes(node, table, frame, fl, v) && InPolicy(v, fl)
    ensures Apply(node, args, frame, fl) == Ok(v)
  {
    var r := Unchecked(node, args, frame, fl);
    DenotedComputes(node, args, table, frame, fl, v);
    UncheckedDenotes(node, args, table, frame, fl);
    DenotesOne(node, table, frame, fl, r.value, v);
  }

  // ---- The list evaluator ----

  /** The list holds the meanings of the first nodes. */
  ghost predicate Tabulates(values: seq<Scalar>, nodes: seq<Node>, frame: seq<Live>, fl: FloatOps)
    requires Ordered(nodes) && |values| <= |nodes|
  {
    forall k :: 0 <= k < |values| ==> Meaning(nodes, k, frame, fl) == Ok(values[k])
  }

  /** Every node is evaluated: a node nobody uses can fail the expression, although the result node
      has a meaning. */
  lemma UnusedNodeFails(fl: FloatOps)
    ensures var e := Expr([Read(ScalarOf(0)), Const(I(7))], 1);
            && e.Sealed(fl)
            && Meaning(e.nodes, e.result, [], fl) == Ok(I(7))
            && Evaluate(e, [], fl) == Err(MissingBinding)
  {
    var e := Expr([Read(ScalarOf(0)), Const(I(7))], 1);
    assert e.nodes[0].Operands() == [] && e.nodes[1].Operands() == [];
    assert Meaning(e.nodes, 0, [], fl) == Err(MissingBinding);
    assert FirstFailure(e.nodes, 1, [], fl) == Some(MissingBinding);
  }

  lemma {:induction false} GatheredArguments(nodes: seq<Node>, i: nat, n: nat, values: seq<Scalar>, args: seq<Scalar>,
                                             frame: seq<Live>, fl: FloatOps)
    requires Ordered(nodes) && i < |nodes| && n <= |nodes[i].Operands()| && |values| == i && |args| == n
    requires Tabulates(values, nodes, frame, fl)
    requires forall k :: 0 <= k < n ==> args[k] == values[nodes[i].Operands()[k]]
    ensures Arguments(nodes, i, n, frame, fl) == Ok(args)
  {
    hide Meaning;
    if n != 0 {
      GatheredArguments(nodes, i, n - 1, values, args[..n - 1], frame, fl);
      assert args[..n - 1] + [args[n - 1]] == args;
      assert Meaning(nodes, nodes[i].Operands()[n - 1], frame, fl) == Ok(args[n - 1]);
    } else {
      assert args == [];
    }
  }

  lemma {:induction false} FailureStays(nodes: seq<Node>, n: nat, frame: seq<Live>, fl: FloatOps)
    requires Ordered(nodes) && n <= |nodes| && FirstFailure(nodes, n, frame, fl).Some?
    ensures FirstFailure(nodes, |nodes|, frame, fl) == FirstFailure(nodes, n, frame, fl)
    decreases |nodes| - n
  {
    hide Meaning;
    if n < |nodes| {
      FailureStays(nodes, n + 1, frame, fl);
    }
  }

  /** One step of the list evaluator agrees with the recursive meaning. */
  lemma StepMeaning(nodes: seq<Node>, i: nat, values: seq<Scalar>, args: seq<Scalar>, frame: seq<Live>, fl: FloatOps)
    requires Ordered(nodes) && i < |nodes| && |values| == i && |args| == |nodes[i].Operands()|
    requires Tabulates(values, nodes, frame, fl)
    requires forall k :: 0 <= k < |args| ==> args[k] == values[nodes[i].Operands()[k]]
    ensures Meaning(nodes, i, frame, fl) == Apply(nodes[i], args, frame, fl)
  {
    hide Apply, Arguments, Tabulates;
    GatheredArguments(nodes, i, |args|, values, args, frame, fl);
  }

  /** Values are appended node by node; each operand is looked up in the list. */
  method EvaluateList(e: Expr, frame: seq<Live>, fl: FloatOps) returns (r: Result<Scalar, EvalError>)
    requires e.Sealed(fl)
    ensures r == Evaluate(e, frame, fl)
    ensures OrderLaws(fl) && r.Ok? ==>
              exists table :: Valuation(e.nodes, table, frame, fl) && table[e.result] == r.value
    ensures OrderLaws(fl) && r.Err? ==> forall table :: !Valuation(e.nodes, table, frame, fl)
  {
    hide Meaning, Apply, OrderLaws, Valuation;
    if OrderLaws(fl) {
      EvaluateIsValuation(e, frame, fl);
    }
    var nodes := e.nodes;
    var values: seq<Scalar> := [];
    for i := 0 to |nodes|
      invariant |values| == i && Tabulates(values, nodes, frame, fl)
      invariant FirstFailure(nodes, i, frame, fl).None?
    {
      var operands := nodes[i].Operands();
      assert forall k :: 0 <= k < |operands| ==> operands[k] < i;
      var args := seq(|operands|, k requires 0 <= k < |operands| => values[operands[k]]);
      StepMeaning(nodes, i, values, args, frame, fl);
      var v := Apply(nodes[i], args, frame, fl);
      if v.Err? {
        FailureStays(nodes, i + 1, frame, fl);
        return Err(v.error);
      }
      values := values + [v.value];
    }
    return Ok(values[e.result]);
  }

  // ---- The evaluator and the valuations ----

  lemma GatheredFrom(nodes: seq<Node>, table: seq<Scalar>, i: nat) returns (args: seq<Scalar>)
    requires Ordered(nodes) && i < |nodes| && |table| == |nodes|
    ensures Gathered(nodes[i], args, table)
    ensures forall k :: 0 <= k < |args| ==> nodes[i].Operands()[k] < i && args[k] == table[..i][nodes[i].Operands()[k]]
  {
    var operands := nodes[i].Operands();
    assert forall k :: 0 <= k < |operands| ==> operands[k] < i;
    args := seq(|operands|, k requires 0 <= k < |operands| => table[operands[k]]);
  }

  /** The values of any valuation are the meanings of the nodes. */
  lemma {:induction false} ValuationIsMeaning(nodes: seq<Node>, table: seq<Scalar>, i: nat, frame: seq<Live>,
                                              fl: FloatOps)
    requires OrderLaws(fl) && Ordered(nodes) && i < |nodes| && Valuation(nodes, table, frame, fl)
    ensures Meaning(nodes, i, frame, fl) == Ok(table[i])
  {
    hide OrderLaws, Denotes, Apply, Meaning;
    forall k | 0 <= k < i
      ensures Meaning(nodes, k, frame, fl) == Ok(table[..i][k])
    {
      ValuationIsMeaning(nodes, table, k, frame, fl);
    }
    var args := GatheredFrom(nodes, table, i);
    StepMeaning(nodes, i, table[..i], args, frame, fl);
    DenotedApplies(nodes[i], args, table, frame, fl, table[i]);
  }

  /** The meanings of the nodes, if all have one, are a valuation. */
  lemma MeaningsAreValuation(nodes: seq<Node>, table: seq<Scalar>, frame: seq<Live>, fl: FloatOps)
    requires OrderLaws(fl) && Ordered(nodes) && |table| == |nodes| && Tabulates(table, nodes, frame, fl)
    ensures Valuation(nodes, table, frame, fl)
  {
    hide OrderLaws, Denotes, Unchecked, Meaning;
    forall i | 0 <= i < |nodes|
      ensures InPolicy(table[i], fl) && Denotes(nodes[i], table, frame, fl, table[i])
    {
      var args := GatheredFrom(nodes, table, i);
      assert forall k :: 0 <= k < |table| ==> Meaning(nodes, k, frame, fl) == Ok(table[k]);
      StepMeaning(nodes, i, table[..i], args, frame, fl);
      UncheckedDenotes(nodes[i], args, table, frame, fl);
    }
  }

  /** Evaluation succeeds exactly if the expression has a valuation, with its value at the result
      node. */
  lemma EvaluateIsValuation(e: Expr, frame: seq<Live>, fl: FloatOps)
    requires OrderLaws(fl) && Ordered(e.nodes) && e.result < |e.nodes|
    ensures Evaluate(e, frame, fl).Ok? ==>
              exists table :: Valuation(e.nodes, table, frame, fl) && table[e.result] == Evaluate(e, frame, fl).value
    ensures Evaluate(e, frame, fl).Err? ==> forall table :: !Valuation(e.nodes, table, frame, fl)
    ensures forall table :: Valuation(e.nodes, table, frame, fl) ==> Evaluate(e, frame, fl) == Ok(table[e.result])
  {
    hide OrderLaws, Meaning, Valuation;
    EvaluateMeaning(e, frame, fl);
    if Evaluate(e, frame, fl).Ok? {
      var table := seq(|e.nodes|, i requires 0 <= i < |e.nodes| =>
        assert HasValue(e.nodes, i, frame, fl); Meaning(e.nodes, i, frame, fl).value);
      forall i | 0 <= i < |table|
        ensures Meaning(e.nodes, i, frame, fl) == Ok(table[i])
      {
        assert HasValue(e.nodes, i, frame, fl);
      }
      MeaningsAreValuation(e.nodes, table, frame, fl);
    }
    forall table | Valuation(e.nodes, table, frame, fl)
      ensures |table| == |e.nodes| && Evaluate(e, frame, fl) == Ok(table[e.result])
    {
      ValuationCovers(e.nodes, table, frame, fl);
      forall i | 0 <= i < |e.nodes|
        ensures HasValue(e.nodes, i, frame, fl)
      {
        ValuationIsMeaning(e.nodes, table, i, frame, fl);
      }
      ValuationIsMeaning(e.nodes, table, e.result, frame, fl);
    }
  }

  lemma ValuationCovers(nodes: seq<Node>, table: seq<Scalar>, frame: seq<Live>, fl: FloatOps)
    requires Valuation(nodes, table, frame, fl)
    ensures |table| == |nodes|
  {
  }

  /** An element count is the product of the dimensions: that of one dimension is the dimension, and
      that of a concatenation is the product of the counts. */
  lemma {:induction false} ProductSplits(a: seq<nat>, b: seq<nat>)
    ensures Product(a + b) == Product(a) * Product(b)
    ensures |a| == 1 ==> Product(a) == a[0]
  {
    if a == [] {
      assert a + b == b;
    } else {
      assert (a + b)[1..] == a[1..] + b;
      ProductSplits(a[1..], b);
      hide Product;
      MulAssociates(a[0], Product(a[1..]), Product(b));
    }
  }

  // ---- Static binding validation ----

  datatype Kind = KScalar | KTensor | KPointer | KOpaque | KGroup | KStream | KAggregate

  /** Every reference names an existing binding of the right kind. */
  predicate ReferencesValid(nodes: seq<Node>, kinds: seq<Kind>) {
    forall i :: 0 <= i < |nodes| && nodes[i].Read? ==>
      var source := nodes[i].source;
      source.binding < |kinds| && kinds[source.binding] == (if source.ScalarOf? then KScalar else KTensor)
  }

  /** A live frame of the declared kinds. */
  predicate Conforms(frame: seq<Live>, kinds: seq<Kind>) {
    && |frame| == |kinds|
    && forall i :: 0 <= i < |frame| ==>
         && (kinds[i] == KScalar ==> frame[i].LiveScalar?)
         && (kinds[i] == KTensor ==> frame[i].LiveTensor? && frame[i].facts.Valid())
  }

  predicate Dangling(e: EvalError) {
    e in {MissingBinding, NotTensor}
  }

  lemma ApplyNotDangling(node: Node, args: seq<Scalar>, frame: seq<Live>, kinds: seq<Kind>, fl: FloatOps)
    requires |args| == |node.Operands()| && ReferencesValid([node], kinds) && Conforms(frame, kinds)
    ensures Apply(node, args, frame, fl).Err? ==> !Dangling(Apply(node, args, frame, fl).error)
  {
    hide Extreme;
    assert [node][0] == node;
  }

  lemma {:induction false} NoDanglingNode(nodes: seq<Node>, i: nat, n: nat, frame: seq<Live>, kinds: seq<Kind>,
                                          fl: FloatOps)
    requires Ordered(nodes) && i < |nodes| && n <= |nodes[i].Operands()|
    requires ReferencesValid(nodes, kinds) && Conforms(frame, kinds)
    ensures Arguments(nodes, i, n, frame, fl).Err? ==> !Dangling(Arguments(nodes, i, n, frame, fl).error)
    ensures n == |nodes[i].Operands()| && Meaning(nodes, i, frame, fl).Err? ==>
              !Dangling(Meaning(nodes, i, frame, fl).error)
    decreases i, n
  {
    hide Apply, Dangling, Conforms;
    var args := Arguments(nodes, i, n, frame, fl);
    if args.Ok? && n == |nodes[i].Operands()| {
      assert [nodes[i]][0] == nodes[i];
      ApplyNotDangling(nodes[i], args.value, frame, kinds, fl);
    }
    if n > 0 {
      NoDanglingNode(nodes, i, n - 1, frame, kinds, fl);
      var k := nodes[i].Operands()[n - 1];
      NoDanglingNode(nodes, k, |nodes[k].Operands()|, frame, kinds, fl);
    }
  }

  /** A reference that was validated statically is never missing, nor the wrong kind, at run time. */
  lemma NoDanglingReference(e: Expr, frame: seq<Live>, kinds: seq<Kind>, fl: FloatOps)
    requires Ordered(e.nodes) && e.result < |e.nodes|
    requires ReferencesValid(e.nodes, kinds) && Conforms(frame, kinds)
    ensures Evaluate(e, frame, fl).Err? ==> !Dangling(Evaluate(e, frame, fl).error)
  {
    FirstFailureNotDangling(e.nodes, |e.nodes|, frame, kinds, fl);
    NoDanglingNode(e.nodes, e.result, |e.nodes[e.result].Operands()|, frame, kinds, fl);
  }

  lemma {:induction false} FirstFailureNotDangling(nodes: seq<Node>, n: nat, frame: seq<Live>, kinds: seq<Kind>,
                                                   fl: FloatOps)
    requires Ordered(nodes) && n <= |nodes|
    requires ReferencesValid(nodes, kinds) && Conforms(frame, kinds)
    ensures FirstFailure(nodes, n, frame, fl).Some? ==> !Dangling(FirstFailure(nodes, n, frame, fl).value)
  {
    if n != 0 {
      FirstFailureNotDangling(nodes, n - 1, frame, kinds, fl);
      NoDanglingNode(nodes, n - 1, |nodes[n - 1].Operands()|, frame, kinds, fl);
    }
  }
}
