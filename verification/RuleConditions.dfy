/** The rule condition language: whitelist, evaluator, and ordinary Python semantics to compare it with. */
module RuleConditions {
  import opened Wrappers

  // ---------------------------------------------------------------- syntax and values

  datatype BoolOperator = And | Or
  datatype UnaryOperator = Not | USub | UAdd | Invert
  datatype BinOperator = Add | Sub | Mult | Div | Mod | Pow | FloorDiv | MatMult | LShift | RShift | BitOr | BitXor |
    BitAnd
  datatype CmpOperator = Eq | NotEq | Lt | LtE | Gt | GtE | In | NotIn | Is | IsNot

  datatype Expr =
    | Constant(value: Value)
    | Name(id: string)
    | Attribute(base: Expr, attr: string)
    | TupleExpr(elts: seq<Expr>)
    | ListExpr(elts: seq<Expr>)
    | BoolOp(bop: BoolOperator, values: seq<Expr>)
    | UnaryOp(uop: UnaryOperator, operand: Expr)
    | BinOp(lhs: Expr, op: BinOperator, rhs: Expr)
    | Compare(left: Expr, ops: seq<CmpOperator>, comparators: seq<Expr>)
    | Call(func: Expr, args: seq<Expr>, keywords: seq<Expr>)
    | OtherNode(kind: string, children: seq<Expr>)  // lambdas, subscripts, starred arguments, ...

  datatype Value =
    | NoneValue
    | Bool(b: bool)
    | Number(n: real)
    | Str(s: string)
    | TupleValue(items: seq<Value>)
    | ListValue(items: seq<Value>)
    | DictValue(entries: map<string, Value>)
    | Object(handle: nat)  // datetimes and building objects

  /** MissingHandler, UnknownOperator and DisallowedCall are the resolver's own "cannot happen" errors. */
  datatype Error =
    | MissingHandler
    | UnknownOperator
    | DisallowedCall
    | NameNotFound(id: string)
    | AttributeNotFound(attr: string)
    | Raised

  type Outcome<+T> = Result<T, Error>

  /** What Python's runtime contributes; None stands for a raised exception. */
  datatype Runtime = Runtime(
    binary: (BinOperator, Value, Value) -> Option<Value>,
    compare: (CmpOperator, Value, Value) -> Option<bool>,
    objectTruth: nat -> Option<bool>,
    getattr: (Value, string) -> Option<Value>,
    isoweekday: Value -> Option<int>,
    parseTime: Value -> Option<int>,  // strptime "%H:%M", in microseconds of the day
    timeOfDay: Value -> Option<int>)

  type Context = map<string, Value>

  function OrRaised<T>(o: Option<T>): Outcome<T> {
    match o case Some(v) => Ok(v) case None => Err(Raised)
  }

  /** bool(v) */
  function Truth(rt: Runtime, v: Value): Outcome<bool> {
    match v
    case NoneValue => Ok(false)
    case Bool(b) => Ok(b)
    case Number(n) => Ok(n != 0.0)
    case Str(s) => Ok(s != "")
    case TupleValue(items) => Ok(items != [])
    case ListValue(items) => Ok(items != [])
    case DictValue(entries) => Ok(entries != map[])
    case Object(h) => OrRaised(rt.objectTruth(h))
  }

  function TruthOf(rt: Runtime, o: Outcome<Value>): Outcome<bool> {
    match o case Ok(v) => Truth(rt, v) case Err(e) => Err(e)
  }

  predicate Numeric(v: Value) { v.Bool? || v.Number? }

  /** A Python bool is the number 0 or 1. */
  function AsNumber(v: Value): real
    requires Numeric(v)
  {
    match v case Bool(b) => if b then 1.0 else 0.0 case Number(n) => n
  }

  function CompareValues(rt: Runtime, op: CmpOperator, a: Value, b: Value): Option<bool> {
    if Numeric(a) && Numeric(b) then
      match op
      case Eq => Some(AsNumber(a) == AsNumber(b))
      case NotEq => Some(AsNumber(a) != AsNumber(b))
      case Lt => Some(AsNumber(a) < AsNumber(b))
      case LtE => Some(AsNumber(a) <= AsNumber(b))
      case Gt => Some(AsNumber(a) > AsNumber(b))
      case GtE => Some(AsNumber(a) >= AsNumber(b))
      case _ => rt.compare(op, a, b)
    else rt.compare(op, a, b)
  }

  // ---------------------------------------------------------------- the schedule helper

  function Entry(schedule: map<string, Value>, key: string, default: Value): Value {
    if key in schedule then schedule[key] else default
  }

  /** The body of the try block of within; None where Python raises. */
  function WithinBody(rt: Runtime, schedule: Value, ts: Value): Option<bool> {
    match rt.isoweekday(ts)
    case None => None
    case Some(day) =>
      if !schedule.DictValue? then None
      else
        var d := schedule.entries;
        match CompareValues(rt, In, Number(day as real), Entry(d, "days", ListValue([])))
        case None => None
        case Some(false) => Some(false)
        case Some(true) =>
          match (rt.parseTime(Entry(d, "start", Str("00:00"))), rt.parseTime(Entry(d, "end", Str("23:59"))),
                 rt.timeOfDay(ts))
          case (Some(start), Some(end), Some(t)) => Some(start <= t <= end)
          case _ => None
  }

  function Within(rt: Runtime, schedule: Value, ts: Value): Outcome<bool> {
    var declared :- Truth(rt, schedule);
    if !declared then Ok(false) else Ok(WithinBody(rt, schedule, ts) == Some(true))
  }

  function CallWithin(rt: Runtime, args: seq<Value>): Outcome<Value> {
    if |args| != 2 then Err(Raised)
    else
      var r :- Within(rt, args[0], args[1]);
      Ok(Bool(r))
  }

  const MICROSECONDS := 86_400_000_000

  /** Instants exist for every weekday and every time of day, and for no others; parsed clock times are times of day. */
  ghost predicate FullClock(rt: Runtime) {
    && (forall ts :: rt.isoweekday(ts).Some? ==> 1 <= rt.isoweekday(ts).value <= 7)
    && (forall v :: rt.parseTime(v).Some? ==> 0 <= rt.parseTime(v).value < MICROSECONDS)
    && (forall day, time | 1 <= day <= 7 && 0 <= time < MICROSECONDS :: ClockShows(rt, day, time))
  }

  ghost predicate ClockShows(rt: Runtime, day: int, time: int) {
    exists ts :: rt.isoweekday(ts) == Some(day) && rt.timeOfDay(ts) == Some(time)
  }

  predicate DayListed(rt: Runtime, entries: map<string, Value>, day: int) {
    CompareValues(rt, In, Number(day as real), Entry(entries, "days", ListValue([]))) == Some(true)
  }

  /** Both ends parse, and the start does not lie after the end. */
  predicate ClockOrdered(rt: Runtime, entries: map<string, Value>) {
    match (rt.parseTime(Entry(entries, "start", Str("00:00"))), rt.parseTime(Entry(entries, "end", Str("23:59"))))
    case (Some(start), Some(end)) => start <= end
    case _ => false
  }

  /** A schedule contains some instant exactly when it is not empty, its clock times are in order and it lists a day. */
  lemma ScheduleHasInstantExactly(rt: Runtime, entries: map<string, Value>)
    requires FullClock(rt)
    ensures (exists ts :: Within(rt, DictValue(entries), ts) == Ok(true)) <==>
            entries != map[] && ClockOrdered(rt, entries) && exists day | 1 <= day <= 7 :: DayListed(rt, entries, day)
  {
    if entries != map[] && ClockOrdered(rt, entries) {
      if day :| 1 <= day <= 7 && DayListed(rt, entries, day) {
        var start := rt.parseTime(Entry(entries, "start", Str("00:00"))).value;
        assert ClockShows(rt, day, start);
        var ts :| rt.isoweekday(ts) == Some(day) && rt.timeOfDay(ts) == Some(start);
        assert Within(rt, DictValue(entries), ts) == Ok(true);
      }
    }
    if ts :| Within(rt, DictValue(entries), ts) == Ok(true) {
      assert DayListed(rt, entries, rt.isoweekday(ts).value);
    }
  }

  // ---------------------------------------------------------------- the whitelist

  predicate AllowedBinary(op: BinOperator) {
    op in {Add, Sub, Mult, Div, Mod, Pow, FloorDiv}
  }

  predicate AllowedComparison(op: CmpOperator) {
    op != Is && op != IsNot
  }

  predicate IsWithin(func: Expr) { func.Name? && func.id == "within" }

  predicate IsIsoweekday(func: Expr) { func.Attribute? && func.attr == "isoweekday" }

  /** _SafeEvalVisitor: true when visiting the tree raises nothing. */
  predicate Accepts(e: Expr) {
    match e
    case Constant(_) => true
    case Name(_) => true
    case Attribute(base, _) => Accepts(base)
    case TupleExpr(elts) => AcceptsAll(elts)
    case ListExpr(elts) => AcceptsAll(elts)
    case BoolOp(_, values) => AcceptsAll(values)
    case UnaryOp(uop, operand) => uop == Not && Accepts(operand)
    case BinOp(lhs, op, rhs) => Accepts(lhs) && AllowedBinary(op) && Accepts(rhs)
    case Compare(left, ops, comparators) =>
      Accepts(left) && (forall i | 0 <= i < |ops| :: AllowedComparison(ops[i])) && AcceptsAll(comparators)
    case Call(func, args, keywords) =>
      (IsWithin(func) || IsIsoweekday(func)) && Accepts(func) && AcceptsAll(args) && keywords == []
    case OtherNode(_, _) => false
  }

  predicate AcceptsAll(es: seq<Expr>) {
    es == [] || (Accepts(es[0]) && AcceptsAll(es[1..]))
  }

  // ---------------------------------------------------------------- the evaluator

  function Eval(rt: Runtime, ctx: Context, e: Expr): Outcome<Value>
    decreases e
  {
    match e
    case Constant(v) => Ok(v)
    case Name(id) => if id in ctx then Ok(ctx[id]) else Err(NameNotFound(id))
    case Attribute(base, attr) =>
      var obj :- Eval(rt, ctx, base);
      GetAttribute(rt, obj, attr)
    case TupleExpr(elts) =>
      var vs :- EvalAll(rt, ctx, elts);
      Ok(TupleValue(vs))
    case ListExpr(elts) =>
      var vs :- EvalAll(rt, ctx, elts);
      Ok(ListValue(vs))
    case BoolOp(bop, values) =>
      var r :- EvalJunction(rt, ctx, bop == And, values);
      Ok(Bool(r))
    case UnaryOp(uop, operand) =>
      if uop != Not then Err(UnknownOperator)
      else
        var v :- Eval(rt, ctx, operand);
        var t :- Truth(rt, v);
        Ok(Bool(!t))
    case BinOp(lhs, op, rhs) =>
      var a :- Eval(rt, ctx, lhs);
      var b :- Eval(rt, ctx, rhs);
      if AllowedBinary(op) then OrRaised(rt.binary(op, a, b)) else Err(UnknownOperator)
    case Compare(left, ops, comparators) =>
      var a :- Eval(rt, ctx, left);
      EvalChain(rt, ctx, a, ops, comparators)
    case Call(func, args, _) =>
      if IsWithin(func) then
        var vs :- EvalAll(rt, ctx, args);
        CallWithin(rt, vs)
      else if IsIsoweekday(func) then
        var obj :- Eval(rt, ctx, func.base);
        var day :- OrRaised(rt.isoweekday(obj));
        Ok(Number(day as real))
      else Err(DisallowedCall)
    case OtherNode(_, _) => Err(MissingHandler)
  }

  function GetAttribute(rt: Runtime, obj: Value, attr: string): Outcome<Value> {
    if obj.DictValue? then
      if attr in obj.entries then Ok(obj.entries[attr]) else Err(AttributeNotFound(attr))
    else
      match rt.getattr(obj, attr) case Some(v) => Ok(v) case None => Err(AttributeNotFound(attr))
  }

  function EvalAll(rt: Runtime, ctx: Context, es: seq<Expr>): Outcome<seq<Value>>
    decreases es
  {
    if es == [] then Ok([])
    else
      var v :- Eval(rt, ctx, es[0]);
      var vs :- EvalAll(rt, ctx, es[1..]);
      Ok([v] + vs)
  }

  /** all(...) when conj, any(...) otherwise: stops at the first operand that decides, and yields a bool. */
  function EvalJunction(rt: Runtime, ctx: Context, conj: bool, es: seq<Expr>): Outcome<bool>
    decreases es
  {
    if es == [] then Ok(conj)
    else
      var v :- Eval(rt, ctx, es[0]);
      var t :- Truth(rt, v);
      if t != conj then Ok(t) else EvalJunction(rt, ctx, conj, es[1..])
  }

  /** The comparison loop once the left operand is known. */
  function EvalChain(rt: Runtime, ctx: Context, a: Value, ops: seq<CmpOperator>, comparators: seq<Expr>): Outcome<Value>
    decreases comparators
  {
    if ops == [] && comparators == [] then Ok(Bool(true))
    else if ops == [] || comparators == [] then Err(Raised)
    else
      var b :- Eval(rt, ctx, comparators[0]);
      if !AllowedComparison(ops[0]) then Err(UnknownOperator)
      else
        var holds :- OrRaised(CompareValues(rt, ops[0], a, b));
        if !holds then Ok(Bool(false)) else EvalChain(rt, ctx, b, ops[1..], comparators[1..])
  }

  /** The loop of eval_Compare, which keeps the last operand in left. */
  method EvalCompare(rt: Runtime, ctx: Context, node: Expr) returns (r: Outcome<Value>)
    requires node.Compare?
    ensures r == Eval(rt, ctx, node)
  {
    var first := Eval(rt, ctx, node.left);
    if first.Err? {
      return first;
    }
    var left := first.value;
    var i := 0;
    while i < |node.ops| && i < |node.comparators|
      invariant 0 <= i <= |node.ops| && i <= |node.comparators|
      invariant Eval(rt, ctx, node) == EvalChain(rt, ctx, left, node.ops[i..], node.comparators[i..])
    {
      var right := Eval(rt, ctx, node.comparators[i]);
      if right.Err? {
        return right;
      }
      if !AllowedComparison(node.ops[i]) {
        return Err(UnknownOperator);
      }
      var holds := CompareValues(rt, node.ops[i], left, right.value);
      if holds.None? {
        return Err(Raised);
      }
      if !holds.value {
        return Ok(Bool(false));
      }
      left := right.value;
      assert node.ops[i..][1..] == node.ops[i + 1..] && node.comparators[i..][1..] == node.comparators[i + 1..];
      i := i + 1;
    }
    if |node.ops| != |node.comparators| {
      return Err(Raised);
    }
    return Ok(Bool(true));
  }

  // ---------------------------------------------------------------- the whitelist covers the evaluator

  predicate ResolverFault<T>(o: Outcome<T>) {
    o.Err? && o.error in {MissingHandler, UnknownOperator, DisallowedCall}
  }

  /** An accepted tree never reaches a missing handler, an unknown operator or a disallowed call. */
  lemma {:induction false} AcceptedNeverFaults(rt: Runtime, ctx: Context, e: Expr)
    requires Accepts(e)
    ensures !ResolverFault(Eval(rt, ctx, e))
    decreases e
  {
    match e
    case Constant(_) =>
    case Name(_) =>
    case Attribute(base, _) => AcceptedNeverFaults(rt, ctx, base);
    case TupleExpr(elts) => AcceptedAllNeverFault(rt, ctx, elts);
    case ListExpr(elts) => AcceptedAllNeverFault(rt, ctx, elts);
    case BoolOp(bop, values) => AcceptedJunctionNeverFaults(rt, ctx, bop == And, values);
    case UnaryOp(_, operand) => AcceptedNeverFaults(rt, ctx, operand);
    case BinOp(lhs, _, rhs) => AcceptedNeverFaults(rt, ctx, lhs); AcceptedNeverFaults(rt, ctx, rhs);
    case Compare(left, ops, comparators) =>
      AcceptedNeverFaults(rt, ctx, left);
      var a := Eval(rt, ctx, left);
      if a.Ok? {
        AcceptedChainNeverFaults(rt, ctx, a.value, ops, comparators);
      }
    case Call(func, args, _) =>
      if IsWithin(func) {
        AcceptedAllNeverFault(rt, ctx, args);
      } else {
        AcceptedNeverFaults(rt, ctx, func.base);
      }
  }

  lemma {:induction false} AcceptedAllNeverFault(rt: Runtime, ctx: Context, es: seq<Expr>)
    requires AcceptsAll(es)
    ensures !ResolverFault(EvalAll(rt, ctx, es))
    decreases es
  {
    if es != [] {
      AcceptedNeverFaults(rt, ctx, es[0]);
      AcceptedAllNeverFault(rt, ctx, es[1..]);
    }
  }

  lemma {:induction false} AcceptedJunctionNeverFaults(rt: Runtime, ctx: Context, conj: bool, es: seq<Expr>)
    requires AcceptsAll(es)
    ensures !ResolverFault(EvalJunction(rt, ctx, conj, es))
    decreases es
  {
    if es != [] {
      AcceptedNeverFaults(rt, ctx, es[0]);
      AcceptedJunctionNeverFaults(rt, ctx, conj, es[1..]);
    }
  }

  lemma {:induction false} AcceptedChainNeverFaults(rt: Runtime, ctx: Context, a: Value, ops: seq<CmpOperator>,
                                                    cs: seq<Expr>)
    requires AcceptsAll(cs) && forall i | 0 <= i < |ops| :: AllowedComparison(ops[i])
    ensures !ResolverFault(EvalChain(rt, ctx, a, ops, cs))
    decreases cs
  {
    if ops != [] && cs != [] {
      AcceptedNeverFaults(rt, ctx, cs[0]);
      var b := Eval(rt, ctx, cs[0]);
      if b.Ok? {
        AcceptedChainNeverFaults(rt, ctx, b.value, ops[1..], cs[1..]);
      }
    }
  }

  // ---------------------------------------------------------------- ordinary Python semantics

  /**
   * What Python itself computes for an accepted tree: and/or yield one of their operands, a chain of
   * comparisons is the conjunction of its links, isoweekday takes no arguments, and a dot never reads an entry
   * of a dictionary.
   */
  function PyEval(rt: Runtime, ctx: Context, e: Expr): Outcome<Value>
    decreases e
  {
    match e
    case Constant(v) => Ok(v)
    case Name(id) => if id in ctx then Ok(ctx[id]) else Err(NameNotFound(id))
    case Attribute(base, attr) =>
      var obj :- PyEval(rt, ctx, base);
      PyGetAttribute(rt, obj, attr)
    case TupleExpr(elts) =>
      var vs :- PyAll(rt, ctx, elts);
      Ok(TupleValue(vs))
    case ListExpr(elts) =>
      var vs :- PyAll(rt, ctx, elts);
      Ok(ListValue(vs))
    case BoolOp(bop, values) => PyJunction(rt, ctx, bop == And, values)
    case UnaryOp(_, operand) =>
      var v :- PyEval(rt, ctx, operand);
      var t :- Truth(rt, v);
      Ok(Bool(!t))
    case BinOp(lhs, op, rhs) =>
      var a :- PyEval(rt, ctx, lhs);
      var b :- PyEval(rt, ctx, rhs);
      OrRaised(rt.binary(op, a, b))
    case Compare(left, ops, comparators) =>
      var a :- PyEval(rt, ctx, left);
      PyChain(rt, ctx, a, ops, comparators)
    case Call(func, args, _) =>
      if IsWithin(func) then
        var vs :- PyAll(rt, ctx, args);
        CallWithin(rt, vs)
      else if IsIsoweekday(func) then
        var obj :- PyEval(rt, ctx, func.base);
        var vs :- PyAll(rt, ctx, args);
        var day :- OrRaised(rt.isoweekday(obj));
        if vs == [] then Ok(Number(day as real)) else Err(Raised)
      else Err(Raised)
    case OtherNode(_, _) => Err(Raised)
  }

  /** getattr, on a dictionary as on any other object: entries are not attributes. */
  function PyGetAttribute(rt: Runtime, obj: Value, attr: string): Outcome<Value> {
    match rt.getattr(obj, attr) case Some(v) => Ok(v) case None => Err(AttributeNotFound(attr))
  }

  function PyAll(rt: Runtime, ctx: Context, es: seq<Expr>): Outcome<seq<Value>>
    decreases es
  {
    if es == [] then Ok([])
    else
      var v :- PyEval(rt, ctx, es[0]);
      var vs :- PyAll(rt, ctx, es[1..]);
      Ok([v] + vs)
  }

  /** The first operand whose truth decides the junction, or the last operand whatever its truth. */
  function PyJunction(rt: Runtime, ctx: Context, conj: bool, es: seq<Expr>): Outcome<Value>
    decreases es
  {
    if es == [] then Ok(Bool(conj))
    else
      var v :- PyEval(rt, ctx, es[0]);
      if |es| == 1 then Ok(v)
      else
        var t :- Truth(rt, v);
        if t != conj then Ok(v) else PyJunction(rt, ctx, conj, es[1..])
  }

  /** a op b op c ... is (a op b) and (b op c ...), with b evaluated once. */
  function PyChain(rt: Runtime, ctx: Context, a: Value, ops: seq<CmpOperator>, comparators: seq<Expr>): Outcome<Value>
    decreases comparators
  {
    if ops == [] || comparators == [] then (if |ops| == |comparators| then Ok(Bool(true)) else Err(Raised))
    else
      var b :- PyEval(rt, ctx, comparators[0]);
      var link :- OrRaised(CompareValues(rt, ops[0], a, b));
      if |ops| == |comparators| == 1 then Ok(Bool(link))
      else if link then PyChain(rt, ctx, b, ops[1..], comparators[1..])
      else Ok(Bool(false))
  }

  // ---------------------------------------------------------------- where and/or may stand

  /** The expressions something is read off with a dot. */
  function DottedBases(e: Expr): set<Expr> {
    match e
    case Constant(_) => {}
    case Name(_) => {}
    case Attribute(base, _) => {base} + DottedBases(base)
    case TupleExpr(elts) => DottedBasesOf(elts)
    case ListExpr(elts) => DottedBasesOf(elts)
    case BoolOp(_, values) => DottedBasesOf(values)
    case UnaryOp(_, operand) => DottedBases(operand)
    case BinOp(lhs, _, rhs) => DottedBases(lhs) + DottedBases(rhs)
    case Compare(left, _, comparators) => DottedBases(left) + DottedBasesOf(comparators)
    case Call(func, args, _) =>
      DottedBasesOf(args) + if IsIsoweekday(func) then DottedBases(func.base) else {}
    case OtherNode(_, _) => {}
  }

  function DottedBasesOf(es: seq<Expr>): set<Expr> {
    if es == [] then {} else DottedBases(es[0]) + DottedBasesOf(es[1..])
  }

  /** None of these expressions has a dictionary for its value. */
  ghost predicate NoDictionaries(rt: Runtime, ctx: Context, bases: set<Expr>) {
    forall b | b in bases :: Eval(rt, ctx, b).Ok? ==> !Eval(rt, ctx, b).value.DictValue?
  }

  /** Dots behind plain names are safe when no name holds a dictionary. */
  lemma NamesHoldNoDictionaries(rt: Runtime, ctx: Context, bases: set<Expr>)
    requires forall b | b in bases :: b.Name?
    requires forall id | id in ctx :: !ctx[id].DictValue?
    ensures NoDictionaries(rt, ctx, bases)
  {
  }

  /** An attribute agrees with Python's exactly when its base is no dictionary, or its entries mirror its attributes. */
  lemma AttributeAgreesExactly(rt: Runtime, ctx: Context, base: Expr, attr: string)
    requires Eval(rt, ctx, base) == PyEval(rt, ctx, base)
    ensures Eval(rt, ctx, Attribute(base, attr)) == PyEval(rt, ctx, Attribute(base, attr)) <==>
            match Eval(rt, ctx, base)
            case Err(_) => true
            case Ok(v) => v.DictValue? ==> Lookup(v.entries, attr) == rt.getattr(v, attr)
  {
  }

  /** A dot on a dictionary reads its entry here, where Python finds no such attribute. */
  lemma DotOnDictionary(rt: Runtime, ctx: Context, id: string, attr: string)
    requires id in ctx && ctx[id].DictValue? && attr in ctx[id].entries && rt.getattr(ctx[id], attr) == None
    ensures var e := Attribute(Name(id), attr);
            Accepts(e) && Eval(rt, ctx, e) == Ok(ctx[id].entries[attr]) && PyEval(rt, ctx, e).Err?
  {
  }

  /** Expressions whose value, if there is one, is a bool. */
  predicate BoolValued(e: Expr) {
    match e
    case Constant(v) => v.Bool?
    case Compare(_, _, _) => true
    case UnaryOp(_, _) => true
    case Call(func, _, _) => IsWithin(func)
    case BoolOp(_, values) => AllBoolValued(values)
    case _ => false
  }

  predicate AllBoolValued(es: seq<Expr>) {
    es == [] || (BoolValued(es[0]) && AllBoolValued(es[1..]))
  }

  /** Only the truth of e is used: its and/or operands may be anything. */
  predicate TruthSafe(e: Expr)
    decreases e, 1
  {
    if e.BoolOp? then AllTruthSafe(e.values) else ValueSafe(e)
  }

  predicate AllTruthSafe(es: seq<Expr>)
    decreases es, 0
  {
    es == [] || (TruthSafe(es[0]) && AllTruthSafe(es[1..]))
  }

  /** The value of e is used: its own and/or must join bool-valued operands. */
  predicate ValueSafe(e: Expr)
    decreases e, 0
  {
    match e
    case Constant(_) => true
    case Name(_) => true
    case Attribute(base, _) => ValueSafe(base)
    case TupleExpr(elts) => AllValueSafe(elts)
    case ListExpr(elts) => AllValueSafe(elts)
    case BoolOp(_, values) => AllValueSafe(values) && AllBoolValued(values)
    case UnaryOp(_, operand) => TruthSafe(operand)
    case BinOp(lhs, _, rhs) => ValueSafe(lhs) && ValueSafe(rhs)
    case Compare(left, _, comparators) => ValueSafe(left) && AllValueSafe(comparators)
    case Call(func, args, _) =>
      if IsWithin(func) then AllValueSafe(args) else func.Attribute? && ValueSafe(func.base) && args == []
    case OtherNode(_, _) => false
  }

  predicate AllValueSafe(es: seq<Expr>)
    decreases es, 0
  {
    es == [] || (ValueSafe(es[0]) && AllValueSafe(es[1..]))
  }

  lemma {:induction false} BoolValuedYieldsBool(rt: Runtime, ctx: Context, e: Expr)
    requires BoolValued(e)
    ensures Eval(rt, ctx, e).Ok? ==> Eval(rt, ctx, e).value.Bool?
  {
    if e.Compare? {
      var a := Eval(rt, ctx, e.left);
      if a.Ok? {
        ChainYieldsBool(rt, ctx, a.value, e.ops, e.comparators);
      }
    }
  }

  lemma {:induction false} ChainYieldsBool(rt: Runtime, ctx: Context, a: Value, ops: seq<CmpOperator>, cs: seq<Expr>)
    ensures var r := EvalChain(rt, ctx, a, ops, cs); r.Ok? ==> r.value.Bool?
    decreases cs
  {
    if ops != [] && cs != [] {
      var b := Eval(rt, ctx, cs[0]);
      if b.Ok? {
        ChainYieldsBool(rt, ctx, b.value, ops[1..], cs[1..]);
      }
    }
  }

  /** Where a value is used, the evaluator computes exactly Python's value. */
  lemma {:induction false} ValueAgrees(rt: Runtime, ctx: Context, e: Expr)
    requires Accepts(e) && ValueSafe(e)
    requires NoDictionaries(rt, ctx, DottedBases(e))
    ensures Eval(rt, ctx, e) == PyEval(rt, ctx, e)
    decreases e, 0
  {
    match e
    case Constant(_) =>
    case Name(_) =>
    case Attribute(base, _) => ValueAgrees(rt, ctx, base);
    case TupleExpr(elts) => AllValuesAgree(rt, ctx, elts);
    case ListExpr(elts) => AllValuesAgree(rt, ctx, elts);
    case BoolOp(bop, values) => JunctionValueAgrees(rt, ctx, bop == And, values);
    case UnaryOp(_, operand) => TruthAgrees(rt, ctx, operand); NotByTruth(rt, ctx, operand);
    case BinOp(lhs, _, rhs) => ValueAgrees(rt, ctx, lhs); ValueAgrees(rt, ctx, rhs);
    case Compare(left, ops, comparators) =>
      ValueAgrees(rt, ctx, left);
      var a := Eval(rt, ctx, left);
      if a.Ok? {
        ChainAgrees(rt, ctx, a.value, ops, comparators);
      }
    case Call(func, args, _) =>
      AllValuesAgree(rt, ctx, args);
      if !IsWithin(func) {
        ValueAgrees(rt, ctx, func.base);
      }
  }

  /** A negation depends on its operand's truth alone, in both semantics. */
  lemma NotByTruth(rt: Runtime, ctx: Context, e: Expr)
    ensures Eval(rt, ctx, UnaryOp(Not, e)) ==
            match TruthOf(rt, Eval(rt, ctx, e)) { case Ok(t) => Ok(Bool(!t)) case Err(x) => Err(x) }
    ensures PyEval(rt, ctx, UnaryOp(Not, e)) ==
            match TruthOf(rt, PyEval(rt, ctx, e)) { case Ok(t) => Ok(Bool(!t)) case Err(x) => Err(x) }
  {
  }

  lemma {:induction false} AllValuesAgree(rt: Runtime, ctx: Context, es: seq<Expr>)
    requires AcceptsAll(es) && AllValueSafe(es)
    requires NoDictionaries(rt, ctx, DottedBasesOf(es))
    ensures EvalAll(rt, ctx, es) == PyAll(rt, ctx, es)
    decreases es, 0
  {
    if es != [] {
      ValueAgrees(rt, ctx, es[0]);
      AllValuesAgree(rt, ctx, es[1..]);
    }
  }

  lemma {:induction false} JunctionValueAgrees(rt: Runtime, ctx: Context, conj: bool, es: seq<Expr>)
    requires AcceptsAll(es) && AllValueSafe(es) && AllBoolValued(es)
    requires NoDictionaries(rt, ctx, DottedBasesOf(es))
    ensures PyJunction(rt, ctx, conj, es) ==
            match EvalJunction(rt, ctx, conj, es) { case Ok(t) => Ok(Bool(t)) case Err(x) => Err(x) }
    decreases es, 0
  {
    if es != [] {
      ValueAgrees(rt, ctx, es[0]);
      BoolValuedYieldsBool(rt, ctx, es[0]);
      JunctionValueAgrees(rt, ctx, conj, es[1..]);
      assert |es| == 1 ==> es[1..] == [];
    }
  }

  lemma {:induction false} ChainAgrees(rt: Runtime, ctx: Context, a: Value, ops: seq<CmpOperator>, cs: seq<Expr>)
    requires AcceptsAll(cs) && AllValueSafe(cs) && forall i | 0 <= i < |ops| :: AllowedComparison(ops[i])
    requires NoDictionaries(rt, ctx, DottedBasesOf(cs))
    ensures EvalChain(rt, ctx, a, ops, cs) == PyChain(rt, ctx, a, ops, cs)
    decreases cs, 0
  {
    if ops != [] && cs != [] {
      ValueAgrees(rt, ctx, cs[0]);
      var b := Eval(rt, ctx, cs[0]);
      if b.Ok? {
        ChainAgrees(rt, ctx, b.value, ops[1..], cs[1..]);
        assert |ops| == |cs| == 1 ==> ops[1..] == [] && cs[1..] == [];
      }
    }
  }

  /** Where only truth is used, the evaluator and Python agree on it, exceptions included. */
  lemma {:induction false} TruthAgrees(rt: Runtime, ctx: Context, e: Expr)
    requires Accepts(e) && TruthSafe(e)
    requires NoDictionaries(rt, ctx, DottedBases(e))
    ensures TruthOf(rt, Eval(rt, ctx, e)) == TruthOf(rt, PyEval(rt, ctx, e))
    decreases e, 1
  {
    if e.BoolOp? {
      JunctionTruthAgrees(rt, ctx, e.bop == And, e.values);
    } else {
      ValueAgrees(rt, ctx, e);
    }
  }

  lemma {:induction false} JunctionTruthAgrees(rt: Runtime, ctx: Context, conj: bool, es: seq<Expr>)
    requires AcceptsAll(es) && AllTruthSafe(es)
    requires NoDictionaries(rt, ctx, DottedBasesOf(es))
    ensures EvalJunction(rt, ctx, conj, es) == TruthOf(rt, PyJunction(rt, ctx, conj, es))
    decreases es, 0
  {
    if es != [] {
      TruthAgrees(rt, ctx, es[0]);
      JunctionTruthAgrees(rt, ctx, conj, es[1..]);
      assert |es| == 1 ==> es[1..] == [];
    }
  }

  /** Python's and/or stops at operand k: the earlier ones leave it undecided, and k is decisive or the last. */
  ghost predicate StopsAt(rt: Runtime, ctx: Context, conj: bool, es: seq<Expr>, k: nat) {
    && k < |es|
    && (forall j | 0 <= j < k :: TruthOf(rt, PyEval(rt, ctx, es[j])) == Ok(conj))
    && PyEval(rt, ctx, es[k]).Ok?
    && (k == |es| - 1 || TruthOf(rt, PyEval(rt, ctx, es[k])) == Ok(!conj))
  }

  lemma {:induction false} JunctionIsItsStop(rt: Runtime, ctx: Context, conj: bool, es: seq<Expr>, k: nat)
    requires StopsAt(rt, ctx, conj, es, k)
    ensures PyJunction(rt, ctx, conj, es) == PyEval(rt, ctx, es[k])
    decreases es
  {
    if k > 0 {
      assert TruthOf(rt, PyEval(rt, ctx, es[0])) == Ok(conj);
      JunctionIsItsStop(rt, ctx, conj, es[1..], k - 1);
    }
  }

  lemma {:induction false} JunctionStops(rt: Runtime, ctx: Context, conj: bool, es: seq<Expr>) returns (k: nat)
    requires es != [] && PyJunction(rt, ctx, conj, es).Ok?
    ensures StopsAt(rt, ctx, conj, es, k)
    decreases es
  {
    var first := TruthOf(rt, PyEval(rt, ctx, es[0]));
    if |es| == 1 || first == Ok(!conj) {
      k := 0;
    } else {
      assert first == Ok(conj);
      var rest := JunctionStops(rt, ctx, conj, es[1..]);
      k := rest + 1;
      forall j | 0 <= j < k ensures TruthOf(rt, PyEval(rt, ctx, es[j])) == Ok(conj) {
        if j > 0 {
          assert es[j] == es[1..][j - 1];
        }
      }
    }
  }

  /** The value of an and/or agrees with Python's exactly when the operand Python stops at, if any, is a bool. */
  lemma JunctionAgreesExactly(rt: Runtime, ctx: Context, bop: BoolOperator, values: seq<Expr>)
    requires AcceptsAll(values) && AllTruthSafe(values) && NoDictionaries(rt, ctx, DottedBasesOf(values))
    ensures Eval(rt, ctx, BoolOp(bop, values)) == PyEval(rt, ctx, BoolOp(bop, values)) <==>
            forall k: nat | StopsAt(rt, ctx, bop == And, values, k) :: PyEval(rt, ctx, values[k]).value.Bool?
  {
    var conj := bop == And;
    var py := PyJunction(rt, ctx, conj, values);
    JunctionTruthAgrees(rt, ctx, conj, values);
    assert Eval(rt, ctx, BoolOp(bop, values)) == py <==> (py.Ok? ==> py.value.Bool?);
    forall k: nat | StopsAt(rt, ctx, conj, values, k) ensures py == PyEval(rt, ctx, values[k]) {
      JunctionIsItsStop(rt, ctx, conj, values, k);
    }
    if values != [] && py.Ok? {
      var k := JunctionStops(rt, ctx, conj, values);
    }
  }

  const ZERO_OR_FIVE := [Constant(Number(0.0)), Constant(Number(5.0))]

  lemma ZeroOrFive(rt: Runtime, ctx: Context)
    ensures AcceptsAll(ZERO_OR_FIVE)
    ensures EvalJunction(rt, ctx, false, ZERO_OR_FIVE) == Ok(true)
    ensures PyJunction(rt, ctx, false, ZERO_OR_FIVE) == Ok(Number(5.0))
  {
    var rest := [Constant(Number(5.0))];
    assert ZERO_OR_FIVE[1..] == rest && rest[1..] == [];
    assert AcceptsAll(rest);
    assert EvalJunction(rt, ctx, false, rest) == Ok(true);
    assert PyJunction(rt, ctx, false, rest) == Ok(Number(5.0));
  }

  lemma AboveThree(rt: Runtime, ctx: Context, a: Value)
    requires Numeric(a)
    ensures var three := [Constant(Number(3.0))];
            AcceptsAll(three)
            && EvalChain(rt, ctx, a, [Gt], three) == Ok(Bool(AsNumber(a) > 3.0))
            && PyChain(rt, ctx, a, [Gt], three) == Ok(Bool(AsNumber(a) > 3.0))
  {
    var three := [Constant(Number(3.0))];
    assert three[1..] == [] && [Gt][1..] == [];
    assert AcceptsAll([]);
  }

  /** In value position a bool is not its operand: (0 or 5) > 3 is true in Python and false here. */
  lemma OrInValuePosition(rt: Runtime, ctx: Context)
    ensures var e := Compare(BoolOp(Or, ZERO_OR_FIVE), [Gt], [Constant(Number(3.0))]);
            Accepts(e) && PyEval(rt, ctx, e) == Ok(Bool(true)) && Eval(rt, ctx, e) == Ok(Bool(false))
  {
    ZeroOrFive(rt, ctx);
    AboveThree(rt, ctx, Bool(true));
    AboveThree(rt, ctx, Number(5.0));
    assert Accepts(BoolOp(Or, ZERO_OR_FIVE));
  }

  /** Arguments of isoweekday are accepted and ignored, where Python raises a TypeError. */
  lemma IsoweekdayIgnoresArguments(rt: Runtime, ctx: Context, base: Expr, args: seq<Expr>)
    requires Accepts(base) && AcceptsAll(args) && args != []
    ensures var f := Attribute(base, "isoweekday");
            Accepts(Call(f, args, [])) && Eval(rt, ctx, Call(f, args, [])) == Eval(rt, ctx, Call(f, [], []))
            && PyEval(rt, ctx, Call(f, args, [])).Err?
  {
    var vs := PyAll(rt, ctx, args);
    assert vs.Ok? ==> |vs.value| > 0;
  }

  /** When every operand has a value, a chain is true exactly when all its adjacent comparisons are. */
  lemma {:induction false} ChainIsPairwise(rt: Runtime, ctx: Context, a: Value, ops: seq<CmpOperator>, cs: seq<Expr>,
                                           operands: seq<Value>, links: seq<bool>)
    requires |ops| == |cs| == |links| && |operands| == |cs| + 1 && operands[0] == a
    requires forall i | 0 <= i < |cs| :: AllowedComparison(ops[i]) && Eval(rt, ctx, cs[i]) == Ok(operands[i + 1])
    requires forall i | 0 <= i < |ops| :: CompareValues(rt, ops[i], operands[i], operands[i + 1]) == Some(links[i])
    ensures EvalChain(rt, ctx, a, ops, cs) == Ok(Bool(false !in links))
    decreases cs
  {
    if cs != [] {
      assert CompareValues(rt, ops[0], operands[0], operands[1]) == Some(links[0]);
      ChainIsPairwise(rt, ctx, operands[1], ops[1..], cs[1..], operands[1..], links[1..]);
      assert links == [links[0]] + links[1..];
    }
  }

  // ---------------------------------------------------------------- which names matter

  /** The context names evaluation may look up; ignored arguments and the helper's own name are not among them. */
  function Names(e: Expr): set<string> {
    match e
    case Constant(_) => {}
    case Name(id) => {id}
    case Attribute(base, _) => Names(base)
    case TupleExpr(elts) => NamesOf(elts)
    case ListExpr(elts) => NamesOf(elts)
    case BoolOp(_, values) => NamesOf(values)
    case UnaryOp(_, operand) => Names(operand)
    case BinOp(lhs, _, rhs) => Names(lhs) + Names(rhs)
    case Compare(left, _, comparators) => Names(left) + NamesOf(comparators)
    case Call(func, args, _) =>
      if IsWithin(func) then NamesOf(args) else if IsIsoweekday(func) then Names(func.base) else {}
    case OtherNode(_, _) => {}
  }

  function NamesOf(es: seq<Expr>): set<string> {
    if es == [] then {} else Names(es[0]) + NamesOf(es[1..])
  }

  ghost predicate AgreeOn(ids: set<string>, c: Context, d: Context) {
    forall id | id in ids :: (id in c <==> id in d) && (id in c ==> c[id] == d[id])
  }

  /** Contexts that agree on an expression's names give it the same outcome, errors included. */
  lemma {:induction false} OnlyNamesMatter(rt: Runtime, c: Context, d: Context, e: Expr)
    requires AgreeOn(Names(e), c, d)
    ensures Eval(rt, c, e) == Eval(rt, d, e)
    decreases e
  {
    match e
    case Constant(_) =>
    case Name(_) =>
    case Attribute(base, _) => OnlyNamesMatter(rt, c, d, base);
    case TupleExpr(elts) => OnlyNamesMatterAll(rt, c, d, elts);
    case ListExpr(elts) => OnlyNamesMatterAll(rt, c, d, elts);
    case BoolOp(bop, values) => OnlyNamesMatterJunction(rt, c, d, bop == And, values);
    case UnaryOp(_, operand) => OnlyNamesMatter(rt, c, d, operand);
    case BinOp(lhs, _, rhs) => OnlyNamesMatter(rt, c, d, lhs); OnlyNamesMatter(rt, c, d, rhs);
    case Compare(left, ops, comparators) =>
      OnlyNamesMatter(rt, c, d, left);
      var a := Eval(rt, c, left);
      if a.Ok? {
        OnlyNamesMatterChain(rt, c, d, a.value, ops, comparators);
      }
    case Call(func, args, _) =>
      if IsWithin(func) {
        OnlyNamesMatterAll(rt, c, d, args);
      } else if IsIsoweekday(func) {
        OnlyNamesMatter(rt, c, d, func.base);
      }
    case OtherNode(_, _) =>
  }

  lemma {:induction false} OnlyNamesMatterAll(rt: Runtime, c: Context, d: Context, es: seq<Expr>)
    requires AgreeOn(NamesOf(es), c, d)
    ensures EvalAll(rt, c, es) == EvalAll(rt, d, es)
    decreases es
  {
    if es != [] {
      OnlyNamesMatter(rt, c, d, es[0]);
      OnlyNamesMatterAll(rt, c, d, es[1..]);
    }
  }

  lemma {:induction false} OnlyNamesMatterJunction(rt: Runtime, c: Context, d: Context, conj: bool, es: seq<Expr>)
    requires AgreeOn(NamesOf(es), c, d)
    ensures EvalJunction(rt, c, conj, es) == EvalJunction(rt, d, conj, es)
    decreases es
  {
    if es != [] {
      OnlyNamesMatter(rt, c, d, es[0]);
      OnlyNamesMatterJunction(rt, c, d, conj, es[1..]);
    }
  }

  lemma {:induction false} OnlyNamesMatterChain(rt: Runtime, c: Context, d: Context, a: Value, ops: seq<CmpOperator>,
                                                cs: seq<Expr>)
    requires AgreeOn(NamesOf(cs), c, d)
    ensures EvalChain(rt, c, a, ops, cs) == EvalChain(rt, d, a, ops, cs)
    decreases cs
  {
    if ops != [] && cs != [] {
      OnlyNamesMatter(rt, c, d, cs[0]);
      var b := Eval(rt, c, cs[0]);
      if b.Ok? {
        OnlyNamesMatterChain(rt, c, d, b.value, ops[1..], cs[1..]);
      }
    }
  }

  // ---------------------------------------------------------------- a rule's verdict

  /** evaluate_condition after parsing; None is a syntax error. Every error makes the verdict false. */
  function Holds(rt: Runtime, ctx: Context, tree: Option<Expr>): bool {
    tree.Some? && Accepts(tree.value) && TruthOf(rt, Eval(rt, ctx, tree.value)) == Ok(true)
  }

  /** Where no dot meets a dictionary, a condition holds exactly when it parses, is accepted and is true in Python. */
  lemma HoldsIsPythonTruth(rt: Runtime, ctx: Context, tree: Option<Expr>)
    requires tree.Some? ==> TruthSafe(tree.value) && NoDictionaries(rt, ctx, DottedBases(tree.value))
    ensures Holds(rt, ctx, tree) <==>
            tree.Some? && Accepts(tree.value) && TruthOf(rt, PyEval(rt, ctx, tree.value)) == Ok(true)
  {
    if tree.Some? && Accepts(tree.value) {
      TruthAgrees(rt, ctx, tree.value);
    }
  }

  /** Adding names the condition does not mention never changes its verdict. */
  lemma UnrelatedNamesIgnored(rt: Runtime, ctx: Context, extra: Context, tree: Option<Expr>)
    requires tree.Some? ==> extra.Keys !! Names(tree.value)
    ensures Holds(rt, ctx + extra, tree) == Holds(rt, ctx, tree)
  {
    if tree.Some? {
      OnlyNamesMatter(rt, ctx + extra, ctx, tree.value);
    }
  }
}
