/** What accepted conditions mean: comparisons, connectives, truth values, schedules and the whitelist, node by node. */
module RuleMeaning {
  import opened Wrappers
  import opened RuleConditions

  // ---------------------------------------------------------------- one comparison

  /** The expression left op right. */
  function Link(left: Expr, op: CmpOperator, right: Expr): Expr {
    Compare(left, [op], [right])
  }

  lemma LinkValue(rt: Runtime, ctx: Context, left: Expr, op: CmpOperator, right: Expr, a: Value, b: Value)
    requires Eval(rt, ctx, left) == Ok(a) && Eval(rt, ctx, right) == Ok(b) && AllowedComparison(op)
    ensures Eval(rt, ctx, Link(left, op, right)) ==
            match CompareValues(rt, op, a, b) { case Some(t) => Ok(Bool(t)) case None => Err(Raised) }
  {
    assert [op][1..] == [] && [right][1..] == [];
    assert EvalChain(rt, ctx, b, [], []) == Ok(Bool(true));
  }

  predicate NumericOperator(op: CmpOperator) { op in {Eq, NotEq, Lt, LtE, Gt, GtE} }

  /** The value is this number; true and false are 1 and 0. */
  predicate Denotes(v: Value, x: real) {
    v == Number(x) || (v == Bool(true) && x == 1.0) || (v == Bool(false) && x == 0.0)
  }

  /** Less-than is a positive difference, and the other five relations follow from it. */
  predicate Related(op: CmpOperator, x: real, y: real)
    requires NumericOperator(op)
  {
    match op
    case Lt => y - x > 0.0
    case Gt => x - y > 0.0
    case LtE => !(x - y > 0.0)
    case GtE => !(y - x > 0.0)
    case Eq => !(y - x > 0.0) && !(x - y > 0.0)
    case NotEq => y - x > 0.0 || x - y > 0.0
  }

  lemma ComparisonMeans(rt: Runtime, ctx: Context, left: Expr, op: CmpOperator, right: Expr, x: real, y: real)
    requires NumericOperator(op) && Eval(rt, ctx, left).Ok? && Eval(rt, ctx, right).Ok?
    requires Denotes(Eval(rt, ctx, left).value, x) && Denotes(Eval(rt, ctx, right).value, y)
    ensures Eval(rt, ctx, Link(left, op, right)) == Ok(Bool(Related(op, x, y)))
  {
    LinkValue(rt, ctx, left, op, right, Eval(rt, ctx, left).value, Eval(rt, ctx, right).value);
  }

  /** The six comparisons of two constants, each said through less-than, exchange of the operands, and negation. */
  lemma ComparisonLaws(rt: Runtime, ctx: Context, x: real, y: real)
    ensures var a, b := Constant(Number(x)), Constant(Number(y));
            && Eval(rt, ctx, Link(a, Lt, b)) == Ok(Bool(y - x > 0.0))
            && Eval(rt, ctx, Link(a, Gt, b)) == Eval(rt, ctx, Link(b, Lt, a))
            && Eval(rt, ctx, Link(a, LtE, b)) == Eval(rt, ctx, UnaryOp(Not, Link(a, Gt, b)))
            && Eval(rt, ctx, Link(a, GtE, b)) == Eval(rt, ctx, UnaryOp(Not, Link(a, Lt, b)))
            && Eval(rt, ctx, Link(a, NotEq, b)) == Eval(rt, ctx, UnaryOp(Not, Link(a, Eq, b)))
            && (Eval(rt, ctx, Link(a, Eq, b)) == Ok(Bool(true)) <==>
                Eval(rt, ctx, Link(a, Lt, b)) == Ok(Bool(false)) && Eval(rt, ctx, Link(b, Lt, a)) == Ok(Bool(false)))
  {
    var a, b := Constant(Number(x)), Constant(Number(y));
    ComparisonMeans(rt, ctx, a, Lt, b, x, y);
    ComparisonMeans(rt, ctx, b, Lt, a, y, x);
    ComparisonMeans(rt, ctx, a, Gt, b, x, y);
    ComparisonMeans(rt, ctx, a, LtE, b, x, y);
    ComparisonMeans(rt, ctx, a, GtE, b, x, y);
    ComparisonMeans(rt, ctx, a, Eq, b, x, y);
    ComparisonMeans(rt, ctx, a, NotEq, b, x, y);
  }

  /** Every other comparison is Python's own, of the operands in their order. */
  lemma OtherComparisons(rt: Runtime, ctx: Context, op: CmpOperator, a: Value, b: Value)
    requires AllowedComparison(op) && !(NumericOperator(op) && Numeric(a) && Numeric(b))
    ensures Eval(rt, ctx, Link(Constant(a), op, Constant(b))) ==
            match rt.compare(op, a, b) { case Some(t) => Ok(Bool(t)) case None => Err(Raised) }
  {
    LinkValue(rt, ctx, Constant(a), op, Constant(b), a, b);
  }

  /** In a numeric comparison, a bool on either side stands for 1 or 0. */
  lemma BoolsCompareAsNumbers(rt: Runtime, ctx: Context, op: CmpOperator, p: bool, y: real)
    requires NumericOperator(op)
    ensures var truth, one, other := Constant(Bool(p)), Constant(Number(if p then 1.0 else 0.0)), Constant(Number(y));
            && Eval(rt, ctx, Link(truth, op, other)) == Eval(rt, ctx, Link(one, op, other))
            && Eval(rt, ctx, Link(other, op, truth)) == Eval(rt, ctx, Link(other, op, one))
  {
    var truth, one, other := Constant(Bool(p)), Constant(Number(if p then 1.0 else 0.0)), Constant(Number(y));
    var x := if p then 1.0 else 0.0;
    ComparisonMeans(rt, ctx, truth, op, other, x, y);
    ComparisonMeans(rt, ctx, one, op, other, x, y);
    ComparisonMeans(rt, ctx, other, op, truth, y, x);
    ComparisonMeans(rt, ctx, other, op, one, y, x);
  }

  // ---------------------------------------------------------------- a whole chain

  /** The operands of a comparison have these numbers for their values. */
  ghost predicate Operands(rt: Runtime, ctx: Context, e: Expr, xs: seq<real>)
    requires e.Compare?
  {
    && |xs| == |e.comparators| + 1
    && Eval(rt, ctx, e.left).Ok? && Denotes(Eval(rt, ctx, e.left).value, xs[0])
    && forall i | 0 <= i < |e.comparators| ::
         Eval(rt, ctx, e.comparators[i]).Ok? && Denotes(Eval(rt, ctx, e.comparators[i]).value, xs[i + 1])
  }

  lemma NumericLink(rt: Runtime, op: CmpOperator, a: Value, b: Value, x: real, y: real)
    requires NumericOperator(op) && Denotes(a, x) && Denotes(b, y)
    ensures CompareValues(rt, op, a, b) == Some(Related(op, x, y))
  {
  }

  /** A chain of numeric comparisons is true exactly when every link holds between its two neighbours. */
  lemma NumericChainMeans(rt: Runtime, ctx: Context, e: Expr, xs: seq<real>)
    requires e.Compare? && |e.ops| == |e.comparators| && Operands(rt, ctx, e, xs)
    requires forall i | 0 <= i < |e.ops| :: NumericOperator(e.ops[i])
    ensures Eval(rt, ctx, e) == Ok(Bool(forall i | 0 <= i < |e.ops| :: Related(e.ops[i], xs[i], xs[i + 1])))
  {
    var operands := OperandValues(rt, ctx, e, xs);
    assert Eval(rt, ctx, e) == EvalChain(rt, ctx, operands[0], e.ops, e.comparators);
    NumericLinks(rt, ctx, e.ops, e.comparators, operands, xs);
  }

  lemma NumericLinks(rt: Runtime, ctx: Context, ops: seq<CmpOperator>, cs: seq<Expr>, operands: seq<Value>,
                     xs: seq<real>)
    requires |operands| == |xs| == |ops| + 1 && |cs| == |ops|
    requires forall i | 0 <= i < |xs| :: Denotes(operands[i], xs[i])
    requires forall i | 0 <= i < |ops| :: NumericOperator(ops[i]) && Eval(rt, ctx, cs[i]) == Ok(operands[i + 1])
    ensures EvalChain(rt, ctx, operands[0], ops, cs) ==
            Ok(Bool(forall i | 0 <= i < |ops| :: Related(ops[i], xs[i], xs[i + 1])))
  {
    hide *;
    var links := LinkTruths(ops, xs);
    LinksHold(rt, ops, operands, xs, links);
    forall i | 0 <= i < |ops| ensures AllowedComparison(ops[i]) {
      NumericIsAllowed(ops[i]);
    }
    ChainIsPairwise(rt, ctx, operands[0], ops, cs, operands, links);
    AllTrue(links);
    assert (forall i | 0 <= i < |ops| :: links[i]) <==> forall i | 0 <= i < |ops| :: Related(ops[i], xs[i], xs[i + 1]);
  }

  lemma NumericIsAllowed(op: CmpOperator)
    requires NumericOperator(op)
    ensures AllowedComparison(op)
  {
  }

  lemma AllTrue(links: seq<bool>)
    ensures false !in links <==> forall i | 0 <= i < |links| :: links[i]
  {
  }

  function LinkTruths(ops: seq<CmpOperator>, xs: seq<real>): (links: seq<bool>)
    requires |xs| == |ops| + 1 && forall i | 0 <= i < |ops| :: NumericOperator(ops[i])
    ensures |links| == |ops| && forall i | 0 <= i < |ops| :: links[i] == Related(ops[i], xs[i], xs[i + 1])
  {
    seq(|ops|, i requires 0 <= i < |ops| => Related(ops[i], xs[i], xs[i + 1]))
  }

  lemma LinksHold(rt: Runtime, ops: seq<CmpOperator>, operands: seq<Value>, xs: seq<real>, links: seq<bool>)
    requires |operands| == |xs| == |ops| + 1 && |links| == |ops|
    requires forall i | 0 <= i < |xs| :: Denotes(operands[i], xs[i])
    requires forall i | 0 <= i < |ops| :: NumericOperator(ops[i]) && links[i] == Related(ops[i], xs[i], xs[i + 1])
    ensures forall i | 0 <= i < |ops| :: CompareValues(rt, ops[i], operands[i], operands[i + 1]) == Some(links[i])
  {
    forall i | 0 <= i < |ops| ensures CompareValues(rt, ops[i], operands[i], operands[i + 1]) == Some(links[i]) {
      NumericLink(rt, ops[i], operands[i], operands[i + 1], xs[i], xs[i + 1]);
    }
  }

  ghost function OperandValues(rt: Runtime, ctx: Context, e: Expr, xs: seq<real>): (vs: seq<Value>)
    requires e.Compare? && Operands(rt, ctx, e, xs)
    ensures |vs| == |xs| && Eval(rt, ctx, e.left) == Ok(vs[0])
    ensures forall i | 0 <= i < |xs| :: Denotes(vs[i], xs[i])
    ensures forall i | 0 <= i < |e.comparators| :: Eval(rt, ctx, e.comparators[i]) == Ok(vs[i + 1])
  {
    [Eval(rt, ctx, e.left).value] +
    seq(|e.comparators|, i requires 0 <= i < |e.comparators| && Eval(rt, ctx, e.comparators[i]).Ok? =>
      Eval(rt, ctx, e.comparators[i]).value)
  }

  // ---------------------------------------------------------------- truth and connectives

  /** The condition e has this truth. */
  ghost predicate Says(rt: Runtime, ctx: Context, e: Expr, t: bool) {
    TruthOf(rt, Eval(rt, ctx, e)) == Ok(t)
  }

  /** A constant is a true condition unless it is None, false, zero or empty. */
  lemma ConstantMeans(rt: Runtime, ctx: Context, v: Value)
    requires !v.Object?
    ensures Holds(rt, ctx, Some(Constant(v))) <==>
            v !in {NoneValue, Bool(false), Number(0.0), Str(""), TupleValue([]), ListValue([]), DictValue(map[])}
  {
  }

  /** not e is true where e is false, false where e is true, and raises where e has no truth. */
  lemma NotMeans(rt: Runtime, ctx: Context, e: Expr, t: bool)
    ensures Says(rt, ctx, UnaryOp(Not, e), t) <==> Says(rt, ctx, e, !t)
    ensures Eval(rt, ctx, UnaryOp(Not, e)).Ok? ==> Eval(rt, ctx, UnaryOp(Not, e)).value.Bool?
  {
  }

  /** An and is true exactly when all its operands are. */
  lemma {:induction false} AndMeans(rt: Runtime, ctx: Context, es: seq<Expr>)
    ensures Eval(rt, ctx, BoolOp(And, es)) == Ok(Bool(true)) <==>
            forall i | 0 <= i < |es| :: Says(rt, ctx, es[i], true)
  {
    if es != [] {
      AndMeans(rt, ctx, es[1..]);
      assert (forall i | 0 <= i < |es| :: Says(rt, ctx, es[i], true)) <==>
             Says(rt, ctx, es[0], true) && forall i | 0 <= i < |es[1..]| :: Says(rt, ctx, es[1..][i], true);
    }
  }

  /** An or is true exactly when some operand is and none before it raises. */
  lemma {:induction false} OrMeans(rt: Runtime, ctx: Context, es: seq<Expr>)
    ensures Eval(rt, ctx, BoolOp(Or, es)) == Ok(Bool(true)) <==>
            exists k | 0 <= k < |es| :: FirstTrue(rt, ctx, es, k)
  {
    if es != [] {
      var rest := es[1..];
      OrMeans(rt, ctx, rest);
      if Says(rt, ctx, es[0], true) {
        assert FirstTrue(rt, ctx, es, 0);
      } else {
        if k :| 0 <= k < |es| && FirstTrue(rt, ctx, es, k) {
          assert FirstTrue(rt, ctx, rest, k - 1);
        }
        if k :| 0 <= k < |rest| && FirstTrue(rt, ctx, rest, k) && Says(rt, ctx, es[0], false) {
          assert FirstTrue(rt, ctx, es, k + 1);
        }
      }
    }
  }

  ghost predicate FirstTrue(rt: Runtime, ctx: Context, es: seq<Expr>, k: nat)
    requires k < |es|
  {
    Says(rt, ctx, es[k], true) && forall i | 0 <= i < k :: Says(rt, ctx, es[i], false)
  }

  function Negations(es: seq<Expr>): (ns: seq<Expr>)
    ensures |ns| == |es| && forall i | 0 <= i < |es| :: ns[i] == UnaryOp(Not, es[i])
  {
    seq(|es|, i requires 0 <= i < |es| => UnaryOp(Not, es[i]))
  }

  /** De Morgan, exceptions included: the or of the negations is the negation of the and, and the other way round. */
  lemma {:induction false} DeMorgan(rt: Runtime, ctx: Context, conj: bool, es: seq<Expr>)
    ensures EvalJunction(rt, ctx, !conj, Negations(es)) ==
            match EvalJunction(rt, ctx, conj, es) { case Ok(t) => Ok(!t) case Err(x) => Err(x) }
  {
    if es != [] {
      DeMorgan(rt, ctx, conj, es[1..]);
      assert Negations(es)[1..] == Negations(es[1..]);
      NotByTruth(rt, ctx, es[0]);
    }
  }

  /** Arithmetic is handed its operands in order; an operand that raises ends it, the left one first. */
  lemma ArithmeticMeans(rt: Runtime, ctx: Context, lhs: Expr, op: BinOperator, rhs: Expr, a: Value, b: Value)
    requires AllowedBinary(op)
    ensures Eval(rt, ctx, lhs) == Ok(a) && Eval(rt, ctx, rhs) == Ok(b) ==>
              Eval(rt, ctx, BinOp(lhs, op, rhs)) ==
              match rt.binary(op, a, b) { case Some(v) => Ok(v) case None => Err(Raised) }
    ensures Eval(rt, ctx, lhs).Err? ==> Eval(rt, ctx, BinOp(lhs, op, rhs)) == Eval(rt, ctx, lhs)
    ensures Eval(rt, ctx, lhs).Ok? && Eval(rt, ctx, rhs).Err? ==>
              Eval(rt, ctx, BinOp(lhs, op, rhs)) == Eval(rt, ctx, rhs)
  {
    hide EvalAll, EvalChain, EvalJunction, CallWithin, Truth, TruthOf, CompareValues, AllowedBinary;
  }

  /** A tuple or list display keeps its members' values in order. */
  lemma {:induction false} DisplayMeans(rt: Runtime, ctx: Context, es: seq<Expr>, vs: seq<Value>)
    requires |vs| == |es| && forall i | 0 <= i < |es| :: Eval(rt, ctx, es[i]) == Ok(vs[i])
    ensures EvalAll(rt, ctx, es) == Ok(vs)
    ensures Eval(rt, ctx, TupleExpr(es)) == Ok(TupleValue(vs)) && Eval(rt, ctx, ListExpr(es)) == Ok(ListValue(vs))
  {
    if es != [] {
      DisplayMeans(rt, ctx, es[1..], vs[1..]);
      assert vs == [vs[0]] + vs[1..];
    }
  }

  lemma {:induction false} AcceptsAllMeans(es: seq<Expr>)
    ensures AcceptsAll(es) <==> forall e | e in es :: Accepts(e)
  {
    if es != [] {
      AcceptsAllMeans(es[1..]);
      assert forall e :: e in es <==> e == es[0] || e in es[1..];
      assert (forall e | e in es :: Accepts(e)) <==> Accepts(es[0]) && forall e | e in es[1..] :: Accepts(e);
    }
  }

  // ---------------------------------------------------------------- the schedule helper

  /** The call within(schedule, ts) on two context names. */
  function WithinCall(schedule: string, ts: string): Expr {
    Call(Name("within"), [Name(schedule), Name(ts)], [])
  }

  /**
   An instant lies within a schedule exactly when the schedule is not empty, its weekday is listed, and its time of
   day is neither before the start nor after the end; what Python cannot read makes the answer false, not an error.
   */
  lemma WithinMeans(rt: Runtime, ctx: Context, schedule: string, ts: string)
    requires schedule in ctx && ts in ctx && ctx[schedule].DictValue?
    ensures Accepts(WithinCall(schedule, ts))
    ensures Eval(rt, ctx, WithinCall(schedule, ts)) == Ok(Bool(Inside(rt, ctx[schedule].entries, ctx[ts])))
  {
    WithinAccepted(schedule, ts);
    WithinEvaluated(rt, ctx, schedule, ts);
    InsideIsWithin(rt, ctx[schedule].entries, ctx[ts]);
  }

  lemma WithinAccepted(schedule: string, ts: string)
    ensures Accepts(WithinCall(schedule, ts))
  {
    AcceptsAllMeans([Name(schedule), Name(ts)]);
  }

  lemma WithinEvaluated(rt: Runtime, ctx: Context, schedule: string, ts: string)
    requires schedule in ctx && ts in ctx
    ensures Eval(rt, ctx, WithinCall(schedule, ts)) == CallWithin(rt, [ctx[schedule], ctx[ts]])
  {
    DisplayMeans(rt, ctx, [Name(schedule), Name(ts)], [ctx[schedule], ctx[ts]]);
    hide CallWithin, Within;
    assert IsWithin(Name("within"));
  }

  lemma InsideIsWithin(rt: Runtime, entries: map<string, Value>, ts: Value)
    ensures CallWithin(rt, [DictValue(entries), ts]) == Ok(Bool(Inside(rt, entries, ts)))
  {
    assert Within(rt, DictValue(entries), ts) == Ok(Inside(rt, entries, ts));
  }

  predicate Inside(rt: Runtime, entries: map<string, Value>, ts: Value) {
    && entries != map[]
    && rt.isoweekday(ts).Some? && DayListed(rt, entries, rt.isoweekday(ts).value)
    && rt.timeOfDay(ts).Some?
    && ClockTime(rt, entries, "start", "00:00").Some? && ClockTime(rt, entries, "end", "23:59").Some?
    && !(rt.timeOfDay(ts).value < ClockTime(rt, entries, "start", "00:00").value)
    && !(rt.timeOfDay(ts).value > ClockTime(rt, entries, "end", "23:59").value)
  }

  function ClockTime(rt: Runtime, entries: map<string, Value>, key: string, default: string): Option<int> {
    if key in entries then rt.parseTime(entries[key]) else rt.parseTime(Str(default))
  }

  /** Only the days, the start and the end of a schedule matter. */
  lemma OnlyThreeEntriesMatter(rt: Runtime, d: map<string, Value>, e: map<string, Value>, ts: Value)
    requires d != map[] && e != map[]
    requires Entry(d, "days", ListValue([])) == Entry(e, "days", ListValue([]))
    requires Entry(d, "start", Str("00:00")) == Entry(e, "start", Str("00:00"))
    requires Entry(d, "end", Str("23:59")) == Entry(e, "end", Str("23:59"))
    ensures Within(rt, DictValue(d), ts) == Within(rt, DictValue(e), ts)
  {
  }

  /** A schedule without a start or an end is the one that starts at 00:00 or ends at 23:59; without days, never. */
  lemma MissingEntries(rt: Runtime, entries: map<string, Value>, ts: Value)
    requires entries != map[]
    ensures "start" !in entries ==>
              Within(rt, DictValue(entries), ts) == Within(rt, DictValue(entries["start" := Str("00:00")]), ts)
    ensures "end" !in entries ==>
              Within(rt, DictValue(entries), ts) == Within(rt, DictValue(entries["end" := Str("23:59")]), ts)
    ensures "days" !in entries ==>
              Within(rt, DictValue(entries), ts) == Within(rt, DictValue(entries["days" := ListValue([])]), ts)
  {
    if "start" !in entries {
      WithDefault(rt, entries, "start", Str("00:00"), ts);
    }
    if "end" !in entries {
      WithDefault(rt, entries, "end", Str("23:59"), ts);
    }
    if "days" !in entries {
      WithDefault(rt, entries, "days", ListValue([]), ts);
    }
  }

  lemma WithDefault(rt: Runtime, entries: map<string, Value>, key: string, default: Value, ts: Value)
    requires entries != map[] && key !in entries
    requires (key, default) in {("start", Str("00:00")), ("end", Str("23:59")), ("days", ListValue([]))}
    ensures Within(rt, DictValue(entries), ts) == Within(rt, DictValue(entries[key := default]), ts)
  {
    var filled := entries[key := default];
    assert key in filled;
    KeysDiffer();
    OnlyThreeEntriesMatter(rt, entries, filled, ts);
  }

  lemma KeysDiffer()
    ensures "start" != "end" && "start" != "days" && "end" != "days"
  {
    assert "start"[0] != "end"[0] && "start"[0] != "days"[0] && "end"[0] != "days"[0];
  }

  // ---------------------------------------------------------------- the whitelist, node by node

  function Children(e: Expr): seq<Expr> {
    match e
    case Constant(_) => []
    case Name(_) => []
    case Attribute(base, _) => [base]
    case TupleExpr(elts) => elts
    case ListExpr(elts) => elts
    case BoolOp(_, values) => values
    case UnaryOp(_, operand) => [operand]
    case BinOp(lhs, _, rhs) => [lhs, rhs]
    case Compare(left, _, comparators) => [left] + comparators
    case Call(func, args, keywords) => [func] + args + keywords
    case OtherNode(_, children) => children
  }

  /** What the visitor demands of a node by itself. */
  predicate NodeAllowed(e: Expr) {
    && !e.OtherNode?
    && (e.UnaryOp? ==> e.uop == Not)
    && (e.BinOp? ==> !MatrixOrBitwise(e.op))
    && (e.Compare? ==> Is !in e.ops && IsNot !in e.ops)
    && (e.Call? ==> e.keywords == []
                    && (e.func == Name("within") || (e.func.Attribute? && e.func.attr == "isoweekday")))
  }

  predicate MatrixOrBitwise(op: BinOperator) {
    match op
    case MatMult => true
    case LShift => true
    case RShift => true
    case BitOr => true
    case BitXor => true
    case BitAnd => true
    case _ => false
  }

  lemma ArithmeticAllowed(op: BinOperator)
    ensures AllowedBinary(op) <==> !MatrixOrBitwise(op)
  {
    match op
    case Add =>
    case Sub =>
    case Mult =>
    case Div =>
    case Mod =>
    case Pow =>
    case FloorDiv =>
    case _ =>
  }

  lemma CallAccepted(func: Expr, args: seq<Expr>)
    ensures var e := Call(func, args, []);
            Accepts(e) <==> NodeAllowed(e) && Accepts(func) && forall c | c in args :: Accepts(c)
  {
    AcceptsAllMeans(args);
    assert IsWithin(func) <==> func == Name("within");
  }

  /** A tree is accepted exactly when its root is allowed and every subtree is accepted. */
  lemma AcceptsExactly(e: Expr)
    ensures Accepts(e) <==> NodeAllowed(e) && forall c | c in Children(e) :: Accepts(c)
  {
    match e
    case Constant(_) =>
    case Name(_) =>
    case Attribute(base, _) => assert base in Children(e);
    case OtherNode(_, _) =>
    case UnaryOp(_, operand) => assert operand in Children(e);
    case BinOp(lhs, op, rhs) =>
      ArithmeticAllowed(op);
      assert lhs in Children(e) && rhs in Children(e);
    case TupleExpr(elts) => AcceptsAllMeans(elts);
    case ListExpr(elts) => AcceptsAllMeans(elts);
    case BoolOp(_, values) => AcceptsAllMeans(values);
    case Compare(left, ops, comparators) =>
      AcceptsAllMeans(comparators);
      assert (forall i | 0 <= i < |ops| :: AllowedComparison(ops[i])) <==> Is !in ops && IsNot !in ops;
      assert forall c :: c in Children(e) <==> c == left || c in comparators;
      assert (forall c | c in Children(e) :: Accepts(c)) <==>
             Accepts(left) && forall c | c in comparators :: Accepts(c);
    case Call(func, args, keywords) =>
      if keywords == [] {
        CallAccepted(func, args);
        assert forall c :: c in Children(e) <==> c == func || c in args;
        assert (forall c | c in Children(e) :: Accepts(c)) <==> Accepts(func) && forall c | c in args :: Accepts(c);
      }
  }

  /** What agreement with Python demands of an accepted node by itself. */
  predicate NodeSafe(e: Expr) {
    && (e.BoolOp? ==> forall v | v in e.values :: BoolValued(v))
    && (e.Call? && e.func != Name("within") ==> e.args == [])
  }

  lemma {:induction false} AllSafeMeans(es: seq<Expr>)
    ensures AllValueSafe(es) <==> forall e | e in es :: ValueSafe(e)
    ensures AllBoolValued(es) <==> forall e | e in es :: BoolValued(e)
  {
    if es != [] {
      AllSafeMeans(es[1..]);
      assert forall e :: e in es <==> e == es[0] || e in es[1..];
      assert (forall e | e in es :: ValueSafe(e)) <==> ValueSafe(es[0]) && forall e | e in es[1..] :: ValueSafe(e);
      assert (forall e | e in es :: BoolValued(e)) <==> BoolValued(es[0]) && forall e | e in es[1..] :: BoolValued(e);
    }
  }

  /** An accepted tree is safe exactly when its root is and every part is, of which a not asks for its truth only. */
  lemma ValueSafeExactly(e: Expr)
    requires Accepts(e)
    ensures ValueSafe(e) <==>
            NodeSafe(e) && if e.UnaryOp? then TruthSafe(e.operand) else forall c | c in Children(e) :: ValueSafe(c)
    ensures e.Compare? || e.UnaryOp? ==> BoolValued(e)
  {
    match e
    case TupleExpr(elts) => AllSafeMeans(elts);
    case ListExpr(elts) => AllSafeMeans(elts);
    case BoolOp(_, values) => AllSafeMeans(values);
    case Compare(left, _, comparators) =>
      AllSafeMeans(comparators);
      assert forall c :: c in Children(e) <==> c == left || c in comparators;
      assert (forall c | c in Children(e) :: ValueSafe(c)) <==>
             ValueSafe(left) && forall c | c in comparators :: ValueSafe(c);
    case Call(func, args, _) =>
      AllSafeMeans(args);
      AcceptsExactly(e);
      assert forall c :: c in Children(e) <==> c == func || c in args;
      assert (forall c | c in Children(e) :: ValueSafe(c)) <==> ValueSafe(func) && forall c | c in args :: ValueSafe(c);
    case Attribute(base, _) => assert base in Children(e);
    case BinOp(lhs, _, rhs) => assert lhs in Children(e) && rhs in Children(e);
    case _ =>
  }

  // ---------------------------------------------------------------- a threshold rule

  /** The condition name op x, for a numeric name: what it says of the number the context holds. */
  lemma ThresholdMeans(rt: Runtime, ctx: Context, id: string, op: CmpOperator, x: real, y: real)
    requires NumericOperator(op) && id in ctx && Denotes(ctx[id], x)
    ensures Holds(rt, ctx, Some(Link(Name(id), op, Constant(Number(y))))) <==> Related(op, x, y)
  {
    var right := [Constant(Number(y))];
    ComparisonMeans(rt, ctx, Name(id), op, right[0], x, y);
    assert right[1..] == [] && AcceptsAll([]);
    assert AcceptsAll(right);
    assert Accepts(Link(Name(id), op, right[0]));
  }

  /** Without the name the condition never holds. */
  lemma UnknownNameNeverHolds(rt: Runtime, ctx: Context, id: string, op: CmpOperator, y: real)
    requires id !in ctx
    ensures !Holds(rt, ctx, Some(Link(Name(id), op, Constant(Number(y)))))
  {
    assert Eval(rt, ctx, Name(id)).Err?;
    assert Eval(rt, ctx, Link(Name(id), op, Constant(Number(y)))).Err?;
  }
}
