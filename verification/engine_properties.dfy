/**
  Properties of the evaluator: how the main loop composes, when the final
  drain and the `)` loop fail, what a binary operator pops before it is
  pushed, and the engine's documented quirks.
 */
module EngineProperties {
  import opened Wrappers
  import opened Decimal
  import opened Tokenizer
  import opened Engine

  // ---------------------------------------------------------------------
  // The main loop over a concatenation of token lists.

  /** Continue a partial run with more tokens, propagating an earlier failure. */
  function Continue(m: MathLib, r: Result<Stacks, Fault>, ts: seq<Token>): Result<Stacks, Fault> {
    if r.Err? then Err(r.error) else Run(m, r.value, ts)
  }

  lemma RunCons(m: MathLib, st: Stacks, t: Token, ts: seq<Token>)
    ensures Run(m, st, [t] + ts) == Continue(m, Step(m, st, t), ts)
  {
    assert ([t] + ts)[0] == t;
    assert ([t] + ts)[1..] == ts;
  }

  /** The token queue is consumed strictly left to right: running `a + b`
      is running `a` and then `b` from where `a` left the stacks. */
  lemma {:induction false} RunAppend(m: MathLib, st: Stacks, a: seq<Token>, b: seq<Token>)
    ensures Run(m, st, a + b) == Continue(m, Run(m, st, a), b)
    decreases |a|
  {
    if a == [] {
      assert a + b == b;
    } else {
      assert a + b == [a[0]] + (a[1..] + b);
      assert a == [a[0]] + a[1..];
      RunCons(m, st, a[0], a[1..] + b);
      RunCons(m, st, a[0], a[1..]);
      var r := Step(m, st, a[0]);
      if r.Ok? {
        RunAppend(m, r.value, a[1..], b);
      }
    }
  }

  /** A numeric run that does not parse is skipped: it changes neither stack,
      wherever it appears. */
  lemma UnparsableRunSkipped(m: MathLib, st: Stacks, a: seq<Token>, t: Numeral, b: seq<Token>)
    requires ParseDecimal(t).None?
    ensures Run(m, st, a + [Num(t)] + b) == Run(m, st, a + b)
  {
    assert a + [Num(t)] + b == a + ([Num(t)] + b);
    RunAppend(m, st, a, [Num(t)] + b);
    RunAppend(m, st, a, b);
    var r := Run(m, st, a);
    if r.Ok? {
      RunCons(m, r.value, Num(t), b);
    }
  }

  // ---------------------------------------------------------------------
  // Draining the operator stack.

  /** How many entries of `ops` take two values off the value stack when
      drained: all except square roots (a leftover `(` included). */
  function Binaries(ops: seq<Pending>): nat
    decreases |ops|
  {
    if ops == [] then 0 else Binaries(Pop(ops)) + (if Top(ops) == Radical then 0 else 1)
  }

  /** The least number of values with which draining `ops` cannot underflow. */
  function Demand(ops: seq<Pending>): nat {
    if Binaries(ops) > 0 then Binaries(ops) + 1
    else if Radical in ops then 1
    else 0
  }

  lemma TopPop<T>(s: seq<T>)
    requires s != []
    ensures s == Pop(s) + [Top(s)]
  {
  }

  /** The final loop succeeds exactly when enough values are stacked, and it
      leaves one value fewer for every two-operand entry it applied. */
  lemma {:induction false} FinishSucceedsIff(m: MathLib, values: seq<real>, ops: seq<Pending>)
    ensures Finish(m, values, ops).Ok? <==> |values| >= Demand(ops)
    ensures Finish(m, values, ops).Ok? ==> |Finish(m, values, ops).value| == |values| - Binaries(ops)
    ensures Finish(m, values, ops).Err? ==> Finish(m, values, ops).error == EmptyValueStack
    decreases |ops|
  {
    if ops != [] {
      TopPop(ops);
      var rest := Pop(ops);
      assert Radical in ops <==> Top(ops) == Radical || Radical in rest;
      var r := ApplyPending(m, Top(ops), values);
      if r.Ok? {
        FinishSucceedsIff(m, r.value, rest);
      }
    }
  }

  /** Evaluating a token list fails exactly when the main loop fails or the
      stacks it leaves hold no more values than two-operand entries; when
      more values are left, the result is simply the top one. */
  lemma ParseExpressionSucceedsIff(m: MathLib, ts: seq<Token>)
    ensures var r := Run(m, Stacks([], []), ts);
      ParseExpression(m, ts).Ok? <==> r.Ok? && |r.value.values| > Binaries(r.value.ops)
  {
    var r := Run(m, Stacks([], []), ts);
    if r.Ok? {
      FinishSucceedsIff(m, r.value.values, r.value.ops);
    }
  }

  // ---------------------------------------------------------------------
  // What a binary operator pops before it is pushed.

  /** How many entries at the top of `ops` a binary operator of precedence
      `prec` pops: the longest run of tops that are not `(` and bind at
      least as tightly. */
  function YieldDepth(ops: seq<Pending>, prec: nat): (d: nat)
    ensures d <= |ops|
    ensures forall i :: |ops| - d <= i < |ops| ==> Yields(ops[i], prec)
    ensures d < |ops| ==> !Yields(ops[|ops| - d - 1], prec)
    decreases |ops|
  {
    if ops == [] || !Yields(Top(ops), prec) then 0
    else
      TopPop(ops);
      1 + YieldDepth(Pop(ops), prec)
  }

  /** Lift a drain of the value stack to the stacks with `ops` below it. */
  function WithOps(r: Result<seq<real>, Fault>, ops: seq<Pending>): Result<Stacks, Fault> {
    if r.Err? then Err(r.error) else Ok(Stacks(r.value, ops))
  }

  /** Before a binary operator is pushed, exactly the maximal run of yielding
      tops is popped and applied, top first, exactly as the final loop would
      apply it; everything below it stays. */
  lemma {:induction false} ReduceDrainsYielding(m: MathLib, st: Stacks, prec: nat)
    ensures var d := YieldDepth(st.ops, prec);
      Reduce(m, st, prec) == WithOps(Finish(m, st.values, st.ops[|st.ops| - d..]), st.ops[..|st.ops| - d])
    decreases |st.ops|
  {
    var ops := st.ops;
    var d := YieldDepth(ops, prec);
    if d == 0 {
      assert ops[|ops|..] == [];
      assert ops[..|ops|] == ops;
    } else {
      TopPop(ops);
      var rest := Pop(ops);
      var seg := ops[|ops| - d..];
      assert Top(seg) == Top(ops);
      assert Pop(seg) == rest[|rest| - (d - 1)..];
      assert rest[..|rest| - (d - 1)] == ops[..|ops| - d];
      var r := ApplyPending(m, Top(ops), st.values);
      if r.Ok? {
        ReduceDrainsYielding(m, Stacks(r.value, rest), prec);
      }
    }
  }

  /** A binary operator succeeds exactly when the values suffice for the
      entries it pops. */
  lemma ReduceSucceedsIff(m: MathLib, st: Stacks, prec: nat)
    ensures var d := YieldDepth(st.ops, prec);
      Reduce(m, st, prec).Ok? <==> |st.values| >= Demand(st.ops[|st.ops| - d..])
  {
    var d := YieldDepth(st.ops, prec);
    var seg := st.ops[|st.ops| - d..];
    ReduceDrainsYielding(m, st, prec);
    WithOpsOk(Finish(m, st.values, seg), st.ops[..|st.ops| - d]);
    FinishSucceedsIff(m, st.values, seg);
  }

  lemma WithOpsOk(r: Result<seq<real>, Fault>, ops: seq<Pending>)
    ensures WithOps(r, ops).Ok? <==> r.Ok?
  {
  }

  // ---------------------------------------------------------------------
  // The `)` loop.

  /** How many entries sit above the topmost `(`, if there is one. */
  function OpenDepth(ops: seq<Pending>): (k: Option<nat>)
    ensures k.Some? ==> k.value < |ops| && ops[|ops| - 1 - k.value] == Open
    ensures k.Some? ==> forall i :: |ops| - k.value <= i < |ops| ==> ops[i] != Open
    ensures k.None? ==> Open !in ops
    decreases |ops|
  {
    if ops == [] then None
    else if Top(ops) == Open then Some(0)
    else
      TopPop(ops);
      match OpenDepth(Pop(ops))
      case None => None
      case Some(k) => Some(k + 1)
  }

  /** `)` succeeds exactly when a `(` is on the operator stack and, if any
      entries sit above it, there are more values than such entries. */
  lemma {:induction false} CloseParenSucceedsIff(m: MathLib, st: Stacks)
    ensures var k := OpenDepth(st.ops);
      CloseParen(m, st).Ok? <==> k.Some? && (k.value == 0 || |st.values| > k.value)
    decreases |st.ops|
  {
    if st.ops != [] && Top(st.ops) != Open {
      TopPop(st.ops);
      var r := ApplyBinary(m, Top(st.ops), st.values);
      if r.Ok? {
        CloseParenSucceedsIff(m, Stacks(r.value, Pop(st.ops)));
      }
    }
  }

  /** On success, each entry above the topmost `(` has been applied, taking
      one value net, and the `(` itself is removed. */
  lemma {:induction false} CloseParenShape(m: MathLib, st: Stacks)
    requires CloseParen(m, st).Ok?
    ensures OpenDepth(st.ops).Some?
    ensures var k := OpenDepth(st.ops).value;
      && CloseParen(m, st).value.ops == st.ops[..|st.ops| - 1 - k]
      && |CloseParen(m, st).value.values| == |st.values| - k
    decreases |st.ops|
  {
    CloseParenSucceedsIff(m, st);
    if Top(st.ops) != Open {
      TopPop(st.ops);
      var r := ApplyBinary(m, Top(st.ops), st.values);
      CloseParenShape(m, Stacks(r.value, Pop(st.ops)));
      var k := OpenDepth(Pop(st.ops)).value;
      assert Pop(st.ops)[..|Pop(st.ops)| - 1 - k] == st.ops[..|st.ops| - 1 - (k + 1)];
    }
  }

  /** The entries above a `(` as `)` applies them: it never tests for a
      square root, so a pending root goes through the two-operand `applyOp`
      just as a `(` would. */
  function Binarize(ops: seq<Pending>): (r: seq<Pending>)
    ensures |r| == |ops|
    decreases |ops|
  {
    if ops == [] then []
    else Binarize(Pop(ops)) + [if Top(ops) == Radical then Open else Top(ops)]
  }

  /** `)` pops exactly the entries above the topmost `(`, top first, applies
      each as a two-operand entry of the final loop, and then drops the `(`;
      everything below it stays. (`OpenDepthAbove` shows that `seg` is the
      segment `OpenDepth` measures.) */
  lemma {:induction false} CloseParenDrains(m: MathLib, values: seq<real>, below: seq<Pending>, seg: seq<Pending>)
    requires Open !in seg
    ensures CloseParen(m, Stacks(values, below + [Open] + seg)) == WithOps(Finish(m, values, Binarize(seg)), below)
    decreases |seg|
  {
    var ops := below + [Open] + seg;
    if seg == [] {
      assert ops == below + [Open];
    } else {
      TopPop(seg);
      assert Top(ops) == Top(seg);
      assert Pop(ops) == below + [Open] + Pop(seg);
      FinishBinarizedStep(m, values, seg);
      CloseParenStep(m, Stacks(values, ops));
      var r := ApplyBinary(m, Top(seg), values);
      if r.Ok? {
        CloseParenDrains(m, r.value, below, Pop(seg));
      }
    }
  }

  /** One step of the final loop over a binarized segment is one step of `)`. */
  lemma FinishBinarizedStep(m: MathLib, values: seq<real>, seg: seq<Pending>)
    requires seg != []
    ensures var r := ApplyBinary(m, Top(seg), values);
      Finish(m, values, Binarize(seg)) == if r.Err? then Err(r.error) else Finish(m, r.value, Binarize(Pop(seg)))
  {
    var b := Binarize(seg);
    assert Top(b) == (if Top(seg) == Radical then Open else Top(seg));
    assert Pop(b) == Binarize(Pop(seg));
  }

  lemma CloseParenStep(m: MathLib, st: Stacks)
    requires st.ops != [] && Top(st.ops) != Open
    ensures var r := ApplyBinary(m, Top(st.ops), st.values);
      CloseParen(m, st) == if r.Err? then Err(r.error) else CloseParen(m, Stacks(r.value, Pop(st.ops)))
  {
  }

  /** The depth of the topmost `(` is the number of entries above it. */
  lemma {:induction false} OpenDepthAbove(below: seq<Pending>, seg: seq<Pending>)
    requires Open !in seg
    ensures OpenDepth(below + [Open] + seg) == Some(|seg|)
    decreases |seg|
  {
    var ops := below + [Open] + seg;
    if seg == [] {
      assert ops == below + [Open];
    } else {
      TopPop(seg);
      assert Top(ops) == Top(seg);
      assert Pop(ops) == below + [Open] + Pop(seg);
      OpenDepthAbove(below, Pop(seg));
    }
  }

  /** Without square roots, `)` applies exactly the entries it finds. */
  lemma {:induction false} BinarizeKeepsBinary(ops: seq<Pending>)
    requires Radical !in ops
    ensures Binarize(ops) == ops
    decreases |ops|
  {
    if ops != [] {
      TopPop(ops);
      BinarizeKeepsBinary(Pop(ops));
    }
  }

  /** With no square root above it, `)` over the bottom `(` is exactly the
      final loop over the entries above it. */
  lemma CloseOverOpen(m: MathLib, values: seq<real>, seg: seq<Pending>)
    requires Open !in seg && Radical !in seg
    ensures CloseParen(m, Stacks(values, [Open] + seg)) == WithOps(Finish(m, values, seg), [])
  {
    assert [Open] + seg == [] + [Open] + seg;
    CloseParenDrains(m, values, [], seg);
    BinarizeKeepsBinary(seg);
  }

  /** A `)` with no `(` beneath it fails on the operator stack when the
      values do not run out first; on an empty operator stack it fails at
      once, whatever the values. */
  lemma {:induction false} UnmatchedCloseParen(m: MathLib, st: Stacks)
    requires Open !in st.ops
    requires st.ops == [] || |st.values| > |st.ops|
    ensures CloseParen(m, st) == Err(EmptyOperatorStack)
    decreases |st.ops|
  {
    if st.ops != [] {
      TopPop(st.ops);
      var values := Pop(Pop(st.values)) + [ApplyOp(m, Top(st.ops), Top(st.values), Top(Pop(st.values)))];
      assert Open !in Pop(st.ops);
      UnmatchedCloseParen(m, Stacks(values, Pop(st.ops)));
    }
  }

  // ---------------------------------------------------------------------
  // Quirks of the engine as written.

  /** A square root popped by `)` goes through the two-operand `applyOp`: it
      consumes two values and leaves 0. */
  lemma RootClosedByParen(m: MathLib, values: seq<real>, ops: seq<Pending>, a: real, b: real)
    ensures CloseParen(m, Stacks(values + [a, b], ops + [Open, Radical])) == Ok(Stacks(values + [0.0], ops))
  {
    var st := Stacks(values + [a, b], ops + [Open, Radical]);
    assert Top(st.ops) == Radical && Pop(st.ops) == ops + [Open];
    assert Pop(Pop(st.values)) == values;
    assert Pop(ops + [Open]) == ops;
  }

  /** A `(` left at the end also goes through `applyOp`: it consumes two
      values and leaves 0. */
  lemma LeftoverOpenGivesZero(m: MathLib, values: seq<real>, a: real, b: real)
    ensures Finish(m, values + [a, b], [Open]) == Ok(values + [0.0])
  {
    assert Pop(Pop(values + [a, b])) == values;
    assert Pop([Open]) == [];
  }

  /** A square root is applied to one operand by the final loop. */
  lemma RootDrained(m: MathLib, values: seq<real>, a: real)
    ensures Finish(m, values + [a], [Radical]) == Ok(values + [m.sqrt(a)])
  {
    assert Pop(values + [a]) == values;
    assert Pop([Radical]) == [];
  }

  // ---------------------------------------------------------------------
  // Precedence and associativity of two operators in a row.

  /** The value of `x o1 y o2 z` as the engine computes it: the first operator
      is applied first when it binds at least as tightly as the second (so
      operators of equal precedence, `^` included, group to the left), else
      the second is. */
  function TwoOps(m: MathLib, a: real, o1: BinOp, b: real, o2: BinOp, c: real): real {
    if OpPrecedence(o1) >= OpPrecedence(o2)
    then ApplyOp(m, Bin(o2), c, ApplyOp(m, Bin(o1), b, a))
    else ApplyOp(m, Bin(o1), ApplyOp(m, Bin(o2), c, b), a)
  }

  /** `applyOp` replaces the top two values, passing the top one first as the
      right operand, and keeps every value below them. */
  lemma ApplyBinaryTop(m: MathLib, p: Pending, values: seq<real>, a: real, b: real)
    ensures ApplyBinary(m, p, values + [a, b]) == Ok(values + [ApplyOp(m, p, b, a)])
  {
    assert Pop(Pop(values + [a, b])) == values;
  }

  /** A square root replaces the top value alone and keeps every value below it. */
  lemma ApplyRootTop(m: MathLib, values: seq<real>, a: real)
    ensures ApplyRoot(m, values + [a]) == Ok(values + [m.sqrt(a)])
  {
    assert Pop(values + [a]) == values;
  }

  lemma ReduceStops(m: MathLib, st: Stacks, prec: nat)
    requires st.ops == [] || !Yields(Top(st.ops), prec)
    ensures Reduce(m, st, prec) == Ok(st)
  {
  }

  lemma ReducePopsBinary(m: MathLib, values: seq<real>, a: real, b: real, ops: seq<Pending>, o: BinOp, prec: nat)
    requires OpPrecedence(o) >= prec
    ensures Reduce(m, Stacks(values + [a, b], ops + [Bin(o)]), prec)
         == Reduce(m, Stacks(values + [ApplyOp(m, Bin(o), b, a)], ops), prec)
  {
    ApplyBinaryTop(m, Bin(o), values, a, b);
    assert Pop(ops + [Bin(o)]) == ops;
  }

  lemma PushNumber(m: MathLib, st: Stacks, x: Numeral, a: real, ts: seq<Token>)
    requires ParseDecimal(x) == Some(a)
    ensures Run(m, st, [Num(x)] + ts) == Run(m, Stacks(st.values + [a], st.ops), ts)
  {
    RunCons(m, st, Num(x), ts);
  }

  lemma PushOperator(m: MathLib, st: Stacks, o: BinOp, st': Stacks, ts: seq<Token>)
    requires Reduce(m, st, OpPrecedence(o)) == Ok(st')
    ensures Run(m, st, [Op(o)] + ts) == Run(m, Stacks(st'.values, st'.ops + [Bin(o)]), ts)
  {
    RunCons(m, st, Op(o), ts);
  }

  /** `x o1 y` leaves both operands and `o1` pending. */
  lemma ChainPrefix(m: MathLib, x: Numeral, o1: BinOp, y: Numeral, a: real, b: real, rest: seq<Token>)
    requires ParseDecimal(x) == Some(a) && ParseDecimal(y) == Some(b)
    ensures Run(m, Stacks([], []), [Num(x), Op(o1), Num(y)] + rest) == Run(m, Stacks([a, b], [Bin(o1)]), rest)
  {
    assert [Num(x), Op(o1), Num(y)] + rest == [Num(x)] + ([Op(o1)] + ([Num(y)] + rest));
    PushNumber(m, Stacks([], []), x, a, [Op(o1)] + ([Num(y)] + rest));
    var s1 := Stacks([a], []);
    assert Reduce(m, s1, OpPrecedence(o1)) == Ok(s1);
    PushOperator(m, s1, o1, s1, [Num(y)] + rest);
    assert s1.ops + [Bin(o1)] == [Bin(o1)];
    PushNumber(m, Stacks([a], [Bin(o1)]), y, b, rest);
    assert [] + [a] == [a] && [a] + [b] == [a, b];
  }

  /** The second operator pops the first when it binds no tighter. */
  lemma ChainSecondPops(m: MathLib, a: real, o1: BinOp, b: real, o2: BinOp, z: Numeral, c: real)
    requires ParseDecimal(z) == Some(c)
    requires OpPrecedence(o1) >= OpPrecedence(o2)
    ensures Run(m, Stacks([a, b], [Bin(o1)]), [Op(o2), Num(z)]) == Ok(Stacks([ApplyOp(m, Bin(o1), b, a), c], [Bin(o2)]))
  {
    var v := ApplyOp(m, Bin(o1), b, a);
    var p := OpPrecedence(o2);
    ReducePopsBinary(m, [], a, b, [], o1, p);
    assert [] + [a, b] == [a, b] && [] + [Bin(o1)] == [Bin(o1)] && [] + [v] == [v];
    ReduceStops(m, Stacks([v], []), p);
    assert [Op(o2), Num(z)] == [Op(o2)] + [Num(z)];
    PushOperator(m, Stacks([a, b], [Bin(o1)]), o2, Stacks([v], []), [Num(z)]);
    assert [] + [Bin(o2)] == [Bin(o2)];
    assert [Num(z)] == [Num(z)] + [];
    PushNumber(m, Stacks([v], [Bin(o2)]), z, c, []);
    assert [v] + [c] == [v, c];
  }

  /** The second operator is stacked on the first when it binds tighter. */
  lemma ChainSecondStacks(m: MathLib, a: real, o1: BinOp, b: real, o2: BinOp, z: Numeral, c: real)
    requires ParseDecimal(z) == Some(c)
    requires OpPrecedence(o1) < OpPrecedence(o2)
    ensures Run(m, Stacks([a, b], [Bin(o1)]), [Op(o2), Num(z)]) == Ok(Stacks([a, b, c], [Bin(o1), Bin(o2)]))
  {
    var s3 := Stacks([a, b], [Bin(o1)]);
    ReduceStops(m, s3, OpPrecedence(o2));
    assert [Op(o2), Num(z)] == [Op(o2)] + [Num(z)];
    PushOperator(m, s3, o2, s3, [Num(z)]);
    assert s3.ops + [Bin(o2)] == [Bin(o1), Bin(o2)];
    assert [Num(z)] == [Num(z)] + [];
    PushNumber(m, Stacks([a, b], [Bin(o1), Bin(o2)]), z, c, []);
    assert [a, b] + [c] == [a, b, c];
  }

  /** Evaluation once the main loop has left the stacks `values` and `ops`. */
  lemma ParseAfterRun(m: MathLib, ts: seq<Token>, values: seq<real>, ops: seq<Pending>, out: seq<real>)
    requires Run(m, Stacks([], []), ts) == Ok(Stacks(values, ops))
    requires Finish(m, values, ops) == Ok(out)
    ensures ParseExpression(m, ts) == if out == [] then Err(EmptyValueStack) else Ok(Top(out))
  {
  }

  lemma FinishBinary(m: MathLib, values: seq<real>, a: real, b: real, ops: seq<Pending>, p: Pending)
    requires p != Radical
    ensures Finish(m, values + [a, b], ops + [p]) == Finish(m, values + [ApplyOp(m, p, b, a)], ops)
  {
    ApplyBinaryTop(m, p, values, a, b);
    assert Pop(ops + [p]) == ops;
  }

  /** A pending root applies to the top value alone, wherever it sits in the
      operator stack. */
  lemma FinishRoot(m: MathLib, values: seq<real>, a: real, ops: seq<Pending>)
    ensures Finish(m, values + [a], ops + [Radical]) == Finish(m, values + [m.sqrt(a)], ops)
  {
    assert Pop(values + [a]) == values;
    assert Pop(ops + [Radical]) == ops;
  }

  /** A binary operator pops a pending root before it is pushed, since the root
      binds more tightly than any of them. */
  lemma ReduceRoot(m: MathLib, values: seq<real>, a: real, ops: seq<Pending>, o: BinOp)
    ensures Reduce(m, Stacks(values + [a], ops + [Radical]), OpPrecedence(o))
         == Reduce(m, Stacks(values + [m.sqrt(a)], ops), OpPrecedence(o))
  {
    assert Pop(values + [a]) == values;
    assert Pop(ops + [Radical]) == ops;
  }

  lemma ChainLeft(m: MathLib, x: Numeral, o1: BinOp, y: Numeral, o2: BinOp, z: Numeral, a: real, b: real, c: real)
    requires ParseDecimal(x) == Some(a) && ParseDecimal(y) == Some(b) && ParseDecimal(z) == Some(c)
    requires OpPrecedence(o1) >= OpPrecedence(o2)
    ensures ParseExpression(m, [Num(x), Op(o1), Num(y), Op(o2), Num(z)])
         == Ok(ApplyOp(m, Bin(o2), c, ApplyOp(m, Bin(o1), b, a)))
  {
    var ts := [Num(x), Op(o1), Num(y), Op(o2), Num(z)];
    assert ts == [Num(x), Op(o1), Num(y)] + [Op(o2), Num(z)];
    ChainPrefix(m, x, o1, y, a, b, [Op(o2), Num(z)]);
    ChainSecondPops(m, a, o1, b, o2, z, c);
    var v := ApplyOp(m, Bin(o1), b, a);
    var r := ApplyOp(m, Bin(o2), c, v);
    FinishBinary(m, [], v, c, [], Bin(o2));
    assert [] + [v, c] == [v, c] && [] + [Bin(o2)] == [Bin(o2)] && [] + [r] == [r];
    ParseAfterRun(m, ts, [v, c], [Bin(o2)], [r]);
  }

  lemma ChainRight(m: MathLib, x: Numeral, o1: BinOp, y: Numeral, o2: BinOp, z: Numeral, a: real, b: real, c: real)
    requires ParseDecimal(x) == Some(a) && ParseDecimal(y) == Some(b) && ParseDecimal(z) == Some(c)
    requires OpPrecedence(o1) < OpPrecedence(o2)
    ensures ParseExpression(m, [Num(x), Op(o1), Num(y), Op(o2), Num(z)])
         == Ok(ApplyOp(m, Bin(o1), ApplyOp(m, Bin(o2), c, b), a))
  {
    var ts := [Num(x), Op(o1), Num(y), Op(o2), Num(z)];
    assert ts == [Num(x), Op(o1), Num(y)] + [Op(o2), Num(z)];
    ChainPrefix(m, x, o1, y, a, b, [Op(o2), Num(z)]);
    ChainSecondStacks(m, a, o1, b, o2, z, c);
    FinishTwoStacked(m, a, o1, b, o2, c);
    ParseAfterRun(m, ts, [a, b, c], [Bin(o1), Bin(o2)], [ApplyOp(m, Bin(o1), ApplyOp(m, Bin(o2), c, b), a)]);
  }

  /** Draining two stacked operators applies the upper one first. */
  lemma FinishTwoStacked(m: MathLib, a: real, o1: BinOp, b: real, o2: BinOp, c: real)
    ensures Finish(m, [a, b, c], [Bin(o1), Bin(o2)]) == Ok([ApplyOp(m, Bin(o1), ApplyOp(m, Bin(o2), c, b), a)])
  {
    var w := ApplyOp(m, Bin(o2), c, b);
    var r := ApplyOp(m, Bin(o1), w, a);
    FinishBinary(m, [a], b, c, [Bin(o1)], Bin(o2));
    FinishBinary(m, [], a, w, [], Bin(o1));
    assert [a] + [b, c] == [a, b, c] && [Bin(o1)] + [Bin(o2)] == [Bin(o1), Bin(o2)] && [a] + [w] == [] + [a, w];
    assert [] + [Bin(o1)] == [Bin(o1)] && [] + [r] == [r];
  }

  /** Precedence and left associativity for two binary operators in a row. */
  lemma ChainOfTwo(m: MathLib, x: Numeral, o1: BinOp, y: Numeral, o2: BinOp, z: Numeral, a: real, b: real, c: real)
    requires ParseDecimal(x) == Some(a) && ParseDecimal(y) == Some(b) && ParseDecimal(z) == Some(c)
    ensures ParseExpression(m, [Num(x), Op(o1), Num(y), Op(o2), Num(z)]) == Ok(TwoOps(m, a, o1, b, o2, c))
  {
    if OpPrecedence(o1) >= OpPrecedence(o2) {
      ChainLeft(m, x, o1, y, o2, z, a, b, c);
    } else {
      ChainRight(m, x, o1, y, o2, z, a, b, c);
    }
  }
}
