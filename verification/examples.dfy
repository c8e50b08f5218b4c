/**
  Worked inputs: what the calculator answers for particular displays,
  derived from the general lemmas. The square root and the power stay
  parameters (`m`), so results involving them are stated through `m`.

  Each example is split the same way: how the display is read into tokens,
  what the engine makes of those tokens, and the two put together.
 */
module Examples {
  import opened Wrappers
  import opened Decimal
  import opened Tokenizer
  import opened Engine
  import opened EngineProperties
  import opened ExprCorrectness

  // ---------------------------------------------------------------------
  // Token-level shapes, with the numerals as parameters.

  /** `x` is a run of digits, without a point, whose value is `a`. Stated
      through the digits rather than through `ParseDecimal`, so that a
      literal numeral can be checked against it cheaply. */
  predicate Whole(x: Numeral, a: real) {
    x != [] && AllDigits(x) && DigitsValue(x) as real == a
  }

  lemma WholeReads(x: Numeral, a: real)
    requires Whole(x, a)
    ensures ParseDecimal(x) == Some(a)
  {
    ParseDigits(x);
  }

  lemma SingleNumber(m: MathLib, x: Numeral, a: real)
    requires Whole(x, a)
    ensures ParseExpression(m, [Num(x)]) == Ok(a)
  {
    WholeReads(x, a);
    PushNumber(m, Stacks([], []), x, a, []);
    assert [Num(x)] + [] == [Num(x)] && [] + [a] == [a];
    assert Run(m, Stacks([a], []), []) == Ok(Stacks([a], []));
    assert Finish(m, [a], []) == Ok([a]);
    ParseAfterRun(m, [Num(x)], [a], [], [a]);
  }

  /** `x o y`, for any two numerals that read. */
  lemma OneOpRead(m: MathLib, x: Numeral, o: BinOp, y: Numeral, a: real, b: real, v: real)
    requires ParseDecimal(x) == Some(a) && ParseDecimal(y) == Some(b)
    requires ApplyOp(m, Bin(o), b, a) == v
    ensures ParseExpression(m, [Num(x), Op(o), Num(y)]) == Ok(v)
  {
    ChainPrefix(m, x, o, y, a, b, []);
    assert [Num(x), Op(o), Num(y)] + [] == [Num(x), Op(o), Num(y)];
    FinishBinary(m, [], a, b, [], Bin(o));
    assert [] + [a, b] == [a, b] && [] + [Bin(o)] == [Bin(o)] && [] + [v] == [v];
    assert Finish(m, [v], []) == Ok([v]);
    assert Run(m, Stacks([a, b], [Bin(o)]), []) == Ok(Stacks([a, b], [Bin(o)]));
    ParseAfterRun(m, [Num(x), Op(o), Num(y)], [a, b], [Bin(o)], [v]);
  }

  /** `x o y` with two whole numerals. */
  lemma OneOp(m: MathLib, x: Numeral, o: BinOp, y: Numeral, a: real, b: real, v: real)
    requires Whole(x, a) && Whole(y, b)
    requires ApplyOp(m, Bin(o), b, a) == v
    ensures ParseExpression(m, [Num(x), Op(o), Num(y)]) == Ok(v)
  {
    WholeReads(x, a); WholeReads(y, b);
    OneOpRead(m, x, o, y, a, b, v);
  }

  /** `i.f o y`, where the first numeral has a point. */
  lemma PointThenOp(m: MathLib, i: string, f: string, o: BinOp, y: Numeral, a: real, b: real, v: real)
    requires AllDigits(i) && AllDigits(f) && |i| + |f| > 0
    requires DigitsValue(i + f) as real / Pow10(|f|) as real == a
    requires Whole(y, b) && ApplyOp(m, Bin(o), b, a) == v
    ensures var x: Numeral := i + "." + f; ParseExpression(m, [Num(x), Op(o), Num(y)]) == Ok(v)
  {
    ParsePointed(i, f);
    var x: Numeral := i + "." + f;
    WholeReads(y, b);
    OneOpRead(m, x, o, y, a, b, v);
  }

  /** `x o1 y o2 z` with three literals. */
  lemma TwoOpsValue(m: MathLib, x: Numeral, o1: BinOp, y: Numeral, o2: BinOp, z: Numeral, a: real, b: real, c: real, v: real)
    requires Whole(x, a) && Whole(y, b) && Whole(z, c)
    requires TwoOps(m, a, o1, b, o2, c) == v
    ensures ParseExpression(m, [Num(x), Op(o1), Num(y), Op(o2), Num(z)]) == Ok(v)
  {
    WholeReads(x, a); WholeReads(y, b); WholeReads(z, c);
    ChainOfTwo(m, x, o1, y, o2, z, a, b, c);
  }

  lemma GroupThenOpRun(m: MathLib, e: Expr, o: BinOp, z: Numeral, c: real)
    requires ParseDecimal(z) == Some(c)
    ensures Run(m, Stacks([], []), Tokens(e) + [Op(o), Num(z)]) == Ok(Stacks([Denote(m, e), c], [Bin(o)]))
  {
    var d := Denote(m, e);
    var ts := Tokens(e) + [Op(o), Num(z)];
    calc {
      Run(m, Stacks([], []), ts);
      { assert ts == Tokens(e) + ([Op(o)] + [Num(z)]);
        RunTokens(m, e, [], []);
        assert [] + [d] == [d];
        RunAppend(m, Stacks([], []), Tokens(e), [Op(o)] + [Num(z)]); }
      Run(m, Stacks([d], []), [Op(o)] + [Num(z)]);
      { ReduceStops(m, Stacks([d], []), OpPrecedence(o));
        PushOperator(m, Stacks([d], []), o, Stacks([d], []), [Num(z)]);
        assert [] + [Bin(o)] == [Bin(o)]; }
      Run(m, Stacks([d], [Bin(o)]), [Num(z)]);
      { assert [Num(z)] == [Num(z)] + [];
        PushNumber(m, Stacks([d], [Bin(o)]), z, c, []);
        assert [d] + [c] == [d, c]; }
      Run(m, Stacks([d, c], [Bin(o)]), []);
    }
  }

  /** A parenthesised expression followed by `o z`. */
  lemma GroupThenOp(m: MathLib, e: Expr, o: BinOp, z: Numeral, c: real)
    requires Whole(z, c)
    ensures ParseExpression(m, Tokens(e) + [Op(o), Num(z)]) == Ok(Combine(m, o, Denote(m, e), c))
  {
    WholeReads(z, c);
    var d := Denote(m, e);
    GroupThenOpRun(m, e, o, z, c);
    FinishBinary(m, [], d, c, [], Bin(o));
    assert [] + [d, c] == [d, c] && [] + [Bin(o)] == [Bin(o)];
    ApplyOpAgrees(m, o, d, c);
    var v := Combine(m, o, d, c);
    assert [] + [v] == [v];
    assert Finish(m, [v], []) == Ok([v]);
    ParseAfterRun(m, Tokens(e) + [Op(o), Num(z)], [d, c], [Bin(o)], [v]);
  }

  /** `)` right after `(`: the `(` is simply removed. */
  lemma CloseOpen(m: MathLib, values: seq<real>)
    ensures Run(m, Stacks(values, [Open]), [RParen]) == Ok(Stacks(values, []))
  {
    RunCons(m, Stacks(values, [Open]), RParen, []);
    assert [RParen] + [] == [RParen];
  }

  lemma NumberThenGroupRun(m: MathLib, x: Numeral, y: Numeral, a: real, b: real)
    requires ParseDecimal(x) == Some(a) && ParseDecimal(y) == Some(b)
    ensures Run(m, Stacks([], []), [Num(x), LParen, Num(y), RParen]) == Ok(Stacks([a, b], []))
  {
    var t2 := [Num(y)] + [RParen];
    var t1 := [LParen] + t2;
    calc {
      Run(m, Stacks([], []), [Num(x), LParen, Num(y), RParen]);
      { assert [Num(x), LParen, Num(y), RParen] == [Num(x)] + t1;
        PushNumber(m, Stacks([], []), x, a, t1);
        assert [] + [a] == [a]; }
      Run(m, Stacks([a], []), t1);
      { RunCons(m, Stacks([a], []), LParen, t2);
        assert [] + [Open] == [Open]; }
      Run(m, Stacks([a], [Open]), t2);
      { PushNumber(m, Stacks([a], [Open]), y, b, [RParen]);
        assert [a] + [b] == [a, b]; }
      Run(m, Stacks([a, b], [Open]), [RParen]);
      { CloseOpen(m, [a, b]); }
      Ok(Stacks([a, b], []));
    }
  }

  /** `x(y)`: no multiplication is implied; the result is the top value `y`. */
  lemma NumberThenGroup(m: MathLib, x: Numeral, y: Numeral, a: real, b: real)
    requires Whole(x, a) && Whole(y, b)
    ensures ParseExpression(m, [Num(x), LParen, Num(y), RParen]) == Ok(b)
  {
    WholeReads(x, a); WholeReads(y, b);
    NumberThenGroupRun(m, x, y, a, b);
    assert Finish(m, [a, b], []) == Ok([a, b]);
    ParseAfterRun(m, [Num(x), LParen, Num(y), RParen], [a, b], [], [a, b]);
  }

  /** `o x`: there is no unary sign; the operator finds one value. */
  lemma LeadingOperator(m: MathLib, o: BinOp, x: Numeral, a: real)
    requires Whole(x, a)
    ensures ParseExpression(m, [Op(o), Num(x)]) == Err(EmptyValueStack)
  {
    WholeReads(x, a);
    LeadingOperatorRun(m, o, x, a);
    assert Finish(m, [a], [Bin(o)]) == Err(EmptyValueStack);
  }

  lemma LeadingOperatorRun(m: MathLib, o: BinOp, x: Numeral, a: real)
    requires ParseDecimal(x) == Some(a)
    ensures Run(m, Stacks([], []), [Op(o), Num(x)]) == Ok(Stacks([a], [Bin(o)]))
  {
    var t1 := [Num(x)] + [];
    calc {
      Run(m, Stacks([], []), [Op(o), Num(x)]);
      { assert [Op(o), Num(x)] == [Op(o)] + t1;
        ReduceStops(m, Stacks([], []), OpPrecedence(o));
        PushOperator(m, Stacks([], []), o, Stacks([], []), t1);
        assert [] + [Bin(o)] == [Bin(o)]; }
      Run(m, Stacks([], [Bin(o)]), t1);
      { PushNumber(m, Stacks([], [Bin(o)]), x, a, []);
        assert [] + [a] == [a]; }
      Run(m, Stacks([a], [Bin(o)]), []);
    }
  }

  /** `x o y)`: the `)` drains the operator and then finds no `(`. */
  lemma UnmatchedClose(m: MathLib, x: Numeral, o: BinOp, y: Numeral, a: real, b: real)
    requires Whole(x, a) && Whole(y, b)
    ensures ParseExpression(m, [Num(x), Op(o), Num(y), RParen]) == Err(EmptyOperatorStack)
  {
    WholeReads(x, a); WholeReads(y, b);
    ChainPrefix(m, x, o, y, a, b, [RParen]);
    UnmatchedCloseParen(m, Stacks([a, b], [Bin(o)]));
    assert [Num(x), Op(o), Num(y)] + [RParen] == [Num(x), Op(o), Num(y), RParen];
  }

  lemma UnclosedOpenRun(m: MathLib, x: Numeral, o: BinOp, y: Numeral, a: real, b: real)
    requires ParseDecimal(x) == Some(a) && ParseDecimal(y) == Some(b)
    ensures Run(m, Stacks([], []), [LParen, Num(x), Op(o), Num(y)]) == Ok(Stacks([a, b], [Open, Bin(o)]))
  {
    var t3 := [Num(y)] + [];
    var t2 := [Op(o)] + t3;
    var t1 := [Num(x)] + t2;
    calc {
      Run(m, Stacks([], []), [LParen, Num(x), Op(o), Num(y)]);
      { assert [LParen, Num(x), Op(o), Num(y)] == [LParen] + t1;
        RunCons(m, Stacks([], []), LParen, t1);
        assert [] + [Open] == [Open]; }
      Run(m, Stacks([], [Open]), t1);
      { PushNumber(m, Stacks([], [Open]), x, a, t2);
        assert [] + [a] == [a]; }
      Run(m, Stacks([a], [Open]), t2);
      { ReduceStops(m, Stacks([a], [Open]), OpPrecedence(o));
        PushOperator(m, Stacks([a], [Open]), o, Stacks([a], [Open]), t3);
        assert [Open] + [Bin(o)] == [Open, Bin(o)]; }
      Run(m, Stacks([a], [Open, Bin(o)]), t3);
      { PushNumber(m, Stacks([a], [Open, Bin(o)]), y, b, []);
        assert [a] + [b] == [a, b]; }
      Run(m, Stacks([a, b], [Open, Bin(o)]), []);
    }
  }

  /** `(x o y`: the leftover `(` is treated as an operator and finds one value. */
  lemma UnclosedOpen(m: MathLib, x: Numeral, o: BinOp, y: Numeral, a: real, b: real)
    requires Whole(x, a) && Whole(y, b)
    ensures ParseExpression(m, [LParen, Num(x), Op(o), Num(y)]) == Err(EmptyValueStack)
  {
    WholeReads(x, a); WholeReads(y, b);
    UnclosedOpenRun(m, x, o, y, a, b);
    FinishBinary(m, [], a, b, [Open], Bin(o));
    assert [] + [a, b] == [a, b] && [Open] + [Bin(o)] == [Open, Bin(o)];
    var v := ApplyOp(m, Bin(o), b, a);
    assert [] + [v] == [v];
    assert Finish(m, [v], [Open]) == Err(EmptyValueStack);
  }

  /** `(√x)`: the `)` applies the root as a two-operand operator and runs
      out of values. */
  lemma RootInGroup(m: MathLib, x: Numeral, a: real)
    requires Whole(x, a)
    ensures ParseExpression(m, [LParen, Root, Num(x), RParen]) == Err(EmptyValueStack)
  {
    WholeReads(x, a);
    var t2 := [Num(x)] + [RParen];
    var t1 := [Root] + t2;
    RunCons(m, Stacks([], []), LParen, t1);
    RunCons(m, Stacks([], [Open]), Root, t2);
    PushNumber(m, Stacks([], [Open, Radical]), x, a, [RParen]);
    assert [] + [Open] == [Open] && [Open] + [Radical] == [Open, Radical] && [] + [a] == [a];
    RunCons(m, Stacks([a], [Open, Radical]), RParen, []);
    assert [RParen] + [] == [RParen];
    calc {
      Run(m, Stacks([], []), [LParen, Root, Num(x), RParen]);
      { assert [LParen, Root, Num(x), RParen] == [LParen] + t1; }
      Run(m, Stacks([], [Open]), t1);
      Run(m, Stacks([], [Open, Radical]), t2);
      Run(m, Stacks([a], [Open, Radical]), [RParen]);
      Err(EmptyValueStack);
    }
  }

  lemma CloseRootGroup(m: MathLib, a: real, b: real)
    ensures Run(m, Stacks([a, b], [Open, Radical]), [RParen]) == Ok(Stacks([0.0], []))
  {
    RunCons(m, Stacks([a, b], [Open, Radical]), RParen, []);
    assert [RParen] + [] == [RParen];
    RootClosedByParen(m, [], [], a, b);
    assert [] + [a, b] == [a, b] && [] + [Open, Radical] == [Open, Radical] && [] + [0.0] == [0.0];
  }

  lemma NumberRootInGroupRun(m: MathLib, x: Numeral, y: Numeral, a: real, b: real)
    requires ParseDecimal(x) == Some(a) && ParseDecimal(y) == Some(b)
    ensures Run(m, Stacks([], []), [LParen, Num(x), Root, Num(y), RParen]) == Ok(Stacks([0.0], []))
  {
    var t3 := [Num(y)] + [RParen];
    var t2 := [Root] + t3;
    var t1 := [Num(x)] + t2;
    calc {
      Run(m, Stacks([], []), [LParen, Num(x), Root, Num(y), RParen]);
      { assert [LParen, Num(x), Root, Num(y), RParen] == [LParen] + t1;
        RunCons(m, Stacks([], []), LParen, t1);
        assert [] + [Open] == [Open]; }
      Run(m, Stacks([], [Open]), t1);
      { PushNumber(m, Stacks([], [Open]), x, a, t2);
        assert [] + [a] == [a]; }
      Run(m, Stacks([a], [Open]), t2);
      { RunCons(m, Stacks([a], [Open]), Root, t3);
        assert [Open] + [Radical] == [Open, Radical]; }
      Run(m, Stacks([a], [Open, Radical]), t3);
      { PushNumber(m, Stacks([a], [Open, Radical]), y, b, [RParen]);
        assert [a] + [b] == [a, b]; }
      Run(m, Stacks([a, b], [Open, Radical]), [RParen]);
      { CloseRootGroup(m, a, b); }
      Ok(Stacks([0.0], []));
    }
  }

  /** `(x√y)`: the root, applied by `)` to two operands, leaves 0. */
  lemma NumberRootInGroup(m: MathLib, x: Numeral, y: Numeral, a: real, b: real)
    requires Whole(x, a) && Whole(y, b)
    ensures ParseExpression(m, [LParen, Num(x), Root, Num(y), RParen]) == Ok(0.0)
  {
    WholeReads(x, a); WholeReads(y, b);
    NumberRootInGroupRun(m, x, y, a, b);
    assert Finish(m, [0.0], []) == Ok([0.0]);
    ParseAfterRun(m, [LParen, Num(x), Root, Num(y), RParen], [0.0], [], [0.0]);
  }

  lemma GroupedChainRun(m: MathLib, x: Numeral, o1: BinOp, y: Numeral, o2: BinOp, z: Numeral, a: real, b: real, c: real)
    requires ParseDecimal(x) == Some(a) && ParseDecimal(y) == Some(b) && ParseDecimal(z) == Some(c)
    requires OpPrecedence(o1) < OpPrecedence(o2)
    ensures Run(m, Stacks([], []), [LParen, Num(x), Op(o1), Num(y), Op(o2), Num(z)])
         == Ok(Stacks([a, b, c], [Open, Bin(o1), Bin(o2)]))
  {
    var t1 := [Num(z)] + [];
    var s2 := Stacks([a, b], [Open, Bin(o1)]);
    calc {
      Run(m, Stacks([], []), [LParen, Num(x), Op(o1), Num(y), Op(o2), Num(z)]);
      { assert [LParen, Num(x), Op(o1), Num(y), Op(o2), Num(z)] == [LParen, Num(x), Op(o1), Num(y)] + ([Op(o2)] + t1);
        UnclosedOpenRun(m, x, o1, y, a, b);
        RunAppend(m, Stacks([], []), [LParen, Num(x), Op(o1), Num(y)], [Op(o2)] + t1); }
      Run(m, s2, [Op(o2)] + t1);
      { ReduceStops(m, s2, OpPrecedence(o2));
        PushOperator(m, s2, o2, s2, t1);
        assert [Open, Bin(o1)] + [Bin(o2)] == [Open, Bin(o1), Bin(o2)]; }
      Run(m, Stacks([a, b], [Open, Bin(o1), Bin(o2)]), t1);
      { PushNumber(m, Stacks([a, b], [Open, Bin(o1), Bin(o2)]), z, c, []);
        assert [a, b] + [c] == [a, b, c]; }
      Run(m, Stacks([a, b, c], [Open, Bin(o1), Bin(o2)]), []);
    }
  }

  /** `)` over two stacked operators applies the upper one first, through the
      general `)` loop. */
  lemma CloseGroupedChain(m: MathLib, a: real, o1: BinOp, b: real, o2: BinOp, c: real)
    ensures CloseParen(m, Stacks([a, b, c], [Open, Bin(o1), Bin(o2)]))
         == Ok(Stacks([ApplyOp(m, Bin(o1), ApplyOp(m, Bin(o2), c, b), a)], []))
  {
    var seg := [Bin(o1), Bin(o2)];
    assert [Open, Bin(o1), Bin(o2)] == [Open] + seg;
    CloseOverOpen(m, [a, b, c], seg);
    FinishTwoStacked(m, a, o1, b, o2, c);
  }

  /** `(x o1 y o2 z)` with `o2` binding tighter: the `)` loop drains both
      operators, the tighter one first. */
  lemma GroupedChain(m: MathLib, x: Numeral, o1: BinOp, y: Numeral, o2: BinOp, z: Numeral, a: real, b: real, c: real)
    requires Whole(x, a) && Whole(y, b) && Whole(z, c)
    requires OpPrecedence(o1) < OpPrecedence(o2)
    ensures ParseExpression(m, [LParen, Num(x), Op(o1), Num(y), Op(o2), Num(z), RParen])
         == Ok(ApplyOp(m, Bin(o1), ApplyOp(m, Bin(o2), c, b), a))
  {
    WholeReads(x, a); WholeReads(y, b); WholeReads(z, c);
    var v := ApplyOp(m, Bin(o1), ApplyOp(m, Bin(o2), c, b), a);
    var front := [LParen, Num(x), Op(o1), Num(y), Op(o2), Num(z)];
    var ts := front + [RParen];
    calc {
      Run(m, Stacks([], []), ts);
      { GroupedChainRun(m, x, o1, y, o2, z, a, b, c);
        RunAppend(m, Stacks([], []), front, [RParen]); }
      Run(m, Stacks([a, b, c], [Open, Bin(o1), Bin(o2)]), [RParen]);
      { RunCons(m, Stacks([a, b, c], [Open, Bin(o1), Bin(o2)]), RParen, []);
        assert [RParen] + [] == [RParen];
        CloseGroupedChain(m, a, o1, b, o2, c); }
      Ok(Stacks([v], []));
    }
    assert ts == [LParen, Num(x), Op(o1), Num(y), Op(o2), Num(z), RParen];
    assert Finish(m, [v], []) == Ok([v]);
    ParseAfterRun(m, ts, [v], [], [v]);
  }

  lemma NumberThenRootRun(m: MathLib, x: Numeral, y: Numeral, a: real, b: real)
    requires ParseDecimal(x) == Some(a) && ParseDecimal(y) == Some(b)
    ensures Run(m, Stacks([], []), [Num(x), Root, Num(y)]) == Ok(Stacks([a, b], [Radical]))
  {
    var t2 := [Num(y)] + [];
    var t1 := [Root] + t2;
    calc {
      Run(m, Stacks([], []), [Num(x), Root, Num(y)]);
      { assert [Num(x), Root, Num(y)] == [Num(x)] + t1;
        PushNumber(m, Stacks([], []), x, a, t1);
        assert [] + [a] == [a]; }
      Run(m, Stacks([a], []), t1);
      { RunCons(m, Stacks([a], []), Root, t2);
        assert [] + [Radical] == [Radical]; }
      Run(m, Stacks([a], [Radical]), t2);
      { PushNumber(m, Stacks([a], [Radical]), y, b, []);
        assert [a] + [b] == [a, b]; }
      Run(m, Stacks([a, b], [Radical]), []);
    }
  }

  /** `x√y`: no multiplication is implied; the result is the root alone. */
  lemma NumberThenRoot(m: MathLib, x: Numeral, y: Numeral, a: real, b: real)
    requires Whole(x, a) && Whole(y, b)
    ensures ParseExpression(m, [Num(x), Root, Num(y)]) == Ok(m.sqrt(b))
  {
    WholeReads(x, a); WholeReads(y, b);
    NumberThenRootRun(m, x, y, a, b);
    RootDrained(m, [a], b);
    assert [a] + [b] == [a, b] && [a] + [m.sqrt(b)] == [a, m.sqrt(b)];
    assert Finish(m, [a, m.sqrt(b)], []) == Ok([a, m.sqrt(b)]);
    ParseAfterRun(m, [Num(x), Root, Num(y)], [a, b], [Radical], [a, m.sqrt(b)]);
  }

  lemma OpThenRootRun(m: MathLib, x: Numeral, o: BinOp, y: Numeral, a: real, b: real)
    requires ParseDecimal(x) == Some(a) && ParseDecimal(y) == Some(b)
    ensures Run(m, Stacks([], []), [Num(x), Op(o), Root, Num(y)]) == Ok(Stacks([a, b], [Bin(o), Radical]))
  {
    var t3 := [Num(y)] + [];
    var t2 := [Root] + t3;
    var t1 := [Op(o)] + t2;
    calc {
      Run(m, Stacks([], []), [Num(x), Op(o), Root, Num(y)]);
      { assert [Num(x), Op(o), Root, Num(y)] == [Num(x)] + t1;
        PushNumber(m, Stacks([], []), x, a, t1);
        assert [] + [a] == [a]; }
      Run(m, Stacks([a], []), t1);
      { ReduceStops(m, Stacks([a], []), OpPrecedence(o));
        PushOperator(m, Stacks([a], []), o, Stacks([a], []), t2);
        assert [] + [Bin(o)] == [Bin(o)]; }
      Run(m, Stacks([a], [Bin(o)]), t2);
      { RunCons(m, Stacks([a], [Bin(o)]), Root, t3);
        assert [Bin(o)] + [Radical] == [Bin(o), Radical]; }
      Run(m, Stacks([a], [Bin(o), Radical]), t3);
      { PushNumber(m, Stacks([a], [Bin(o), Radical]), y, b, []);
        assert [a] + [b] == [a, b]; }
      Run(m, Stacks([a, b], [Bin(o), Radical]), []);
    }
  }

  /** `x o √y`: the root is applied first, when the final loop pops it, and its
      result is the right operand of `o`. */
  lemma OpThenRoot(m: MathLib, x: Numeral, o: BinOp, y: Numeral, a: real, b: real)
    requires Whole(x, a) && Whole(y, b)
    ensures ParseExpression(m, [Num(x), Op(o), Root, Num(y)]) == Ok(ApplyOp(m, Bin(o), m.sqrt(b), a))
  {
    WholeReads(x, a); WholeReads(y, b);
    OpThenRootRun(m, x, o, y, a, b);
    var c := ApplyOp(m, Bin(o), m.sqrt(b), a);
    calc {
      Finish(m, [a, b], [Bin(o), Radical]);
      { assert [a, b] == [a] + [b] && [Bin(o), Radical] == [Bin(o)] + [Radical];
        FinishRoot(m, [a], b, [Bin(o)]); }
      Finish(m, [a] + [m.sqrt(b)], [Bin(o)]);
      { assert [a] + [m.sqrt(b)] == [] + [a, m.sqrt(b)] && [Bin(o)] == [] + [Bin(o)];
        FinishBinary(m, [], a, m.sqrt(b), [], Bin(o)); }
      Finish(m, [] + [c], []);
      { assert [] + [c] == [c]; }
      Ok([c]);
    }
    ParseAfterRun(m, [Num(x), Op(o), Root, Num(y)], [a, b], [Bin(o), Radical], [c]);
  }

  lemma OpOverRoot(m: MathLib, a: real, o: BinOp, ts: seq<Token>)
    ensures Run(m, Stacks([a], [Radical]), [Op(o)] + ts) == Run(m, Stacks([m.sqrt(a)], [Bin(o)]), ts)
  {
    var r := m.sqrt(a);
    assert Reduce(m, Stacks([a], [Radical]), OpPrecedence(o)) == Ok(Stacks([r], [])) by {
      assert [a] == [] + [a] && [Radical] == [] + [Radical];
      ReduceRoot(m, [], a, [], o);
      assert [] + [r] == [r];
      ReduceStops(m, Stacks([r], []), OpPrecedence(o));
    }
    PushOperator(m, Stacks([a], [Radical]), o, Stacks([r], []), ts);
    assert [] + [Bin(o)] == [Bin(o)];
  }

  lemma RootThenOpRun(m: MathLib, x: Numeral, o: BinOp, y: Numeral, a: real, b: real)
    requires ParseDecimal(x) == Some(a) && ParseDecimal(y) == Some(b)
    ensures Run(m, Stacks([], []), [Root, Num(x), Op(o), Num(y)]) == Ok(Stacks([m.sqrt(a), b], [Bin(o)]))
  {
    var t3 := [Num(y)] + [];
    var t2 := [Op(o)] + t3;
    var t1 := [Num(x)] + t2;
    var r := m.sqrt(a);
    calc {
      Run(m, Stacks([], []), [Root, Num(x), Op(o), Num(y)]);
      { assert [Root, Num(x), Op(o), Num(y)] == [Root] + t1;
        RunCons(m, Stacks([], []), Root, t1);
        assert [] + [Radical] == [Radical]; }
      Run(m, Stacks([], [Radical]), t1);
      { PushNumber(m, Stacks([], [Radical]), x, a, t2);
        assert [] + [a] == [a]; }
      Run(m, Stacks([a], [Radical]), t2);
      { OpOverRoot(m, a, o, t3); }
      Run(m, Stacks([r], [Bin(o)]), t3);
      { PushNumber(m, Stacks([r], [Bin(o)]), y, b, []);
        assert [r] + [b] == [r, b]; }
      Run(m, Stacks([r, b], [Bin(o)]), []);
    }
  }

  /** `√x o y`: the operator pops the pending root before it is pushed, so the
      root covers `x` alone and its result is the left operand of `o`. */
  lemma RootThenOp(m: MathLib, x: Numeral, o: BinOp, y: Numeral, a: real, b: real)
    requires Whole(x, a) && Whole(y, b)
    ensures ParseExpression(m, [Root, Num(x), Op(o), Num(y)]) == Ok(ApplyOp(m, Bin(o), b, m.sqrt(a)))
  {
    WholeReads(x, a); WholeReads(y, b);
    var r := m.sqrt(a);
    RootThenOpRun(m, x, o, y, a, b);
    var c := ApplyOp(m, Bin(o), b, r);
    calc {
      Finish(m, [r, b], [Bin(o)]);
      { assert [r, b] == [] + [r, b] && [Bin(o)] == [] + [Bin(o)];
        FinishBinary(m, [], r, b, [], Bin(o)); }
      Finish(m, [] + [c], []);
      { assert [] + [c] == [c]; }
      Ok([c]);
    }
    ParseAfterRun(m, [Root, Num(x), Op(o), Num(y)], [r, b], [Bin(o)], [c]);
  }

  /** A lone numeral that does not parse leaves nothing to return. */
  lemma MalformedAlone(m: MathLib, x: Numeral)
    requires ParseDecimal(x).None?
    ensures ParseExpression(m, [Num(x)]) == Err(EmptyValueStack)
  {
    UnparsableRunSkipped(m, Stacks([], []), [], x, []);
    assert [] + [Num(x)] + [] == [Num(x)];
  }

  /** `√x`. */
  lemma RootOfNumber(m: MathLib, x: Numeral, a: real)
    requires Whole(x, a)
    ensures ParseExpression(m, [Root, Num(x)]) == Ok(m.sqrt(a))
  {
    WholeReads(x, a);
    RunCons(m, Stacks([], []), Root, [Num(x)] + []);
    assert [] + [Radical] == [Radical] && [] + [a] == [a];
    PushNumber(m, Stacks([], [Radical]), x, a, []);
    assert [Root, Num(x)] == [Root] + ([Num(x)] + []);
    assert Run(m, Stacks([], []), [Root, Num(x)]) == Ok(Stacks([a], [Radical]));
    RootDrained(m, [], a);
    assert [] + [m.sqrt(a)] == [m.sqrt(a)];
    assert Finish(m, [m.sqrt(a)], []) == Ok([m.sqrt(a)]);
    ParseAfterRun(m, [Root, Num(x)], [a], [Radical], [m.sqrt(a)]);
  }

  // ---------------------------------------------------------------------
  // Reading particular displays.

  /** Numbers are runs of digits and dots; every operator or parenthesis is
      one token. */
  lemma TokenizePrecedence()
    ensures Tokenize("2+3*4") == [Num("2"), Op(Add), Num("3"), Op(Mul), Num("4")]
  {
    var ts := [Num("2"), Op(Add), Num("3"), Op(Mul), Num("4")];
    assert Render(ts) == "2+3*4";
    TokenizeRender(ts);
  }

  lemma RenderCons(t: Token, ts: seq<Token>)
    ensures Render([t] + ts) == TokenText(t) + Render(ts)
  {
    assert ([t] + ts)[1..] == ts;
  }

  lemma RenderGroupShape(x: Numeral, y: Numeral, z: Numeral)
    requires x != [] && y != [] && z != []
    ensures Render([LParen, Num(x), Op(Add), Num(y), RParen, Op(Mul), Num(z)]) == "(" + (x + ("+" + (y + (")" + ("*" + z)))))
  {
    var t6 := [Num(z)] + [];
    var t5 := [Op(Mul)] + t6;
    var t4 := [RParen] + t5;
    var t3 := [Num(y)] + t4;
    var t2 := [Op(Add)] + t3;
    var t1 := [Num(x)] + t2;
    calc {
      Render([LParen, Num(x), Op(Add), Num(y), RParen, Op(Mul), Num(z)]);
      { assert [LParen, Num(x), Op(Add), Num(y), RParen, Op(Mul), Num(z)] == [LParen] + t1; }
      Render([LParen] + t1);
      { RenderCons(LParen, t1); }
      "(" + Render(t1);
      { RenderCons(Num(x), t2); }
      "(" + (x + Render(t2));
      { RenderCons(Op(Add), t3); }
      "(" + (x + ("+" + Render(t3)));
      { RenderCons(Num(y), t4); }
      "(" + (x + ("+" + (y + Render(t4))));
      { RenderCons(RParen, t5); }
      "(" + (x + ("+" + (y + (")" + Render(t5)))));
      { RenderCons(Op(Mul), t6); }
      "(" + (x + ("+" + (y + (")" + ("*" + Render(t6))))));
      { RenderCons(Num(z), []); assert z + [] == z; }
      "(" + (x + ("+" + (y + (")" + ("*" + z)))));
    }
  }

  lemma GroupRendered()
    ensures Render([LParen, Num("2"), Op(Add), Num("3"), RParen, Op(Mul), Num("4")]) == "(2+3)*4"
  {
    RenderGroupShape("2", "3", "4");
    assert "(" + ("2" + ("+" + ("3" + (")" + ("*" + "4"))))) == "(2+3)*4";
  }

  lemma GroupWellFormed()
    ensures var ts := [LParen, Num("2"), Op(Add), Num("3"), RParen, Op(Mul), Num("4")];
      Separated(ts) && NonEmptyNums(ts)
  {
  }

  lemma TokenizeGroup()
    ensures Tokenize("(2+3)*4") == [LParen, Num("2"), Op(Add), Num("3"), RParen, Op(Mul), Num("4")]
  {
    var ts := [LParen, Num("2"), Op(Add), Num("3"), RParen, Op(Mul), Num("4")];
    GroupRendered();
    GroupWellFormed();
    TokenizeRender(ts);
  }

  lemma TokenizeRoot()
    ensures Tokenize("\U{221A}9") == [Root, Num("9")]
  {
    var ts := [Root, Num("9")];
    assert Render(ts) == "\U{221A}9";
    TokenizeRender(ts);
  }

  lemma TokenizeDecimal()
    ensures Tokenize("2.5*2") == [Num("2.5"), Op(Mul), Num("2")]
  {
    var ts := [Num("2.5"), Op(Mul), Num("2")];
    assert Render(ts) == "2.5*2";
    TokenizeRender(ts);
  }

  /** Spaces between digits are dropped before reading, so they join. */
  lemma TokenizeSpacedDigits()
    ensures Tokenize("1 2") == [Num("12")]
  {
    SpaceIgnored("1", "2");
    assert "1" + " " + "2" == "1 2" && "1" + "2" == "12";
    assert Render([Num("12")]) == "12";
    TokenizeRender([Num("12")]);
  }

  /** Spaces on both sides of one symbol make no difference. */
  lemma SpacedInfix(a: string, c: char, b: string)
    ensures Tokenize(a + " " + [c] + " " + b) == Tokenize(a + [c] + b)
  {
    SpaceIgnored(a, [c] + " " + b);
    assert a + " " + [c] + " " + b == a + " " + ([c] + " " + b);
    SpaceIgnored(a + [c], b);
    assert a + ([c] + " " + b) == a + [c] + " " + b;
  }

  /** Two numerals around an operator symbol read as three tokens. */
  lemma InfixTokens(x: Numeral, o: BinOp, y: Numeral)
    requires x != [] && y != []
    ensures Tokenize(x + [OpSymbol(o)] + y) == [Num(x), Op(o), Num(y)]
  {
    var ts := [Num(x), Op(o), Num(y)];
    RenderCons(Num(y), []);
    RenderCons(Op(o), [Num(y)]);
    RenderCons(Num(x), [Op(o), Num(y)]);
    assert Render(ts) == x + ([OpSymbol(o)] + (y + []));
    assert x + ([OpSymbol(o)] + (y + [])) == x + [OpSymbol(o)] + y;
    TokenizeRender(ts);
  }

  /** The keypad's `×` reads as `*`. */
  lemma TokenizeGlyph()
    ensures Tokenize("2 \U{00D7} 3") == [Num("2"), Op(Mul), Num("3")]
  {
    SpacedInfix("2", MulGlyph, "3");
    assert "2" + " " + [MulGlyph] + " " + "3" == "2 \U{00D7} 3";
    MulGlyphIsStar("2", "3");
    InfixTokens("2", Mul, "3");
    assert "2" + "*" + "3" == "2" + [OpSymbol(Mul)] + "3";
  }

  lemma TokenizeLeftAssociative()
    ensures Tokenize("8-3-2") == [Num("8"), Op(Sub), Num("3"), Op(Sub), Num("2")]
  {
    var ts := [Num("8"), Op(Sub), Num("3"), Op(Sub), Num("2")];
    assert Render(ts) == "8-3-2";
    TokenizeRender(ts);
  }

  lemma TokenizePower()
    ensures Tokenize("2^3^2") == [Num("2"), Op(Pow), Num("3"), Op(Pow), Num("2")]
  {
    var ts := [Num("2"), Op(Pow), Num("3"), Op(Pow), Num("2")];
    assert Render(ts) == "2^3^2";
    TokenizeRender(ts);
  }

  lemma TokenizeDivision()
    ensures Tokenize("5/0") == [Num("5"), Op(Div), Num("0")]
  {
    var ts := [Num("5"), Op(Div), Num("0")];
    assert Render(ts) == "5/0";
    TokenizeRender(ts);
  }

  lemma TokenizeLeadingPlus()
    ensures Tokenize("+5") == [Op(Add), Num("5")]
  {
    var ts := [Op(Add), Num("5")];
    assert Render(ts) == "+5";
    TokenizeRender(ts);
  }

  lemma TokenizeLeadingMinus()
    ensures Tokenize("-5") == [Op(Sub), Num("5")]
  {
    var ts := [Op(Sub), Num("5")];
    assert Render(ts) == "-5";
    TokenizeRender(ts);
  }

  lemma TokenizeUnmatchedClose()
    ensures Tokenize("1+2)") == [Num("1"), Op(Add), Num("2"), RParen]
  {
    var ts := [Num("1"), Op(Add), Num("2"), RParen];
    assert Render(ts) == "1+2)";
    TokenizeRender(ts);
  }

  lemma TokenizeUnclosedOpen()
    ensures Tokenize("(1+2") == [LParen, Num("1"), Op(Add), Num("2")]
  {
    var ts := [LParen, Num("1"), Op(Add), Num("2")];
    assert Render(ts) == "(1+2";
    TokenizeRender(ts);
  }

  lemma TokenizeNumberThenGroup()
    ensures Tokenize("2(3)") == [Num("2"), LParen, Num("3"), RParen]
  {
    var ts := [Num("2"), LParen, Num("3"), RParen];
    assert Render(ts) == "2(3)";
    TokenizeRender(ts);
  }

  lemma TokenizeRootInGroup()
    ensures Tokenize("(\U{221A}9)") == [LParen, Root, Num("9"), RParen]
  {
    var ts := [LParen, Root, Num("9"), RParen];
    assert Render(ts) == "(\U{221A}9)";
    TokenizeRender(ts);
  }

  lemma TokenizeNumberRootInGroup()
    ensures Tokenize("(2\U{221A}9)") == [LParen, Num("2"), Root, Num("9"), RParen]
  {
    var ts := [LParen, Num("2"), Root, Num("9"), RParen];
    assert Render(ts) == "(2\U{221A}9)";
    TokenizeRender(ts);
  }

  lemma TokenizeNumberThenRoot()
    ensures Tokenize("2\U{221A}9") == [Num("2"), Root, Num("9")]
  {
    var ts := [Num("2"), Root, Num("9")];
    assert Render(ts) == "2\U{221A}9";
    TokenizeRender(ts);
  }

  lemma TokenizeSumOfRoot()
    ensures Tokenize("2+\U{221A}9") == [Num("2"), Op(Add), Root, Num("9")]
  {
    var ts := [Num("2"), Op(Add), Root, Num("9")];
    assert Render(ts) == "2+\U{221A}9";
    TokenizeRender(ts);
  }

  lemma TokenizeRootThenSum()
    ensures Tokenize("\U{221A}9+1") == [Root, Num("9"), Op(Add), Num("1")]
  {
    var ts := [Root, Num("9"), Op(Add), Num("1")];
    assert Render(ts) == "\U{221A}9+1";
    TokenizeRender(ts);
  }

  lemma RenderGroupedChainShape(x: Numeral, y: Numeral, z: Numeral)
    ensures Render([LParen, Num(x), Op(Add), Num(y), Op(Mul), Num(z), RParen]) == "(" + (x + ("+" + (y + ("*" + (z + ")")))))
  {
    var t6 := [RParen] + [];
    var t5 := [Num(z)] + t6;
    var t4 := [Op(Mul)] + t5;
    var t3 := [Num(y)] + t4;
    var t2 := [Op(Add)] + t3;
    var t1 := [Num(x)] + t2;
    calc {
      Render([LParen, Num(x), Op(Add), Num(y), Op(Mul), Num(z), RParen]);
      { assert [LParen, Num(x), Op(Add), Num(y), Op(Mul), Num(z), RParen] == [LParen] + t1; }
      Render([LParen] + t1);
      { RenderCons(LParen, t1); }
      "(" + Render(t1);
      { RenderCons(Num(x), t2); }
      "(" + (x + Render(t2));
      { RenderCons(Op(Add), t3); }
      "(" + (x + ("+" + Render(t3)));
      { RenderCons(Num(y), t4); }
      "(" + (x + ("+" + (y + Render(t4))));
      { RenderCons(Op(Mul), t5); }
      "(" + (x + ("+" + (y + ("*" + Render(t5)))));
      { RenderCons(Num(z), t6); }
      "(" + (x + ("+" + (y + ("*" + (z + Render(t6))))));
      { RenderCons(RParen, []); assert ")" + [] == ")"; }
      "(" + (x + ("+" + (y + ("*" + (z + ")")))));
    }
  }

  lemma GroupedChainRendered()
    ensures Render([LParen, Num("1"), Op(Add), Num("2"), Op(Mul), Num("3"), RParen]) == "(1+2*3)"
  {
    RenderGroupedChainShape("1", "2", "3");
    assert "(" + ("1" + ("+" + ("2" + ("*" + ("3" + ")"))))) == "(1+2*3)";
  }

  lemma GroupedChainWellFormed()
    ensures var ts := [LParen, Num("1"), Op(Add), Num("2"), Op(Mul), Num("3"), RParen];
      Separated(ts) && NonEmptyNums(ts)
  {
  }

  lemma TokenizeGroupedChain()
    ensures Tokenize("(1+2*3)") == [LParen, Num("1"), Op(Add), Num("2"), Op(Mul), Num("3"), RParen]
  {
    var ts := [LParen, Num("1"), Op(Add), Num("2"), Op(Mul), Num("3"), RParen];
    GroupedChainRendered();
    GroupedChainWellFormed();
    TokenizeRender(ts);
  }

  /** Every run of digits and dots is one token, however many dots it has. */
  lemma TokenizeMalformed()
    ensures Tokenize("1.2.3") == [Num("1.2.3")]
  {
    var ts := [Num("1.2.3")];
    assert Render(ts) == "1.2.3";
    TokenizeRender(ts);
  }

  /** Blanks and characters outside the keypad's alphabet are dropped. */
  lemma TokenizeBlank()
    ensures Tokenize("  ") == []
  {
  }

  lemma TokenizeLetters()
    ensures Tokenize("ab") == []
  {
  }

  // ---------------------------------------------------------------------
  // Whole displays.

  lemma PrecedenceParsed(m: MathLib)
    ensures ParseExpression(m, [Num("2"), Op(Add), Num("3"), Op(Mul), Num("4")]) == Ok(14.0)
  {
    TwoOpsValue(m, "2", Add, "3", Mul, "4", 2.0, 3.0, 4.0, 14.0);
  }

  /** Multiplication binds tighter than addition. */
  lemma PrecedenceExample(m: MathLib)
    ensures Evaluate(m, "2+3*4") == Ok(14.0)
  {
    TokenizePrecedence();
    PrecedenceParsed(m);
  }

  lemma LeftAssociativeParsed(m: MathLib)
    ensures ParseExpression(m, [Num("8"), Op(Sub), Num("3"), Op(Sub), Num("2")]) == Ok(3.0)
  {
    TwoOpsValue(m, "8", Sub, "3", Sub, "2", 8.0, 3.0, 2.0, 3.0);
  }

  /** Subtraction groups to the left. */
  lemma LeftAssociativeExample(m: MathLib)
    ensures Evaluate(m, "8-3-2") == Ok(3.0)
  {
    TokenizeLeftAssociative();
    LeftAssociativeParsed(m);
  }

  lemma PowerGroupsLeftParsed(m: MathLib)
    ensures ParseExpression(m, [Num("2"), Op(Pow), Num("3"), Op(Pow), Num("2")]) == Ok(m.pow(m.pow(2.0, 3.0), 2.0))
  {
    TwoOpsValue(m, "2", Pow, "3", Pow, "2", 2.0, 3.0, 2.0, m.pow(m.pow(2.0, 3.0), 2.0));
  }

  /** `^` groups to the left as well: `2^3^2` is `(2^3)^2`. */
  lemma PowerGroupsLeftExample(m: MathLib)
    ensures Evaluate(m, "2^3^2") == Ok(m.pow(m.pow(2.0, 3.0), 2.0))
  {
    TokenizePower();
    PowerGroupsLeftParsed(m);
  }

  lemma GroupParsed(m: MathLib)
    ensures ParseExpression(m, [LParen, Num("2"), Op(Add), Num("3"), RParen, Op(Mul), Num("4")]) == Ok(20.0)
  {
    var e := Node(Add, Lit(2), Lit(3));
    assert Tokens(e) + [Op(Mul), Num("4")] == [LParen, Num("2"), Op(Add), Num("3"), RParen, Op(Mul), Num("4")];
    GroupThenOp(m, e, Mul, "4", 4.0);
  }

  /** Parentheses group first. */
  lemma GroupExample(m: MathLib)
    ensures Evaluate(m, "(2+3)*4") == Ok(20.0)
  {
    TokenizeGroup();
    GroupParsed(m);
  }

  lemma DivisionByZeroParsed(m: MathLib)
    ensures ParseExpression(m, [Num("5"), Op(Div), Num("0")]) == Ok(0.0)
  {
    OneOp(m, "5", Div, "0", 5.0, 0.0, 0.0);
  }

  /** Dividing by zero gives zero rather than an error. */
  lemma DivisionByZeroExample(m: MathLib)
    ensures Evaluate(m, "5/0") == Ok(0.0)
  {
    TokenizeDivision();
    DivisionByZeroParsed(m);
  }

  lemma DecimalParsed(m: MathLib)
    ensures ParseExpression(m, [Num("2.5"), Op(Mul), Num("2")]) == Ok(5.0)
  {
    assert "2" + "5" == "25" && "25"[..1] == "2";
    PointThenOp(m, "2", "5", Mul, "2", 2.5, 2.0, 5.0);
    assert "2" + "." + "5" == "2.5";
  }

  lemma DecimalExample(m: MathLib)
    ensures Evaluate(m, "2.5*2") == Ok(5.0)
  {
    TokenizeDecimal();
    DecimalParsed(m);
  }

  lemma RootParsed(m: MathLib)
    ensures ParseExpression(m, [Root, Num("9")]) == Ok(m.sqrt(9.0))
  {
    RootOfNumber(m, "9", 9.0);
  }

  lemma RootExample(m: MathLib)
    ensures Evaluate(m, "\U{221A}9") == Ok(m.sqrt(9.0))
  {
    TokenizeRoot();
    RootParsed(m);
  }

  lemma SpacedDigitsParsed(m: MathLib)
    ensures ParseExpression(m, [Num("12")]) == Ok(12.0)
  {
    SingleNumber(m, "12", 12.0);
  }

  /** Spaces are dropped before reading, so `1 2` is twelve. */
  lemma SpacedDigitsExample(m: MathLib)
    ensures Evaluate(m, "1 2") == Ok(12.0)
  {
    TokenizeSpacedDigits();
    SpacedDigitsParsed(m);
  }

  lemma GlyphParsed(m: MathLib)
    ensures ParseExpression(m, [Num("2"), Op(Mul), Num("3")]) == Ok(6.0)
  {
    OneOp(m, "2", Mul, "3", 2.0, 3.0, 6.0);
  }

  /** The display as the keypad writes it: spaced, with the `×` glyph. */
  lemma GlyphExample(m: MathLib)
    ensures Evaluate(m, "2 \U{00D7} 3") == Ok(6.0)
  {
    TokenizeGlyph();
    GlyphParsed(m);
  }

  /** A display with nothing the reader keeps evaluates to zero. */
  lemma BlankExample(m: MathLib)
    ensures Evaluate(m, "  ") == Ok(0.0)
    ensures Evaluate(m, "ab") == Ok(0.0)
  {
    TokenizeBlank();
    TokenizeLetters();
  }

  lemma LeadingSignParsed(m: MathLib)
    ensures ParseExpression(m, [Op(Add), Num("5")]) == Err(EmptyValueStack)
    ensures ParseExpression(m, [Op(Sub), Num("5")]) == Err(EmptyValueStack)
  {
    LeadingOperator(m, Add, "5", 5.0);
    LeadingOperator(m, Sub, "5", 5.0);
  }

  /** There is no unary sign. */
  lemma LeadingSignExample(m: MathLib)
    ensures Evaluate(m, "+5") == Err(EmptyValueStack)
    ensures Evaluate(m, "-5") == Err(EmptyValueStack)
  {
    TokenizeLeadingPlus();
    TokenizeLeadingMinus();
    LeadingSignParsed(m);
  }

  lemma UnmatchedCloseParsed(m: MathLib)
    ensures ParseExpression(m, [Num("1"), Op(Add), Num("2"), RParen]) == Err(EmptyOperatorStack)
  {
    UnmatchedClose(m, "1", Add, "2", 1.0, 2.0);
  }

  lemma UnmatchedCloseExample(m: MathLib)
    ensures Evaluate(m, "1+2)") == Err(EmptyOperatorStack)
  {
    TokenizeUnmatchedClose();
    UnmatchedCloseParsed(m);
  }

  lemma UnclosedOpenParsed(m: MathLib)
    ensures ParseExpression(m, [LParen, Num("1"), Op(Add), Num("2")]) == Err(EmptyValueStack)
  {
    UnclosedOpen(m, "1", Add, "2", 1.0, 2.0);
  }

  lemma UnclosedOpenExample(m: MathLib)
    ensures Evaluate(m, "(1+2") == Err(EmptyValueStack)
  {
    TokenizeUnclosedOpen();
    UnclosedOpenParsed(m);
  }

  lemma NumberThenGroupParsed(m: MathLib)
    ensures ParseExpression(m, [Num("2"), LParen, Num("3"), RParen]) == Ok(3.0)
  {
    NumberThenGroup(m, "2", "3", 2.0, 3.0);
  }

  /** A number directly before `(` is not multiplied in; the answer is the
      group's value. */
  lemma NumberThenGroupExample(m: MathLib)
    ensures Evaluate(m, "2(3)") == Ok(3.0)
  {
    TokenizeNumberThenGroup();
    NumberThenGroupParsed(m);
  }

  lemma RootInGroupParsed(m: MathLib)
    ensures ParseExpression(m, [LParen, Root, Num("9"), RParen]) == Err(EmptyValueStack)
  {
    RootInGroup(m, "9", 9.0);
  }

  /** A root cannot be closed by `)` on its own. */
  lemma RootInGroupExample(m: MathLib)
    ensures Evaluate(m, "(\U{221A}9)") == Err(EmptyValueStack)
  {
    TokenizeRootInGroup();
    RootInGroupParsed(m);
  }

  lemma NumberRootInGroupParsed(m: MathLib)
    ensures ParseExpression(m, [LParen, Num("2"), Root, Num("9"), RParen]) == Ok(0.0)
  {
    NumberRootInGroup(m, "2", "9", 2.0, 9.0);
  }

  /** With a value beneath it, a root closed by `)` leaves 0. */
  lemma NumberRootInGroupExample(m: MathLib)
    ensures Evaluate(m, "(2\U{221A}9)") == Ok(0.0)
  {
    TokenizeNumberRootInGroup();
    NumberRootInGroupParsed(m);
  }

  lemma NumberThenRootParsed(m: MathLib)
    ensures ParseExpression(m, [Num("2"), Root, Num("9")]) == Ok(m.sqrt(9.0))
  {
    NumberThenRoot(m, "2", "9", 2.0, 9.0);
  }

  /** `2√9` is the root alone: the `2` is left below it and ignored. */
  lemma NumberThenRootExample(m: MathLib)
    ensures Evaluate(m, "2\U{221A}9") == Ok(m.sqrt(9.0))
  {
    TokenizeNumberThenRoot();
    NumberThenRootParsed(m);
  }

  lemma SumOfRootParsed(m: MathLib)
    ensures ParseExpression(m, [Num("2"), Op(Add), Root, Num("9")]) == Ok(2.0 + m.sqrt(9.0))
  {
    assert Whole("2", 2.0) && Whole("9", 9.0);
    OpThenRoot(m, "2", Add, "9", 2.0, 9.0);
    assert ApplyOp(m, Bin(Add), m.sqrt(9.0), 2.0) == 2.0 + m.sqrt(9.0);
  }

  /** `2+√9` adds the root: the root is still pending when the final loop
      starts and is applied before the addition. */
  lemma SumOfRootExample(m: MathLib)
    ensures Evaluate(m, "2+\U{221A}9") == Ok(2.0 + m.sqrt(9.0))
  {
    TokenizeSumOfRoot();
    SumOfRootParsed(m);
  }

  lemma RootThenSumParsed(m: MathLib)
    ensures ParseExpression(m, [Root, Num("9"), Op(Add), Num("1")]) == Ok(m.sqrt(9.0) + 1.0)
  {
    assert Whole("9", 9.0) && Whole("1", 1.0);
    RootThenOp(m, "9", Add, "1", 9.0, 1.0);
    assert ApplyOp(m, Bin(Add), 1.0, m.sqrt(9.0)) == m.sqrt(9.0) + 1.0;
  }

  /** `√9+1` is one more than the root: the `+` pops the root before it is
      pushed. */
  lemma RootThenSumExample(m: MathLib)
    ensures Evaluate(m, "\U{221A}9+1") == Ok(m.sqrt(9.0) + 1.0)
  {
    TokenizeRootThenSum();
    RootThenSumParsed(m);
  }

  lemma GroupedChainParsed(m: MathLib)
    ensures ParseExpression(m, [LParen, Num("1"), Op(Add), Num("2"), Op(Mul), Num("3"), RParen]) == Ok(7.0)
  {
    assert Whole("1", 1.0) && Whole("2", 2.0) && Whole("3", 3.0);
    GroupedChain(m, "1", Add, "2", Mul, "3", 1.0, 2.0, 3.0);
    assert ApplyOp(m, Bin(Add), ApplyOp(m, Bin(Mul), 3.0, 2.0), 1.0) == 7.0;
  }

  /** Inside parentheses precedence still holds: `)` applies `*` before `+`. */
  lemma GroupedChainExample(m: MathLib)
    ensures Evaluate(m, "(1+2*3)") == Ok(7.0)
  {
    TokenizeGroupedChain();
    GroupedChainParsed(m);
  }

  lemma MalformedParsed(m: MathLib)
    ensures ParseExpression(m, [Num("1.2.3")]) == Err(EmptyValueStack)
  {
    assert "1.2.3"[..4] == "1.2." && "1.2."[..3] == "1.2" && "1.2"[..2] == "1." && "1."[..1] == "1";
    assert CountDots("1.2.3") == 2;
    MalformedAlone(m, "1.2.3");
  }

  /** A run with two dots does not parse and is skipped, leaving nothing. */
  lemma MalformedExample(m: MathLib)
    ensures Evaluate(m, "1.2.3") == Err(EmptyValueStack)
  {
    TokenizeMalformed();
    MalformedParsed(m);
  }
}
