/**
  The evaluator against a reference semantics: every fully parenthesised
  expression over natural-number literals evaluates, through the tokenizer
  and both loops, to the value its syntax tree denotes.
 */
module ExprCorrectness {
  import opened Wrappers
  import opened Decimal
  import opened Tokenizer
  import opened Engine
  import opened EngineProperties

  datatype Expr = Lit(n: nat) | Node(op: BinOp, left: Expr, right: Expr)

  /** Reference value: the usual meaning of each operator, with the engine's
      convention that dividing by zero gives zero. */
  function Denote(m: MathLib, e: Expr): real {
    match e
    case Lit(n) => n as real
    case Node(o, l, r) => Combine(m, o, Denote(m, l), Denote(m, r))
  }

  /** The meaning of one operator applied to its operands in reading order.
      It is `applyOp` itself with the operands taken left then right instead of
      as popped, so `ApplyOpAgrees` is a change of argument order only: what
      `EvaluatePrinted` establishes is that tokenizing and both loops build the
      tree `Print` wrote out, not what each operator computes. */
  function Combine(m: MathLib, o: BinOp, a: real, b: real): real {
    match o
    case Add => a + b
    case Sub => a - b
    case Mul => a * b
    case Div => if b == 0.0 then 0.0 else a / b
    case Pow => m.pow(a, b)
  }

  /** The expression written out with a pair of parentheses around every operation. */
  function Print(e: Expr): string {
    match e
    case Lit(n) => NatToDigits(n)
    case Node(o, l, r) => "(" + (Print(l) + ([OpSymbol(o)] + (Print(r) + ")")))
  }

  /** The tokens of the printed expression. */
  function Tokens(e: Expr): seq<Token> {
    match e
    case Lit(n) => [Num(NatToDigits(n))]
    case Node(o, l, r) => [LParen] + (Tokens(l) + ([Op(o)] + (Tokens(r) + [RParen])))
  }

  // ---------------------------------------------------------------------
  // From text to tokens.

  lemma {:induction false} PrintAlphabet(e: Expr)
    ensures ' ' !in Print(e) && MulGlyph !in Print(e) && DivGlyph !in Print(e)
  {
    match e
    case Lit(n) =>
      var s := NatToDigits(n);
      assert forall i :: 0 <= i < |s| ==> IsNumChar(s[i]);
    case Node(o, l, r) =>
      PrintAlphabet(l);
      PrintAlphabet(r);
  }

  /** Scanning an operator, a right operand and `)`. */
  lemma ScanClosing(c: char, right: string, tr: seq<Token>)
    requires !IsNumChar(c)
    requires Scan(right) == tr
    ensures Scan([c] + (right + ")")) == CharTokens(c) + (tr + [RParen])
  {
    ScanAppend(right, ")");
    ScanChar(')');
    ScanAppend([c], right + ")");
    ScanChar(c);
  }

  /** Scanning `(`, a left operand, an operator, a right operand and `)`,
      given what each operand's text scans to. */
  lemma ScanParenthesised(left: string, c: char, right: string, tl: seq<Token>, tr: seq<Token>)
    requires !IsNumChar(c)
    requires Scan(left) == tl && Scan(right) == tr
    ensures Scan("(" + (left + ([c] + (right + ")")))) == [LParen] + (tl + (CharTokens(c) + (tr + [RParen])))
  {
    var mid := [c] + (right + ")");
    var whole := left + mid;
    ScanClosing(c, right, tr);
    ScanAppend(left, mid);
    ScanAppend("(", whole);
    ScanChar('(');
  }

  lemma OpCharToken(o: BinOp)
    ensures !IsNumChar(OpSymbol(o)) && CharTokens(OpSymbol(o)) == [Op(o)]
  {
  }

  lemma TokensNode(o: BinOp, l: Expr, r: Expr)
    ensures Tokens(Node(o, l, r)) == [LParen] + (Tokens(l) + ([Op(o)] + (Tokens(r) + [RParen])))
  {
  }

  lemma {:induction false} ScanPrint(e: Expr)
    ensures Scan(Print(e)) == Tokens(e)
  {
    match e
    case Lit(n) =>
      ScanNumeral(NatToDigits(n));
    case Node(o, l, r) =>
      ScanPrint(l);
      ScanPrint(r);
      OpCharToken(o);
      ScanParenthesised(Print(l), OpSymbol(o), Print(r), Tokens(l), Tokens(r));
      TokensNode(o, l, r);
  }

  /** Printing then tokenizing gives back the expression's tokens. */
  lemma TokenizePrint(e: Expr)
    ensures Tokenize(Print(e)) == Tokens(e)
  {
    PrintAlphabet(e);
    CleanKeeps(Print(e));
    ScanPrint(e);
  }

  // ---------------------------------------------------------------------
  // The main loop on the tokens of an expression.

  /** Closing a parenthesis with one binary operator above the `(`. */
  lemma CloseAfterBinary(m: MathLib, values: seq<real>, ops: seq<Pending>, o: BinOp, a: real, b: real)
    ensures CloseParen(m, Stacks(values + [a, b], ops + [Open, Bin(o)]))
         == Ok(Stacks(values + [ApplyOp(m, Bin(o), b, a)], ops))
  {
    var st := Stacks(values + [a, b], ops + [Open, Bin(o)]);
    ApplyBinaryTop(m, Bin(o), values, a, b);
    assert Top(st.ops) == Bin(o) && Pop(st.ops) == ops + [Open];
    assert Pop(ops + [Open]) == ops;
  }

  /** `applyOp` takes the popped operands right then left; `Combine` takes them
      in reading order. */
  lemma ApplyOpAgrees(m: MathLib, o: BinOp, a: real, b: real)
    ensures ApplyOp(m, Bin(o), b, a) == Combine(m, o, a, b)
  {
    match o
    case Add =>
    case Sub =>
    case Mul =>
    case Div =>
    case Pow =>
  }

  /** The opening half of a parenthesised operation: `(`, the left operand, the operator. */
  lemma RunOpening(m: MathLib, o: BinOp, tl: seq<Token>, dl: real, values: seq<real>, ops: seq<Pending>, rest: seq<Token>)
    requires Run(m, Stacks(values, ops + [Open]), tl) == Ok(Stacks(values + [dl], ops + [Open]))
    ensures Run(m, Stacks(values, ops), [LParen] + (tl + ([Op(o)] + rest)))
         == Run(m, Stacks(values + [dl], ops + [Open, Bin(o)]), rest)
  {
    RunCons(m, Stacks(values, ops), LParen, tl + ([Op(o)] + rest));
    var s1 := Stacks(values, ops + [Open]);
    RunAppend(m, s1, tl, [Op(o)] + rest);
    var s2 := Stacks(values + [dl], ops + [Open]);
    ReduceStops(m, s2, OpPrecedence(o));
    PushOperator(m, s2, o, s2, rest);
    assert ops + [Open] + [Bin(o)] == ops + [Open, Bin(o)];
  }

  /** The closing half: the right operand and `)`. */
  lemma RunClosing(m: MathLib, o: BinOp, tr: seq<Token>, dl: real, dr: real, values: seq<real>, ops: seq<Pending>)
    requires Run(m, Stacks(values + [dl], ops + [Open, Bin(o)]), tr) == Ok(Stacks(values + [dl] + [dr], ops + [Open, Bin(o)]))
    ensures Run(m, Stacks(values + [dl], ops + [Open, Bin(o)]), tr + [RParen])
         == Ok(Stacks(values + [ApplyOp(m, Bin(o), dr, dl)], ops))
  {
    var s3 := Stacks(values + [dl], ops + [Open, Bin(o)]);
    RunAppend(m, s3, tr, [RParen]);
    assert values + [dl] + [dr] == values + [dl, dr];
    assert [RParen] == [RParen] + [];
    RunCons(m, Stacks(values + [dl, dr], ops + [Open, Bin(o)]), RParen, []);
    CloseAfterBinary(m, values, ops, o, dl, dr);
  }

  lemma RunLiteral(m: MathLib, n: nat, values: seq<real>, ops: seq<Pending>)
    ensures Run(m, Stacks(values, ops), Tokens(Lit(n))) == Ok(Stacks(values + [Denote(m, Lit(n))], ops))
  {
    NatToDigitsRoundTrip(n);
    assert Tokens(Lit(n)) == [Num(NatToDigits(n))] + [];
    PushNumber(m, Stacks(values, ops), NatToDigits(n), n as real, []);
  }

  /** One parenthesised operation, given what its operands' tokens do. */
  lemma RunNode(m: MathLib, o: BinOp, l: Expr, r: Expr, values: seq<real>, ops: seq<Pending>)
    requires Run(m, Stacks(values, ops + [Open]), Tokens(l)) == Ok(Stacks(values + [Denote(m, l)], ops + [Open]))
    requires Run(m, Stacks(values + [Denote(m, l)], ops + [Open, Bin(o)]), Tokens(r))
          == Ok(Stacks(values + [Denote(m, l)] + [Denote(m, r)], ops + [Open, Bin(o)]))
    ensures Run(m, Stacks(values, ops), Tokens(Node(o, l, r))) == Ok(Stacks(values + [Denote(m, Node(o, l, r))], ops))
  {
    var dl := Denote(m, l);
    var dr := Denote(m, r);
    TokensNode(o, l, r);
    RunOpening(m, o, Tokens(l), dl, values, ops, Tokens(r) + [RParen]);
    RunClosing(m, o, Tokens(r), dl, dr, values, ops);
    ApplyOpAgrees(m, o, dl, dr);
  }

  /** Running the tokens of an expression pushes its value and leaves
      everything already on either stack untouched. */
  lemma {:induction false} RunTokens(m: MathLib, e: Expr, values: seq<real>, ops: seq<Pending>)
    ensures Run(m, Stacks(values, ops), Tokens(e)) == Ok(Stacks(values + [Denote(m, e)], ops))
  {
    match e
    case Lit(n) =>
      RunLiteral(m, n, values, ops);
    case Node(o, l, r) =>
      RunTokens(m, l, values, ops + [Open]);
      RunTokens(m, r, values + [Denote(m, l)], ops + [Open, Bin(o)]);
      RunNode(m, o, l, r, values, ops);
  }

  lemma EvaluateTokens(m: MathLib, expr: string, ts: seq<Token>)
    requires Tokenize(expr) == ts && ts != []
    ensures Evaluate(m, expr) == ParseExpression(m, ts)
  {
  }

  /** The end-to-end theorem: evaluating the printed text of a fully
      parenthesised expression gives the value it denotes. */
  lemma EvaluatePrinted(m: MathLib, e: Expr)
    ensures Evaluate(m, Print(e)) == Ok(Denote(m, e))
  {
    TokenizePrint(e);
    RunTokens(m, e, [], []);
    var d := Denote(m, e);
    assert [] + [d] == [d];
    assert Run(m, Stacks([], []), Tokens(e)) == Ok(Stacks([d], []));
    assert Finish(m, [d], []) == Ok([d]);
    ParseAfterRun(m, Tokens(e), [d], [], [d]);
    assert Tokens(e) != [] by {
      match e
      case Lit(_) =>
      case Node(_, _, _) =>
    }
    EvaluateTokens(m, Print(e), Tokens(e));
  }

  lemma TokenizeRootPrint(e: Expr)
    ensures Tokenize([RootGlyph] + Print(e)) == [Root] + Tokens(e)
  {
    PrintAlphabet(e);
    CleanKeeps([RootGlyph] + Print(e));
    ScanAppend([RootGlyph], Print(e));
    ScanChar(RootGlyph);
    ScanPrint(e);
  }

  /** A leading square root applies to the whole printed expression. */
  lemma EvaluateRootPrinted(m: MathLib, e: Expr)
    ensures Evaluate(m, [RootGlyph] + Print(e)) == Ok(m.sqrt(Denote(m, e)))
  {
    var ts := [Root] + Tokens(e);
    TokenizeRootPrint(e);
    RunCons(m, Stacks([], []), Root, Tokens(e));
    RunTokens(m, e, [], [Radical]);
    var d := Denote(m, e);
    var v := m.sqrt(d);
    assert [] + [Radical] == [Radical] && [] + [d] == [d] && [] + [v] == [v];
    assert Run(m, Stacks([], []), ts) == Ok(Stacks([d], [Radical]));
    RootDrained(m, [], d);
    ParseAfterRun(m, ts, [d], [Radical], [v]);
    EvaluateTokens(m, [RootGlyph] + Print(e), ts);
  }
}
