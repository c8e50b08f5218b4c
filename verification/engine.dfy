/**
  The evaluator: a single left-to-right pass over the tokens with a value
  stack and an operator stack (shunting-yard), as the calculator engine does
  it, including its quirks. Stacks are sequences whose last element is the
  top. Popping or peeking an empty stack is the only way evaluation fails.
 */
module Engine {
  import opened Wrappers
  import opened Decimal
  import opened Tokenizer

  /** Which stack was found empty (the engine's `EmptyStackException`). */
  datatype Fault = EmptyOperatorStack | EmptyValueStack

  /** Square root and power are floating-point library calls; the model takes
      them as parameters so that results are stated in terms of them. */
  datatype MathLib = MathLib(sqrt: real -> real, pow: (real, real) -> real)

  /** An entry of the operator stack: an open parenthesis, a pending square
      root, or a pending binary operator. */
  datatype Pending = Open | Radical | Bin(op: BinOp)

  function OpPrecedence(o: BinOp): nat {
    match o
    case Add => 1
    case Sub => 1
    case Mul => 2
    case Div => 2
    case Pow => 3
  }

  /** The precedence table; it is only ever consulted for entries that are not `(`. */
  function Precedence(p: Pending): nat
    requires !p.Open?
  {
    match p
    case Radical => 4
    case Bin(o) => OpPrecedence(o)
  }

  /** `applyOp(op, b, a)`: `b` is the right operand, popped first. Division by
      exactly zero gives 0, and anything that is not a binary operator gives 0. */
  function ApplyOp(m: MathLib, p: Pending, b: real, a: real): real {
    match p
    case Bin(Add) => a + b
    case Bin(Sub) => a - b
    case Bin(Mul) => a * b
    case Bin(Div) => if b != 0.0 then a / b else 0.0
    case Bin(Pow) => m.pow(a, b)
    case _ => 0.0
  }

  datatype Stacks = Stacks(values: seq<real>, ops: seq<Pending>)

  function Top<T>(s: seq<T>): T
    requires s != []
  {
    s[|s| - 1]
  }

  function Pop<T>(s: seq<T>): seq<T>
    requires s != []
  {
    s[..|s| - 1]
  }

  /** `values.push(applyOp(op, values.pop(), values.pop()))`. */
  function ApplyBinary(m: MathLib, p: Pending, values: seq<real>): (r: Result<seq<real>, Fault>)
    ensures r.Ok? <==> |values| >= 2
    ensures r.Ok? ==> |r.value| == |values| - 1
  {
    if |values| < 2 then Err(EmptyValueStack)
    else
      var b := Top(values);
      var a := Top(Pop(values));
      Ok(Pop(Pop(values)) + [ApplyOp(m, p, b, a)])
  }

  /** `values.push(sqrt(values.pop()))`. */
  function ApplyRoot(m: MathLib, values: seq<real>): (r: Result<seq<real>, Fault>)
    ensures r.Ok? <==> |values| >= 1
    ensures r.Ok? ==> |r.value| == |values|
  {
    if |values| < 1 then Err(EmptyValueStack)
    else Ok(Pop(values) + [m.sqrt(Top(values))])
  }

  /** Applying a popped entry where the engine tests for `sqrt` first: a square
      root takes one operand, everything else goes through `applyOp`. */
  function ApplyPending(m: MathLib, p: Pending, values: seq<real>): Result<seq<real>, Fault> {
    if p == Radical then ApplyRoot(m, values) else ApplyBinary(m, p, values)
  }

  /** The entries a binary operator of precedence `prec` pops before it is pushed. */
  predicate Yields(p: Pending, prec: nat) {
    !p.Open? && Precedence(p) >= prec
  }

  /** The loop before pushing a binary operator: apply pending tops while
      they are not `(` and bind at least as tightly. */
  function Reduce(m: MathLib, st: Stacks, prec: nat): Result<Stacks, Fault>
    decreases |st.ops|
  {
    if st.ops == [] || !Yields(Top(st.ops), prec) then Ok(st)
    else
      var values :- ApplyPending(m, Top(st.ops), st.values);
      Reduce(m, Stacks(values, Pop(st.ops)), prec)
  }

  /** The loop for `)`: peek (failing on an empty operator stack), apply with
      the binary `applyOp` until `(` is on top, then pop the `(`. */
  function CloseParen(m: MathLib, st: Stacks): Result<Stacks, Fault>
    decreases |st.ops|
  {
    if st.ops == [] then Err(EmptyOperatorStack)
    else if Top(st.ops) == Open then Ok(Stacks(st.values, Pop(st.ops)))
    else
      var values :- ApplyBinary(m, Top(st.ops), st.values);
      CloseParen(m, Stacks(values, Pop(st.ops)))
  }

  /** One iteration of the main loop. A numeric run that does not parse falls
      through every branch and changes nothing. */
  function Step(m: MathLib, st: Stacks, t: Token): Result<Stacks, Fault> {
    match t
    case Num(text) =>
      (match ParseDecimal(text)
       case Some(v) => Ok(Stacks(st.values + [v], st.ops))
       case None => Ok(st))
    case LParen => Ok(Stacks(st.values, st.ops + [Open]))
    case RParen => CloseParen(m, st)
    case Root => Ok(Stacks(st.values, st.ops + [Radical]))
    case Op(o) =>
      var st' :- Reduce(m, st, OpPrecedence(o));
      Ok(Stacks(st'.values, st'.ops + [Bin(o)]))
  }

  /** The main loop over the token queue. */
  function Run(m: MathLib, st: Stacks, ts: seq<Token>): Result<Stacks, Fault>
    decreases |ts|
  {
    if ts == [] then Ok(st)
    else
      var st' :- Step(m, st, ts[0]);
      Run(m, st', ts[1..])
  }

  /** The final loop: pop and apply every remaining operator-stack entry,
      a leftover `(` included. */
  function Finish(m: MathLib, values: seq<real>, ops: seq<Pending>): Result<seq<real>, Fault>
    decreases |ops|
  {
    if ops == [] then Ok(values)
    else
      var values' :- ApplyPending(m, Top(ops), values);
      Finish(m, values', Pop(ops))
  }

  /** Both loops, then the top of the value stack; values below it are ignored. */
  function ParseExpression(m: MathLib, ts: seq<Token>): Result<real, Fault> {
    var st :- Run(m, Stacks([], []), ts);
    var values :- Finish(m, st.values, st.ops);
    if values == [] then Err(EmptyValueStack) else Ok(Top(values))
  }

  /** The engine's entry point: tokenize, return 0 for no tokens, else parse. */
  function Evaluate(m: MathLib, expr: string): (r: Result<real, Fault>)
    ensures Tokenize(expr) == [] ==> r == Ok(0.0)
  {
    var ts := Tokenize(expr);
    if ts == [] then Ok(0.0) else ParseExpression(m, ts)
  }
}
