/**
  The screen driven by the engine itself: evaluation is `Evaluate`, and an
  engine failure is what the view model catches. Formatting stays a parameter.
 */
module Session {
  import opened Wrappers
  import opened Tokenizer
  import opened Engine
  import opened ViewModel
  import Examples

  function EngineEvaluate(m: MathLib, s: string): Option<real> {
    Evaluate(m, s).ToOption()
  }

  function EngineServices(m: MathLib, format: real -> string): Services<real> {
    Services(s => EngineEvaluate(m, s), format)
  }

  /** Every history entry, after any key presses from a fresh screen, is a
      display the engine evaluates, recorded with the formatting of its value. */
  lemma EngineHistoryEvaluates(m: MathLib, format: real -> string, actions: seq<Action>)
    ensures var h := Replay(EngineServices(m, format), Initial, actions).history;
      && |h| <= CountCalculates(actions)
      && forall i :: 0 <= i < |h| ==>
           && h[i].expression != []
           && Evaluate(m, h[i].expression).Ok?
           && h[i].result == format(Evaluate(m, h[i].expression).value)
  {
    var svc := EngineServices(m, format);
    ReplayKeepsHistoryFaithful(svc, Initial, actions);
    ReplayHistoryLength(svc, Initial, actions);
    var h := Replay(svc, Initial, actions).history;
    forall i | 0 <= i < |h| ensures Evaluate(m, h[i].expression).Ok? && h[i].result == format(Evaluate(m, h[i].expression).value) {
      assert svc.evaluate(h[i].expression) == Evaluate(m, h[i].expression).ToOption();
    }
  }

  lemma TokenizeOne()
    ensures Tokenize("2") == [Num("2")]
  {
    assert Render([Num("2")]) == "2";
    TokenizeRender([Num("2")]);
  }

  lemma TokenizeSpacedSum()
    ensures Tokenize("2 + 3") == [Num("2"), Op(Add), Num("3")]
  {
    Examples.SpacedInfix("2", '+', "3");
    assert "2" + " " + "+" + " " + "3" == "2 + 3";
    Examples.InfixTokens("2", Add, "3");
    assert "2" + "+" + "3" == "2" + [OpSymbol(Add)] + "3";
  }

  lemma TokenizeSpacedSign()
    ensures Tokenize(" + 5") == [Op(Add), Num("5")]
  {
    SpaceIgnored("", "+ 5");
    assert "" + " " + "+ 5" == " + 5";
    SpaceIgnored("+", "5");
    assert "" + "+ 5" == "+" + " " + "5";
    var ts := [Op(Add), Num("5")];
    assert Render(ts) == "+" + "5";
    TokenizeRender(ts);
  }

  lemma EvaluateOne(m: MathLib)
    ensures Evaluate(m, "2") == Ok(2.0)
  {
    TokenizeOne();
    Examples.SingleNumber(m, "2", 2.0);
  }

  lemma SumParsed(m: MathLib)
    ensures ParseExpression(m, [Num("2"), Op(Add), Num("3")]) == Ok(5.0)
  {
    Examples.OneOp(m, "2", Add, "3", 2.0, 3.0, 5.0);
  }

  lemma EvaluateSpacedSum(m: MathLib)
    ensures Evaluate(m, "2 + 3") == Ok(5.0)
  {
    TokenizeSpacedSum();
    SumParsed(m);
  }

  lemma SignParsed(m: MathLib)
    ensures ParseExpression(m, [Op(Add), Num("5")]) == Err(EmptyValueStack)
  {
    Examples.LeadingOperator(m, Add, "5", 5.0);
  }

  lemma EvaluateSpacedSign(m: MathLib)
    ensures Evaluate(m, " + 5") == Err(EmptyValueStack)
  {
    TokenizeSpacedSign();
    SignParsed(m);
  }

  /** Pressing 2, +, 3, = on a fresh screen, for any evaluator that
      accepts `2` and `2 + 3`. */
  lemma SumKeys<V>(svc: Services<V>, v2: V, v5: V)
    requires svc.evaluate("2") == Some(v2) && svc.evaluate("2 + 3") == Some(v5)
    ensures Replay(svc, Initial, [Number("2"), Operator("+"), Number("3"), Calculate])
         == Screen(svc.format(v5), "", [HistoryItem("2 + 3", svc.format(v5))])
  {
    var actions := [Number("2"), Operator("+"), Number("3"), Calculate];
    assert "" + "2" == "2" && "2" + " " + "+" + " " == "2 + " && "2 + " + "3" == "2 + 3";
    var s1 := OnAction(svc, Initial, Number("2"));
    assert s1 == Screen("2", svc.format(v2), []);
    var s2 := OnAction(svc, s1, Operator("+"));
    assert s2 == Screen("2 + ", svc.format(v2), []);
    var s3 := OnAction(svc, s2, Number("3"));
    assert s3 == Screen("2 + 3", svc.format(v5), []);
    var s4 := OnAction(svc, s3, Calculate);
    assert s4 == Screen(svc.format(v5), "", [HistoryItem("2 + 3", svc.format(v5))]);
    assert actions[1..] == [Operator("+"), Number("3"), Calculate];
    assert actions[1..][1..] == [Number("3"), Calculate];
    assert actions[1..][1..][1..] == [Calculate];
    assert actions[1..][1..][1..][1..] == [];
  }

  lemma SumSession(m: MathLib, format: real -> string)
    ensures Replay(EngineServices(m, format), Initial, [Number("2"), Operator("+"), Number("3"), Calculate])
         == Screen(format(5.0), "", [HistoryItem("2 + 3", format(5.0))])
  {
    EvaluateOne(m);
    EvaluateSpacedSum(m);
    SumKeys(EngineServices(m, format), 2.0, 5.0);
  }

  /** Pressing +, 5, = for any evaluator that rejects ` + 5`. */
  lemma SignKeys<V>(svc: Services<V>)
    requires svc.evaluate(" + 5").None?
    ensures Replay(svc, Initial, [Operator("+"), Number("5"), Calculate]) == Screen(" + 5", ErrorText, [])
  {
    var actions := [Operator("+"), Number("5"), Calculate];
    assert "" + " " + "+" + " " == " + " && " + " + "5" == " + 5";
    var s1 := OnAction(svc, Initial, Operator("+"));
    assert s1 == Screen(" + ", "", []);
    var s2 := OnAction(svc, s1, Number("5"));
    assert s2 == Screen(" + 5", "", []);
    var s3 := OnAction(svc, s2, Calculate);
    assert s3 == Screen(" + 5", ErrorText, []);
    assert actions[1..] == [Number("5"), Calculate];
    assert actions[1..][1..] == [Calculate];
    assert actions[1..][1..][1..] == [];
  }

  /** The engine has no unary sign, so this shows "Error" and records nothing. */
  lemma SignSession(m: MathLib, format: real -> string)
    ensures Replay(EngineServices(m, format), Initial, [Operator("+"), Number("5"), Calculate])
         == Screen(" + 5", ErrorText, [])
  {
    EvaluateSpacedSign(m);
    SignKeys(EngineServices(m, format));
  }
}
