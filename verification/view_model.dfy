/**
  The calculator screen's state machine: the display text, the live result
  preview and the history of finished calculations, changed by one button
  action at a time. Evaluation and number formatting are parameters:
  `evaluate` may fail (the engine's exception), `format` renders a value.
 */
module ViewModel {
  import opened Wrappers

  datatype HistoryItem = HistoryItem(expression: string, result: string)

  datatype Action =
    | Number(number: string)
    | Operator(op: string)
    | Special(symbol: string)
    | Clear
    | Delete
    | Calculate

  datatype Screen = Screen(display: string, resultPreview: string, history: seq<HistoryItem>)

  datatype Services<!V> = Services(evaluate: string -> Option<V>, format: V -> string)

  const ErrorText: string := "Error"

  const Initial: Screen := Screen("", "", [])

  // ---------------------------------------------------------------------
  // Text helpers: `dropLast(1)` and `trim()`.

  /** The characters `trim()` removes: Java whitespace and Unicode space separators. */
  predicate IsWhitespace(c: char) {
    || c == ' ' || c == '\t' || c == '\n' || c == '\r'
    || c == '\U{000B}' || c == '\U{000C}'
    || ('\U{001C}' <= c <= '\U{001F}')
    || c == '\U{00A0}' || c == '\U{1680}'
    || ('\U{2000}' <= c <= '\U{200A}')
    || c == '\U{2028}' || c == '\U{2029}' || c == '\U{202F}' || c == '\U{205F}' || c == '\U{3000}'
  }

  function DropLast(s: string): (r: string)
    ensures s != [] ==> r + [s[|s| - 1]] == s
    ensures s == [] ==> r == []
  {
    if s == [] then [] else s[..|s| - 1]
  }

  // The trimming functions take the class of characters to drop as a
  // parameter; `trim()` is the instance for `IsWhitespace`. Their properties
  // do not depend on which characters are in the class.

  /** `s` without its leading characters from `drop`. */
  function TrimStart(s: string, drop: char -> bool): (r: string)
    ensures |r| <= |s| && r == s[|s| - |r|..]
    ensures forall i :: 0 <= i < |s| - |r| ==> drop(s[i])
    ensures r == [] || !drop(r[0])
  {
    if s != [] && drop(s[0]) then TrimStart(s[1..], drop) else s
  }

  /** `s` without its trailing characters from `drop`. */
  function TrimEnd(s: string, drop: char -> bool): (r: string)
    ensures |r| <= |s| && r == s[..|r|]
    ensures forall i :: |r| <= i < |s| ==> drop(s[i])
    ensures r == [] || !drop(r[|r| - 1])
  {
    if s != [] && drop(s[|s| - 1]) then TrimEnd(s[..|s| - 1], drop) else s
  }

  function TrimBoth(s: string, drop: char -> bool): string {
    TrimEnd(TrimStart(s, drop), drop)
  }

  /** Where the piece `TrimBoth` keeps begins. */
  function Lead(s: string, drop: char -> bool): nat {
    |s| - |TrimStart(s, drop)|
  }

  /** Kotlin's `trim()`. */
  function Trim(s: string): string {
    TrimBoth(s, IsWhitespace)
  }

  /** Trimming keeps one contiguous piece of `s`, from `Lead(s, drop)` on. */
  lemma TrimIsSlice(s: string, drop: char -> bool)
    ensures Lead(s, drop) + |TrimBoth(s, drop)| <= |s|
    ensures TrimBoth(s, drop) == s[Lead(s, drop)..Lead(s, drop) + |TrimBoth(s, drop)|]
  {
    var t := TrimStart(s, drop);
    assert t == s[Lead(s, drop)..];
    assert TrimBoth(s, drop) == t[..|TrimBoth(s, drop)|];
  }

  /** Everything trimming drops, before and after the kept piece, is in `drop`. */
  lemma TrimDropsOnly(s: string, drop: char -> bool)
    ensures Lead(s, drop) + |TrimBoth(s, drop)| <= |s|
    ensures forall i :: 0 <= i < Lead(s, drop) ==> drop(s[i])
    ensures forall i :: Lead(s, drop) + |TrimBoth(s, drop)| <= i < |s| ==> drop(s[i])
  {
    DroppedTail(s, Lead(s, drop), |TrimBoth(s, drop)|, drop);
  }

  /** If everything from `n` on in the suffix `s[k..]` is in `drop`, so is
      everything from `k + n` on in `s`. */
  lemma DroppedTail(s: string, k: nat, n: nat, drop: char -> bool)
    requires k + n <= |s|
    requires forall j :: n <= j < |s| - k ==> drop(s[k..][j])
    ensures forall i :: k + n <= i < |s| ==> drop(s[i])
  {
    forall i | k + n <= i < |s| ensures drop(s[i]) {
      assert s[i] == s[k..][i - k];
    }
  }

  /** The kept piece neither starts nor ends with a character from `drop`. */
  lemma TrimEnds(s: string, drop: char -> bool)
    ensures var r := TrimBoth(s, drop); r == [] || (!drop(r[0]) && !drop(r[|r| - 1]))
  {
    var t := TrimStart(s, drop);
    if TrimBoth(s, drop) != [] {
      assert TrimBoth(s, drop)[0] == t[0];
    }
  }

  // ---------------------------------------------------------------------
  // The transitions.

  /** `calculatePreview`: empty for an empty display or a failed evaluation. */
  function Preview<V>(svc: Services<V>, display: string): string {
    if display == [] then ""
    else match svc.evaluate(display)
      case Some(v) => svc.format(v)
      case None => ""
  }

  /** `performFinalCalculation`. */
  function FinalCalculation<V>(svc: Services<V>, s: Screen): Screen {
    if s.display == [] then s
    else match svc.evaluate(s.display)
      case Some(v) =>
        var formatted := svc.format(v);
        Screen(formatted, "", [HistoryItem(s.display, formatted)] + s.history)
      case None => s.(resultPreview := ErrorText)
  }

  /** `onAction`: one button press. Only a successful calculation touches the
      history, and then only by putting one entry in front. */
  function OnAction<V>(svc: Services<V>, s: Screen, a: Action): (s': Screen)
    ensures s'.history == s.history || (a == Calculate && |s'.history| == |s.history| + 1 && s'.history[1..] == s.history)
  {
    match a
    case Number(n) =>
      var display := s.display + n;
      s.(display := display, resultPreview := Preview(svc, display))
    case Operator(op) => s.(display := s.display + " " + op + " ")
    case Clear => s.(display := "", resultPreview := "")
    case Delete =>
      if s.display == [] then s
      else
        var display := Trim(DropLast(s.display));
        s.(display := display, resultPreview := Preview(svc, display))
    case Calculate => FinalCalculation(svc, s)
    case Special(symbol) => s.(display := s.display + symbol)
  }

  /** A sequence of button presses, first to last. */
  function Replay<V>(svc: Services<V>, s: Screen, actions: seq<Action>): Screen
    decreases |actions|
  {
    if actions == [] then s else Replay(svc, OnAction(svc, s, actions[0]), actions[1..])
  }

  // ---------------------------------------------------------------------
  // Per-action behaviour.

  lemma ClearResets<V>(svc: Services<V>, s: Screen)
    ensures OnAction(svc, s, Clear) == Screen("", "", s.history)
  {
  }

  lemma OperatorAppends<V>(svc: Services<V>, s: Screen, op: string)
    ensures var s' := OnAction(svc, s, Operator(op));
      s'.display == s.display + [' '] + op + [' '] && s'.resultPreview == s.resultPreview && s'.history == s.history
  {
  }

  lemma SpecialAppends<V>(svc: Services<V>, s: Screen, symbol: string)
    ensures var s' := OnAction(svc, s, Special(symbol));
      s'.display == s.display + symbol && s'.resultPreview == s.resultPreview && s'.history == s.history
  {
  }

  /** A digit extends the display and refreshes the preview from the whole
      new display: the formatted value, or empty when evaluation fails. */
  lemma NumberPreviews<V>(svc: Services<V>, s: Screen, n: string)
    ensures var s' := OnAction(svc, s, Number(n));
      && s'.display == s.display + n
      && s'.history == s.history
      && (s'.display != [] && svc.evaluate(s'.display).Some? ==> s'.resultPreview == svc.format(svc.evaluate(s'.display).value))
      && (s'.display == [] || svc.evaluate(s'.display).None? ==> s'.resultPreview == "")
  {
  }

  /** Delete removes the last character and any whitespace then at either
      end, so the display strictly shrinks; on an empty display it does nothing. */
  lemma DeleteShrinks<V>(svc: Services<V>, s: Screen)
    ensures var s' := OnAction(svc, s, Delete);
      && (s.display == [] ==> s' == s)
      && (s.display != [] ==>
            && |s'.display| < |s.display|
            && s'.display == Trim(s.display[..|s.display| - 1])
            && s'.resultPreview == Preview(svc, s'.display)
            && s'.history == s.history)
  {
  }

  /** After Delete the display never starts or ends with whitespace, and an
      emptied display shows no preview. */
  lemma DeleteTrims<V>(svc: Services<V>, s: Screen)
    requires s.display != []
    ensures var s' := OnAction(svc, s, Delete);
      && (s'.display == [] || (!IsWhitespace(s'.display[0]) && !IsWhitespace(s'.display[|s'.display| - 1])))
      && (s'.display == [] ==> s'.resultPreview == "")
  {
    TrimEnds(DropLast(s.display), IsWhitespace);
  }

  lemma CalculateEmptyIsNoOp<V>(svc: Services<V>, s: Screen)
    requires s.display == []
    ensures OnAction(svc, s, Calculate) == s
  {
  }

  /** A successful calculation records the old display with its formatted
      result in front of the history, shows the result and clears the preview. */
  lemma CalculateSuccess<V>(svc: Services<V>, s: Screen, v: V)
    requires s.display != [] && svc.evaluate(s.display) == Some(v)
    ensures var s' := OnAction(svc, s, Calculate);
      && s'.history == [HistoryItem(s.display, svc.format(v))] + s.history
      && s'.display == svc.format(v)
      && s'.resultPreview == ""
  {
  }

  /** A failed calculation shows "Error" and changes nothing else; pressing
      Calculate again changes nothing more. */
  lemma CalculateFailure<V>(svc: Services<V>, s: Screen)
    requires s.display != [] && svc.evaluate(s.display).None?
    ensures var s' := OnAction(svc, s, Calculate);
      && s' == s.(resultPreview := ErrorText)
      && OnAction(svc, s', Calculate) == s'
  {
  }

  // ---------------------------------------------------------------------
  // Invariants over any sequence of actions.

  /** Every history entry is a non-empty expression that evaluates, recorded
      with the formatting of its value. */
  ghost predicate HistoryFaithful<V>(svc: Services<V>, h: seq<HistoryItem>) {
    forall i :: 0 <= i < |h| ==>
      && h[i].expression != []
      && svc.evaluate(h[i].expression).Some?
      && h[i].result == svc.format(svc.evaluate(h[i].expression).value)
  }

  lemma OnActionKeepsHistoryFaithful<V>(svc: Services<V>, s: Screen, a: Action)
    requires HistoryFaithful(svc, s.history)
    ensures HistoryFaithful(svc, OnAction(svc, s, a).history)
  {
    var h' := OnAction(svc, s, a).history;
    if h' != s.history {
      forall i | 0 <= i < |h'| ensures
        && h'[i].expression != []
        && svc.evaluate(h'[i].expression).Some?
        && h'[i].result == svc.format(svc.evaluate(h'[i].expression).value)
      {
        if i > 0 {
          assert h'[i] == s.history[i - 1];
        }
      }
    }
  }

  function CountCalculates(actions: seq<Action>): nat {
    if actions == [] then 0 else (if actions[0] == Calculate then 1 else 0) + CountCalculates(actions[1..])
  }

  /** Whatever the buttons pressed, every history entry stays faithful. */
  lemma {:induction false} ReplayKeepsHistoryFaithful<V>(svc: Services<V>, s: Screen, actions: seq<Action>)
    requires HistoryFaithful(svc, s.history)
    ensures HistoryFaithful(svc, Replay(svc, s, actions).history)
    decreases |actions|
  {
    if actions != [] {
      OnActionKeepsHistoryFaithful(svc, s, actions[0]);
      ReplayKeepsHistoryFaithful(svc, OnAction(svc, s, actions[0]), actions[1..]);
    }
  }

  /** Whatever the buttons pressed, the history gains at most one entry per
      Calculate and never loses one. */
  lemma {:induction false} ReplayHistoryLength<V>(svc: Services<V>, s: Screen, actions: seq<Action>)
    ensures var h := Replay(svc, s, actions).history;
      |s.history| <= |h| <= |s.history| + CountCalculates(actions)
    decreases |actions|
  {
    if actions != [] {
      HistoryStep(svc, s, actions[0]);
      ReplayHistoryLength(svc, OnAction(svc, s, actions[0]), actions[1..]);
    }
  }

  /** Whatever the buttons pressed, the old history stays at the back: new
      entries only ever go in front. */
  lemma {:induction false} ReplayHistorySuffix<V>(svc: Services<V>, s: Screen, actions: seq<Action>)
    ensures var h := Replay(svc, s, actions).history;
      |s.history| <= |h| && h[|h| - |s.history|..] == s.history
    decreases |actions|
  {
    if actions != [] {
      var s1 := OnAction(svc, s, actions[0]);
      ReplayHistorySuffix(svc, s1, actions[1..]);
      SuffixStep(s.history, s1.history, Replay(svc, s1, actions[1..]).history);
    }
  }

  /** One button press keeps the old history as a suffix and adds at most one
      entry, only on Calculate. */
  lemma HistoryStep<V>(svc: Services<V>, s: Screen, a: Action)
    ensures var h := OnAction(svc, s, a).history;
      && |s.history| <= |h| <= |s.history| + (if a == Calculate then 1 else 0)
      && h[|h| - |s.history|..] == s.history
  {
  }

  /** A suffix of a history that is either unchanged or grown by one entry in
      front is a suffix of the original as well. */
  lemma SuffixStep<T>(h0: seq<T>, h1: seq<T>, h: seq<T>)
    requires h1 == h0 || (|h1| == |h0| + 1 && h1[1..] == h0)
    requires |h1| <= |h| && h[|h| - |h1|..] == h1
    ensures |h0| <= |h| && h[|h| - |h0|..] == h0
  {
    if h1 != h0 {
      assert h1[|h1| - |h0|..] == h0;
      SuffixOfSuffix(h, h1, h0);
    }
  }

  lemma SuffixOfSuffix<T>(h: seq<T>, h1: seq<T>, h0: seq<T>)
    requires |h1| <= |h| && h[|h| - |h1|..] == h1
    requires |h0| <= |h1| && h1[|h1| - |h0|..] == h0
    ensures h[|h| - |h0|..] == h0
  {
    assert h[|h| - |h0|..] == h[|h| - |h1|..][|h1| - |h0|..];
  }
}
