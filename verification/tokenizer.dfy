/**
  The calculator's tokenizer: spaces are deleted, the multiplication and
  division glyphs become `*` and `/`, and the cleaned text is scanned left to
  right into numeric runs, square-root markers, operators and parentheses.
  Every other character is dropped.
 */
module Tokenizer {
  import opened Decimal

  datatype BinOp = Add | Sub | Mul | Div | Pow

  datatype Token =
    | Num(text: Numeral)   // one maximal run of digits and points, not yet parsed
    | Op(op: BinOp)
    | Root                 // the square-root glyph
    | LParen
    | RParen

  const MulGlyph: char := '×'
  const DivGlyph: char := '÷'
  const RootGlyph: char := '√'

  /** The single-character operator symbols, with their operator. */
  function SymbolOp(c: char): (o: BinOp)
    requires c in "+-*/^"
  {
    match c
    case '+' => Add
    case '-' => Sub
    case '*' => Mul
    case '/' => Div
    case _ => Pow
  }

  function OpSymbol(o: BinOp): (c: char)
    ensures c in "+-*/^" && SymbolOp(c) == o
  {
    match o
    case Add => '+'
    case Sub => '-'
    case Mul => '*'
    case Div => '/'
    case Pow => '^'
  }

  /** Characters that produce a token of their own. */
  predicate IsSymbol(c: char) {
    c in "+-*/^()" || c == RootGlyph
  }

  /** Characters the scanner does something with; all others are dropped. */
  predicate IsKept(c: char) {
    IsNumChar(c) || IsSymbol(c)
  }

  /** `s` with every occurrence of `c` deleted. */
  function Remove(s: string, c: char): string {
    if s == [] then [] else (if s[0] == c then [] else [s[0]]) + Remove(s[1..], c)
  }

  /** `s` with every occurrence of `from` replaced by `to`. */
  function Replace(s: string, from: char, to: char): string {
    if s == [] then [] else [if s[0] == from then to else s[0]] + Replace(s[1..], from, to)
  }

  /** The preprocessing pass: `replace(" ", "")`, then the two glyph replacements. */
  function Clean(s: string): string {
    Replace(Replace(Remove(s, ' '), MulGlyph, '*'), DivGlyph, '/')
  }

  lemma {:induction false} RemoveDeletes(s: string, c: char)
    ensures c !in Remove(s, c)
    ensures forall x :: x != c ==> (x in Remove(s, c) <==> x in s)
  {
    if s != [] {
      RemoveDeletes(s[1..], c);
      assert s == [s[0]] + s[1..];
    }
  }

  lemma {:induction false} ReplaceSubstitutes(s: string, from: char, to: char)
    requires from != to
    ensures from !in Replace(s, from, to)
    ensures forall x :: x != from && x != to ==> (x in Replace(s, from, to) <==> x in s)
  {
    if s != [] {
      ReplaceSubstitutes(s[1..], from, to);
      assert s == [s[0]] + s[1..];
    }
  }

  /** After cleaning, no space and neither glyph is left. */
  lemma CleanRemovesGlyphs(s: string)
    ensures ' ' !in Clean(s) && MulGlyph !in Clean(s) && DivGlyph !in Clean(s)
  {
    RemoveDeletes(s, ' ');
    ReplaceSubstitutes(Remove(s, ' '), MulGlyph, '*');
    ReplaceSubstitutes(Replace(Remove(s, ' '), MulGlyph, '*'), DivGlyph, '/');
  }

  /** Length of the numeric run at the start of `s`. */
  function RunLength(s: string): (n: nat)
    ensures n <= |s|
    ensures forall i :: 0 <= i < n ==> IsNumChar(s[i])
    ensures n < |s| ==> !IsNumChar(s[n])
  {
    if s != [] && IsNumChar(s[0]) then 1 + RunLength(s[1..]) else 0
  }

  /** The token a single non-numeric character produces: one for `√`, a
      parenthesis or an operator symbol, none for anything else. */
  function CharTokens(c: char): (ts: seq<Token>)
    requires !IsNumChar(c)
    ensures |ts| <= 1
    ensures ts != [] <==> IsSymbol(c)
  {
    if c == RootGlyph then [Root]
    else if c == '(' then [LParen]
    else if c == ')' then [RParen]
    else if c in "+-*/^" then [Op(SymbolOp(c))]
    else []
  }

  /** How many characters one pass of the scanning loop consumes at the start
      of `s`: a whole numeric run, or a single other character. */
  function HeadLength(s: string): (n: nat)
    requires s != []
    ensures 1 <= n <= |s|
  {
    if IsNumChar(s[0]) then RunLength(s) else 1
  }

  /** The tokens that one pass of the scanning loop emits for the start of `s`. */
  function HeadTokens(s: string): (ts: seq<Token>)
    requires s != []
    ensures |ts| <= 1
  {
    if IsNumChar(s[0]) then [Num(s[..RunLength(s)])] else CharTokens(s[0])
  }

  /** The scanning loop over already cleaned text. */
  function Scan(s: string): (ts: seq<Token>)
    decreases |s|
  {
    if s == [] then [] else HeadTokens(s) + Scan(s[HeadLength(s)..])
  }

  function Tokenize(expr: string): seq<Token> {
    Scan(Clean(expr))
  }

  // ---------------------------------------------------------------------
  // Reference descriptions of what scanning keeps and how it groups it.

  /** The text a token was scanned from. */
  function TokenText(t: Token): string {
    match t
    case Num(text) => text
    case Op(o) => [OpSymbol(o)]
    case Root => [RootGlyph]
    case LParen => "("
    case RParen => ")"
  }

  function Render(ts: seq<Token>): string {
    if ts == [] then [] else TokenText(ts[0]) + Render(ts[1..])
  }

  /** `s` without the characters the scanner ignores. */
  function Keep(s: string): string {
    if s == [] then [] else (if IsKept(s[0]) then [s[0]] else []) + Keep(s[1..])
  }

  /** The maximal runs of digits and points in `s`, in order, read one
      character at a time: `cur` is the run in progress. */
  function RunTextsFrom(cur: Numeral, s: string): seq<Numeral>
    decreases |s|
  {
    if s == [] then (if cur == [] then [] else [cur])
    else if IsNumChar(s[0]) then RunTextsFrom(cur + [s[0]], s[1..])
    else (if cur == [] then [] else [cur]) + RunTextsFrom([], s[1..])
  }

  function RunTexts(s: string): seq<Numeral> {
    RunTextsFrom([], s)
  }

  /** The texts of the number tokens, in order. */
  function NumTexts(ts: seq<Token>): seq<Numeral> {
    if ts == [] then [] else (if ts[0].Num? then [ts[0].text] else []) + NumTexts(ts[1..])
  }

  lemma {:induction false} RenderAppend(x: seq<Token>, y: seq<Token>)
    ensures Render(x + y) == Render(x) + Render(y)
  {
    if x != [] {
      assert (x + y)[1..] == x[1..] + y;
      RenderAppend(x[1..], y);
    } else {
      assert x + y == y;
    }
  }

  lemma {:induction false} NumTextsAppend(x: seq<Token>, y: seq<Token>)
    ensures NumTexts(x + y) == NumTexts(x) + NumTexts(y)
  {
    if x != [] {
      assert (x + y)[1..] == x[1..] + y;
      NumTextsAppend(x[1..], y);
    } else {
      assert x + y == y;
    }
  }

  /** Scanning text that starts with a character outside any numeric run. */
  lemma ScanSymbol(s: string)
    requires s != [] && !IsNumChar(s[0])
    ensures Scan(s) == CharTokens(s[0]) + Scan(s[1..])
  {
  }

  /** Scanning text that starts with a numeric run. */
  lemma ScanRun(s: string)
    requires s != [] && IsNumChar(s[0])
    ensures Scan(s) == [Num(s[..RunLength(s)])] + Scan(s[RunLength(s)..])
  {
  }

  /** Every number token the scanner emits holds at least one character. */
  lemma {:induction false} ScanNumsNonEmpty(s: string)
    ensures forall i :: 0 <= i < |Scan(s)| && Scan(s)[i].Num? ==> Scan(s)[i].text != []
    decreases |s|
  {
    if s != [] {
      ScanNumsNonEmpty(s[HeadLength(s)..]);
      var h: seq<Token> := HeadTokens(s);
      var r: seq<Token> := Scan(s[HeadLength(s)..]);
      var ts: seq<Token> := h + r;
      assert Scan(s) == ts;
      forall i | 0 <= i < |ts| && ts[i].Num? ensures ts[i].text != [] {
        if i >= |h| {
          assert ts[i] == r[i - |h|];
        }
      }
    }
  }

  lemma {:induction false} KeepAppend(a: string, b: string)
    ensures Keep(a + b) == Keep(a) + Keep(b)
  {
    if a != [] {
      assert (a + b)[1..] == a[1..] + b;
      KeepAppend(a[1..], b);
    } else {
      assert a + b == b;
    }
  }

  lemma {:induction false} KeepNumeral(s: string)
    requires forall i :: 0 <= i < |s| ==> IsNumChar(s[i])
    ensures Keep(s) == s
  {
    if s != [] {
      KeepNumeral(s[1..]);
    }
  }

  /** What one pass of the scanning loop emits is what it consumed, less
      an ignored character. */
  lemma HeadKeepsText(s: string)
    requires s != []
    ensures Render(HeadTokens(s)) == Keep(s[..HeadLength(s)])
  {
    var n := HeadLength(s);
    if IsNumChar(s[0]) {
      KeepNumeral(s[..n]);
      assert Render([Num(s[..n])]) == s[..n];
    } else {
      assert s[..n] == [s[0]];
      if IsSymbol(s[0]) {
        assert Render(CharTokens(s[0])) == [s[0]];
      } else {
        assert CharTokens(s[0]) == [];
      }
    }
  }

  /** Scanning preserves every kept character, in order, and nothing else. */
  lemma {:induction false} ScanKeepsText(s: string)
    ensures Render(Scan(s)) == Keep(s)
    decreases |s|
  {
    if s != [] {
      var n := HeadLength(s);
      calc {
        Render(Scan(s));
        Render(HeadTokens(s) + Scan(s[n..]));
        { RenderAppend(HeadTokens(s), Scan(s[n..])); }
        Render(HeadTokens(s)) + Render(Scan(s[n..]));
        { HeadKeepsText(s); ScanKeepsText(s[n..]); }
        Keep(s[..n]) + Keep(s[n..]);
        { KeepAppend(s[..n], s[n..]); }
        Keep(s[..n] + s[n..]);
        { assert s[..n] + s[n..] == s; }
        Keep(s);
      }
    }
  }

  /** Reading the first `n` run characters of `s` just extends the run in progress. */
  lemma {:induction false} RunTextsExtend(cur: Numeral, s: string, n: nat)
    requires n <= |s|
    requires forall i :: 0 <= i < n ==> IsNumChar(s[i])
    ensures RunTextsFrom(cur, s) == RunTextsFrom(cur + s[..n], s[n..])
    decreases n
  {
    if n == 0 {
      assert cur + s[..0] == cur;
    } else {
      var next: Numeral := cur + [s[0]];
      RunTextsExtend(next, s[1..], n - 1);
      assert next + s[1..][..n - 1] == cur + s[..n];
      assert s[1..][n - 1..] == s[n..];
    }
  }

  /** A run in progress ends where the text ends or a non-run character begins. */
  lemma RunTextsClose(cur: Numeral, s: string)
    requires s == [] || !IsNumChar(s[0])
    ensures RunTextsFrom(cur, s) == (if cur == [] then [] else [cur]) + RunTextsFrom([], s)
  {
  }

  /** Scanning makes exactly one number token per maximal numeric run, holding
      that run's text, in order. */
  lemma {:induction false} ScanFindsRuns(s: string)
    ensures NumTexts(Scan(s)) == RunTexts(s)
    decreases |s|
  {
    if s != [] {
      if IsNumChar(s[0]) {
        var n := RunLength(s);
        var run: Numeral := s[..n];
        ScanRun(s);
        ScanFindsRuns(s[n..]);
        NumTextsAppend([Num(run)], Scan(s[n..]));
        RunTextsExtend([], s, n);
        assert [] + s[..n] == run;
        RunTextsClose(run, s[n..]);
      } else {
        ScanSymbol(s);
        ScanFindsRuns(s[1..]);
        NumTextsAppend(CharTokens(s[0]), Scan(s[1..]));
        assert NumTexts(CharTokens(s[0])) == [];
      }
    }
  }

  lemma RenderEmpty(ts: seq<Token>)
    requires NonEmptyNums(ts)
    ensures Render(ts) == [] <==> ts == []
  {
    if ts != [] {
      assert ts[0].Num? ==> ts[0].text != [];
    }
  }

  /** No token at all exactly when the cleaned input holds only ignored characters. */
  lemma TokenizeEmptyIff(expr: string)
    ensures Tokenize(expr) == [] <==> Keep(Clean(expr)) == []
  {
    ScanKeepsText(Clean(expr));
    ScanNumsNonEmpty(Clean(expr));
    RenderEmpty(Tokenize(expr));
  }

  // ---------------------------------------------------------------------
  // Preprocessing commutes with concatenation.

  lemma {:induction false} RemoveAppend(a: string, b: string, c: char)
    ensures Remove(a + b, c) == Remove(a, c) + Remove(b, c)
  {
    if a != [] {
      assert (a + b)[1..] == a[1..] + b;
      RemoveAppend(a[1..], b, c);
    } else {
      assert a + b == b;
    }
  }

  lemma {:induction false} ReplaceAppend(a: string, b: string, from: char, to: char)
    ensures Replace(a + b, from, to) == Replace(a, from, to) + Replace(b, from, to)
  {
    if a != [] {
      assert (a + b)[1..] == a[1..] + b;
      ReplaceAppend(a[1..], b, from, to);
    } else {
      assert a + b == b;
    }
  }

  lemma CleanAppend(a: string, b: string)
    ensures Clean(a + b) == Clean(a) + Clean(b)
  {
    RemoveAppend(a, b, ' ');
    ReplaceAppend(Remove(a, ' '), Remove(b, ' '), MulGlyph, '*');
    ReplaceAppend(Replace(Remove(a, ' '), MulGlyph, '*'), Replace(Remove(b, ' '), MulGlyph, '*'), DivGlyph, '/');
  }

  lemma CleanAppend3(a: string, m: string, b: string)
    ensures Clean(a + m + b) == Clean(a) + Clean(m) + Clean(b)
  {
    CleanAppend(a + m, b);
    CleanAppend(a, m);
  }

  /** A space anywhere in the input makes no difference: "1 2" reads as "12". */
  lemma CleanSpace()
    ensures Clean(" ") == []
  {
    assert " "[1..] == [];
    assert Remove(" ", ' ') == [];
  }

  lemma SpaceIgnored(a: string, b: string)
    ensures Tokenize(a + " " + b) == Tokenize(a + b)
  {
    CleanAppend3(a, " ", b);
    CleanAppend(a, b);
    CleanSpace();
    assert Clean(a) + [] + Clean(b) == Clean(a) + Clean(b);
  }

  lemma RemoveOne(c: char, x: char)
    ensures Remove([c], x) == if c == x then [] else [c]
  {
    assert [c][1..] == [];
  }

  lemma ReplaceOne(c: char, from: char, to: char)
    ensures Replace([c], from, to) == [if c == from then to else c]
  {
    assert [c][1..] == [];
  }

  lemma GlyphCleans(glyph: char, ascii: char)
    requires (glyph, ascii) in {(MulGlyph, '*'), (DivGlyph, '/')}
    ensures Clean([glyph]) == Clean([ascii]) == [ascii]
  {
    RemoveOne(glyph, ' ');
    RemoveOne(ascii, ' ');
    ReplaceOne(glyph, MulGlyph, '*');
    ReplaceOne(ascii, MulGlyph, '*');
    ReplaceOne(if glyph == MulGlyph then '*' else glyph, DivGlyph, '/');
    ReplaceOne(ascii, DivGlyph, '/');
  }

  /** The multiplication glyph tokenizes exactly like `*`. */
  lemma MulGlyphIsStar(a: string, b: string)
    ensures Tokenize(a + [MulGlyph] + b) == Tokenize(a + "*" + b)
  {
    CleanAppend3(a, [MulGlyph], b);
    CleanAppend3(a, "*", b);
    GlyphCleans(MulGlyph, '*');
  }

  /** The division glyph tokenizes exactly like `/`. */
  lemma DivGlyphIsSlash(a: string, b: string)
    ensures Tokenize(a + [DivGlyph] + b) == Tokenize(a + "/" + b)
  {
    CleanAppend3(a, [DivGlyph], b);
    CleanAppend3(a, "/", b);
    GlyphCleans(DivGlyph, '/');
  }

  // ---------------------------------------------------------------------
  // Scanning a concatenation at a point where no numeric run is split.

  /** `a` and `b` meet at a character that cannot continue a numeric run. */
  predicate RunBoundary(a: string, b: string) {
    a == [] || b == [] || !IsNumChar(a[|a| - 1]) || !IsNumChar(b[0])
  }

  lemma {:induction false} RunLengthAppend(a: string, b: string)
    requires a != [] && RunBoundary(a, b)
    ensures RunLength(a + b) == RunLength(a)
  {
    assert (a + b)[0] == a[0];
    if IsNumChar(a[0]) {
      assert (a + b)[1..] == a[1..] + b;
      if |a| == 1 {
        assert a[1..] == [];
        assert a[1..] + b == b;
      } else {
        assert a[1..][|a[1..]| - 1] == a[|a| - 1];
        RunLengthAppend(a[1..], b);
      }
    }
  }

  lemma ConcatAssoc<T>(x: seq<T>, y: seq<T>, z: seq<T>)
    ensures x + (y + z) == (x + y) + z
  {
  }

  lemma {:induction false} ScanAppend(a: string, b: string)
    requires RunBoundary(a, b)
    ensures Scan(a + b) == Scan(a) + Scan(b)
    decreases |a|
  {
    if a == [] {
      assert a + b == b;
    } else {
      var s := a + b;
      assert s[0] == a[0];
      var n := HeadLength(a);
      if IsNumChar(a[0]) {
        RunLengthAppend(a, b);
        assert s[..n] == a[..n];
      }
      assert HeadLength(s) == n && HeadTokens(s) == HeadTokens(a);
      var t := a[n..];
      assert s[n..] == t + b;
      assert RunBoundary(t, b) by {
        if n < |a| {
          assert t[|t| - 1] == a[|a| - 1];
        }
      }
      ScanAppend(t, b);
      var h := HeadTokens(a);
      assert Scan(s) == h + Scan(t + b);
      assert Scan(a) == h + Scan(t);
      ConcatAssoc(h, Scan(t), Scan(b));
    }
  }

  lemma {:induction false} RemoveAbsent(s: string, c: char)
    requires c !in s
    ensures Remove(s, c) == s
  {
    if s != [] {
      RemoveAbsent(s[1..], c);
      assert s == [s[0]] + s[1..];
    }
  }

  lemma {:induction false} ReplaceAbsent(s: string, from: char, to: char)
    requires from !in s
    ensures Replace(s, from, to) == s
  {
    if s != [] {
      ReplaceAbsent(s[1..], from, to);
      assert s == [s[0]] + s[1..];
    }
  }

  /** Text without spaces or glyphs is left alone by the preprocessing pass. */
  lemma CleanKeeps(s: string)
    requires ' ' !in s && MulGlyph !in s && DivGlyph !in s
    ensures Clean(s) == s
  {
    RemoveAbsent(s, ' ');
    ReplaceAbsent(s, MulGlyph, '*');
    ReplaceAbsent(s, DivGlyph, '/');
  }

  /** A single character outside numeric runs scans to its own token, if any. */
  lemma ScanChar(c: char)
    requires !IsNumChar(c)
    ensures Scan([c]) == CharTokens(c)
  {
    assert [c][1..] == [];
  }

  // ---------------------------------------------------------------------
  // Rendering tokens back to text and scanning it again.

  /** No two number tokens in a row: the tokens a scan can produce from text
      whose runs are each written as one numeral. */
  predicate Separated(ts: seq<Token>) {
    forall i :: 0 <= i < |ts| - 1 ==> !(ts[i].Num? && ts[i + 1].Num?)
  }

  predicate NonEmptyNums(ts: seq<Token>) {
    forall i :: 0 <= i < |ts| ==> ts[i].Num? ==> ts[i].text != []
  }

  lemma SeparatedTail(ts: seq<Token>)
    requires ts != [] && Separated(ts) && NonEmptyNums(ts)
    ensures Separated(ts[1..]) && NonEmptyNums(ts[1..])
  {
    var rest := ts[1..];
    forall i | 0 <= i < |rest| - 1 ensures !(rest[i].Num? && rest[i + 1].Num?) {
      assert rest[i] == ts[i + 1] && rest[i + 1] == ts[i + 2];
    }
  }

  lemma ScanTokenText(t: Token)
    requires t.Num? ==> t.text != []
    ensures Scan(TokenText(t)) == [t]
  {
    match t
    case Num(text) => ScanNumeral(text);
    case Op(o) =>
      ScanChar(OpSymbol(o));
    case Root => ScanChar(RootGlyph);
    case LParen => ScanChar('(');
    case RParen => ScanChar(')');
  }

  /** Round trip: rendering separated tokens and scanning the text gives the
      same tokens back. */
  lemma {:induction false} ScanRender(ts: seq<Token>)
    requires Separated(ts) && NonEmptyNums(ts)
    ensures Scan(Render(ts)) == ts
  {
    if ts != [] {
      var rest := ts[1..];
      SeparatedTail(ts);
      ScanRender(rest);
      ScanTokenText(ts[0]);
      RenderBoundary(ts);
      ScanAppend(TokenText(ts[0]), Render(rest));
      assert ts == [ts[0]] + rest;
    }
  }

  /** A rendered number token is never followed directly by run characters. */
  lemma RenderBoundary(ts: seq<Token>)
    requires ts != [] && Separated(ts) && NonEmptyNums(ts)
    ensures RunBoundary(TokenText(ts[0]), Render(ts[1..]))
  {
    var rest := ts[1..];
    if ts[0].Num? && rest != [] {
      assert !rest[0].Num?;
      assert Render(rest) == TokenText(rest[0]) + Render(rest[1..]);
    }
  }

  /** Rendered tokens contain no space and no glyph, so cleaning keeps them. */
  lemma {:induction false} RenderClean(ts: seq<Token>)
    ensures Clean(Render(ts)) == Render(ts)
  {
    RenderAlphabet(ts);
    CleanKeeps(Render(ts));
  }

  lemma {:induction false} RenderAlphabet(ts: seq<Token>)
    ensures ' ' !in Render(ts) && MulGlyph !in Render(ts) && DivGlyph !in Render(ts)
  {
    if ts != [] {
      RenderAlphabet(ts[1..]);
      var t := TokenText(ts[0]);
      if ts[0].Num? {
        assert forall i :: 0 <= i < |t| ==> IsNumChar(t[i]);
      }
    }
  }

  /** Tokenizing rendered text: the round trip through the whole tokenizer. */
  lemma TokenizeRender(ts: seq<Token>)
    requires Separated(ts) && NonEmptyNums(ts)
    ensures Tokenize(Render(ts)) == ts
  {
    RenderClean(ts);
    ScanRender(ts);
  }

  /** A whole numeral scans to exactly one number token carrying it. */
  lemma ScanNumeral(s: Numeral)
    requires s != []
    ensures Scan(s) == [Num(s)]
  {
    assert RunLength(s) == |s|;
    assert s[..|s|] == s;
  }
}
