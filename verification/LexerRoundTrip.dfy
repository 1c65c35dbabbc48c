/** Lexing the spelling of a list of tokens. It gives the list back exactly when no string literal
    comes directly before a string literal, a character literal or the end. One section for each
    kind of token shows that its spelling followed by a blank is read as that token from any state
    between tokens: operators grow one character at a time, literals in quotes are escaped and
    unescaped, numbers pass through the phases of the automaton. The lists follow by induction; what
    happens to string literals that meet is stated for every list, the good ones and the others. */
module LexerRoundTrip {
  import opened Syntax
  import opened Lexer
  import opened LexerWords
  import opened Wrappers

  // ------------------------------------------------------------------ operators and punctuation

  lemma Regroup<T>(a: seq<T>, b: seq<T>, c: seq<T>)
    ensures a + b + c == a + (b + c)
  {
  }

  /** Operators that could go on; a blank ends them. */
  predicate Lasting(k: Kind) {
    OneChar(k) != 0 || k.LESSEQUAL? || k.AND? || k.OR? || k.LSHIFT? || k.RSHIFT?
  }

  /** A longer operator grows out of its parent by its last character, as the automaton says. */
  lemma Outgrows(k: Kind)
    requires OneChar(k) == 0 && OperText(k) != []
    ensures Lasting(Parent(k)) && Grow(Parent(k), LastChar(k)) == if Lasting(k) then Grows(k) else Completes(k)
  {
    if LastChar(k) == 61 {
      OutgrowsByEqual(k);
    }
  }

  lemma OutgrowsByEqual(k: Kind)
    requires OneChar(k) == 0 && OperText(k) != [] && LastChar(k) == 61
    ensures Lasting(Parent(k)) && GrowByEqual(Parent(k)) == if k.LESSEQUAL? then Grows(k) else Completes(k)
  {
  }

  lemma ParentText(k: Kind)
    requires OneChar(k) == 0 && OperText(k) != []
    ensures OperText(k) == OperText(Parent(k)) + [LastChar(k)] && |OperText(Parent(k))| < |OperText(k)|
  {
    var p := Parent(k);
    if OneChar(p) == 0 {
      assert p.AND? || p.OR? || p.LSHIFT? || p.RSHIFT? || p.LESSEQUAL?;
      assert OperText(p) == [OneChar(Parent(p)), LastChar(p)];
    }
  }

  lemma OneCharKind(k: Kind)
    requires OneChar(k) != 0
    ensures OperKind(OneChar(k)) == k
  {
  }

  lemma BeginsOper(al: Alphabet, f: Fields, k: Kind)
    requires Sane(al) && f.mode.Start? && OneChar(k) != 0
    ensures var r := Process(al, f, OneChar(k));
      r.Fine? && r.fields.mode == OperMode(k) && r.fields.buff == [OneChar(k)] && Alike(f, r.fields)
  {
    OneCharKind(k);
    assert Meaningful(OneChar(k));
  }

  lemma GrowsOper(al: Alphabet, f: Fields, k: Kind, c: int, k': Kind)
    requires f.mode == OperMode(k) && Grow(k, c) == Grows(k')
    ensures var r := Process(al, f, c);
      r.Fine? && r.fields.mode == OperMode(k') && r.fields.buff == f.buff + [c] && Alike(f, r.fields)
  {
  }

  lemma CompletesOper(al: Alphabet, f: Fields, k: Kind, c: int, k': Kind)
    requires f.mode == OperMode(k) && Grow(k, c) == Completes(k')
    ensures var r := Process(al, f, c);
      r.Fine? && r.fields == Count(Report(f.(buff := f.buff + [c]), k'), c)
  {
  }

  /** The text of an operator that could go on. */
  lemma {:induction false} ScansOper(al: Alphabet, f: Fields, k: Kind)
    requires Sane(al) && f.mode.Start? && Lasting(k)
    ensures var r := ProcessAll(al, f, OperText(k));
      r.Fine? && r.fields.mode == OperMode(k) && r.fields.buff == OperText(k) && Alike(f, r.fields)
    decreases |OperText(k)|
  {
    if OneChar(k) != 0 {
      BeginsOper(al, f, k);
      ProcessOne(al, f, OneChar(k));
    } else {
      var p, c := Parent(k), LastChar(k);
      Outgrows(k);
      ParentText(k);
      ScansOper(al, f, p);
      var g := ProcessAll(al, f, OperText(p)).fields;
      ProcessTwo(al, f, OperText(p), [c]);
      GrowsOper(al, g, p, c, k);
      ProcessOne(al, g, c);
    }
  }

  /** A token is complete with its last character: report it, then skip the blank. */
  lemma CompleteThenBlank(al: Alphabet, f0: Fields, cs: seq<int>, g: Fields, kind: Kind, c: int)
    requires Sane(al) && Calm(g) && !g.mode.SpaceMode? && !IsText(kind) && !kind.SPACE?
    requires ProcessAll(al, f0, cs) == Fine(Count(Report(g, kind), c)) && g.out == f0.out && Held(g) == Held(f0)
    ensures Reads(f0, Word(kind, g.buff), ProcessAll(al, f0, cs + [BLANK]))
  {
    ReportsWord(g, kind);
    var h := Count(Report(g, kind), c);
    ProcessTwo(al, f0, cs, [BLANK]);
    BlankAfter(al, h);
    ProcessOne(al, h, BLANK);
  }

  lemma ReadsOper(al: Alphabet, f: Fields, k: Kind)
    requires Sane(al) && Calm(f) && f.mode.Start? && OperText(k) != []
    ensures Reads(f, Word(k, OperText(k)), ProcessAll(al, f, OperText(k) + [BLANK]))
  {
    if Lasting(k) {
      ScansOper(al, f, k);
      var g := ProcessAll(al, f, OperText(k)).fields;
      ProcessTwo(al, f, OperText(k), [BLANK]);
      BlankEnds(al, g, k);
    } else {
      ReadsCompleteOper(al, f, k);
    }
  }

  lemma ReadsCompleteOper(al: Alphabet, f: Fields, k: Kind)
    requires Sane(al) && Calm(f) && f.mode.Start? && OperText(k) != [] && !Lasting(k)
    ensures Reads(f, Word(k, OperText(k)), ProcessAll(al, f, OperText(k) + [BLANK]))
  {
    var p, c := Parent(k), LastChar(k);
    Outgrows(k);
    ParentText(k);
    ScansOper(al, f, p);
    var g := ProcessAll(al, f, OperText(p)).fields;
    ProcessTwo(al, f, OperText(p), [c]);
    CompletesOper(al, g, p, c, k);
    ProcessOne(al, g, c);
    CompleteThenBlank(al, f, OperText(k), g.(buff := g.buff + [c]), k, c);
  }

  lemma ReadsSingle(al: Alphabet, f: Fields, c: int)
    requires Sane(al) && Calm(f) && f.mode.Start? && !SingleKind(c).NONE?
    ensures Reads(f, Word(SingleKind(c), [c]), ProcessAll(al, f, [c] + [BLANK]))
  {
    assert Meaningful(c);
    var g := f.(phase := NoPhase, newline := false, buff := [c], tokenRow := f.row, tokenCol := f.col);
    assert Process(al, f, c) == Fine(Count(Report(g, SingleKind(c)), c));
    ProcessOne(al, f, c);
    CompleteThenBlank(al, f, [c], g, SingleKind(c), c);
  }

  lemma ReadsDot(al: Alphabet, f: Fields)
    requires Sane(al) && Calm(f) && f.mode.Start?
    ensures Reads(f, Word(DOT, [46]), ProcessAll(al, f, [46] + [BLANK]))
  {
    First(al, f, 46, [BLANK]);
    BlankEnds(al, Process(al, f, 46).fields, DOT);
  }

  lemma SingleTable(k: Kind)
    requires !k.DOT? && OperText(k) == [] && SymbolText(k) != []
    ensures |SymbolText(k)| == 1 && SingleKind(SymbolText(k)[0]) == k
  {
  }

  lemma ReadsSymbol(al: Alphabet, f: Fields, k: Kind)
    requires Sane(al) && Calm(f) && f.mode.Start? && SymbolText(k) != []
    ensures Reads(f, Word(k, SymbolText(k)), ProcessAll(al, f, SymbolText(k) + [BLANK]))
  {
    if k.DOT? {
      ReadsDot(al, f);
    } else if OperText(k) != [] {
      SymbolIsOper(k);
      ReadsOper(al, f, k);
    } else {
      SingleTable(k);
      assert SymbolText(k) == [SymbolText(k)[0]];
      ReadsSingle(al, f, SymbolText(k)[0]);
    }
  }

  lemma SymbolIsOper(k: Kind)
    requires OperText(k) != [] && !k.DOT?
    ensures SymbolText(k) == OperText(k)
  {
  }

  // ------------------------------------------------------------------ quoted text

  lemma ReadsPlain(al: Alphabet, f: Fields, c: int)
    requires (f.mode.StrMode? || f.mode.ChrMode?) && f.escape.NoEscape? && c >= 0 && EscapeOne(c) == [c]
    ensures var r := Process(al, f, c);
      r.Fine? && r.fields.mode == f.mode && r.fields.escape.NoEscape? && r.fields.text == f.text + [c]
      && r.fields.textPresent == f.textPresent && r.fields.out == f.out
  {
  }

  lemma ReadsEscape(al: Alphabet, f: Fields, c: int)
    requires (f.mode.StrMode? || f.mode.ChrMode?) && f.escape.NoEscape? && EscapeOne(c) != [c]
    ensures var r := ProcessAll(al, f, EscapeOne(c));
      r.Fine? && r.fields.mode == f.mode && r.fields.escape.NoEscape? && r.fields.text == f.text + [c]
      && r.fields.textPresent == f.textPresent && r.fields.out == f.out
  {
    var code := EscapeOne(c)[1];
    assert EscapeOne(c) == [BKSL] + [code];
    First(al, f, BKSL, [code]);
    var g := Process(al, f, BKSL).fields;
    assert g.escape.Escaped? && g.mode == f.mode && g.text == f.text && g.textPresent == f.textPresent && g.out == f.out;
    ProcessOne(al, g, code);
    Unescapes(al, g, c);
  }

  lemma Unescapes(al: Alphabet, g: Fields, c: int)
    requires (g.mode.StrMode? || g.mode.ChrMode?) && g.escape.Escaped? && EscapeOne(c) != [c]
    ensures var r := Process(al, g, EscapeOne(c)[1]);
      r.Fine? && r.fields.mode == g.mode && r.fields.escape.NoEscape? && r.fields.text == g.text + [c]
      && r.fields.textPresent == g.textPresent && r.fields.out == g.out
  {
  }

  lemma {:induction false} ReadsText(al: Alphabet, f: Fields, text: seq<int>)
    requires (f.mode.StrMode? || f.mode.ChrMode?) && f.escape.NoEscape? && forall i :: 0 <= i < |text| ==> text[i] >= 0
    ensures var r := ProcessAll(al, f, EscapeText(text));
      r.Fine? && r.fields.mode == f.mode && r.fields.escape.NoEscape? && r.fields.text == f.text + text
      && r.fields.textPresent == f.textPresent && r.fields.out == f.out
    decreases |text|
  {
    if text == [] {
      assert f.text + text == f.text;
    } else {
      var c := text[0];
      if EscapeOne(c) == [c] {
        ReadsPlain(al, f, c);
        ProcessOne(al, f, c);
      } else {
        ReadsEscape(al, f, c);
      }
      ProcessTwo(al, f, EscapeOne(c), EscapeText(text[1..]));
      ReadsText(al, ProcessAll(al, f, EscapeOne(c)).fields, text[1..]);
      assert f.text + text == f.text + [c] + text[1..];
    }
  }

  /** The opening quote. */
  lemma Opens(al: Alphabet, f: Fields, quote: int)
    requires Sane(al) && f.mode.Start? && (quote == DQUO || quote == APOS)
    ensures var r := Process(al, f, quote);
      r.Fine? && r.fields.mode == (if quote == DQUO then StrMode else ChrMode) && Alike(f, r.fields)
  {
    assert Meaningful(quote);
  }

  lemma ReadsString(al: Alphabet, f: Fields, w: Word)
    requires Sane(al) && Calm(f) && f.mode.Start? && Proper(al, w) && w.kind.STRING_LITERAL?
    ensures Reads(f, w, ProcessAll(al, f, Spell(w) + [BLANK]))
  {
    var body := EscapeText(w.text);
    var g := QuotedThenBlank(al, f, DQUO, body, w.text);
    Closes(al, g, DQUO);
    ClosedThenBlank(al, f, g, Spell(w), DQUO);
  }

  /** Everything up to the closing quote. */
  lemma QuotedThenBlank(al: Alphabet, f: Fields, quote: int, body: seq<int>, text: seq<int>) returns (g: Fields)
    requires Sane(al) && Calm(f) && f.mode.Start? && (quote == DQUO || quote == APOS)
    requires body == EscapeText(text) && forall i :: 0 <= i < |text| ==> text[i] >= 0
    ensures ProcessAll(al, f, [quote] + body) == Fine(g)
    ensures g.mode == (if quote == DQUO then StrMode else ChrMode) && g.escape.NoEscape?
    ensures g.text == f.text + text && g.textPresent == f.textPresent && g.out == f.out
  {
    First(al, f, quote, body);
    Opens(al, f, quote);
    var h := Process(al, f, quote).fields;
    ReadsText(al, h, text);
    g := ProcessAll(al, h, body).fields;
  }

  /** The closing quote. */
  lemma Closes(al: Alphabet, g: Fields, quote: int)
    requires g.escape.NoEscape? && (if quote == DQUO then g.mode.StrMode? else quote == APOS && g.mode.ChrMode? && g.text != [])
    ensures var kind := if quote == DQUO then STRING_LITERAL else CHAR_LITERAL;
      Process(al, g, quote) == Fine(Count(Report(g, kind), quote))
  {
  }

  lemma ClosedThenBlank(al: Alphabet, f: Fields, g: Fields, spelled: seq<int>, quote: int)
    requires Sane(al) && |spelled| > 1 && spelled[|spelled| - 1] == quote && ProcessAll(al, f, spelled[..|spelled| - 1]) == Fine(g)
    requires Process(al, g, quote).Fine? && Process(al, g, quote).fields.mode.Start?
    ensures var r := ProcessAll(al, f, spelled + [BLANK]);
      r.Fine? && r.fields.mode.SpaceMode? && Alike(Process(al, g, quote).fields, r.fields)
  {
    var front := spelled[..|spelled| - 1];
    assert spelled == front + [quote];
    ProcessTwo(al, f, front, [quote]);
    ProcessOne(al, g, quote);
    var h := Process(al, g, quote).fields;
    ProcessTwo(al, f, spelled, [BLANK]);
    BlankAfter(al, h);
    ProcessOne(al, h, BLANK);
  }

  lemma ReadsCharacter(al: Alphabet, f: Fields, w: Word)
    requires Sane(al) && Calm(f) && f.mode.Start? && Proper(al, w) && w.kind.CHAR_LITERAL?
    ensures Reads(f, w, ProcessAll(al, f, Spell(w) + [BLANK]))
  {
    var g := QuotedThenBlank(al, f, APOS, EscapeText(w.text), w.text);
    Closes(al, g, APOS);
    ClosedThenBlank(al, f, g, Spell(w), APOS);
    OneMoreWord(g.out, Tok(g.textRow, g.textCol, CHAR_LITERAL, g.text, g.newline));
  }

  // ------------------------------------------------------------------ floating-point literals

  /** A literal read so far: its text and how far it has got. */
  predicate Float(f: Fields, g: Fields, buff: seq<int>, phase: Phase) {
    g.mode.FloatMode? && g.buff == buff && g.phase == phase && Alike(f, g)
  }

  lemma {:induction false} FloatDigits(al: Alphabet, f: Fields, g: Fields, buff: seq<int>, phase: Phase, cs: seq<int>)
    requires Sane(al) && Float(f, g, buff, phase) && AllDigits(al, cs)
    ensures var r := ProcessAll(al, g, cs);
      r.Fine? && Float(f, r.fields, buff + cs, if cs != [] && (phase.Mark? || phase.Sign?) then Exponent else phase)
    decreases |cs|
  {
    if cs == [] {
      assert buff + cs == buff;
    } else {
      var h := Process(al, g, cs[0]).fields;
      var phase' := if phase.Mark? || phase.Sign? then Exponent else phase;
      assert Float(f, h, buff + [cs[0]], phase');
      FloatDigits(al, f, h, buff + [cs[0]], phase', cs[1..]);
      assert buff + cs == buff + [cs[0]] + cs[1..];
    }
  }

  /** The digits before a point or an exponent mark. */
  lemma WholePart(al: Alphabet, f: Fields, cs: seq<int>) returns (g: Fields)
    requires Sane(al) && f.mode.Start? && AllDigits(al, cs) && cs != []
    ensures ProcessAll(al, f, cs) == Fine(g) && g.mode.IntMode? && g.buff == cs && Alike(f, g)
  {
    var c, rest := cs[0], cs[1..];
    assert cs == [c] + rest;
    First(al, f, c, rest);
    var h := Process(al, f, c).fields;
    Decimal(al, c, rest);
    Scans(al, h, rest);
    g := ProcessAll(al, f, cs).fields;
  }

  lemma TurnsFloat(al: Alphabet, g: Fields, c: int)
    requires Sane(al) && g.mode.IntMode? && AllDigits(al, g.buff) && (c == 46 || c == 101 || c == 69)
    ensures var r := Process(al, g, c);
      r.Fine? && Float(g, r.fields, g.buff + [c], if c == 46 then Point else Mark)
  {
    assert Meaningful(46) && Meaningful(APOS);
    assert !HasSeparator(g.buff);
  }

  /** Up to the end of the fraction, with a point. */
  lemma Mantissa(al: Alphabet, f: Fields, whole: seq<int>, fraction: seq<int>) returns (g: Fields)
    requires Sane(al) && f.mode.Start? && AllDigits(al, whole) && AllDigits(al, fraction) && (whole != [] || fraction != [])
    ensures ProcessAll(al, f, whole + [46] + fraction) == Fine(g) && Float(f, g, whole + [46] + fraction, Point)
  {
    var h: Fields;
    if whole != [] {
      var i := WholePart(al, f, whole);
      TurnsFloat(al, i, 46);
      ProcessTwo(al, f, whole, [46]);
      ProcessOne(al, i, 46);
      h := Process(al, i, 46).fields;
      ProcessTwo(al, f, whole + [46], fraction);
      FloatDigits(al, f, h, whole + [46], Point, fraction);
    } else {
      LeadingPoint(al, f, fraction);
      assert whole + [46] + fraction == [46] + fraction;
    }
    g := ProcessAll(al, f, whole + [46] + fraction).fields;
  }

  lemma LeadingPoint(al: Alphabet, f: Fields, fraction: seq<int>)
    requires Sane(al) && f.mode.Start? && AllDigits(al, fraction) && fraction != []
    ensures var r := ProcessAll(al, f, [46] + fraction); r.Fine? && Float(f, r.fields, [46] + fraction, Point)
  {
    assert Meaningful(46);
    First(al, f, 46, fraction);
    var d := Process(al, f, 46).fields;
    assert d.mode.DotMode? && d.buff == [46] && Alike(f, d);
    var c, rest := fraction[0], fraction[1..];
    assert fraction == [c] + rest;
    First(al, d, c, rest);
    var h := Process(al, d, c).fields;
    assert Float(f, h, [46] + [c], Point);
    FloatDigits(al, f, h, [46] + [c], Point, rest);
    assert [46] + fraction == [46] + [c] + rest;
  }

  /** The sign, if any, and the digits of an exponent. */
  lemma ExponentPart(al: Alphabet, f: Fields, g: Fields, buff: seq<int>, sign: seq<int>, exponent: seq<int>)
    requires Sane(al) && Float(f, g, buff, Mark) && AllDigits(al, exponent) && exponent != [] && (sign == [] || sign == [43] || sign == [45])
    ensures var r := ProcessAll(al, g, sign + exponent); r.Fine? && Float(f, r.fields, buff + sign + exponent, Exponent)
  {
    if sign == [] {
      FloatDigits(al, f, g, buff, Mark, exponent);
      assert sign + exponent == exponent && buff + sign == buff;
    } else {
      var c := sign[0];
      assert Meaningful(c) && sign == [c];
      First(al, g, c, exponent);
      var h := Process(al, g, c).fields;
      assert Float(f, h, buff + sign, Sign);
      FloatDigits(al, f, h, buff + sign, Sign, exponent);
    }
  }

  function Head(x: LexerWords.Float): seq<int> {
    x.whole + (if x.point then [46] else []) + x.fraction
  }

  /** Up to the exponent mark. */
  lemma Marked(al: Alphabet, f: Fields, x: LexerWords.Float) returns (g: Fields)
    requires Sane(al) && f.mode.Start? && FloatOk(al, x) && x.mark != []
    ensures ProcessAll(al, f, Head(x) + x.mark) == Fine(g) && Float(f, g, Head(x) + x.mark, Mark)
  {
    var c := x.mark[0];
    assert x.mark == [c];
    var h: Fields;
    if x.point {
      h := Mantissa(al, f, x.whole, x.fraction);
      MarksFloat(al, f, h, Head(x), c);
    } else {
      assert Head(x) == x.whole;
      h := WholePart(al, f, x.whole);
      TurnsFloat(al, h, c);
    }
    ProcessTwo(al, f, Head(x), [c]);
    ProcessOne(al, h, c);
    g := Process(al, h, c).fields;
  }

  lemma MarksFloat(al: Alphabet, f: Fields, h: Fields, buff: seq<int>, c: int)
    requires Sane(al) && Float(f, h, buff, Point) && (c == 101 || c == 69)
    ensures var r := Process(al, h, c); r.Fine? && Float(f, r.fields, buff + [c], Mark)
  {
  }

  /** A blank ends a literal that is complete. */
  lemma FloatThenBlank(al: Alphabet, f: Fields, cs: seq<int>, g: Fields, phase: Phase)
    requires Sane(al) && Calm(f) && ProcessAll(al, f, cs) == Fine(g) && Float(f, g, cs, phase) && (phase.Point? || phase.Exponent?)
    ensures Reads(f, Word(FloatKind(phase), cs), ProcessAll(al, f, cs + [BLANK]))
  {
    ProcessTwo(al, f, cs, [BLANK]);
    BlankEnds(al, g, FloatKind(phase));
  }

  lemma ReadsFloat(al: Alphabet, f: Fields, w: Word)
    requires Sane(al) && Calm(f) && f.mode.Start? && Proper(al, w) && (w.kind.FP_LITERAL? || w.kind.FP_EXP_LITERAL?)
    ensures Reads(f, w, ProcessAll(al, f, Spell(w) + [BLANK]))
  {
    var x :| FloatOk(al, x) && w.text == FloatText(x) && w.kind == (if x.mark == [] then FP_LITERAL else FP_EXP_LITERAL);
    if x.mark == [] {
      var g := Mantissa(al, f, x.whole, x.fraction);
      assert w.text == x.whole + [46] + x.fraction;
      FloatThenBlank(al, f, w.text, g, Point);
    } else {
      ReadsExponent(al, f, x);
    }
  }

  lemma ReadsExponent(al: Alphabet, f: Fields, x: LexerWords.Float)
    requires Sane(al) && Calm(f) && f.mode.Start? && FloatOk(al, x) && x.mark != []
    ensures Reads(f, Word(FP_EXP_LITERAL, FloatText(x)), ProcessAll(al, f, FloatText(x) + [BLANK]))
  {
    var g := Marked(al, f, x);
    var head, tail, text := Head(x) + x.mark, x.sign + x.exponent, FloatText(x);
    assert text == head + x.sign + x.exponent;
    Regroup(head, x.sign, x.exponent);
    ExponentPart(al, f, g, head, x.sign, x.exponent);
    ProcessTwo(al, f, head, tail);
    FloatThenBlank(al, f, text, ProcessAll(al, g, tail).fields, Exponent);
  }

  // ------------------------------------------------------------------ any token, any list

  lemma ReadsWord(al: Alphabet, f: Fields, w: Word)
    requires Sane(al) && Calm(f) && f.mode.Start? && Proper(al, w)
    ensures Reads(f, w, ProcessAll(al, f, Spell(w) + [BLANK]))
  {
    if w.kind.IDENTIFIER? {
      ReadsIdentifier(al, f, w);
    } else if w.kind.INT_LITERAL? {
      ReadsInteger(al, f, w);
    } else if w.kind.HEX_LITERAL? || w.kind.OCT_LITERAL? || w.kind.BIN_LITERAL? {
      ReadsBased(al, f, w);
    } else if w.kind.FP_LITERAL? || w.kind.FP_EXP_LITERAL? {
      ReadsFloat(al, f, w);
    } else if w.kind.STRING_LITERAL? {
      ReadsString(al, f, w);
    } else if w.kind.CHAR_LITERAL? {
      ReadsCharacter(al, f, w);
    } else {
      ReadsSymbol(al, f, w.kind);
    }
  }

  /** The first character of a token is no space. */
  lemma FirstIsNoSpace(al: Alphabet, w: Word)
    requires Sane(al) && Proper(al, w)
    ensures Spell(w) != [] && Spell(w)[0] !in al.spaces
  {
    if w.kind.IDENTIFIER? {
      assert w.text[0] in al.letters || Meaningful(w.text[0]);
    } else if w.kind.FP_LITERAL? || w.kind.FP_EXP_LITERAL? {
      var x :| FloatOk(al, x) && w.text == FloatText(x);
      assert w.text[0] == (if x.whole != [] then x.whole[0] else 46);
      assert Meaningful(46);
    } else if w.kind.STRING_LITERAL? || w.kind.CHAR_LITERAL? {
      assert Meaningful(DQUO) && Meaningful(APOS);
    } else if SymbolText(w.kind) != [] && Spell(w) == w.text == SymbolText(w.kind) {
      SymbolBegins(w.kind);
    }
  }

  lemma SymbolBegins(k: Kind)
    requires SymbolText(k) != []
    ensures Meaningful(SymbolText(k)[0])
  {
    if !k.DOT? && OperText(k) == [] {
      SingleTable(k);
    } else if !k.DOT? {
      SymbolIsOper(k);
      OperBegins(k);
    }
  }

  lemma OperBegins(k: Kind)
    requires OperText(k) != []
    ensures Meaningful(OperText(k)[0])
    decreases |OperText(k)|
  {
    if OneChar(k) != 0 {
      OneCharKind(k);
    } else {
      ParentText(k);
      OperBegins(Parent(k));
    }
  }

  lemma SpaceReported(f: Fields)
    requires Calm(f) && f.mode.SpaceMode?
    ensures var g := Report(Keep(f, BLANK), SPACE);
      g.mode.Start? && Calm(g) && Held(g) == Held(f) && Words(g.out) == Words(f.out)
  {
    OneMoreWord(f.out, Tok(f.tokenRow, f.tokenCol, SPACE, f.buff + [BLANK], f.newline));
  }

  /** A run of spaces ends before `c`: the machine goes on as from the start. */
  lemma SpacesEnd(al: Alphabet, f: Fields, c: int)
    requires f.mode.SpaceMode? && c !in al.spaces
    ensures Process(al, f, c) == Process(al, Report(Keep(f, BLANK), SPACE), c)
  {
    var g := Report(Keep(f, BLANK), SPACE);
    assert Dispatch(al, f, c) == Open(al, g, c);
    assert g.mode.Start?;
  }

  /** A token after a space, or at the very beginning. */
  lemma ReadsNext(al: Alphabet, f: Fields, w: Word)
    requires Sane(al) && Calm(f) && (f.mode.Start? || f.mode.SpaceMode?) && Proper(al, w)
    ensures Reads(f, w, ProcessAll(al, f, Spell(w) + [BLANK]))
  {
    if f.mode.Start? {
      ReadsWord(al, f, w);
    } else {
      var g := Report(Keep(f, BLANK), SPACE);
      FirstIsNoSpace(al, w);
      SpaceReported(f);
      SpacesEnd(al, f, Spell(w)[0]);
      ReadsWord(al, g, w);
      SameFirst(al, f, g, Spell(w) + [BLANK]);
    }
  }

  lemma SameFirst(al: Alphabet, f: Fields, g: Fields, cs: seq<int>)
    requires cs != [] && Process(al, f, cs[0]) == Process(al, g, cs[0])
    ensures ProcessAll(al, f, cs) == ProcessAll(al, g, cs)
  {
  }

  /** Reading the spelling of a list. */
  lemma {:induction false} ReadsAll(al: Alphabet, f: Fields, ws: seq<Word>)
    requires Sane(al) && Calm(f) && (f.mode.Start? || f.mode.SpaceMode?) && AllProper(al, ws)
    ensures var r := ProcessAll(al, f, SpellAll(ws) + [EOF]);
      r.Fine? && Words(r.fields.out) == Words(f.out) + Joined(Held(f), ws)
    decreases |ws|
  {
    if ws == [] {
      AtEnd(al, f);
    } else {
      var g := ReadsThen(al, f, ws);
      ReadsAll(al, g, ws[1..]);
      JoinedFirst(Held(f), ws);
      Regroup(Words(f.out), Emitted(Held(f), ws[0]), Joined(Held(g), ws[1..]));
    }
  }

  /** The first token of a list. */
  lemma ReadsThen(al: Alphabet, f: Fields, ws: seq<Word>) returns (g: Fields)
    requires Sane(al) && Calm(f) && (f.mode.Start? || f.mode.SpaceMode?) && ws != [] && FirstProper(al, ws)
    ensures AllProper(al, ws[1..]) && g.mode.SpaceMode? && Calm(g) && Held(g) == NextHeld(Held(f), ws[0])
    ensures Words(g.out) == Words(f.out) + Emitted(Held(f), ws[0])
    ensures ProcessAll(al, f, SpellAll(ws) + [EOF]) == ProcessAll(al, g, SpellAll(ws[1..]) + [EOF])
  {
    var cs, rest := Spell(ws[0]) + [BLANK], SpellAll(ws[1..]) + [EOF];
    assert SpellAll(ws) + [EOF] == cs + rest;
    ReadsNext(al, f, ws[0]);
    ProcessTwo(al, f, cs, rest);
    g := ProcessAll(al, f, cs).fields;
  }

  lemma JoinedFirst(held: Maybe<seq<int>>, ws: seq<Word>)
    requires ws != []
    ensures Joined(held, ws) == Emitted(held, ws[0]) + Joined(NextHeld(held, ws[0]), ws[1..])
  {
  }

  lemma AtEnd(al: Alphabet, f: Fields)
    requires Sane(al) && Calm(f) && (f.mode.Start? || f.mode.SpaceMode?)
    ensures var r := ProcessAll(al, f, SpellAll([]) + [EOF]); r.Fine? && Words(r.fields.out) == Words(f.out)
  {
    assert Meaningful(EOF);
    assert SpellAll([]) + [EOF] == [EOF];
    ProcessOne(al, f, EOF);
    OneMoreWord(f.out, Tok(f.tokenRow, f.tokenCol, SPACE, f.buff + [BLANK], f.newline));
  }

  // ------------------------------------------------------------------ the round trip

  lemma {:induction false} EscapedHasNoReturn(text: seq<int>, i: nat)
    requires i < |EscapeText(text)|
    ensures EscapeText(text)[i] != CRET
    decreases |text|
  {
    var n := |EscapeOne(text[0])|;
    if i >= n {
      EscapedHasNoReturn(text[1..], i - n);
    }
  }

  lemma NoReturn(al: Alphabet, w: Word, i: nat)
    requires Sane(al) && Proper(al, w) && i < |Spell(w)|
    ensures Spell(w)[i] != CRET
  {
    if w.kind.STRING_LITERAL? || w.kind.CHAR_LITERAL? {
      if 0 < i < |Spell(w)| - 1 {
        EscapedHasNoReturn(w.text, i - 1);
      }
    } else if w.kind.FP_LITERAL? || w.kind.FP_EXP_LITERAL? {
      FloatHasNoReturn(al, w, i);
    } else if w.kind.IDENTIFIER? {
      assert IsIdentTail(al, w.text[i]);
    } else if w.kind.INT_LITERAL? {
      IntegerHasNoReturn(al, w, i);
    } else if !w.kind.HEX_LITERAL? && !w.kind.OCT_LITERAL? && !w.kind.BIN_LITERAL? {
      SymbolHasNoReturn(w.kind, i);
    }
  }

  lemma IntegerHasNoReturn(al: Alphabet, w: Word, i: nat)
    requires Sane(al) && Proper(al, w) && w.kind.INT_LITERAL? && i < |w.text|
    ensures w.text[i] != CRET
  {
    if i > 0 {
      var d, before := w.text[i], w.text[i - 1];
      assert d in al.digits || (d == APOS && before != APOS);
    }
  }

  lemma FloatHasNoReturn(al: Alphabet, w: Word, i: nat)
    requires Sane(al) && Proper(al, w) && (w.kind.FP_LITERAL? || w.kind.FP_EXP_LITERAL?) && i < |w.text|
    ensures w.text[i] != CRET
  {
    var x :| FloatOk(al, x) && w.text == FloatText(x);
    assert w.text[i] in x.whole || w.text[i] == 46 || w.text[i] in x.fraction || w.text[i] in x.mark || w.text[i] in x.sign || w.text[i] in x.exponent;
  }

  lemma SymbolHasNoReturn(k: Kind, i: nat)
    requires i < |SymbolText(k)|
    ensures SymbolText(k)[i] != CRET
  {
    if !k.DOT? && OperText(k) != [] {
      SymbolIsOper(k);
      OperHasNoReturn(k, i);
    } else if !k.DOT? {
      SingleTable(k);
    }
  }

  lemma {:induction false} OperHasNoReturn(k: Kind, i: nat)
    requires i < |OperText(k)|
    ensures OperText(k)[i] != CRET
    decreases |OperText(k)|
  {
    if OneChar(k) == 0 {
      ParentText(k);
      if i < |OperText(Parent(k))| {
        OperHasNoReturn(Parent(k), i);
      }
    }
  }

  lemma {:induction false} SpellAllHasNoReturn(al: Alphabet, ws: seq<Word>, i: nat)
    requires Sane(al) && AllProper(al, ws) && i < |SpellAll(ws)|
    ensures SpellAll(ws)[i] != CRET
    decreases |ws|
  {
    assert FirstProper(al, ws);
    var n := |Spell(ws[0])| + 1;
    if i < n - 1 {
      NoReturn(al, ws[0], i);
    } else if i >= n {
      SpellAllHasNoReturn(al, ws[1..], i - n);
    }
  }

  /** Lexing the spelling of a list of tokens, each followed by a blank, gives the joined list. */
  lemma LexingJoins(al: Alphabet, ws: seq<Word>)
    requires Sane(al) && AllProper(al, ws)
    ensures var r := ProcessAll(al, Idle([]), Normal(SpellAll(ws)));
      r.Fine? && Words(r.fields.out) == Joined(Nothing, ws)
  {
    forall i | 0 <= i < |SpellAll(ws)| ensures SpellAll(ws)[i] != CRET {
      SpellAllHasNoReturn(al, ws, i);
    }
    PlainIsNormal(SpellAll(ws));
    ReadsAll(al, Idle([]), ws);
    assert Words([]) + Joined(Nothing, ws) == Joined(Nothing, ws);
  }

  /** It gives the list back exactly when no string literal comes directly before a string literal,
      a character literal or the end. */
  lemma LexingGivesBackIff(al: Alphabet, ws: seq<Word>)
    requires Sane(al) && AllProper(al, ws)
    ensures ProcessAll(al, Idle([]), Normal(SpellAll(ws))).Fine?
    ensures Words(ProcessAll(al, Idle([]), Normal(SpellAll(ws))).fields.out) == ws <==> Separate(ws)
  {
    LexingJoins(al, ws);
    JoinsNothingIff(Nothing, ws);
    assert Before(Nothing) + ws == ws;
  }

  /** A string literal at the very end is lost. */
  lemma LastStringIsLost(al: Alphabet, text: seq<int>)
    requires Sane(al) && forall i :: 0 <= i < |text| ==> text[i] >= 0
    ensures var r := ProcessAll(al, Idle([]), Normal(SpellAll([Word(STRING_LITERAL, text)]))); r.Fine? && Words(r.fields.out) == []
  {
    var w := Word(STRING_LITERAL, text);
    var none: seq<Word> := [];
    assert [w][1..] == none && AllProper(al, none) && FirstProper(al, [w]);
    LexingJoins(al, [w]);
    JoinedFirst(Nothing, [w]);
  }
}
