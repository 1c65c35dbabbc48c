/** A comment counts as a blank: it changes no word of the text around it. Two states of the lexer are
    twins when they agree in all but positions and the text of blanks; one of them may be inside blanks
    where the other stands between two tokens. Twins stay twins under every character, mode by mode, and
    a comment and a blank lead to twins from every state outside literals and comments. */
module LexerComments {
  import opened Syntax
  import opened Lexer
  import opened LexerWords
  import LexerEscapes
  import LexerPositions

  // ------------------------------------------------------------------ comments

  datatype Comment = Block(body: seq<int>) | Line(body: seq<int>)

  /** The body of a comment does not end it. */
  predicate Ok(m: Comment) {
    match m
    case Block(body) => forall i :: 0 <= i < |body| ==> body[i] >= 0 && !(body[i] == 42 && i + 1 < |body| && body[i + 1] == 47)
    case Line(body) => forall i :: 0 <= i < |body| ==> body[i] != NEWL
  }

  /** What follows the first slash. */
  function Tail(m: Comment): seq<int> {
    match m
    case Block(body) => [42] + (body + [42, 47])
    case Line(body) => [47] + (body + [NEWL])
  }

  function CommentText(m: Comment): seq<int> {
    [47] + Tail(m)
  }

  lemma {:induction false} LineIsSkipped(al: Alphabet, f: Fields, body: seq<int>)
    requires f.mode.LineComment? && Ok(Line(body))
    ensures var r := ProcessAll(al, f, body + [NEWL]); r.Fine? && r.fields.mode.Start? && Alike(f, r.fields)
    decreases |body|
  {
    if body == [] {
      assert body + [NEWL] == [NEWL];
      ProcessOne(al, f, NEWL);
    } else {
      assert (body + [NEWL])[1..] == body[1..] + [NEWL];
      LineIsSkipped(al, Process(al, f, body[0]).fields, body[1..]);
    }
  }

  lemma {:induction false} BlockIsSkipped(al: Alphabet, f: Fields, body: seq<int>)
    requires (f.mode.BlockComment? || (f.mode.BlockStar? && (body != [] ==> body[0] != 47))) && Ok(Block(body))
    ensures var r := ProcessAll(al, f, body + [42, 47]); r.Fine? && r.fields.mode.Start? && Alike(f, r.fields)
    decreases |body|
  {
    if body == [] {
      assert body + [42, 47] == [42] + [47];
      ProcessTwo(al, f, [42], [47]);
      ProcessOne(al, f, 42);
      ProcessOne(al, Process(al, f, 42).fields, 47);
    } else {
      assert (body + [42, 47])[1..] == body[1..] + [42, 47];
      BlockIsSkipped(al, Process(al, f, body[0]).fields, body[1..]);
    }
  }

  lemma BeginsComment(al: Alphabet, f: Fields, c: int)
    requires f.mode == OperMode(SLASH) && (c == 42 || c == 47)
    ensures var r := Process(al, f, c);
      r.Fine? && r.fields.mode == (if c == 42 then BlockComment else LineComment) && Alike(f, r.fields)
  {
  }

  /** Behind its first slash a comment leaves everything as it was. */
  lemma CommentIsSkipped(al: Alphabet, f: Fields, m: Comment)
    requires f.mode == OperMode(SLASH) && Ok(m)
    ensures var r := ProcessAll(al, f, Tail(m)); r.Fine? && r.fields.mode.Start? && Alike(f, r.fields)
  {
    match m
    case Block(body) =>
      First(al, f, 42, body + [42, 47]);
      BeginsComment(al, f, 42);
      BlockIsSkipped(al, Process(al, f, 42).fields, body);
    case Line(body) =>
      First(al, f, 47, body + [NEWL]);
      BeginsComment(al, f, 47);
      LineIsSkipped(al, Process(al, f, 47).fields, body);
  }

  // ------------------------------------------------------------------ states that read the same words

  predicate Loose(mode: Mode) {
    mode.Start? || mode.SpaceMode? || mode.LineComment? || mode.BlockComment? || mode.BlockStar?
  }

  ghost predicate SameText(f: Fields, g: Fields) {
    f.text == g.text && f.textPresent == g.textPresent && f.escape == g.escape && Words(f.out) == Words(g.out)
  }

  /** They differ in positions and in the text of blanks; one may be inside blanks where the other is
      between tokens. */
  ghost predicate Twins(f: Fields, g: Fields) {
    SameText(f, g) &&
    if Loose(f.mode) then g.mode == f.mode || (f.mode.Start? && g.mode.SpaceMode?)
    else g.mode == f.mode && g.buff == f.buff && g.phase == f.phase
  }

  ghost predicate TwinResults(r: Lexed, s: Lexed) {
    if r.Bad? then s.Bad? && s.why == r.why else s.Fine? && Twins(r.fields, s.fields)
  }

  lemma TwoMoreWords(out: seq<Tok>, s: Tok, t: Tok)
    requires s.kind.STRING_LITERAL?
    ensures Words(out + [s, t]) == Words(out) + [Word(STRING_LITERAL, s.text)] + if t.kind.SPACE? then [] else [Word(t.kind, t.text)]
  {
    assert out + [s, t] == out + [s] + [t];
    OneMoreWord(out, s);
    OneMoreWord(out + [s], t);
  }

  lemma ReportTwins(f: Fields, g: Fields, kind: Kind)
    requires SameText(f, g) && f.mode == g.mode && (f.buff == g.buff || kind.SPACE?)
    ensures var f', g' := Report(f, kind), Report(g, kind); SameText(f', g') && f'.mode.Start? && g'.mode.Start?
  {
    if kind.STRING_LITERAL? {
    } else if kind.CHAR_LITERAL? {
      OneMoreWord(f.out, Tok(f.textRow, f.textCol, CHAR_LITERAL, f.text, f.newline));
      OneMoreWord(g.out, Tok(g.textRow, g.textCol, CHAR_LITERAL, g.text, g.newline));
    } else {
      var t, u := Tok(f.tokenRow, f.tokenCol, kind, f.buff, f.newline), Tok(g.tokenRow, g.tokenCol, kind, g.buff, g.newline);
      if f.textPresent {
        TwoMoreWords(f.out, Tok(f.textRow, f.textCol, STRING_LITERAL, f.text, f.newline), t);
        TwoMoreWords(g.out, Tok(g.textRow, g.textCol, STRING_LITERAL, g.text, g.newline), u);
      } else {
        OneMoreWord(f.out, t);
        OneMoreWord(g.out, u);
      }
    }
  }

  lemma StartTwins(al: Alphabet, f: Fields, g: Fields, c: int)
    requires SameText(f, g) && LexerPositions.Starts(al, c)
    ensures TwinResults(Open(al, f, c), Open(al, g, c))
  {
  }

  lemma SingleTwins(al: Alphabet, f: Fields, g: Fields, c: int)
    requires SameText(f, g) && f.mode.Start? && g.mode.Start? && !LexerPositions.Starts(al, c) && !SingleKind(c).NONE?
    ensures TwinResults(Open(al, f, c), Open(al, g, c))
  {
    LexerPositions.OpensSingle(al, f, c);
    LexerPositions.OpensSingle(al, g, c);
    ReportTwins(LexerPositions.Begun(f, c), LexerPositions.Begun(g, c), SingleKind(c));
  }

  lemma OpenTwins(al: Alphabet, f: Fields, g: Fields, c: int)
    requires SameText(f, g) && f.mode.Start? && g.mode.Start?
    ensures TwinResults(Open(al, f, c), Open(al, g, c))
  {
    if LexerPositions.Starts(al, c) {
      StartTwins(al, f, g, c);
    } else if !SingleKind(c).NONE? {
      SingleTwins(al, f, g, c);
    }
  }

  lemma ReportThenTwins(al: Alphabet, f: Fields, g: Fields, kind: Kind, c: int)
    requires SameText(f, g) && f.mode == g.mode && (f.buff == g.buff || kind.SPACE?)
    ensures TwinResults(ReportThen(al, f, kind, c), ReportThen(al, g, kind, c))
  {
    ReportTwins(f, g, kind);
    OpenTwins(al, Report(f, kind), Report(g, kind), c);
  }

  // ------------------------------------------------------------------ one character

  predicate NumKeeps(al: Alphabet, c: int) {
    c in al.digits || c == APOS
  }

  predicate NumFloats(c: int) {
    c == 46 || c == 101 || c == 69
  }

  predicate NumBased(c: int) {
    c == 120 || c == 88 || c == 111 || c == 79 || c == 98 || c == 66
  }

  lemma NumEnds(al: Alphabet, f: Fields, c: int)
    requires !NumKeeps(al, c) && !NumFloats(c) && !NumBased(c)
    ensures Num(al, f, c) == ReportThen(al, f, INT_LITERAL, c)
  {
  }

  lemma NumKeepsTwins(al: Alphabet, f: Fields, g: Fields, c: int)
    requires Twins(f, g) && f.mode.IntMode? && NumKeeps(al, c)
    ensures TwinResults(Num(al, f, c), Num(al, g, c))
  {
  }

  lemma ToFloatTwins(al: Alphabet, f: Fields, g: Fields, c: int, phase: Phase)
    requires Twins(f, g) && f.mode.IntMode?
    ensures TwinResults(ToFloat(al, f, c, phase), ToFloat(al, g, c, phase))
  {
    if !HasSeparator(f.buff) {
      assert ToFloat(al, f, c, phase) == Fine(Keep(f, c).(phase := phase, mode := FloatMode));
      assert ToFloat(al, g, c, phase) == Fine(Keep(g, c).(phase := phase, mode := FloatMode));
    }
  }

  lemma NumFloatsAs(al: Alphabet, f: Fields, c: int)
    requires NumFloats(c) && !NumKeeps(al, c)
    ensures Num(al, f, c) == ToFloat(al, f, c, if c == 46 then Point else Mark)
  {
  }

  lemma NumFloatsTwins(al: Alphabet, f: Fields, g: Fields, c: int)
    requires Twins(f, g) && f.mode.IntMode? && NumFloats(c) && !NumKeeps(al, c)
    ensures TwinResults(Num(al, f, c), Num(al, g, c))
  {
    NumFloatsAs(al, f, c);
    NumFloatsAs(al, g, c);
    ToFloatTwins(al, f, g, c, if c == 46 then Point else Mark);
  }

  lemma NumBasedTwins(al: Alphabet, f: Fields, g: Fields, c: int)
    requires Twins(f, g) && f.mode.IntMode? && NumBased(c) && !NumKeeps(al, c)
    ensures TwinResults(Num(al, f, c), Num(al, g, c))
  {
  }

  lemma NumTwins(al: Alphabet, f: Fields, g: Fields, c: int)
    requires Twins(f, g) && f.mode.IntMode?
    ensures TwinResults(Num(al, f, c), Num(al, g, c))
  {
    if NumKeeps(al, c) {
      NumKeepsTwins(al, f, g, c);
    } else if NumFloats(c) {
      NumFloatsTwins(al, f, g, c);
    } else if NumBased(c) {
      NumBasedTwins(al, f, g, c);
    } else {
      NumEnds(al, f, c);
      NumEnds(al, g, c);
      ReportThenTwins(al, f, g, INT_LITERAL, c);
    }
  }

  /** The character belongs to the literal, or is an error in it. */
  predicate FltKeeps(al: Alphabet, phase: Phase, c: int) {
    c in al.digits || c == 101 || c == 69 || ((c == 45 || c == 43) && phase.Mark?) || !(phase.Point? || phase.Exponent?)
  }

  lemma FltEnds(al: Alphabet, f: Fields, c: int)
    requires !FltKeeps(al, f.phase, c)
    ensures Flt(al, f, c) == if c == EOF then Fine(Report(f, FloatKind(f.phase))) else ReportThen(al, f, FloatKind(f.phase), c)
  {
  }

  lemma FltKeepsTwins(al: Alphabet, f: Fields, g: Fields, c: int)
    requires Twins(f, g) && f.mode.FloatMode? && FltKeeps(al, f.phase, c)
    ensures TwinResults(Flt(al, f, c), Flt(al, g, c))
  {
  }

  lemma FltTwins(al: Alphabet, f: Fields, g: Fields, c: int)
    requires Twins(f, g) && f.mode.FloatMode?
    ensures TwinResults(Flt(al, f, c), Flt(al, g, c))
  {
    if FltKeeps(al, f.phase, c) {
      FltKeepsTwins(al, f, g, c);
    } else {
      FltEnds(al, f, c);
      FltEnds(al, g, c);
      ReportTwins(f, g, FloatKind(f.phase));
      ReportThenTwins(al, f, g, FloatKind(f.phase), c);
    }
  }

  lemma EscapeTwins(f: Fields, g: Fields, c: int)
    requires Twins(f, g) && !Loose(f.mode) && f.escape.Escaped?
    ensures TwinResults(EscapeInput(f, c), EscapeInput(g, c))
  {
    LexerEscapes.EscapeTable(f, c);
    LexerEscapes.EscapeTable(g, c);
  }

  lemma NumericTwins(f: Fields, g: Fields, c: int)
    requires Twins(f, g) && !Loose(f.mode) && f.escape.Numeric?
    ensures TwinResults(NumericInput(f, c), NumericInput(g, c))
  {
  }

  lemma QuotedTwins(f: Fields, g: Fields, c: int, quote: int, kind: Kind)
    requires Twins(f, g) && IsText(kind) && (f.mode.StrMode? || f.mode.ChrMode?)
    ensures TwinResults(Quoted(f, c, quote, kind), Quoted(g, c, quote, kind))
  {
    if f.escape.Escaped? {
      EscapeTwins(f, g, c);
    } else if f.escape.Numeric? {
      NumericTwins(f, g, c);
    } else if c == quote {
      ReportTwins(f, g, kind);
    } else {
      UnescapedTwins(f, g, c, quote, kind);
    }
  }

  lemma UnescapedTwins(f: Fields, g: Fields, c: int, quote: int, kind: Kind)
    requires Twins(f, g) && (f.mode.StrMode? || f.mode.ChrMode?) && f.escape.NoEscape? && c != quote
    ensures TwinResults(Quoted(f, c, quote, kind), Quoted(g, c, quote, kind))
  {
  }

  lemma OperTwins(al: Alphabet, f: Fields, g: Fields, k: Kind, c: int)
    requires Twins(f, g) && f.mode == OperMode(k)
    ensures TwinResults(Oper(al, f, k, c), Oper(al, g, k, c))
  {
    LexerPositions.GrowsLiterally(k, c);
    var growth := Grow(k, c);
    if growth.Completes? {
      ReportTwins(Keep(f, c), Keep(g, c), growth.kind);
    } else if growth.Ends? {
      ReportThenTwins(al, f, g, k, c);
    }
  }

  lemma WordTwins(al: Alphabet, f: Fields, g: Fields, c: int)
    requires Twins(f, g) && (f.mode.HexMode? || f.mode.OctMode? || f.mode.BinMode? || f.mode.DotMode? || f.mode.IdenMode?)
    ensures TwinResults(Dispatch(al, f, c), Dispatch(al, g, c))
  {
    var kind := match f.mode
      case HexMode => HEX_LITERAL
      case OctMode => OCT_LITERAL
      case BinMode => BIN_LITERAL
      case DotMode => DOT
      case _ => IDENTIFIER;
    ReportThenTwins(al, f, g, kind, c);
  }

  /** Blanks on either side, or on the second one only. */
  lemma SpaceTwins(al: Alphabet, f: Fields, g: Fields, c: int)
    requires Sane(al) && SameText(f, g) && (f.mode.Start? || f.mode.SpaceMode?) && g.mode.SpaceMode?
    ensures TwinResults(Dispatch(al, f, c), Dispatch(al, g, c))
  {
    if c !in al.spaces {
      SpaceIsNoWord(g);
      var g' := Report(Keep(g, BLANK), SPACE);
      if f.mode.SpaceMode? {
        SpaceIsNoWord(f);
        OpenTwins(al, Report(Keep(f, BLANK), SPACE), g', c);
      } else {
        OpenTwins(al, f, g', c);
      }
    }
  }

  lemma SpaceIsNoWord(f: Fields)
    requires f.mode.SpaceMode?
    ensures var f' := Report(Keep(f, BLANK), SPACE); SameText(f, f') && f'.mode.Start?
  {
    var g := Keep(f, BLANK);
    OneMoreWord(f.out, Tok(g.tokenRow, g.tokenCol, SPACE, g.buff, g.newline));
  }

  /** What a character does inside a comment: a mode to go on in, or the end comes too early. */
  function Inside(mode: Mode, c: int): Mode {
    match mode
    case LineComment => if c == NEWL then Start else LineComment
    case BlockComment => if c == 42 then BlockStar else BlockComment
    case _ => if c == 47 then Start else if c == 42 then BlockStar else BlockComment
  }

  lemma InsideComment(al: Alphabet, f: Fields, c: int)
    requires f.mode.LineComment? || f.mode.BlockComment? || f.mode.BlockStar?
    ensures var r := Dispatch(al, f, c);
      if c == EOF && !f.mode.LineComment? then r.Bad? && r.why == UnexpectedEnd
      else r.Fine? && r.fields.mode == Inside(f.mode, c) && Alike(f, r.fields)
  {
  }

  lemma InsideTwins(al: Alphabet, f: Fields, g: Fields, c: int)
    requires Twins(f, g) && (f.mode.LineComment? || f.mode.BlockComment? || f.mode.BlockStar?)
    ensures TwinResults(Dispatch(al, f, c), Dispatch(al, g, c))
  {
    InsideComment(al, f, c);
    InsideComment(al, g, c);
  }

  lemma DispatchTwins(al: Alphabet, f: Fields, g: Fields, c: int)
    requires Sane(al) && Twins(f, g)
    ensures TwinResults(Dispatch(al, f, c), Dispatch(al, g, c))
  {
    match f.mode
    case Start => if g.mode.Start? { OpenTwins(al, f, g, c); } else { SpaceTwins(al, f, g, c); }
    case SpaceMode => SpaceTwins(al, f, g, c);
    case IntMode => NumTwins(al, f, g, c);
    case FloatMode => FltTwins(al, f, g, c);
    case StrMode => QuotedTwins(f, g, c, DQUO, STRING_LITERAL);
    case ChrMode => QuotedTwins(f, g, c, APOS, CHAR_LITERAL);
    case OperMode(k) => OperTwins(al, f, g, k, c);
    case LineComment => InsideTwins(al, f, g, c);
    case BlockComment => InsideTwins(al, f, g, c);
    case BlockStar => InsideTwins(al, f, g, c);
    case _ => WordTwins(al, f, g, c);
  }

  lemma ProcessTwins(al: Alphabet, f: Fields, g: Fields, c: int)
    requires Sane(al) && Twins(f, g)
    ensures TwinResults(Process(al, f, c), Process(al, g, c))
  {
    DispatchTwins(al, f, g, c);
  }

  lemma {:induction false} AllTwins(al: Alphabet, f: Fields, g: Fields, cs: seq<int>)
    requires Sane(al) && Twins(f, g)
    ensures TwinResults(ProcessAll(al, f, cs), ProcessAll(al, g, cs))
    decreases |cs|
  {
    if cs != [] {
      var c, rest := cs[0], cs[1..];
      assert cs == [c] + rest;
      First(al, f, c, rest);
      First(al, g, c, rest);
      ProcessTwins(al, f, g, c);
      var r, s := Process(al, f, c), Process(al, g, c);
      if r.Fine? {
        AllTwins(al, r.fields, s.fields, rest);
      }
    }
  }

  // ------------------------------------------------------------------ a comment or a blank

  /** Outside literals and comments, and not behind a slash. */
  predicate Between(mode: Mode) {
    !mode.StrMode? && !mode.ChrMode? && !mode.LineComment? && !mode.BlockComment? && !mode.BlockStar? && mode != OperMode(SLASH)
  }

  /** A slash and a blank end the same token. */
  ghost predicate EndAlike(r: Lexed, s: Lexed) {
    if r.Bad? then s.Bad? && s.why == r.why
    else s.Fine? && r.fields.mode == OperMode(SLASH) && s.fields.mode.SpaceMode? && SameText(r.fields, s.fields)
  }

  lemma OpensBoth(al: Alphabet, f: Fields)
    requires Sane(al) && f.mode.Start?
    ensures EndAlike(Open(al, f, 47), Open(al, f, BLANK))
  {
    assert Meaningful(47);
  }

  lemma EndsBoth(al: Alphabet, f: Fields, kind: Kind)
    requires Sane(al)
    ensures EndAlike(ReportThen(al, f, kind, 47), ReportThen(al, f, kind, BLANK))
  {
    OpensBoth(al, Report(f, kind));
  }

  lemma SpaceOrSlash(al: Alphabet, f: Fields)
    requires Sane(al) && f.mode.SpaceMode?
    ensures EndAlike(Dispatch(al, f, 47), Dispatch(al, f, BLANK))
  {
    assert Meaningful(47);
    SpaceIsNoWord(f);
    OpensBoth(al, Report(Keep(f, BLANK), SPACE));
  }

  lemma WordOrSlash(al: Alphabet, f: Fields)
    requires Sane(al) && (f.mode.HexMode? || f.mode.OctMode? || f.mode.BinMode? || f.mode.DotMode? || f.mode.IdenMode?)
    ensures EndAlike(Dispatch(al, f, 47), Dispatch(al, f, BLANK))
  {
    assert Meaningful(47);
    var kind := match f.mode
      case HexMode => HEX_LITERAL
      case OctMode => OCT_LITERAL
      case BinMode => BIN_LITERAL
      case DotMode => DOT
      case _ => IDENTIFIER;
    EndsBoth(al, f, kind);
  }

  lemma IntegerOrSlash(al: Alphabet, f: Fields)
    requires Sane(al)
    ensures EndAlike(Num(al, f, 47), Num(al, f, BLANK))
  {
    assert Meaningful(47);
    NumEnds(al, f, 47);
    NumEnds(al, f, BLANK);
    EndsBoth(al, f, INT_LITERAL);
  }

  lemma FloatOrSlash(al: Alphabet, f: Fields)
    requires Sane(al)
    ensures EndAlike(Flt(al, f, 47), Flt(al, f, BLANK))
  {
    assert Meaningful(47);
    if f.phase.Point? || f.phase.Exponent? {
      FltEnds(al, f, 47);
      FltEnds(al, f, BLANK);
      EndsBoth(al, f, FloatKind(f.phase));
    }
  }

  lemma OperOrSlash(al: Alphabet, f: Fields, k: Kind)
    requires Sane(al) && !k.SLASH?
    ensures EndAlike(Oper(al, f, k, 47), Oper(al, f, k, BLANK))
  {
    EndsBoth(al, f, k);
  }

  lemma SlashOrBlank(al: Alphabet, f: Fields)
    requires Sane(al) && Between(f.mode)
    ensures EndAlike(Process(al, f, 47), Process(al, f, BLANK))
  {
    match f.mode
    case Start => OpensBoth(al, f);
    case SpaceMode => SpaceOrSlash(al, f);
    case IntMode => IntegerOrSlash(al, f);
    case FloatMode => FloatOrSlash(al, f);
    case OperMode(k) => OperOrSlash(al, f, k);
    case _ => WordOrSlash(al, f);
  }

  /** Two texts with the same words, or the same error. */
  ghost predicate SameWords(r: Lexed, s: Lexed) {
    if r.Bad? then s.Bad? && s.why == r.why else s.Fine? && Words(s.fields.out) == Words(r.fields.out)
  }

  lemma RestOrBlank(al: Alphabet, f: Fields, g: Fields, m: Comment, b: seq<int>)
    requires Sane(al) && Ok(m) && f.mode == OperMode(SLASH) && g.mode.SpaceMode? && SameText(f, g)
    ensures SameWords(ProcessAll(al, f, Tail(m) + b), ProcessAll(al, g, b))
  {
    CommentIsSkipped(al, f, m);
    ProcessTwo(al, f, Tail(m), b);
    AllTwins(al, ProcessAll(al, f, Tail(m)).fields, g, b);
  }

  lemma CommentOrBlank(al: Alphabet, f: Fields, m: Comment, b: seq<int>)
    requires Sane(al) && Ok(m) && Between(f.mode)
    ensures SameWords(ProcessAll(al, f, CommentText(m) + b), ProcessAll(al, f, [BLANK] + b))
  {
    SlashOrBlank(al, f);
    var rest := Tail(m) + b;
    assert CommentText(m) + b == [47] + rest;
    First(al, f, 47, rest);
    First(al, f, BLANK, b);
    var slash, blank := Process(al, f, 47), Process(al, f, BLANK);
    if slash.Fine? {
      RestOrBlank(al, slash.fields, blank.fields, m, b);
    }
  }

  /** A comment between two words, or within one, counts as a blank. */
  lemma CommentIsABlank(al: Alphabet, a: seq<int>, m: Comment, b: seq<int>)
    requires Sane(al) && Ok(m)
    requires var r := ProcessAll(al, Idle([]), a); r.Fine? ==> Between(r.fields.mode)
    ensures SameWords(ProcessAll(al, Idle([]), a + (CommentText(m) + b)), ProcessAll(al, Idle([]), a + ([BLANK] + b)))
  {
    var x, y := CommentText(m) + b, [BLANK] + b;
    ProcessTwo(al, Idle([]), a, x);
    ProcessTwo(al, Idle([]), a, y);
    var r := ProcessAll(al, Idle([]), a);
    if r.Fine? {
      CommentOrBlank(al, r.fields, m, b);
    }
  }
}
