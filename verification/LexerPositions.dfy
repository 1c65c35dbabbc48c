/** Where tokens stand: each is reported with the line and column at which its text begins. The fields
    of the lexer are placed in the text read so far when the token being read, the string literal held
    back and all tokens reported stand where they say; every character keeps them so, mode by mode. Line
    and column are those behind the text: its newlines, and the characters after the last one. */
module LexerPositions {
  import opened Syntax
  import opened Lexer
  import opened LexerWords

  /** Line and column behind a text: its newlines, and the characters after the last one. */
  function Position(cs: seq<int>): (int, int) {
    if cs == [] then (0, 0) else Past(Position(cs[..|cs| - 1]), cs[|cs| - 1])
  }

  function Past(at: (int, int), c: int): (int, int) {
    if c == NEWL then (at.0 + 1, 0) else (at.0, at.1 + 1)
  }

  /** A character `c` stands there. */
  ghost predicate Place(cs: seq<int>, row: int, col: int, c: int) {
    exists p :: 0 <= p < |cs| && cs[p] == c && Position(cs[..p]) == (row, col)
  }

  /** The character a token begins with. */
  function FirstChar(kind: Kind, text: seq<int>): int {
    if kind.STRING_LITERAL? then DQUO
    else if kind.CHAR_LITERAL? then APOS
    else if kind.HEX_LITERAL? || kind.OCT_LITERAL? || kind.BIN_LITERAL? then 48
    else if text == [] then EOF
    else text[0]
  }

  predicate Nowhere(row: int, col: int) {
    row == -1 && col == -1
  }

  /** A string that a character literal has left behind stands nowhere. */
  ghost predicate Stands(cs: seq<int>, t: Tok) {
    (t.kind.STRING_LITERAL? && Nowhere(t.row, t.col)) || Place(cs, t.row, t.col, FirstChar(t.kind, t.text))
  }

  ghost predicate AllStand(cs: seq<int>, out: seq<Tok>) {
    forall t :: t in out ==> Stands(cs, t)
  }

  /** Reported with all of its text. */
  predicate Literally(k: Kind) {
    !IsText(k) && !k.HEX_LITERAL? && !k.OCT_LITERAL? && !k.BIN_LITERAL?
  }

  /** Where the token that is being read began. */
  ghost predicate TokenPlaced(al: Alphabet, cs: seq<int>, f: Fields) {
    match f.mode
    case HexMode => Place(cs, f.tokenRow, f.tokenCol, 48)
    case OctMode => Place(cs, f.tokenRow, f.tokenCol, 48)
    case BinMode => Place(cs, f.tokenRow, f.tokenCol, 48)
    case IntMode => f.buff != [] && f.buff[0] in al.digits && Place(cs, f.tokenRow, f.tokenCol, f.buff[0])
    case FloatMode => f.buff != [] && Place(cs, f.tokenRow, f.tokenCol, f.buff[0])
    case DotMode => f.buff != [] && Place(cs, f.tokenRow, f.tokenCol, f.buff[0])
    case IdenMode => f.buff != [] && Place(cs, f.tokenRow, f.tokenCol, f.buff[0])
    case SpaceMode => f.buff != [] && Place(cs, f.tokenRow, f.tokenCol, f.buff[0])
    case OperMode(k) => Literally(k) && f.buff != [] && Place(cs, f.tokenRow, f.tokenCol, f.buff[0])
    case _ => true
  }

  /** Where the string literal that is held back began. */
  ghost predicate TextPlaced(cs: seq<int>, f: Fields) {
    if f.mode.ChrMode? then Place(cs, f.textRow, f.textCol, APOS)
    else f.mode.StrMode? || f.textPresent ==> Nowhere(f.textRow, f.textCol) || Place(cs, f.textRow, f.textCol, DQUO)
  }

  ghost predicate Placed(al: Alphabet, cs: seq<int>, f: Fields) {
    AllStand(cs, f.out) && TokenPlaced(al, cs, f) && TextPlaced(cs, f)
  }

  lemma PlaceStays(cs: seq<int>, c: int, row: int, col: int, first: int)
    requires Place(cs, row, col, first)
    ensures Place(cs + [c], row, col, first)
  {
    var p :| 0 <= p < |cs| && cs[p] == first && Position(cs[..p]) == (row, col);
    assert (cs + [c])[p] == first && (cs + [c])[..p] == cs[..p];
  }

  lemma PlaceHere(cs: seq<int>, c: int)
    ensures Place(cs + [c], Position(cs).0, Position(cs).1, c)
  {
    assert (cs + [c])[|cs|] == c && (cs + [c])[..|cs|] == cs;
  }

  lemma PlacedStays(al: Alphabet, cs: seq<int>, c: int, f: Fields)
    requires Placed(al, cs, f)
    ensures Placed(al, cs + [c], f)
  {
    forall t | t in f.out ensures Stands(cs + [c], t) {
      if !(t.kind.STRING_LITERAL? && Nowhere(t.row, t.col)) {
        PlaceStays(cs, c, t.row, t.col, FirstChar(t.kind, t.text));
      }
    }
    TokenStays(al, cs, c, f);
    if TextPlaced(cs, f) && !Nowhere(f.textRow, f.textCol) && (f.mode.ChrMode? || f.mode.StrMode? || f.textPresent) {
      PlaceStays(cs, c, f.textRow, f.textCol, if f.mode.ChrMode? then APOS else DQUO);
    } else if f.mode.ChrMode? {
      PlaceStays(cs, c, f.textRow, f.textCol, APOS);
    }
  }

  lemma TokenStays(al: Alphabet, cs: seq<int>, c: int, f: Fields)
    requires TokenPlaced(al, cs, f)
    ensures TokenPlaced(al, cs + [c], f)
  {
    match f.mode
    case HexMode => PlaceStays(cs, c, f.tokenRow, f.tokenCol, 48);
    case OctMode => PlaceStays(cs, c, f.tokenRow, f.tokenCol, 48);
    case BinMode => PlaceStays(cs, c, f.tokenRow, f.tokenCol, 48);
    case IntMode => PlaceStays(cs, c, f.tokenRow, f.tokenCol, f.buff[0]);
    case FloatMode => PlaceStays(cs, c, f.tokenRow, f.tokenCol, f.buff[0]);
    case DotMode => PlaceStays(cs, c, f.tokenRow, f.tokenCol, f.buff[0]);
    case IdenMode => PlaceStays(cs, c, f.tokenRow, f.tokenCol, f.buff[0]);
    case SpaceMode => PlaceStays(cs, c, f.tokenRow, f.tokenCol, f.buff[0]);
    case OperMode(_) => PlaceStays(cs, c, f.tokenRow, f.tokenCol, f.buff[0]);
    case _ =>
  }

  // ------------------------------------------------------------------ one character

  /** A finished token is reported with the place at which it began. */
  lemma ReportStands(al: Alphabet, cs: seq<int>, f: Fields, kind: Kind)
    requires AllStand(cs, f.out) && TextPlaced(cs, f) && !IsText(kind) && !f.mode.ChrMode? && !f.mode.StrMode?
    requires Place(cs, f.tokenRow, f.tokenCol, FirstChar(kind, f.buff))
    ensures Placed(al, cs, Report(f, kind))
  {
  }

  lemma ReportTextStands(al: Alphabet, cs: seq<int>, f: Fields, kind: Kind)
    requires AllStand(cs, f.out) && TextPlaced(cs, f)
    requires if kind.CHAR_LITERAL? then f.mode.ChrMode? else kind.STRING_LITERAL? && f.mode.StrMode?
    ensures Placed(al, cs, Report(f, kind))
  {
  }

  /** A character that is no token by itself, and what comes of it. */
  predicate Starts(al: Alphabet, c: int) {
    c in al.digits || c in al.spaces || c == 46 || IsIdentStart(al, c) || c == DQUO || c == APOS || !OperKind(c).NONE?
  }

  function Begun(f: Fields, c: int): Fields {
    f.(phase := NoPhase, newline := false, buff := [c], tokenRow := f.row, tokenCol := f.col)
  }

  lemma OpensSingle(al: Alphabet, f: Fields, c: int)
    requires !Starts(al, c) && !SingleKind(c).NONE?
    ensures Open(al, f, c) == Fine(Report(Begun(f, c), SingleKind(c)))
  {
  }

  lemma StartPlaces(al: Alphabet, cs: seq<int>, f: Fields, c: int)
    requires (f.row, f.col) == Position(cs) && AllStand(cs + [c], f.out) && TextPlaced(cs + [c], f) && !f.mode.ChrMode? && !f.mode.StrMode?
    requires Starts(al, c)
    ensures var r := Open(al, f, c); r.Fine? ==> Placed(al, cs + [c], r.fields)
  {
    PlaceHere(cs, c);
    OperatorsAreLiteral(c);
  }

  /** A token begins at the character just read. */
  lemma OpenPlaces(al: Alphabet, cs: seq<int>, f: Fields, c: int)
    requires (f.row, f.col) == Position(cs) && AllStand(cs + [c], f.out) && TextPlaced(cs + [c], f) && !f.mode.ChrMode? && !f.mode.StrMode?
    ensures var r := Open(al, f, c); r.Fine? ==> Placed(al, cs + [c], r.fields)
  {
    if Starts(al, c) {
      StartPlaces(al, cs, f, c);
    } else if !SingleKind(c).NONE? {
      SinglePlaces(al, cs, f, c);
    }
  }

  lemma SinglePlaces(al: Alphabet, cs: seq<int>, f: Fields, c: int)
    requires (f.row, f.col) == Position(cs) && AllStand(cs + [c], f.out) && TextPlaced(cs + [c], f) && !f.mode.ChrMode? && !f.mode.StrMode?
    requires !Starts(al, c) && !SingleKind(c).NONE?
    ensures var r := Open(al, f, c); r.Fine? ==> Placed(al, cs + [c], r.fields)
  {
    OpensSingle(al, f, c);
    PlaceHere(cs, c);
    OperatorsAreLiteral(c);
    ReportStands(al, cs + [c], Begun(f, c), SingleKind(c));
  }

  lemma OperatorsAreLiteral(c: int)
    ensures Literally(SingleKind(c)) && Literally(OperKind(c))
  {
  }

  /** A token ends before the character just read, which begins another. */
  lemma ReportThenPlaces(al: Alphabet, cs: seq<int>, f: Fields, kind: Kind, c: int)
    requires (f.row, f.col) == Position(cs) && AllStand(cs + [c], f.out) && TextPlaced(cs + [c], f) && !f.mode.ChrMode? && !f.mode.StrMode?
    requires !IsText(kind) && Place(cs + [c], f.tokenRow, f.tokenCol, FirstChar(kind, f.buff))
    ensures var r := ReportThen(al, f, kind, c); r.Fine? ==> Placed(al, cs + [c], r.fields)
  {
    ReportStands(al, cs + [c], f, kind);
    OpenPlaces(al, cs, Report(f, kind), c);
  }

  lemma {:induction false} UngroupedFirst(buff: seq<int>)
    requires buff != [] && buff[0] != APOS
    ensures Ungrouped(buff) != [] && Ungrouped(buff)[0] == buff[0]
  {
  }

  /** What has changed of a token that goes on: its text behind the first character. */
  ghost predicate GoesOnAs(al: Alphabet, f: Fields, g: Fields) {
    && g.out == f.out && g.tokenRow == f.tokenRow && g.tokenCol == f.tokenCol && g.row == f.row && g.col == f.col
    && g.textPresent == f.textPresent && g.textRow == f.textRow && g.textCol == f.textCol
    && f.buff != [] && (if g.mode.HexMode? || g.mode.OctMode? || g.mode.BinMode? then f.buff[0] == 48 else g.buff != [] && g.buff[0] == f.buff[0])
    && (g.mode.IntMode? ==> f.mode.IntMode?)
  }

  predicate Counted(mode: Mode) {
    mode.IntMode? || mode.FloatMode? || mode.HexMode? || mode.OctMode? || mode.BinMode?
  }

  lemma GoesOnPlaces(al: Alphabet, cs: seq<int>, f: Fields, g: Fields)
    requires f.mode.IntMode? && Placed(al, cs, f) && GoesOnAs(al, f, g) && Counted(g.mode)
    ensures Placed(al, cs, g)
  {
  }

  /** An integer that ends, or goes on as a number of some kind. */
  lemma NumGoesOn(al: Alphabet, f: Fields, c: int)
    requires Sane(al) && f.mode.IntMode? && f.buff != [] && f.buff[0] in al.digits
    ensures var r := Num(al, f, c);
      r.Fine? ==> r == ReportThen(al, f, INT_LITERAL, c) || (GoesOnAs(al, f, r.fields) && Counted(r.fields.mode))
  {
    assert Meaningful(APOS);
    UngroupedFirst(f.buff);
  }

  lemma NumPlaces(al: Alphabet, cs: seq<int>, f: Fields, c: int)
    requires Sane(al) && f.mode.IntMode? && (f.row, f.col) == Position(cs) && Placed(al, cs + [c], f)
    ensures var r := Num(al, f, c); r.Fine? ==> Placed(al, cs + [c], r.fields)
  {
    NumGoesOn(al, f, c);
    var r := Num(al, f, c);
    if r == ReportThen(al, f, INT_LITERAL, c) {
      ReportThenPlaces(al, cs, f, INT_LITERAL, c);
    } else if r.Fine? {
      GoesOnPlaces(al, cs + [c], f, r.fields);
    }
  }

  lemma FltPlaces(al: Alphabet, cs: seq<int>, f: Fields, c: int)
    requires f.mode.FloatMode? && (f.row, f.col) == Position(cs) && Placed(al, cs + [c], f)
    ensures var r := Flt(al, f, c); r.Fine? ==> Placed(al, cs + [c], r.fields)
  {
    ReportStands(al, cs + [c], f, FloatKind(f.phase));
    ReportThenPlaces(al, cs, f, FloatKind(f.phase), c);
  }

  /** Inside quotes only the text grows, unless they close. */
  lemma QuotedGoesOn(f: Fields, c: int, quote: int, kind: Kind)
    ensures var r := Quoted(f, c, quote, kind);
      r.Fine? && !(f.escape.NoEscape? && c == quote) ==>
        r.fields.(text := f.text, escape := f.escape, escRow := f.escRow, escCol := f.escCol) == f
  {
  }

  lemma QuotedPlaces(al: Alphabet, cs: seq<int>, f: Fields, c: int, quote: int, kind: Kind)
    requires Placed(al, cs, f) && if kind.CHAR_LITERAL? then f.mode.ChrMode? else kind.STRING_LITERAL? && f.mode.StrMode?
    ensures var r := Quoted(f, c, quote, kind); r.Fine? ==> Placed(al, cs, r.fields)
  {
    if f.escape.NoEscape? && c == quote {
      ReportTextStands(al, cs, f, kind);
    } else {
      QuotedGoesOn(f, c, quote, kind);
    }
  }

  lemma GrowsLiterally(k: Kind, c: int)
    ensures var g := Grow(k, c); (g.Grows? || g.Completes? ==> Literally(g.kind)) && (g.Comments? ==> g.mode.LineComment? || g.mode.BlockComment?)
  {
    if c == 61 {
      GrowsByEqualLiterally(k);
    }
  }

  lemma GrowsByEqualLiterally(k: Kind)
    ensures var g := GrowByEqual(k); (g.Grows? || g.Completes? ==> Literally(g.kind)) && !g.Comments?
  {
  }

  lemma OperPlaces(al: Alphabet, cs: seq<int>, f: Fields, k: Kind, c: int)
    requires f.mode == OperMode(k) && (f.row, f.col) == Position(cs) && Placed(al, cs + [c], f)
    ensures var r := Oper(al, f, k, c); r.Fine? ==> Placed(al, cs + [c], r.fields)
  {
    GrowsLiterally(k, c);
    var g := Grow(k, c);
    if g.Completes? {
      ReportStands(al, cs + [c], Keep(f, c), g.kind);
    } else if g.Ends? {
      ReportThenPlaces(al, cs, f, k, c);
    }
  }

  /** The radix literals. */
  lemma RadixPlaces(al: Alphabet, cs: seq<int>, f: Fields, c: int)
    requires (f.mode.HexMode? || f.mode.OctMode? || f.mode.BinMode?) && (f.row, f.col) == Position(cs) && Placed(al, cs + [c], f)
    ensures var r := Dispatch(al, f, c); r.Fine? ==> Placed(al, cs + [c], r.fields)
  {
    ReportThenPlaces(al, cs, f, if f.mode.HexMode? then HEX_LITERAL else if f.mode.OctMode? then OCT_LITERAL else BIN_LITERAL, c);
  }

  /** Points, words and spaces. */
  lemma WordPlaces(al: Alphabet, cs: seq<int>, f: Fields, c: int)
    requires (f.mode.DotMode? || f.mode.IdenMode?) && (f.row, f.col) == Position(cs) && Placed(al, cs + [c], f)
    ensures var r := Dispatch(al, f, c); r.Fine? ==> Placed(al, cs + [c], r.fields)
  {
    ReportThenPlaces(al, cs, f, if f.mode.DotMode? then DOT else IDENTIFIER, c);
  }

  lemma SpacePlaces(al: Alphabet, cs: seq<int>, f: Fields, c: int)
    requires f.mode.SpaceMode? && (f.row, f.col) == Position(cs) && Placed(al, cs + [c], f)
    ensures var r := Dispatch(al, f, c); r.Fine? ==> Placed(al, cs + [c], r.fields)
  {
    if c in al.spaces {
      assert Dispatch(al, f, c) == Fine(f);
    } else {
      var g := Keep(f, BLANK);
      assert g.buff[0] == f.buff[0] && FirstChar(SPACE, g.buff) == f.buff[0];
      ReportThenPlaces(al, cs, g, SPACE, c);
      assert Dispatch(al, f, c) == ReportThen(al, g, SPACE, c);
    }
  }

  lemma DispatchPlaces(al: Alphabet, cs: seq<int>, f: Fields, c: int)
    requires Sane(al) && (f.row, f.col) == Position(cs) && Placed(al, cs + [c], f)
    ensures var r := Dispatch(al, f, c); r.Fine? ==> Placed(al, cs + [c], r.fields)
  {
    match f.mode
    case Start => OpenPlaces(al, cs, f, c);
    case IntMode => NumPlaces(al, cs, f, c);
    case HexMode => RadixPlaces(al, cs, f, c);
    case OctMode => RadixPlaces(al, cs, f, c);
    case BinMode => RadixPlaces(al, cs, f, c);
    case FloatMode => FltPlaces(al, cs, f, c);
    case DotMode => WordPlaces(al, cs, f, c);
    case IdenMode => WordPlaces(al, cs, f, c);
    case StrMode => QuotedPlaces(al, cs + [c], f, c, DQUO, STRING_LITERAL);
    case ChrMode => QuotedPlaces(al, cs + [c], f, c, APOS, CHAR_LITERAL);
    case SpaceMode => SpacePlaces(al, cs, f, c);
    case OperMode(k) => OperPlaces(al, cs, f, k, c);
    case LineComment =>
    case BlockComment =>
    case BlockStar =>
  }

  // ------------------------------------------------------------------ whole texts

  ghost predicate Stays(r: Lexed, f: Fields) {
    r.Fine? ==> r.fields.row == f.row && r.fields.col == f.col
  }

  lemma OpenStays(al: Alphabet, f: Fields, c: int)
    requires c >= 0
    ensures Stays(Open(al, f, c), f)
  {
  }

  lemma ReportThenStays(al: Alphabet, f: Fields, kind: Kind, c: int)
    requires c >= 0
    ensures Stays(ReportThen(al, f, kind, c), f)
  {
    OpenStays(al, Report(f, kind), c);
  }

  lemma NumberStays(al: Alphabet, f: Fields, c: int)
    requires c >= 0
    ensures Stays(Num(al, f, c), f) && Stays(Flt(al, f, c), f)
  {
    ReportThenStays(al, f, INT_LITERAL, c);
    ReportThenStays(al, f, FloatKind(f.phase), c);
  }

  lemma QuotedStays(f: Fields, c: int, quote: int, kind: Kind)
    ensures Stays(Quoted(f, c, quote, kind), f)
  {
    if f.escape.NoEscape? && c == quote {
      assert Stays(Fine(Report(f, kind)), f);
    } else {
      QuotedGoesOn(f, c, quote, kind);
    }
  }

  lemma OperStays(al: Alphabet, f: Fields, k: Kind, c: int)
    requires c >= 0
    ensures Stays(Oper(al, f, k, c), f)
  {
    ReportThenStays(al, f, k, c);
  }

  lemma WordStays(al: Alphabet, f: Fields, c: int)
    requires c >= 0 && (f.mode.HexMode? || f.mode.OctMode? || f.mode.BinMode? || f.mode.DotMode? || f.mode.IdenMode? || f.mode.SpaceMode?)
    ensures Stays(Dispatch(al, f, c), f)
  {
    var g := if f.mode.SpaceMode? then Keep(f, BLANK) else f;
    var kind := match f.mode
      case HexMode => HEX_LITERAL
      case OctMode => OCT_LITERAL
      case BinMode => BIN_LITERAL
      case DotMode => DOT
      case IdenMode => IDENTIFIER
      case _ => SPACE;
    ReportThenStays(al, g, kind, c);
  }

  /** The line and column stay as they are until the character is counted. */
  lemma DispatchStays(al: Alphabet, f: Fields, c: int)
    requires c >= 0
    ensures Stays(Dispatch(al, f, c), f)
  {
    match f.mode
    case Start => OpenStays(al, f, c);
    case IntMode => NumberStays(al, f, c);
    case FloatMode => NumberStays(al, f, c);
    case StrMode => QuotedStays(f, c, DQUO, STRING_LITERAL);
    case ChrMode => QuotedStays(f, c, APOS, CHAR_LITERAL);
    case OperMode(k) => OperStays(al, f, k, c);
    case LineComment =>
    case BlockComment =>
    case BlockStar =>
    case _ => WordStays(al, f, c);
  }

  lemma PositionNext(cs: seq<int>, c: int)
    ensures Position(cs + [c]) == Past(Position(cs), c)
  {
    var all := cs + [c];
    assert all != [] && all[|all| - 1] == c && all[..|all| - 1] == cs;
  }

  lemma CountedPlaces(al: Alphabet, cs: seq<int>, f: Fields, c: int)
    requires Placed(al, cs, f)
    ensures Placed(al, cs, Count(f, c))
  {
    assert TokenPlaced(al, cs, Count(f, c)) == TokenPlaced(al, cs, f);
  }

  lemma ProcessPlaces(al: Alphabet, cs: seq<int>, f: Fields, c: int)
    requires Sane(al) && (f.row, f.col) == Position(cs) && Placed(al, cs, f)
    ensures var r := Process(al, f, c);
      r.Fine? ==> Placed(al, cs + [c], r.fields) && (c >= 0 ==> (r.fields.row, r.fields.col) == Position(cs + [c]))
  {
    PlacedStays(al, cs, c, f);
    DispatchPlaces(al, cs, f, c);
    PositionNext(cs, c);
    var r := Dispatch(al, f, c);
    if r.Fine? {
      CountedPlaces(al, cs + [c], r.fields, c);
      if c >= 0 {
        DispatchStays(al, f, c);
      }
    }
  }

  /** After any text without an error the line is the number of its newlines and the column the number
      of characters after the last of them; and each token reported stands where it says. */
  lemma {:induction false} TokensStandWhereTheyBegin(al: Alphabet, cs: seq<int>)
    requires Sane(al) && forall i :: 0 <= i < |cs| ==> cs[i] >= 0
    ensures var r := ProcessAll(al, Idle([]), cs);
      r.Fine? ==> (r.fields.row, r.fields.col) == Position(cs) && Placed(al, cs, r.fields)
  {
    if cs != [] {
      var front, c := cs[..|cs| - 1], cs[|cs| - 1];
      TokensStandWhereTheyBegin(al, front);
      assert cs == front + [c];
      ProcessTwo(al, Idle([]), front, [c]);
      var r := ProcessAll(al, Idle([]), front);
      if r.Fine? {
        ProcessOne(al, r.fields, c);
        ProcessPlaces(al, front, r.fields, c);
      }
    }
  }

  /** So with the end of the input: all tokens of a text. */
  lemma AllTokensStand(al: Alphabet, cs: seq<int>)
    requires Sane(al) && forall i :: 0 <= i < |cs| ==> cs[i] >= 0
    ensures var r := ProcessAll(al, Idle([]), cs + [EOF]); r.Fine? ==> AllStand(cs + [EOF], r.fields.out)
  {
    TokensStandWhereTheyBegin(al, cs);
    ProcessTwo(al, Idle([]), cs, [EOF]);
    var r := ProcessAll(al, Idle([]), cs);
    if r.Fine? {
      ProcessOne(al, r.fields, EOF);
      ProcessPlaces(al, cs, r.fields, EOF);
    }
  }
}
