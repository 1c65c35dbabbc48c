/** The streaming lexer. Characters are code points, -1 is the end of input. What one character
    does to the lexer's fields is a function on their record; the class feeds it, rewriting
    carriage returns and line feeds to line feeds on the way. */
module Lexer {
  import opened Syntax

  const NEWL := 10
  const CRET := 13
  const BLANK := 32
  const DQUO := 34
  const APOS := 39
  const BKSL := 92
  const EOF := -1

  /** The character classes of the locale, and the digit groups that conversion accepts. */
  datatype Alphabet = Alphabet(letters: iset<int>, digits: iset<int>, spaces: iset<int>, grouped: iset<seq<int>>)

  /** A token; `afterNewline` is what the callback is told besides. */
  datatype Tok = Tok(row: int, col: int, kind: Kind, text: seq<int>, afterNewline: bool)

  datatype Mode =
    | Start | IntMode | HexMode | OctMode | BinMode | FloatMode | DotMode | IdenMode | StrMode | ChrMode | SpaceMode
    | OperMode(kind: Kind) | LineComment | BlockComment | BlockStar

  /** How far a floating-point literal has got: a point, an exponent mark, its sign, its digits. */
  datatype Phase = NoPhase | Point | Mark | Sign | Exponent

  /** After a backslash: nothing yet, or the digits of a numeric escape of so many digits. */
  datatype Escape = NoEscape | Escaped | Numeric(base: nat, need: nat, digits: seq<int>)

  datatype Fields = Fields(
    mode: Mode, buff: seq<int>, phase: Phase, row: int, col: int, tokenRow: int, tokenCol: int, newline: bool,
    text: seq<int>, textPresent: bool, textRow: int, textCol: int, escape: Escape, escRow: int, escCol: int, out: seq<Tok>)

  datatype Why = InvalidCharacter | MisplacedSeparator | BadNumber | BadFloat | NewlineInText | UnexpectedEnd | BadEscape | EmptyCharacter

  datatype Lexed = Fine(fields: Fields) | Bad(row: int, col: int, why: Why)

  /** The fields when nothing is going on; `out` is what the callback has received. */
  function Idle(out: seq<Tok>): Fields {
    Fields(Start, [], NoPhase, 0, 0, 0, 0, false, [], false, -1, -1, NoEscape, -1, -1, out)
  }

  function Here(f: Fields, why: Why): Lexed {
    Bad(f.row, f.col, why)
  }

  // ------------------------------------------------------------------ character classes

  predicate IsIdentStart(al: Alphabet, c: int) {
    c in al.letters || c == 95 || c == 36
  }

  predicate IsIdentTail(al: Alphabet, c: int) {
    IsIdentStart(al, c) || c in al.digits
  }

  predicate IsHex(c: int) {
    48 <= c <= 57 || 65 <= c <= 70 || 97 <= c <= 102
  }

  predicate IsOct(c: int) {
    48 <= c <= 55
  }

  predicate IsBin(c: int) {
    c == 48 || c == 49
  }

  function DigitValue(c: int): int {
    if c <= 57 then c - 48 else if c <= 70 then c - 55 else c - 87
  }

  function Number(base: nat, digits: seq<int>): int {
    if digits == [] then 0 else Number(base, digits[..|digits| - 1]) * base + DigitValue(digits[|digits| - 1])
  }

  /** Wide characters are signed and have 32 bits. */
  function WideChar(v: int): int {
    if v >= 0x8000_0000 then v - 0x1_0000_0000 else v
  }

  // ------------------------------------------------------------------ operators

  /** A character that is a token by itself. */
  function SingleKind(c: int): Kind {
    if c == 40 then LPAREN else if c == 41 then RPAREN
    else if c == 91 then LBRACKET else if c == 93 then RBRACKET
    else if c == 123 then LCURLY else if c == 125 then RCURLY
    else if c == 44 then COMMA else if c == 126 then BITNOT
    else if c == 63 then QUESTION else if c == 58 then COLON
    else if c == 59 then SEMICOLON
    else NONE
  }

  /** A character that begins an operator, and the operator it is if nothing follows. */
  function OperKind(c: int): Kind {
    if c == 61 then ASSIGN else if c == 42 then STAR else if c == 47 then SLASH else if c == 37 then MOD
    else if c == 43 then PLUS else if c == 45 then MINUS else if c == 38 then BITAND else if c == 124 then BITOR
    else if c == 94 then XOR else if c == 60 then LESS else if c == 62 then GREATER else if c == 33 then NOT
    else NONE
  }

  /** What a character does to the operator read so far: makes it a longer one that may grow on,
      completes it, starts a comment, or ends it before the character. */
  datatype Growth = Grows(kind: Kind) | Completes(kind: Kind) | Comments(mode: Mode) | Ends

  function Grow(k: Kind, c: int): Growth {
    if c == 61 then GrowByEqual(k)
    else if c == 43 then if k.PLUS? then Completes(INCREMENT) else Ends
    else if c == 45 then if k.MINUS? then Completes(DECREMENT) else Ends
    else if c == 38 then if k.BITAND? then Grows(AND) else Ends
    else if c == 124 then if k.BITOR? then Grows(OR) else Ends
    else if c == 60 then if k.LESS? then Grows(LSHIFT) else Ends
    else if c == 62 then if k.GREATER? then Grows(RSHIFT) else if k.LESSEQUAL? then Completes(SPACESHIP) else Ends
    else if c == 47 then if k.SLASH? then Comments(LineComment) else Ends
    else if c == 42 then if k.SLASH? then Comments(BlockComment) else Ends
    else Ends
  }

  function GrowByEqual(k: Kind): Growth {
    if k.ASSIGN? then Completes(EQUAL) else if k.STAR? then Completes(MULASSIGN) else if k.SLASH? then Completes(DIVASSIGN)
    else if k.MOD? then Completes(MODASSIGN) else if k.PLUS? then Completes(ADDASSIGN) else if k.MINUS? then Completes(SUBASSIGN)
    else if k.BITAND? then Completes(BITANDASSIGN) else if k.AND? then Completes(ANDASSIGN)
    else if k.BITOR? then Completes(BITORASSIGN) else if k.OR? then Completes(ORASSIGN) else if k.XOR? then Completes(XORASSIGN)
    else if k.LESS? then Grows(LESSEQUAL) else if k.LSHIFT? then Completes(LSHIFTASSIGN)
    else if k.GREATER? then Completes(GREATEREQUAL) else if k.RSHIFT? then Completes(RSHIFTASSIGN)
    else if k.NOT? then Completes(NOTEQUAL)
    else Ends
  }

  // ------------------------------------------------------------------ one character

  /** Give a token to the callback. A string literal is held back until another token follows, so
      that adjacent ones join; a space after it is swallowed. */
  function Report(f: Fields, kind: Kind): Fields {
    var g :=
      if kind.STRING_LITERAL? then f.(textPresent := true)
      else if kind.CHAR_LITERAL? then
        f.(out := f.out + [Tok(f.textRow, f.textCol, CHAR_LITERAL, f.text, f.newline)], text := [], textRow := -1, textCol := -1)
      else if f.textPresent && f.mode.SpaceMode? then f
      else if f.textPresent then
        f.(out := f.out + [Tok(f.textRow, f.textCol, STRING_LITERAL, f.text, f.newline), Tok(f.tokenRow, f.tokenCol, kind, f.buff, f.newline)],
           text := [], textPresent := false, textRow := -1, textCol := -1)
      else f.(out := f.out + [Tok(f.tokenRow, f.tokenCol, kind, f.buff, f.newline)]);
    g.(buff := [], mode := Start)
  }

  /** A token begins. */
  function Open(al: Alphabet, f0: Fields, c: int): Lexed {
    var f := f0.(phase := NoPhase, newline := false, buff := [], tokenRow := f0.row, tokenCol := f0.col);
    if c in al.digits then Fine(f.(buff := [c], mode := IntMode))
    else if c in al.spaces then Fine(f.(buff := [c], mode := SpaceMode))
    else if c == 46 then Fine(f.(buff := [c], mode := DotMode))
    else if IsIdentStart(al, c) then Fine(f.(buff := [c], mode := IdenMode))
    else if c == DQUO then
      Fine(if f.textPresent then f.(mode := StrMode) else f.(mode := StrMode, textRow := f.row, textCol := f.col))
    else if c == APOS then Fine(f.(mode := ChrMode, textRow := f.row, textCol := f.col))
    else if !OperKind(c).NONE? then Fine(f.(buff := [c], mode := OperMode(OperKind(c))))
    else if !SingleKind(c).NONE? then Fine(Report(f.(buff := [c]), SingleKind(c)))
    else if c >= 0 then Here(f, InvalidCharacter)
    else Fine(Idle(f.out))
  }

  /** The token ends before `c`, which begins another. */
  function ReportThen(al: Alphabet, f: Fields, kind: Kind, c: int): Lexed {
    Open(al, Report(f, kind), c)
  }

  function Keep(f: Fields, c: int): Fields {
    f.(buff := f.buff + [c])
  }

  predicate HasSeparator(buff: seq<int>) {
    APOS in buff
  }

  function Ungrouped(buff: seq<int>): seq<int> {
    if buff == [] then [] else if buff[0] == APOS then Ungrouped(buff[1..]) else [buff[0]] + Ungrouped(buff[1..])
  }

  /** A decimal integer turns into a floating-point literal; its digit groups have to convert. */
  function ToFloat(al: Alphabet, f: Fields, c: int, phase: Phase): Lexed {
    if HasSeparator(f.buff) then
      if f.buff !in al.grouped then Here(f, BadNumber)
      else Fine(f.(buff := Ungrouped(f.buff) + [c], phase := phase, mode := FloatMode))
    else Fine(Keep(f, c).(phase := phase, mode := FloatMode))
  }

  function Based(f: Fields, mode: Mode): Lexed {
    if f.buff == [48] then Fine(f.(mode := mode, buff := [])) else Here(f, BadNumber)
  }

  function Num(al: Alphabet, f: Fields, c: int): Lexed {
    if c in al.digits then Fine(Keep(f, c))
    else if c == APOS then
      if f.buff != [] && f.buff[|f.buff| - 1] != APOS then Fine(Keep(f, c)) else Here(f, MisplacedSeparator)
    else if c == 46 then ToFloat(al, f, c, Point)
    else if c == 101 || c == 69 then ToFloat(al, f, c, Mark)
    else if c == 120 || c == 88 then Based(f, HexMode)
    else if c == 111 || c == 79 then Based(f, OctMode)
    else if c == 98 || c == 66 then Based(f, BinMode)
    else ReportThen(al, f, INT_LITERAL, c)
  }

  function FloatKind(phase: Phase): Kind {
    if phase.Point? then FP_LITERAL else FP_EXP_LITERAL
  }

  function Flt(al: Alphabet, f: Fields, c: int): Lexed {
    if c in al.digits then Fine(Keep(f, c).(phase := if f.phase.Mark? || f.phase.Sign? then Exponent else f.phase))
    else if c == 101 || c == 69 then
      if f.phase.Point? then Fine(Keep(f, c).(phase := Mark)) else Here(f, BadFloat)
    else if (c == 45 || c == 43) && f.phase.Mark? then Fine(Keep(f, c).(phase := Sign))
    else if !(f.phase.Point? || f.phase.Exponent?) then Here(f, BadFloat)
    else if c == EOF then Fine(Report(f, FloatKind(f.phase)))
    else ReportThen(al, f, FloatKind(f.phase), c)
  }

  function StopEscaping(f: Fields): Fields {
    f.(escape := NoEscape, escRow := -1, escCol := -1)
  }

  function Append(f: Fields, c: int): Fields {
    StopEscaping(f.(text := f.text + [c]))
  }

  /** The character after a backslash. */
  function EscapeInput(f: Fields, c: int): Lexed {
    if c == 110 then Fine(Append(f, NEWL))
    else if c == 114 then Fine(Append(f, CRET))
    else if c == 116 then Fine(Append(f, 9))
    else if c == 98 then Fine(Append(f, 8))
    else if c == 97 then Fine(Append(f, 7))
    else if c == 102 then Fine(Append(f, 12))
    else if c == 118 then Fine(Append(f, 11))
    else if c == 101 then Fine(Append(f, 27))
    else if IsOct(c) then Fine(f.(escape := Numeric(8, 3, [c])))
    else if c == 120 then Fine(f.(escape := Numeric(16, 2, [])))
    else if c == 117 then Fine(f.(escape := Numeric(16, 4, [])))
    else if c == 85 then Fine(f.(escape := Numeric(16, 8, [])))
    else Fine(Append(f, c))
  }

  function NumericInput(f: Fields, c: int): Lexed
    requires f.escape.Numeric?
  {
    var e := f.escape.(digits := f.escape.digits + [c]);
    if if e.base == 8 then !IsOct(c) else !IsHex(c) then Bad(f.escRow, f.escCol, BadEscape)
    else if |e.digits| == e.need then Fine(Append(f, WideChar(Number(e.base, e.digits))))
    else Fine(f.(escape := e))
  }

  /** Inside a string or character literal that `quote` ends. */
  function Quoted(f: Fields, c: int, quote: int, kind: Kind): Lexed {
    if f.escape.Escaped? then EscapeInput(f, c)
    else if f.escape.Numeric? then NumericInput(f, c)
    else if c == NEWL || c == CRET then Here(f, NewlineInText)
    else if c == BKSL then Fine(f.(escape := Escaped, escRow := f.row, escCol := f.col))
    else if c == quote then
      if kind.CHAR_LITERAL? && f.text == [] then Bad(f.textRow, f.textCol, EmptyCharacter) else Fine(Report(f, kind))
    else if c == EOF then Bad(f.textRow, f.textCol, UnexpectedEnd)
    else Fine(f.(text := f.text + [c]))
  }

  function Oper(al: Alphabet, f: Fields, k: Kind, c: int): Lexed {
    var g := Grow(k, c);
    match g
    case Grows(k') => Fine(Keep(f, c).(mode := OperMode(k')))
    case Completes(k') => Fine(Report(Keep(f, c), k'))
    case Comments(mode) => Fine(f.(mode := mode))
    case Ends => ReportThen(al, f, k, c)
  }

  function Dispatch(al: Alphabet, f: Fields, c: int): Lexed {
    match f.mode
    case Start => Open(al, f, c)
    case IntMode => Num(al, f, c)
    case HexMode => if IsHex(c) || c == APOS then Fine(Keep(f, c)) else ReportThen(al, f, HEX_LITERAL, c)
    case OctMode => if IsOct(c) || c == APOS then Fine(Keep(f, c)) else ReportThen(al, f, OCT_LITERAL, c)
    case BinMode => if IsBin(c) || c == APOS then Fine(Keep(f, c)) else ReportThen(al, f, BIN_LITERAL, c)
    case FloatMode => Flt(al, f, c)
    case DotMode =>
      if c in al.digits then Fine(Keep(f, c).(phase := Point, mode := FloatMode)) else ReportThen(al, f, DOT, c)
    case IdenMode => if IsIdentTail(al, c) then Fine(Keep(f, c)) else ReportThen(al, f, IDENTIFIER, c)
    case StrMode => Quoted(f, c, DQUO, STRING_LITERAL)
    case ChrMode => Quoted(f, c, APOS, CHAR_LITERAL)
    case SpaceMode => if c in al.spaces then Fine(f) else ReportThen(al, Keep(f, BLANK), SPACE, c)
    case OperMode(k) => Oper(al, f, k, c)
    case LineComment => Fine(if c == NEWL then f.(mode := Start) else f)
    case BlockComment => if c == EOF then Here(f, UnexpectedEnd) else Fine(if c == 42 then f.(mode := BlockStar) else f)
    case BlockStar =>
      if c == EOF then Here(f, UnexpectedEnd)
      else Fine(if c == 47 then f.(mode := Start, buff := []) else if c == 42 then f else f.(mode := BlockComment))
  }

  function Count(f: Fields, c: int): Fields {
    if c == NEWL then f.(row := f.row + 1, col := 0, newline := true) else f.(col := f.col + 1)
  }

  /** One character through the machine. */
  function Process(al: Alphabet, f: Fields, c: int): Lexed {
    var r := Dispatch(al, f, c);
    if r.Bad? then r else Fine(Count(r.fields, c))
  }

  function ProcessAll(al: Alphabet, f: Fields, cs: seq<int>): Lexed
    decreases |cs|, 0
  {
    if cs == [] then Fine(f) else Continue(al, Process(al, f, cs[0]), cs[1..])
  }

  function Continue(al: Alphabet, r: Lexed, cs: seq<int>): Lexed
    decreases |cs|, 1
  {
    if r.Bad? then r else ProcessAll(al, r.fields, cs)
  }

  lemma ProcessOne(al: Alphabet, f: Fields, c: int)
    ensures ProcessAll(al, f, [c]) == Process(al, f, c)
  {
    assert [c][1..] == [];
    var r := Process(al, f, c);
    assert r.Fine? ==> ProcessAll(al, r.fields, []) == r;
  }

  lemma {:induction false} ProcessTwo(al: Alphabet, f: Fields, a: seq<int>, b: seq<int>)
    ensures ProcessAll(al, f, a + b) ==
      var r := ProcessAll(al, f, a); if r.Bad? then r else ProcessAll(al, r.fields, b)
    decreases |a|
  {
    if a == [] {
      assert a + b == b;
    } else {
      assert (a + b)[1..] == a[1..] + b;
      var r := Process(al, f, a[0]);
      if r.Fine? {
        ProcessTwo(al, r.fields, a[1..], b);
      }
    }
  }

  // ------------------------------------------------------------------ newlines

  /** What is passed on for one character, `held` saying that a carriage return is held back. */
  function Passed(held: bool, c: int): seq<int> {
    if held then if c == NEWL || c == CRET then [NEWL] else [NEWL, c]
    else if c == CRET then [] else [c]
  }

  function HeldAfter(c: int): bool {
    c == CRET
  }

  /** What is passed on for a text. */
  function AllPassed(held: bool, cs: seq<int>): seq<int>
    decreases |cs|
  {
    if cs == [] then [] else Passed(held, cs[0]) + AllPassed(HeldAfter(cs[0]), cs[1..])
  }

  /** The text as the machine sees it, to its end. */
  function Normal(cs: seq<int>): seq<int> {
    AllPassed(false, cs + [EOF])
  }

  class Scanner {
    const alphabet: Alphabet
    var held: bool
    var fields: Fields

    constructor (alphabet: Alphabet)
      ensures this.alphabet == alphabet && !held && fields == Idle([])
    {
      this.alphabet, held, fields := alphabet, false, Idle([]);
    }

    method Reset()
      modifies this
      ensures !held && fields == Idle(old(fields.out))
    {
      held, fields := false, Idle(fields.out);
    }

    /** Pass one character on, or the error it causes. */
    method ProcessInputChar(c: int) returns (r: Lexed)
      modifies `fields
      ensures r == Process(alphabet, old(fields), c) && (r.Fine? ==> fields == r.fields)
    {
      r := Process(alphabet, fields, c);
      if r.Fine? {
        fields := r.fields;
      }
    }

    method ConsumeChar(c: int) returns (r: Lexed)
      modifies this
      ensures r == ProcessAll(alphabet, old(fields), Passed(old(held), c))
      ensures r.Fine? ==> fields == r.fields && held == HeldAfter(c)
    {
      r := Fine(fields);
      if held {
        ProcessOne(alphabet, fields, NEWL);
        if c == NEWL {
          held := false;
          r := ProcessInputChar(NEWL);
        } else if c == CRET {
          r := ProcessInputChar(NEWL);
        } else {
          held := false;
          ProcessTwo(alphabet, fields, [NEWL], [c]);
          assert [NEWL] + [c] == [NEWL, c];
          r := ProcessInputChar(NEWL);
          if r.Fine? {
            ProcessOne(alphabet, fields, c);
            r := ProcessInputChar(c);
          }
        }
      } else if c == CRET {
        held := true;
      } else {
        ProcessOne(alphabet, fields, c);
        r := ProcessInputChar(c);
      }
    }

    /** A whole text and the end of input. */
    method Scan(cs: seq<int>) returns (r: Lexed)
      requires !held
      modifies this
      ensures var s := ProcessAll(alphabet, old(fields), Normal(cs));
        if s.Bad? then r == s else r.Fine? && r.fields.out == s.fields.out
    {
      ghost var start := fields;
      var text := cs + [EOF];
      var i := 0;
      r := Fine(fields);
      while i < |text|
        invariant i <= |text| && r == Fine(fields)
        invariant ProcessAll(alphabet, start, Normal(cs)) == ProcessAll(alphabet, fields, AllPassed(held, text[i..]))
      {
        ghost var before, was := fields, held;
        assert text[i..][0] == text[i] && text[i..][1..] == text[i + 1..];
        ProcessTwo(alphabet, before, Passed(was, text[i]), AllPassed(HeldAfter(text[i]), text[i + 1..]));
        r := ConsumeChar(text[i]);
        if r.Bad? {
          return;
        }
        i := i + 1;
      }
      assert text[i..] == [];
      Reset();
      r := Fine(fields);
    }
  }

  datatype Style = CR | LF | CRLF

  /** A character that is part of no newline, or a newline in one of three spellings. */
  datatype Item = Plain(c: int) | Newline(style: Style)

  predicate Items(items: seq<Item>) {
    forall i :: 0 <= i < |items| && items[i].Plain? ==> items[i].c != CRET && items[i].c != NEWL && items[i].c >= 0
  }

  function Spelling(it: Item): seq<int> {
    match it
    case Plain(c) => [c]
    case Newline(CR) => [CRET]
    case Newline(LF) => [NEWL]
    case Newline(CRLF) => [CRET, NEWL]
  }

  function Written(items: seq<Item>): seq<int> {
    if items == [] then [] else Spelling(items[0]) + Written(items[1..])
  }

  /** The same text with every newline a line feed. */
  function Unix(items: seq<Item>): seq<int> {
    if items == [] then [] else [if items[0].Plain? then items[0].c else NEWL] + Unix(items[1..])
  }

  /** No newline written CR is directly followed by one written LF. */
  predicate NoClash(items: seq<Item>) {
    forall i :: 0 <= i < |items| - 1 ==> !(items[i] == Newline(CR) && items[i + 1] == Newline(LF))
  }

  /** The spelling of newlines makes no difference to what the machine sees exactly when no CR meets
      an LF, which would be taken for one newline. */
  lemma NewlineSpellings(items: seq<Item>)
    requires Items(items)
    ensures Normal(Written(items)) == Unix(items) + [EOF] <==> NoClash(items)
  {
    Spellings(false, items);
  }

  /** What ought to be passed on; with a carriage return held back, its newline comes first. */
  function Due(held: bool, items: seq<Item>): seq<int> {
    (if held then [NEWL] else []) + (Unix(items) + [EOF])
  }

  lemma SamePrefix<T>(p: seq<T>, s: seq<T>, d: seq<T>)
    ensures p + s == p + d <==> s == d
  {
    if p + s == p + d {
      assert s == (p + s)[|p|..] == (p + d)[|p|..] == d;
    }
  }

  lemma {:induction false} Spellings(held: bool, items: seq<Item>)
    requires Items(items)
    ensures var seen, due := AllPassed(held, Written(items) + [EOF]), Due(held, items);
      |seen| <= |due| && (seen == due <==> NoClash(items) && !(held && items != [] && items[0] == Newline(LF)))
    decreases |items|
  {
    if items == [] {
      assert Written(items) + [EOF] == [EOF] && [EOF][1..] == [];
      assert AllPassed(held, [EOF]) == Passed(held, EOF) == Due(held, items);
    } else {
      var rest, next := items[1..], items[0] == Newline(CR);
      Spellings(next, rest);
      ClashFirst(items);
      FirstItem(held, items);
      DueFirst(held, items);
      SamePrefix(FirstPassed(held, items[0]), AllPassed(next, Written(rest) + [EOF]), Due(next, rest));
    }
  }

  lemma ClashFirst(items: seq<Item>)
    requires items != []
    ensures NoClash(items) <==> NoClash(items[1..]) && !(items[0] == Newline(CR) && |items| > 1 && items[1] == Newline(LF))
  {
    assert forall i :: 0 <= i < |items[1..]| ==> items[1..][i] == items[i + 1];
    if NoClash(items[1..]) {
      assert forall i :: 0 < i < |items| - 1 ==> items[1..][i - 1] == items[i] && items[1..][i] == items[i + 1];
    }
  }

  /** A line feed after a held carriage return stands for one newline too many. */
  lemma DueFirst(held: bool, items: seq<Item>)
    requires Items(items) && items != []
    ensures Due(held, items) == (if held && items[0] == Newline(LF) then [NEWL] else [])
      + (FirstPassed(held, items[0]) + Due(items[0] == Newline(CR), items[1..]))
  {
    var u := Unix(items[1..]) + [EOF];
    match items[0]
    case Plain(c) => assert Unix(items) + [EOF] == [c] + u;
    case Newline(_) => assert Unix(items) + [EOF] == [NEWL] + u;
  }

  /** What is passed on before the rest of the text is looked at. */
  function FirstPassed(held: bool, it: Item): seq<int> {
    match it
    case Plain(c) => Passed(held, c)
    case Newline(CR) => Passed(held, CRET)
    case Newline(LF) => [NEWL]
    case Newline(CRLF) => Passed(held, CRET) + [NEWL]
  }

  lemma FirstItem(held: bool, items: seq<Item>)
    requires Items(items) && items != []
    ensures AllPassed(held, Written(items) + [EOF])
      == FirstPassed(held, items[0]) + AllPassed(items[0] == Newline(CR), Written(items[1..]) + [EOF])
  {
    var w := Written(items[1..]) + [EOF];
    assert Written(items) + [EOF] == Spelling(items[0]) + w;
    match items[0]
    case Plain(c) => PassOne(held, c, w);
    case Newline(CR) => PassOne(held, CRET, w);
    case Newline(LF) => PassOne(held, NEWL, w);
    case Newline(CRLF) => PassBoth(held, w);
  }

  lemma PassBoth(held: bool, w: seq<int>)
    ensures AllPassed(held, [CRET, NEWL] + w) == Passed(held, CRET) + [NEWL] + AllPassed(false, w)
  {
    PassOne(true, NEWL, w);
    PassOne(held, CRET, [NEWL] + w);
    assert [CRET, NEWL] + w == [CRET] + ([NEWL] + w);
    assert Passed(held, CRET) + ([NEWL] + AllPassed(false, w)) == Passed(held, CRET) + [NEWL] + AllPassed(false, w);
  }

  lemma PassOne(held: bool, c: int, w: seq<int>)
    ensures AllPassed(held, [c] + w) == Passed(held, c) + AllPassed(HeldAfter(c), w)
  {
    assert ([c] + w)[1..] == w;
  }

  /** So tokens, their positions and any error are the same for both texts. */
  lemma NewlinesDoNotMatter(al: Alphabet, items: seq<Item>)
    requires Items(items) && NoClash(items)
    ensures ProcessAll(al, Idle([]), Normal(Written(items))) == ProcessAll(al, Idle([]), Normal(Unix(items)))
  {
    NewlineSpellings(items);
    PlainIsNormal(Unix(items));
    forall i | 0 <= i < |Unix(items)| ensures Unix(items)[i] != CRET {
      UnixHasNoReturn(items, i);
    }
  }

  lemma {:induction false} UnixHasNoReturn(items: seq<Item>, i: nat)
    requires Items(items) && i < |Unix(items)|
    ensures Unix(items)[i] != CRET
    decreases |items|
  {
    if i > 0 {
      UnixHasNoReturn(items[1..], i - 1);
    }
  }

  lemma {:induction false} PlainIsNormal(cs: seq<int>)
    ensures (forall i :: 0 <= i < |cs| ==> cs[i] != CRET) ==> Normal(cs) == cs + [EOF]
    decreases |cs|
  {
    if cs == [] {
      assert cs + [EOF] == [EOF] && [EOF][1..] == [];
      assert AllPassed(false, [EOF]) == [EOF];
    } else {
      PlainIsNormal(cs[1..]);
      assert (cs + [EOF])[1..] == cs[1..] + [EOF];
      assert forall i :: 0 <= i < |cs[1..]| ==> cs[1..][i] == cs[i + 1];
      assert cs == [cs[0]] + cs[1..];
    }
  }
}
