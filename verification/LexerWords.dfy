/** How tokens are spelled, what lexing their spelling can be expected to give, and the reading of
    identifiers and numbers. */
module LexerWords {
  import opened Syntax
  import opened Lexer
  import opened Wrappers

  /** A token without its position. */
  datatype Word = Word(kind: Kind, text: seq<int>)

  // ------------------------------------------------------------------ how tokens are spelled

  /** The classes are apart from each other and from the characters with a meaning of their own. */
  ghost predicate Sane(al: Alphabet) {
    && al.letters !! al.digits && al.letters !! al.spaces && al.digits !! al.spaces
    && BLANK in al.spaces && NEWL in al.spaces && CRET in al.spaces
    && (forall c :: 48 <= c <= 57 ==> c in al.digits)
    && (forall c :: 65 <= c <= 90 || 97 <= c <= 122 ==> c in al.letters)
    && forall c :: Meaningful(c) ==> c !in al.letters && c !in al.digits && c !in al.spaces
  }

  predicate Meaningful(c: int) {
    c < 0 || c == 46 || c == DQUO || c == APOS || c == BKSL || c == 95 || c == 36 || !OperKind(c).NONE? || !SingleKind(c).NONE?
  }

  /** The spelling of operators and punctuation; none for other kinds. */
  function SymbolText(k: Kind): seq<int> {
    if k.DOT? then [46]
    else if k.LPAREN? then [40] else if k.RPAREN? then [41] else if k.LBRACKET? then [91] else if k.RBRACKET? then [93]
    else if k.LCURLY? then [123] else if k.RCURLY? then [125] else if k.COMMA? then [44] else if k.BITNOT? then [126]
    else if k.QUESTION? then [63] else if k.COLON? then [58] else if k.SEMICOLON? then [59]
    else OperText(k)
  }

  /** The code of a one-character operator. */
  function OneChar(k: Kind): int {
    if k.ASSIGN? then 61 else if k.STAR? then 42 else if k.SLASH? then 47 else if k.MOD? then 37
    else if k.PLUS? then 43 else if k.MINUS? then 45 else if k.BITAND? then 38 else if k.BITOR? then 124
    else if k.XOR? then 94 else if k.LESS? then 60 else if k.GREATER? then 62 else if k.NOT? then 33
    else 0
  }

  /** A longer operator without its last character, and that character. */
  function Parent(k: Kind): Kind {
    if k.EQUAL? then ASSIGN else if k.NOTEQUAL? then NOT else if k.LESSEQUAL? || k.LSHIFT? then LESS
    else if k.GREATEREQUAL? || k.RSHIFT? then GREATER else if k.ADDASSIGN? || k.INCREMENT? then PLUS
    else if k.SUBASSIGN? || k.DECREMENT? then MINUS else if k.MULASSIGN? then STAR else if k.DIVASSIGN? then SLASH
    else if k.MODASSIGN? then MOD else if k.BITANDASSIGN? || k.AND? then BITAND else if k.BITORASSIGN? || k.OR? then BITOR
    else if k.XORASSIGN? then XOR else if k.ANDASSIGN? then AND else if k.ORASSIGN? then OR
    else if k.LSHIFTASSIGN? then LSHIFT else if k.RSHIFTASSIGN? then RSHIFT else if k.SPACESHIP? then LESSEQUAL
    else NONE
  }

  function LastChar(k: Kind): int {
    if k.INCREMENT? then 43 else if k.DECREMENT? then 45 else if k.AND? then 38 else if k.OR? then 124
    else if k.LSHIFT? then 60 else if k.RSHIFT? || k.SPACESHIP? then 62 else 61
  }

  function OperText(k: Kind): seq<int> {
    if OneChar(k) != 0 then [OneChar(k)]
    else if Parent(k).NONE? then []
    else if OneChar(Parent(k)) != 0 then [OneChar(Parent(k)), LastChar(k)]
    else [OneChar(Parent(Parent(k))), LastChar(Parent(k)), LastChar(k)]
  }

  /** The parts of a floating-point literal. */
  datatype Float = Float(whole: seq<int>, point: bool, fraction: seq<int>, mark: seq<int>, sign: seq<int>, exponent: seq<int>)

  predicate AllDigits(al: Alphabet, cs: seq<int>) {
    forall i :: 0 <= i < |cs| ==> cs[i] in al.digits
  }

  /** Digits on one side of the point at least; a point, or an exponent mark with digits. */
  predicate FloatOk(al: Alphabet, x: Float) {
    && AllDigits(al, x.whole) && AllDigits(al, x.fraction) && AllDigits(al, x.exponent)
    && (x.whole != [] || x.fraction != []) && (x.fraction != [] ==> x.point)
    && (if x.mark == [] then x.point && x.sign == [] && x.exponent == []
        else (x.mark == [101] || x.mark == [69]) && (x.sign == [] || x.sign == [43] || x.sign == [45]) && x.exponent != [])
  }

  function FloatText(x: Float): seq<int> {
    x.whole + (if x.point then [46] else []) + x.fraction + x.mark + x.sign + x.exponent
  }

  /** Tokens that can be written down. */
  ghost predicate Proper(al: Alphabet, w: Word) {
    if w.kind.IDENTIFIER? then w.text != [] && IsIdentStart(al, w.text[0]) && forall i :: 0 <= i < |w.text| ==> IsIdentTail(al, w.text[i])
    else if w.kind.INT_LITERAL? then
      && w.text != [] && w.text[0] in al.digits
      && forall i :: 0 < i < |w.text| ==> w.text[i] in al.digits || (w.text[i] == APOS && w.text[i - 1] != APOS)
    else if w.kind.HEX_LITERAL? then forall i :: 0 <= i < |w.text| ==> IsHex(w.text[i]) || w.text[i] == APOS
    else if w.kind.OCT_LITERAL? then forall i :: 0 <= i < |w.text| ==> IsOct(w.text[i]) || w.text[i] == APOS
    else if w.kind.BIN_LITERAL? then forall i :: 0 <= i < |w.text| ==> IsBin(w.text[i]) || w.text[i] == APOS
    else if w.kind.FP_LITERAL? || w.kind.FP_EXP_LITERAL? then
      exists x :: FloatOk(al, x) && w.text == FloatText(x) && w.kind == (if x.mark == [] then FP_LITERAL else FP_EXP_LITERAL)
    else if w.kind.STRING_LITERAL? then forall i :: 0 <= i < |w.text| ==> w.text[i] >= 0
    else if w.kind.CHAR_LITERAL? then w.text != [] && forall i :: 0 <= i < |w.text| ==> w.text[i] >= 0
    else w.text != [] && w.text == SymbolText(w.kind)
  }

  ghost predicate AllProper(al: Alphabet, ws: seq<Word>)
    decreases |ws|, 1
  {
    ws == [] || FirstProper(al, ws)
  }

  ghost predicate FirstProper(al: Alphabet, ws: seq<Word>)
    requires ws != []
    decreases |ws|, 0
  {
    Proper(al, ws[0]) && AllProper(al, ws[1..])
  }

  function EscapeOne(c: int): seq<int> {
    if c == NEWL then [BKSL, 110] else if c == CRET then [BKSL, 114]
    else if c == BKSL || c == DQUO || c == APOS then [BKSL, c]
    else [c]
  }

  function EscapeText(text: seq<int>): seq<int> {
    if text == [] then [] else EscapeOne(text[0]) + EscapeText(text[1..])
  }

  function Spell(w: Word): seq<int> {
    if w.kind.STRING_LITERAL? then [DQUO] + EscapeText(w.text) + [DQUO]
    else if w.kind.CHAR_LITERAL? then [APOS] + EscapeText(w.text) + [APOS]
    else if w.kind.HEX_LITERAL? then [48, 120] + w.text
    else if w.kind.OCT_LITERAL? then [48, 111] + w.text
    else if w.kind.BIN_LITERAL? then [48, 98] + w.text
    else w.text
  }

  /** Every token followed by a blank. */
  function SpellAll(ws: seq<Word>): seq<int> {
    if ws == [] then [] else Spell(ws[0]) + [BLANK] + SpellAll(ws[1..])
  }

  // ------------------------------------------------------------------ what is to be expected

  /** The tokens given to the callback, without blanks. */
  function Words(out: seq<Tok>): seq<Word> {
    if out == [] then []
    else
      var last := out[|out| - 1];
      Words(out[..|out| - 1]) + if last.kind.SPACE? then [] else [Word(last.kind, last.text)]
  }

  /** The string literal that is held back. */
  function Held(f: Fields): Maybe<seq<int>> {
    if f.textPresent then Just(f.text) else Nothing
  }

  function TextOf(held: Maybe<seq<int>>): seq<int> {
    if held.Just? then held.value else []
  }

  /** What lexing makes of a list of tokens: a string literal joins those before it, and a following
      character literal takes it in, leaving an empty one behind; the last one is lost. */
  function Joined(held: Maybe<seq<int>>, ws: seq<Word>): seq<Word>
    decreases |ws|
  {
    if ws == [] then []
    else
      var w := ws[0];
      if w.kind.STRING_LITERAL? then Joined(Just(TextOf(held) + w.text), ws[1..])
      else if w.kind.CHAR_LITERAL? then
        [Word(CHAR_LITERAL, TextOf(held) + w.text)] + Joined(if held.Just? then Just([]) else Nothing, ws[1..])
      else (if held.Just? then [Word(STRING_LITERAL, held.value)] else []) + [w] + Joined(Nothing, ws[1..])
  }

  /** No string literal directly before a string literal, a character literal or the end. */
  predicate Separate(ws: seq<Word>) {
    forall i :: 0 <= i < |ws| && ws[i].kind.STRING_LITERAL? ==>
      i + 1 < |ws| && !IsText(ws[i + 1].kind)
  }

  predicate IsText(k: Kind) {
    k.STRING_LITERAL? || k.CHAR_LITERAL?
  }

  function Before(held: Maybe<seq<int>>): seq<Word> {
    if held.Just? then [Word(STRING_LITERAL, held.value)] else []
  }

  lemma {:induction false} JoinedLength(held: Maybe<seq<int>>, ws: seq<Word>)
    ensures |Joined(held, ws)| <= |Before(held)| + |ws|
    decreases |ws|
  {
    if ws != [] {
      var w := ws[0];
      JoinedLength(if w.kind.STRING_LITERAL? then Just(TextOf(held) + w.text) else if w.kind.CHAR_LITERAL? && held.Just? then Just([]) else Nothing, ws[1..]);
    }
  }

  lemma SeparateTail(ws: seq<Word>)
    requires ws != []
    ensures Separate(ws) <==> Separate(ws[1..]) && (ws[0].kind.STRING_LITERAL? ==> |ws| > 1 && !IsText(ws[1].kind))
  {
    assert forall i :: 0 <= i < |ws[1..]| ==> ws[1..][i] == ws[i + 1];
    if Separate(ws[1..]) {
      assert forall i :: 0 < i < |ws| && ws[i].kind.STRING_LITERAL? ==> ws[1..][i - 1].kind.STRING_LITERAL? && i < |ws[1..]| && ws[i + 1] == ws[1..][i];
    }
    if Separate(ws) {
      assert forall i :: 0 <= i < |ws[1..]| && ws[1..][i].kind.STRING_LITERAL? ==> ws[i + 1].kind.STRING_LITERAL? && i + 2 < |ws| && ws[i + 2] == ws[1..][i + 1];
    }
  }

  predicate Lone(held: Maybe<seq<int>>, ws: seq<Word>) {
    Separate(ws) && (held.Just? ==> ws != [] && !IsText(ws[0].kind))
  }

  /** Joining changes nothing exactly when the list is separate. */
  lemma {:induction false} JoinsNothingIff(held: Maybe<seq<int>>, ws: seq<Word>)
    ensures Joined(held, ws) == Before(held) + ws <==> Lone(held, ws)
    decreases |ws|, 1
  {
    if ws != [] {
      var w, rest := ws[0], ws[1..];
      assert ws == [w] + rest;
      SeparateTail(ws);
      if w.kind.STRING_LITERAL? {
        JoinsNothingFirst(held, ws);
      } else if w.kind.CHAR_LITERAL? && held.Just? {
        assert Joined(held, ws)[0].kind.CHAR_LITERAL? && (Before(held) + ws)[0].kind.STRING_LITERAL?;
      } else {
        JoinsNothingIff(Nothing, rest);
        SamePrefix([w], Joined(Nothing, rest), rest);
        SamePrefix(Before(held), [w] + Joined(Nothing, rest), ws);
        JoinedAfter(held, ws);
      }
    }
  }

  /** Any other token ends what is held back and stays as it is. */
  lemma JoinedAfter(held: Maybe<seq<int>>, ws: seq<Word>)
    requires ws != [] && !ws[0].kind.STRING_LITERAL? && (ws[0].kind.CHAR_LITERAL? ==> held.Nothing?)
    ensures Joined(held, ws) == Before(held) + ([ws[0]] + Joined(Nothing, ws[1..]))
  {
    if ws[0].kind.CHAR_LITERAL? {
      assert TextOf(held) + ws[0].text == ws[0].text;
    }
  }

  /** A string literal first: it joins one held back, so the list gets shorter. */
  lemma {:induction false} JoinsNothingFirst(held: Maybe<seq<int>>, ws: seq<Word>)
    requires ws != [] && ws[0].kind.STRING_LITERAL?
    ensures Joined(held, ws) == Before(held) + ws <==> Lone(held, ws)
    decreases |ws|, 0
  {
    var w, rest := ws[0], ws[1..];
    var text := TextOf(held) + w.text;
    assert Joined(held, ws) == Joined(Just(text), rest);
    if held.Nothing? {
      SeparateTail(ws);
      JoinsNothingIff(Just(text), rest);
      assert text == w.text;
      assert Before(Just(text)) + rest == ws == Before(held) + ws;
    } else {
      JoinedLength(Just(text), rest);
    }
  }

  // ------------------------------------------------------------------ reading one token

  /** Nothing but the buffer, the mode and positions differ. */
  predicate Alike(f: Fields, g: Fields) {
    g.text == f.text && g.textPresent == f.textPresent && g.out == f.out && g.escape == f.escape
  }

  /** Outside literals; text is only kept for a string literal that is held back. */
  predicate Calm(f: Fields) {
    f.escape.NoEscape? && (f.textPresent || f.text == [])
  }

  function Emitted(held: Maybe<seq<int>>, w: Word): seq<Word> {
    if w.kind.STRING_LITERAL? then []
    else if w.kind.CHAR_LITERAL? then [Word(CHAR_LITERAL, TextOf(held) + w.text)]
    else Before(held) + [w]
  }

  function NextHeld(held: Maybe<seq<int>>, w: Word): Maybe<seq<int>> {
    if w.kind.STRING_LITERAL? then Just(TextOf(held) + w.text)
    else if w.kind.CHAR_LITERAL? && held.Just? then Just([])
    else Nothing
  }

  /** From `f`, the spelling of `w` and the blank after it have been read to `r`. */
  ghost predicate Reads(f: Fields, w: Word, r: Lexed) {
    && r.Fine? && r.fields.mode.SpaceMode? && Calm(r.fields)
    && Words(r.fields.out) == Words(f.out) + Emitted(Held(f), w) && Held(r.fields) == NextHeld(Held(f), w)
  }

  lemma OneMoreWord(out: seq<Tok>, t: Tok)
    ensures Words(out + [t]) == Words(out) + if t.kind.SPACE? then [] else [Word(t.kind, t.text)]
  {
    assert (out + [t])[..|out|] == out;
  }

  lemma ReportsWord(f: Fields, kind: Kind)
    requires Calm(f) && !f.mode.SpaceMode? && !IsText(kind) && !kind.SPACE?
    ensures var g := Report(f, kind);
      g.mode.Start? && Calm(g) && !g.textPresent && Words(g.out) == Words(f.out) + Emitted(Held(f), Word(kind, f.buff))
  {
    var t := Tok(f.tokenRow, f.tokenCol, kind, f.buff, f.newline);
    if f.textPresent {
      var s := Tok(f.textRow, f.textCol, STRING_LITERAL, f.text, f.newline);
      assert f.out + [s, t] == f.out + [s] + [t];
      OneMoreWord(f.out, s);
      OneMoreWord(f.out + [s], t);
    } else {
      OneMoreWord(f.out, t);
    }
  }

  /** A blank after a token whose last character decided it. */
  lemma BlankAfter(al: Alphabet, f: Fields)
    requires Sane(al) && f.mode.Start?
    ensures var r := Process(al, f, BLANK); r.Fine? && r.fields.mode.SpaceMode? && Alike(f, r.fields)
  {
  }

  /** A blank ends a token that could have gone on. */
  lemma BlankEnds(al: Alphabet, f: Fields, kind: Kind)
    requires Sane(al) && Calm(f) && !f.mode.SpaceMode? && !IsText(kind) && !kind.SPACE?
    requires Dispatch(al, f, BLANK) == ReportThen(al, f, kind, BLANK)
    ensures Reads(f, Word(kind, f.buff), ProcessAll(al, f, [BLANK]))
  {
    ReportsWord(f, kind);
    BlankAfter(al, Report(f, kind));
    assert Process(al, f, BLANK) == Process(al, Report(f, kind), BLANK);
    ProcessOne(al, f, BLANK);
  }

  lemma First(al: Alphabet, f: Fields, c: int, rest: seq<int>)
    ensures ProcessAll(al, f, [c] + rest) == var r := Process(al, f, c); if r.Bad? then r else ProcessAll(al, r.fields, rest)
  {
    assert ([c] + rest)[1..] == rest;
  }

  // ------------------------------------------------------------------ words and numbers

  /** A character that goes on with the token being read, `before` being the one before it. */
  predicate GoesOn(al: Alphabet, mode: Mode, before: int, c: int) {
    match mode
    case IdenMode => IsIdentTail(al, c)
    case IntMode => c in al.digits || (c == APOS && before != APOS)
    case HexMode => IsHex(c) || c == APOS
    case OctMode => IsOct(c) || c == APOS
    case BinMode => IsBin(c) || c == APOS
    case _ => false
  }

  predicate AllGoOn(al: Alphabet, mode: Mode, before: int, cs: seq<int>)
    decreases |cs|
  {
    cs == [] || (GoesOn(al, mode, before, cs[0]) && AllGoOn(al, mode, cs[0], cs[1..]))
  }

  function Last(buff: seq<int>): int {
    if buff == [] then 0 else buff[|buff| - 1]
  }

  lemma GoOn(al: Alphabet, f: Fields, c: int)
    requires Sane(al) && GoesOn(al, f.mode, Last(f.buff), c) && (f.mode.IntMode? ==> f.buff != [])
    ensures Process(al, f, c) == Fine(Count(Keep(f, c), c))
  {
  }

  lemma {:induction false} Scans(al: Alphabet, f: Fields, cs: seq<int>)
    requires Sane(al) && AllGoOn(al, f.mode, Last(f.buff), cs) && (f.mode.IntMode? ==> f.buff != [])
    ensures var r := ProcessAll(al, f, cs);
      r.Fine? && r.fields.mode == f.mode && r.fields.buff == f.buff + cs && Alike(f, r.fields)
    decreases |cs|
  {
    if cs == [] {
      assert f.buff + cs == f.buff;
    } else {
      GoOn(al, f, cs[0]);
      Scans(al, Process(al, f, cs[0]).fields, cs[1..]);
      assert f.buff + cs == f.buff + [cs[0]] + cs[1..];
    }
  }

  lemma {:induction false} Decimal(al: Alphabet, before: int, cs: seq<int>)
    requires cs != [] ==> GoesOn(al, IntMode, before, cs[0])
    requires forall i :: 0 < i < |cs| ==> GoesOn(al, IntMode, cs[i - 1], cs[i])
    ensures AllGoOn(al, IntMode, before, cs)
    decreases |cs|
  {
    if cs != [] {
      assert forall i :: 0 <= i < |cs[1..]| ==> cs[1..][i] == cs[i + 1];
      Decimal(al, cs[0], cs[1..]);
    }
  }

  lemma {:induction false} Uniform(al: Alphabet, mode: Mode, before: int, cs: seq<int>)
    requires !mode.IntMode? && forall i :: 0 <= i < |cs| ==> GoesOn(al, mode, 0, cs[i])
    ensures AllGoOn(al, mode, before, cs)
    decreases |cs|
  {
    if cs != [] {
      Uniform(al, mode, cs[0], cs[1..]);
    }
  }

  /** The kind of token a mode collects; none for the others. */
  function TokenOf(mode: Mode): Kind {
    match mode
    case IdenMode => IDENTIFIER
    case IntMode => INT_LITERAL
    case HexMode => HEX_LITERAL
    case OctMode => OCT_LITERAL
    case BinMode => BIN_LITERAL
    case _ => NONE
  }

  lemma BlankReports(al: Alphabet, f: Fields)
    requires Sane(al) && !TokenOf(f.mode).NONE? && (f.mode.IntMode? ==> f.buff != [])
    ensures Dispatch(al, f, BLANK) == ReportThen(al, f, TokenOf(f.mode), BLANK)
  {
  }

  lemma TokenEnds(al: Alphabet, f: Fields, kind: Kind)
    requires Sane(al) && Calm(f) && kind == TokenOf(f.mode) && !kind.NONE? && (f.mode.IntMode? ==> f.buff != [])
    ensures Reads(f, Word(kind, f.buff), ProcessAll(al, f, [BLANK]))
  {
    BlankReports(al, f);
    BlankEnds(al, f, kind);
  }

  lemma AlikeReads(f: Fields, g: Fields, w: Word, r: Lexed)
    requires Alike(f, g) && Reads(g, w, r)
    ensures Reads(f, w, r)
  {
  }

  /** The rest of a token, and the blank that ends it. */
  lemma ScansToBlank(al: Alphabet, f: Fields, cs: seq<int>, kind: Kind)
    requires Sane(al) && Calm(f) && AllGoOn(al, f.mode, Last(f.buff), cs) && (f.mode.IntMode? ==> f.buff != [])
    requires kind == TokenOf(f.mode) && !kind.NONE?
    ensures Reads(f, Word(kind, f.buff + cs), ProcessAll(al, f, cs + [BLANK]))
  {
    Scans(al, f, cs);
    var g := ProcessAll(al, f, cs).fields;
    ProcessTwo(al, f, cs, [BLANK]);
    TokenEnds(al, g, kind);
    AlikeReads(f, g, Word(kind, f.buff + cs), ProcessAll(al, g, [BLANK]));
  }

  lemma SplitFirst(cs: seq<int>)
    requires cs != []
    ensures cs == [cs[0]] + cs[1..] && cs + [BLANK] == [cs[0]] + (cs[1..] + [BLANK])
  {
  }

  lemma ReadsIdentifier(al: Alphabet, f: Fields, w: Word)
    requires Sane(al) && Calm(f) && f.mode.Start? && Proper(al, w) && w.kind.IDENTIFIER?
    ensures Reads(f, w, ProcessAll(al, f, Spell(w) + [BLANK]))
  {
    var c, rest := w.text[0], w.text[1..];
    SplitFirst(w.text);
    First(al, f, c, rest + [BLANK]);
    var g := Process(al, f, c).fields;
    Uniform(al, IdenMode, c, rest);
    ScansToBlank(al, g, rest, IDENTIFIER);
  }

  lemma ReadsInteger(al: Alphabet, f: Fields, w: Word)
    requires Sane(al) && Calm(f) && f.mode.Start? && Proper(al, w) && w.kind.INT_LITERAL?
    ensures Reads(f, w, ProcessAll(al, f, Spell(w) + [BLANK]))
  {
    var c, rest := w.text[0], w.text[1..];
    SplitFirst(w.text);
    First(al, f, c, rest + [BLANK]);
    var g := Process(al, f, c).fields;
    assert forall i :: 0 <= i < |rest| ==> rest[i] == w.text[i + 1];
    assert rest != [] ==> GoesOn(al, IntMode, c, w.text[1]);
    Decimal(al, c, rest);
    ScansToBlank(al, g, rest, INT_LITERAL);
  }

  function Radix(kind: Kind): int {
    if kind.HEX_LITERAL? then 120 else if kind.OCT_LITERAL? then 111 else 98
  }

  function RadixMode(kind: Kind): Mode {
    if kind.HEX_LITERAL? then HexMode else if kind.OCT_LITERAL? then OctMode else BinMode
  }

  lemma ReadsBased(al: Alphabet, f: Fields, w: Word)
    requires Sane(al) && Calm(f) && f.mode.Start? && Proper(al, w) && (w.kind.HEX_LITERAL? || w.kind.OCT_LITERAL? || w.kind.BIN_LITERAL?)
    ensures Reads(f, w, ProcessAll(al, f, Spell(w) + [BLANK]))
  {
    var rest := w.text + [BLANK];
    assert Spell(w) + [BLANK] == [48] + ([Radix(w.kind)] + rest);
    var h := OpensBased(al, f, w.kind, rest);
    Uniform(al, h.mode, 0, w.text);
    ScansToBlank(al, h, w.text, w.kind);
    assert [] + w.text == w.text;
  }

  /** The zero and the letter that announce a radix. */
  lemma OpensBased(al: Alphabet, f: Fields, kind: Kind, rest: seq<int>) returns (h: Fields)
    requires Sane(al) && f.mode.Start? && (kind.HEX_LITERAL? || kind.OCT_LITERAL? || kind.BIN_LITERAL?)
    ensures h.mode == RadixMode(kind) && h.buff == [] && Alike(f, h)
    ensures ProcessAll(al, f, [48] + ([Radix(kind)] + rest)) == ProcessAll(al, h, rest)
  {
    First(al, f, 48, [Radix(kind)] + rest);
    var g := Process(al, f, 48).fields;
    AnnouncesRadix(al, g, kind);
    First(al, g, Radix(kind), rest);
    h := Process(al, g, Radix(kind)).fields;
  }

  lemma AnnouncesRadix(al: Alphabet, g: Fields, kind: Kind)
    requires Sane(al) && g.mode.IntMode? && g.buff == [48] && (kind.HEX_LITERAL? || kind.OCT_LITERAL? || kind.BIN_LITERAL?)
    ensures var r := Process(al, g, Radix(kind)); r.Fine? && r.fields.mode == RadixMode(kind) && r.fields.buff == [] && Alike(g, r.fields)
  {
  }
}
