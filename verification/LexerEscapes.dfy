/** Escapes in literals: what each denotes, and that every character can be written as one. */
module LexerEscapes {
  import opened Syntax
  import opened Lexer
  import opened LexerWords

  /** The letters that stand for a control character. */
  const CONTROLS: map<int, int> := map[110 := 10, 114 := 13, 116 := 9, 98 := 8, 97 := 7, 102 := 12, 118 := 11, 101 := 27]

  /** A character, or the digits of its number: their base, how many there are, and those seen. */
  datatype Denoted = Char(v: int) | Digits(base: nat, need: nat, seen: seq<int>)

  function Denotes(c: int): Denoted {
    if c in CONTROLS then Char(CONTROLS[c])
    else if 48 <= c <= 55 then Digits(8, 3, [c])
    else if c == 120 then Digits(16, 2, [])
    else if c == 117 then Digits(16, 4, [])
    else if c == 85 then Digits(16, 8, [])
    else Char(c)
  }

  /** The character after a backslash. */
  lemma EscapeTable(f: Fields, c: int)
    ensures var d := Denotes(c);
      EscapeInput(f, c) == Fine(if d.Char? then Append(f, d.v) else f.(escape := Numeric(d.base, d.need, d.seen)))
  {
  }

  predicate IsDigit(base: nat, c: int) {
    if base == 8 then IsOct(c) else IsHex(c)
  }

  predicate AreDigits(base: nat, cs: seq<int>) {
    forall i :: 0 <= i < |cs| ==> IsDigit(base, cs[i])
  }

  /** Inside a literal, with these digits of a numeric escape seen. */
  predicate Counting(f: Fields, base: nat, need: nat, seen: seq<int>) {
    (f.mode.StrMode? || f.mode.ChrMode?) && f.escape == Numeric(base, need, seen)
  }

  /** The text has grown by one character. */
  predicate Gained(f: Fields, r: Lexed, v: int) {
    && r.Fine? && r.fields.mode == f.mode && r.fields.escape.NoEscape? && r.fields.text == f.text + [v]
    && r.fields.textPresent == f.textPresent && r.fields.out == f.out
  }

  predicate GainedNothing(f: Fields, g: Fields) {
    g.mode == f.mode && g.text == f.text && g.textPresent == f.textPresent && g.out == f.out
  }

  lemma DigitStep(al: Alphabet, f: Fields, base: nat, need: nat, seen: seq<int>, c: int)
    requires Counting(f, base, need, seen) && IsDigit(base, c) && (base == 8 || base == 16)
    ensures var r := Process(al, f, c);
      if |seen| + 1 == need then Gained(f, r, WideChar(Number(base, seen + [c])))
      else r.Fine? && Counting(r.fields, base, need, seen + [c]) && GainedNothing(f, r.fields)
  {
  }

  /** All digits of a numeric escape give the character of that number. */
  lemma {:induction false} NumericEscape(al: Alphabet, f: Fields, base: nat, need: nat, seen: seq<int>, rest: seq<int>)
    requires Counting(f, base, need, seen) && AreDigits(base, rest) && (base == 8 || base == 16)
    requires |seen| + |rest| == need && rest != []
    ensures Gained(f, ProcessAll(al, f, rest), WideChar(Number(base, seen + rest)))
    decreases |rest|
  {
    var c, tail := rest[0], rest[1..];
    assert rest == [c] + tail;
    First(al, f, c, tail);
    DigitStep(al, f, base, need, seen, c);
    if tail != [] {
      NumericEscape(al, Process(al, f, c).fields, base, need, seen + [c], tail);
      assert seen + [c] + tail == seen + rest;
    } else {
      assert seen + [c] == seen + rest;
    }
  }

  // ------------------------------------------------------------------ writing a character as an escape

  function Digit(d: nat): int
    requires d < 16
  {
    if d < 10 then 48 + d else 87 + d
  }

  /** `n` hexadecimal digits. */
  function Hex(v: nat, n: nat): (r: seq<int>)
    ensures |r| == n && AreDigits(16, r)
    decreases n
  {
    if n == 0 then [] else Hex(v / 16, n - 1) + [Digit(v % 16)]
  }

  function Power(n: nat): nat {
    if n == 0 then 1 else 16 * Power(n - 1)
  }

  lemma {:induction false} HexIsRead(v: nat, n: nat)
    requires v < Power(n)
    ensures Number(16, Hex(v, n)) == v
    decreases n
  {
    if n > 0 {
      HexIsRead(v / 16, n - 1);
      assert Hex(v, n)[..n - 1] == Hex(v / 16, n - 1);
    }
  }

  /** The three hexadecimal forms: \x, \u and \U. */
  function Mark(n: nat): int {
    if n == 2 then 120 else if n == 4 then 117 else 85
  }

  lemma MarkStep(al: Alphabet, f: Fields, n: nat)
    requires (f.mode.StrMode? || f.mode.ChrMode?) && f.escape.NoEscape? && (n == 2 || n == 4 || n == 8)
    ensures var r := ProcessAll(al, f, [BKSL] + [Mark(n)]);
      r.Fine? && Counting(r.fields, 16, n, []) && GainedNothing(f, r.fields)
  {
    First(al, f, BKSL, [Mark(n)]);
    var g := Process(al, f, BKSL).fields;
    assert g.escape.Escaped? && GainedNothing(f, g);
    ProcessOne(al, g, Mark(n));
    EscapeTable(g, Mark(n));
    assert Denotes(Mark(n)) == Digits(16, n, []);
  }

  /** A character written as a numeric escape of so many digits is read back. */
  lemma EscapeRoundTrip(al: Alphabet, f: Fields, v: nat, n: nat)
    requires (f.mode.StrMode? || f.mode.ChrMode?) && f.escape.NoEscape?
    requires (n == 2 || n == 4 || n == 8) && v < Power(n) && v < 0x8000_0000
    ensures Gained(f, ProcessAll(al, f, [BKSL] + [Mark(n)] + Hex(v, n)), v)
  {
    MarkStep(al, f, n);
    ProcessTwo(al, f, [BKSL] + [Mark(n)], Hex(v, n));
    var g := ProcessAll(al, f, [BKSL] + [Mark(n)]).fields;
    HexIsRead(v, n);
    assert [] + Hex(v, n) == Hex(v, n);
    NumericEscape(al, g, 16, n, [], Hex(v, n));
  }
}
