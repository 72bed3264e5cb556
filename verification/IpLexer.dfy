/** iprange/lex.go: from bytes to tokens. */
module IpLexer {
  import opened Utf8
  import opened IpRange
  import opened IpGrammar

  const EOF := 0

  /** goyacc's code for the token `num`, also a code point of the private use area */
  const NUM_CHAR := 57346

  predicate IsDigit(c: rune) { '0' as int <= c <= '9' as int }

  /** The rest of the lexer's input: a one-rune peek (0 for none) and the unread line. */
  datatype Cursor = Cursor(peek: rune, line: seq<byte>) {
    function Size(): nat { |line| + if peek != EOF then 1 else 0 }
  }

  /** next: the peeked rune, else the next rune of the line, skipping invalid bytes, else end of input. */
  function Next(cur: Cursor): (r: (rune, Cursor))
    ensures r.0 != EOF ==> r.1.Size() < cur.Size()
    ensures r.1.Size() <= cur.Size() && r.1.peek == EOF
    decreases cur.Size()
  {
    if cur.peek != EOF then (cur.peek, cur.(peek := EOF))
    else if cur.line == [] then (EOF, cur)
    else
      var d := DecodeRune(cur.line);
      var rest := Cursor(EOF, cur.line[d.size..]);
      if d.r == RUNE_ERROR && d.size == 1 then Next(rest) else (d.r, rest)
  }

  /** The digits that follow, and the rune and cursor after them. */
  function Digits(cur: Cursor): (r: (seq<rune>, rune, Cursor))
    ensures r.2.Size() <= cur.Size() && r.2.peek == EOF
    ensures r.1 != EOF ==> r.2.Size() < cur.Size()
    ensures forall i :: 0 <= i < |r.0| ==> IsDigit(r.0[i])
    decreases cur.Size()
  {
    var (c, rest) := Next(cur);
    if IsDigit(c) then
      var (ds, c', rest') := Digits(rest);
      ([c] + ds, c', rest')
    else ([], c, rest)
  }

  /** The value of a decimal numeral; strconv.ParseUint(_, 10, 32) fails when it does not fit 32 bits. */
  function Numeral(ds: seq<rune>): int {
    if ds == [] then 0 else 10 * Numeral(ds[..|ds| - 1]) + (ds[|ds| - 1] - '0' as int)
  }

  lemma {:induction false} NumeralIsNat(ds: seq<rune>)
    requires forall i :: 0 <= i < |ds| ==> IsDigit(ds[i])
    ensures Numeral(ds) >= 0
  {
    if ds != [] { NumeralIsNat(ds[..|ds| - 1]); }
  }

  /** What one call of Lex does: the character code, the cursor after it, and the number left in yylval. */
  datatype Lexed = Lexed(code: int, cur: Cursor, num: octet)

  function LexAt(cur: Cursor, num: octet): (r: Lexed)
    ensures r.code > 0 ==> r.cur.Size() < cur.Size()
  {
    var (c, rest) := Next(cur);
    if IsDigit(c) then
      var (ds, c', rest') := Digits(rest);
      NumeralIsNat([c] + ds);
      var n := Numeral([c] + ds);
      var after := if c' != EOF then Cursor(c', rest'.line) else rest';
      if n >= 0x1_0000_0000 then Lexed(EOF, after, num) else Lexed(NUM_CHAR, after, n % 256)
    else Lexed(c, rest, num)
  }

  /** The table ipTok1 of 48 entries: 1 at 0, 3 (unknown) except for the grammar's six characters. */
  function Tok1(code: int): int
    requires 0 <= code < 48
  {
    match code
    case 0 => END case 32 => SPACE case 42 => STAR case 44 => COMMA case 45 => DASH case 46 => DOT case 47 => SLASH
    case _ => 3
  }

  const TOK2: seq<int> := [2, 3, 4]
  const PRIVATE := 57344

  /** iplex1: the parser's number for a character code. Code points 57344 and 57346 of the private use area
      collide with goyacc's codes for `error` and `num`. */
  function TokenKind(code: int): (k: int)
    ensures k == END <==> code <= 0
    ensures code > 0 ==> 2 <= k <= 10
  {
    if code <= 0 then Tok1(0)
    else if code < 48 then Tok1(code)
    else if PRIVATE <= code < PRIVATE + |TOK2| then TOK2[code - PRIVATE]
    else TOK2[1]
  }

  /** The tokens the parser can read, up to the first end of input. */
  function Tokens(cur: Cursor, num: octet): seq<Token>
    decreases cur.Size()
  {
    var l := LexAt(cur, num);
    if TokenKind(l.code) == END then []
    else [if TokenKind(l.code) == NUM then Num(l.num) else Punct(TokenKind(l.code))] + Tokens(l.cur, l.num)
  }

  /** Of the digits from `start` on, `seen` have been read and then `c`. */
  ghost predicate Reading(start: Cursor, seen: seq<rune>, c: rune, cur: Cursor) {
    var (ds, end, rest) := Digits(start);
    if IsDigit(c) then
      var (ds', end', rest') := Digits(cur);
      ds == seen + ([c] + ds') && end == end' && rest == rest'
    else
      ds == seen && end == c && rest == cur
  }

  lemma ReadingStep(start: Cursor, seen: seq<rune>, c: rune, cur: Cursor)
    requires Reading(start, seen, c, cur) && IsDigit(c)
    ensures Reading(start, seen + [c], Next(cur).0, Next(cur).1)
  {
  }

  /** The lexer object, which also carries the parser's output. */
  class IpLex {
    var line: seq<byte>
    var peek: rune
    var output: seq<AddressRange>
    var failed: bool

    constructor (line: seq<byte>)
      ensures Cur() == Cursor(EOF, line) && output == [] && !failed
    {
      this.line, peek, output, failed := line, EOF, [], false;
    }

    function Cur(): Cursor
      reads this
    {
      Cursor(peek, line)
    }

    method ReadRune() returns (c: rune)
      modifies this`line, this`peek
      ensures (c, Cur()) == Next(old(Cur()))
      decreases Cur().Size()
    {
      if peek != EOF {
        c := peek;
        peek := EOF;
        return;
      }
      if |line| == 0 {
        return EOF;
      }
      var d := DecodeRune(line);
      line := line[d.size..];
      if d.r == RUNE_ERROR && d.size == 1 {
        c := ReadRune();
        return;
      }
      return d.r;
    }

    /** `byte`: the rest of a number that starts with the digit `c`; fails on more than 32 bits, else keeps 8. */
    method ReadNumber(c: rune, num: octet) returns (code: int, num': octet)
      requires IsDigit(c)
      modifies this`line, this`peek
      ensures var (ds, c', rest) := Digits(old(Cur()));
              var n := Numeral([c] + ds);
              Cur() == (if c' != EOF then Cursor(c', rest.line) else rest) &&
              code == (if n >= 0x1_0000_0000 then EOF else NUM_CHAR) &&
              num' == if n >= 0x1_0000_0000 then num else n % 256
    {
      var b := [c];
      ghost var start := Cur();
      var c' := ReadRune();
      ghost var seen := [];
      while IsDigit(c')
        invariant b == [c] + seen && forall i :: 0 <= i < |seen| ==> IsDigit(seen[i])
        invariant peek == EOF
        invariant Reading(start, seen, c', Cur())
        decreases Cur().Size() + if IsDigit(c') then 1 else 0
      {
        ReadingStep(start, seen, c', Cur());
        b := b + [c'];
        seen := seen + [c'];
        c' := ReadRune();
      }
      if c' != EOF {
        peek := c';
      }
      NumeralIsNat(b);
      var octets := Numeral(b);
      if octets >= 0x1_0000_0000 {
        return EOF, num;
      }
      return NUM_CHAR, octets % 256;
    }

    method Lex(num: octet) returns (code: int, num': octet)
      modifies this`line, this`peek
      ensures Lexed(code, Cur(), num') == LexAt(old(Cur()), num)
    {
      var c := ReadRune();
      if IsDigit(c) {
        code, num' := ReadNumber(c, num);
      } else {
        code, num' := c, num;
      }
    }
  }
}
