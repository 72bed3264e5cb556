/** Writing a list of targets as text and parsing it gives back the ranges of the list. */
module IpRoundTrip {
  import opened Seqs
  import opened Utf8
  import opened Decimals
  import opened IpRange
  import opened IpGrammar
  import opened IpDrive
  import IpComplete
  import opened IpLexer
  import opened IpTheorems

  function RenderTerm(t: Term): seq<byte> {
    match t
    case Single(n) => Decimal(n)
    case Any => [42]
    case Span(lo, hi) => Decimal(lo) + ([45] + Decimal(hi))
  }

  function RenderAddress(a: Address): seq<byte> {
    RenderTerm(a.a) + ([46] + (RenderTerm(a.b) + ([46] + (RenderTerm(a.c) + ([46] + RenderTerm(a.d))))))
  }

  function RenderTarget(t: Target): seq<byte> {
    if t.Plain? then RenderAddress(t.addr) else RenderAddress(t.addr) + ([47] + Decimal(t.bits))
  }

  function RenderComma(spaced: bool): seq<byte> { if spaced then [44] + [32] else [44] }

  function Render(r: Result): seq<byte> {
    match r
    case One(t) => RenderTarget(t)
    case More(r, spaced, t) => Render(r) + (RenderComma(spaced) + RenderTarget(t))
  }

  function TokensOf(text: seq<byte>, num: octet): seq<Token> { Tokens(Cursor(EOF, text), num) }

  /** `rest` cannot prolong a number. */
  predicate Delimits(rest: seq<byte>) {
    rest != [] ==> 0 < rest[0] < 128 && !IsDigit(rest[0])
  }

  lemma AsciiDecodes(c: byte, rest: seq<byte>)
    requires c < 128
    ensures DecodeRune([c] + rest) == Decoded(c, 1) && ([c] + rest)[1..] == rest
  {
  }

  lemma NextAscii(c: byte, rest: seq<byte>)
    requires 0 < c < 128
    ensures Next(Cursor(EOF, [c] + rest)) == (c, Cursor(EOF, rest))
  {
  }

  /** A peeked rune reads like the first byte of the line. */
  lemma PeekIsFirst(c: byte, rest: seq<byte>, num: octet)
    requires 0 < c < 128
    ensures Tokens(Cursor(c, rest), num) == TokensOf([c] + rest, num)
  {
  }

  lemma PunctText(c: byte, rest: seq<byte>, num: octet)
    requires c in {32, 42, 44, 45, 46, 47}
    ensures TokensOf([c] + rest, num) == [Punct(TokenKind(c))] + TokensOf(rest, num)
  {
  }

  predicate AllDigits(ds: seq<byte>) { forall i :: 0 <= i < |ds| ==> IsDigit(ds[i]) }

  /** The cursor left behind after reading the first rune of `rest`. */
  function AfterFirst(rest: seq<byte>): Cursor { Cursor(EOF, if rest == [] then [] else rest[1..]) }

  lemma {:induction false} DigitsText(ds: seq<byte>, rest: seq<byte>)
    requires AllDigits(ds) && Delimits(rest)
    ensures Digits(Cursor(EOF, ds + rest)) == (ds, if rest == [] then EOF else rest[0], AfterFirst(rest))
  {
    if ds == [] {
      All(rest);
      if rest != [] {
        NextAscii(rest[0], rest[1..]);
        Head(rest);
      }
    } else {
      NextAscii(ds[0], ds[1..] + rest);
      Head(ds);
      Assoc([ds[0]], ds[1..], rest);
      DigitsText(ds[1..], rest);
    }
  }

  /** What the lexer makes of the number `n`: a byte, or the end of the input when it has more than 32 bits. */
  function LexedNumber(n: nat, cur: Cursor, num: octet): Lexed {
    if n < 0x1_0000_0000 then Lexed(NUM_CHAR, cur, n % 256) else Lexed(EOF, cur, num)
  }

  /** What lexing a number does, given what its digits scan to. */
  lemma NumberLexes(ds: seq<byte>, n: nat, tail: seq<byte>, num: octet, c: rune, after: Cursor)
    requires ds != [] && AllDigits(ds) && Numeral(ds) == n
    requires Digits(Cursor(EOF, ds[1..] + tail)) == (ds[1..], c, after)
    ensures LexAt(Cursor(EOF, ds + tail), num) ==
      LexedNumber(n, if c != EOF then Cursor(c, after.line) else after, num)
  {
    FirstDigit(ds, tail);
    LexDigits(Cursor(EOF, ds + tail), num, ds[0], Cursor(EOF, ds[1..] + tail), ds[1..], c, after, n);
  }

  lemma FirstDigit(ds: seq<byte>, tail: seq<byte>)
    requires ds != [] && AllDigits(ds)
    ensures Next(Cursor(EOF, ds + tail)) == (ds[0], Cursor(EOF, ds[1..] + tail)) && [ds[0]] + ds[1..] == ds
  {
    Head(ds);
    Assoc([ds[0]], ds[1..], tail);
    NextAscii(ds[0], ds[1..] + tail);
  }

  lemma LexDigits(cur: Cursor, num: octet, d: rune, rest: Cursor, ds: seq<rune>, c: rune, after: Cursor, n: nat)
    requires Next(cur) == (d, rest) && IsDigit(d) && Digits(rest) == (ds, c, after) && Numeral([d] + ds) == n
    ensures LexAt(cur, num) == LexedNumber(n, if c != EOF then Cursor(c, after.line) else after, num)
  {
  }

  /** Any run of digits counts modulo 256, and one that stands for more than 32 bits ends the input. */
  lemma DigitsToken(ds: seq<byte>, n: nat, rest: seq<byte>, num: octet)
    requires ds != [] && AllDigits(ds) && Numeral(ds) == n && Delimits(rest)
    ensures TokensOf(ds + rest, num) ==
      if n < 0x1_0000_0000 then [Num(n % 256)] + TokensOf(rest, n % 256) else []
  {
    DigitsText(ds[1..], rest);
    NumberLexes(ds, n, rest, num, if rest == [] then EOF else rest[0], AfterFirst(rest));
    if rest != [] {
      PeekIsFirst(rest[0], rest[1..], n % 256);
      Head(rest);
    }
  }

  /** Any number, as it is written in base ten. */
  lemma NumText(n: nat, rest: seq<byte>, num: octet)
    requires Delimits(rest)
    ensures TokensOf(Decimal(n) + rest, num) ==
      if n < 0x1_0000_0000 then [Num(n % 256)] + TokensOf(rest, n % 256) else []
  {
    RenderedValue(n);
    DigitsToken(Decimal(n), n, rest, num);
  }

  lemma OctetText(n: octet, rest: seq<byte>, num: octet)
    requires Delimits(rest)
    ensures TokensOf(Decimal(n) + rest, num) == [Num(n)] + TokensOf(rest, n)
  {
    RenderedValue(n);
    OctetDigits(Decimal(n), n, rest, num);
  }

  lemma OctetDigits(ds: seq<byte>, n: octet, rest: seq<byte>, num: octet)
    requires ds != [] && AllDigits(ds) && Numeral(ds) == n && Delimits(rest)
    ensures TokensOf(ds + rest, num) == [Num(n)] + TokensOf(rest, n)
  {
    OctetIsSmall(n);
    DigitsToken(ds, n, rest, num);
  }

  lemma OctetIsSmall(n: octet)
    ensures n % 256 == n < 0x1_0000_0000
  {
  }

  lemma {:induction false} RenderedValue(n: nat)
    ensures AllDigits(Decimal(n)) && Numeral(Decimal(n)) == n
  {
    DecimalDigits(n);
    if n >= 10 {
      RenderedValue(n / 10);
      assert Decimal(n)[..|Decimal(n)| - 1] == Decimal(n / 10);
    }
  }

  lemma TermText(t: Term, rest: seq<byte>, num: octet) returns (num': octet)
    requires Delimits(rest)
    ensures TokensOf(RenderTerm(t) + rest, num) == YieldTerm(t) + TokensOf(rest, num')
  {
    match t
    case Single(n) =>
      OctetText(n, rest, num);
      num' := n;
    case Any =>
      PunctText(42, rest, num);
      num' := num;
    case Span(lo, hi) =>
      var tail := Decimal(hi) + rest;
      Assoc(Decimal(lo), [45] + Decimal(hi), rest);
      Assoc([45], Decimal(hi), rest);
      OctetText(lo, [45] + tail, num);
      PunctText(45, tail, lo);
      OctetText(hi, rest, lo);
      Three(Num(lo), Punct(DASH), Num(hi), TokensOf(rest, hi));
      num' := hi;
  }

  /** A term, a dot and what follows. */
  lemma DottedText(t: Term, text: seq<byte>, rest: seq<byte>, num: octet) returns (num': octet)
    ensures TokensOf((RenderTerm(t) + ([46] + text)) + rest, num) ==
            YieldTerm(t) + ([Punct(DOT)] + TokensOf(text + rest, num'))
  {
    Assoc(RenderTerm(t), [46] + text, rest);
    Assoc([46], text, rest);
    num' := TermText(t, [46] + (text + rest), num);
    PunctText(46, text + rest, num');
  }

  lemma AddressText(a: Address, rest: seq<byte>, num: octet) returns (num': octet)
    requires Delimits(rest)
    ensures TokensOf(RenderAddress(a) + rest, num) == YieldAddress(a) + TokensOf(rest, num')
  {
    var t3 := RenderTerm(a.d);
    var t2 := RenderTerm(a.c) + ([46] + t3);
    var t1 := RenderTerm(a.b) + ([46] + t2);
    var n1 := DottedText(a.a, t1, rest, num);
    var n2 := DottedText(a.b, t2, rest, n1);
    var n3 := DottedText(a.c, t3, rest, n2);
    num' := TermText(a.d, rest, n3);
    var tail := TokensOf(rest, num');
    var y3 := YieldTerm(a.d);
    var y2 := YieldTerm(a.c) + ([Punct(DOT)] + y3);
    var y1 := YieldTerm(a.b) + ([Punct(DOT)] + y2);
    DotsAssoc(YieldTerm(a.c), y3, tail);
    DotsAssoc(YieldTerm(a.b), y2, tail);
    DotsAssoc(YieldTerm(a.a), y1, tail);
  }

  lemma DotsAssoc(t: seq<Token>, more: seq<Token>, rest: seq<Token>)
    ensures (t + ([Punct(DOT)] + more)) + rest == t + ([Punct(DOT)] + (more + rest))
  {
  }

  lemma TargetText(t: Target, rest: seq<byte>, num: octet) returns (num': octet)
    requires Delimits(rest)
    ensures TokensOf(RenderTarget(t) + rest, num) == YieldTarget(t) + TokensOf(rest, num')
  {
    if t.Plain? {
      num' := AddressText(t.addr, rest, num);
    } else {
      var tail := Decimal(t.bits) + rest;
      Assoc(RenderAddress(t.addr), [47] + Decimal(t.bits), rest);
      Assoc([47], Decimal(t.bits), rest);
      var n := AddressText(t.addr, [47] + tail, num);
      PunctText(47, tail, n);
      OctetText(t.bits, rest, n);
      num' := t.bits;
      Two(Punct(SLASH), Num(t.bits), TokensOf(rest, num'));
      Assoc(YieldAddress(t.addr), [Punct(SLASH), Num(t.bits)], TokensOf(rest, num'));
    }
  }

  lemma CommaText(spaced: bool, rest: seq<byte>, num: octet)
    ensures TokensOf(RenderComma(spaced) + rest, num) == YieldComma(spaced) + TokensOf(rest, num)
    ensures Delimits(RenderComma(spaced) + rest)
  {
    if spaced {
      Assoc([44], [32], rest);
      PunctText(44, [32] + rest, num);
      PunctText(32, rest, num);
      Two(Punct(COMMA), Punct(SPACE), TokensOf(rest, num));
    } else {
      PunctText(44, rest, num);
    }
  }

  lemma {:induction false} ResultText(r: Result, rest: seq<byte>, num: octet) returns (num': octet)
    requires Delimits(rest)
    ensures TokensOf(Render(r) + rest, num) == Yield(r) + TokensOf(rest, num')
  {
    if r.One? {
      num' := TargetText(r.t, rest, num);
    } else {
      var tail := RenderTarget(r.t) + rest;
      CommaText(r.spaced, tail, 0);
      Assoc(Render(r.r), RenderComma(r.spaced) + RenderTarget(r.t), rest);
      Assoc(RenderComma(r.spaced), RenderTarget(r.t), rest);
      var n := ResultText(r.r, RenderComma(r.spaced) + tail, num);
      CommaText(r.spaced, tail, n);
      num' := TargetText(r.t, rest, n);
      Assoc(YieldComma(r.spaced), YieldTarget(r.t), TokensOf(rest, num'));
      Assoc(Yield(r.r), YieldComma(r.spaced) + YieldTarget(r.t), TokensOf(rest, num'));
    }
  }

  /** The text of any list of targets is read as its tokens; with prefixes up to 32 it denotes its ranges. */
  lemma RoundTrip(r: Result)
    ensures TokensOf(Render(r), 0) == Yield(r)
    ensures Ok(r) ==> Derives(TokensOf(Render(r), 0), Denote(r))
  {
    All(Render(r));
    var num := ResultText(r, [], 0);
    All(Yield(r));
    assert TokensOf([], num) == [];
  }

  /** A list denotes its own ranges and no others, so parsing the text of `r` can give nothing else. */
  lemma RoundTripIsExact(r: Result, output: seq<AddressRange>)
    requires Ok(r)
    ensures Derives(TokensOf(Render(r), 0), output) <==> output == Denote(r)
  {
    RoundTrip(r);
    var tokens := TokensOf(Render(r), 0);
    if Derives(tokens, output) {
      assert ValidTokens(tokens) by { YieldIsValid(r); }
      AcceptsExactlyTheGrammar(tokens, output);
      AcceptsExactlyTheGrammar(tokens, Denote(r));
    }
  }

  lemma {:induction false} YieldIsValid(r: Result)
    ensures ValidTokens(Yield(r))
  {
    IpComplete.ValidTarget(r.t, []);
    All(YieldTarget(r.t));
    if r.More? {
      YieldIsValid(r.r);
    }
  }

  /** A character that is no part of any target list reads as a token that no derivation has. */
  lemma StrayCharacter(c: byte, rest: seq<byte>, num: octet)
    requires 0 < c < 128 && !IsDigit(c) && c !in {32, 42, 44, 45, 46, 47}
    ensures TokensOf([c] + rest, num) == [Punct(3)] + TokensOf(rest, num)
  {
    NextAscii(c, rest);
    StrayKind(c);
    assert LexAt(Cursor(EOF, [c] + rest), num) == Lexed(c, Cursor(EOF, rest), num);
  }

  lemma StrayKind(c: byte)
    requires 0 < c < 128 && !IsDigit(c) && c !in {32, 42, 44, 45, 46, 47}
    ensures TokenKind(c) == 3
  {
  }

  /**
   * Beyond ASCII: two code points of the private use area read as the error token and as a number with the
   * value read last, every other character as a stray one.
   */
  lemma OtherCharacter(r: rune, rest: seq<byte>, num: octet)
    requires IsScalar(r) && r >= 0x80
    ensures TokensOf(EncodeRune(r) + rest, num) ==
      [if r == 0xE000 then Punct(2) else if r == 0xE002 then Num(num) else Punct(3)] +
      TokensOf(rest, num)
  {
    DecodeAfterEncode(r, rest);
    var text := EncodeRune(r) + rest;
    assert text[|EncodeRune(r)|..] == rest;
    OneToken(text, r, rest, num);
  }

  lemma OneToken(text: seq<byte>, r: rune, rest: seq<byte>, num: octet)
    requires text != [] && DecodeRune(text) != INVALID && DecodeRune(text).r == r >= 0x80
    requires text[DecodeRune(text).size..] == rest
    ensures TokensOf(text, num) == [if TokenKind(r) == NUM then Num(num) else Punct(TokenKind(r))] + TokensOf(rest, num)
  {
    assert Next(Cursor(EOF, text)) == (r, Cursor(EOF, rest));
    assert LexAt(Cursor(EOF, text), num) == Lexed(r, Cursor(EOF, rest), num);
  }

  /** A byte that is no part of a character is skipped. */
  lemma InvalidByteIsSkipped(text: seq<byte>, num: octet)
    requires text != [] && !IsUtf8Char(text[..CharLength(text)])
    ensures TokensOf(text, num) == TokensOf(text[1..], num)
  {
    DecodeAdvances(text);
    assert Next(Cursor(EOF, text)) == Next(Cursor(EOF, text[1..]));
    assert LexAt(Cursor(EOF, text), num) == LexAt(Cursor(EOF, text[1..]), num);
  }

  lemma StrayIsRejected(tokens: seq<Token>, output: seq<AddressRange>)
    requires Punct(2) in tokens || Punct(3) in tokens
    ensures !Derives(tokens, output)
  {
    forall r | Yield(r) == tokens ensures false { YieldIsClean(r); }
  }

  predicate Clean(tokens: seq<Token>) { forall i :: 0 <= i < |tokens| ==> tokens[i].Num? || tokens[i].kind >= COMMA }

  lemma CleanConcat(a: seq<Token>, b: seq<Token>)
    requires Clean(a) && Clean(b)
    ensures Clean(a + b)
  {
  }

  lemma AddressIsClean(a: Address)
    ensures Clean(YieldAddress(a))
  {
    var dot := [Punct(DOT)];
    CleanConcat(dot, YieldTerm(a.d));
    CleanConcat(YieldTerm(a.c), dot + YieldTerm(a.d));
    CleanConcat(dot, YieldTerm(a.c) + (dot + YieldTerm(a.d)));
    CleanConcat(YieldTerm(a.b), dot + (YieldTerm(a.c) + (dot + YieldTerm(a.d))));
    CleanConcat(dot, YieldTerm(a.b) + (dot + (YieldTerm(a.c) + (dot + YieldTerm(a.d)))));
    CleanConcat(YieldTerm(a.a), dot + (YieldTerm(a.b) + (dot + (YieldTerm(a.c) + (dot + YieldTerm(a.d))))));
  }

  lemma {:induction false} YieldIsClean(r: Result)
    ensures Clean(Yield(r))
  {
    AddressIsClean(r.t.addr);
    if r.t.Block? { CleanConcat(YieldAddress(r.t.addr), [Punct(SLASH), Num(r.t.bits)]); }
    if r.More? {
      YieldIsClean(r.r);
      CleanConcat(YieldComma(r.spaced), YieldTarget(r.t));
      CleanConcat(Yield(r.r), YieldComma(r.spaced) + YieldTarget(r.t));
    }
  }

  /** A quirk of the lexer: a NUL byte right after a number disappears instead of ending the input. */
  lemma NulAfterNumberVanishes(n: octet, rest: seq<byte>, num: octet)
    ensures TokensOf(Decimal(n) + ([0] + rest), num) == [Num(n)] + TokensOf(rest, n)
  {
    RenderedValue(n);
    NulAfterDigits(Decimal(n), n, rest, num);
  }

  lemma NulAfterDigits(ds: seq<byte>, n: octet, rest: seq<byte>, num: octet)
    requires ds != [] && AllDigits(ds) && Numeral(ds) == n
    ensures TokensOf(ds + ([0] + rest), num) == [Num(n)] + TokensOf(rest, n)
  {
    OctetIsSmall(n);
    DigitsThenNul(ds[1..], rest);
    NumberLexes(ds, n, [0] + rest, num, EOF, Cursor(EOF, rest));
    FirstToken(Cursor(EOF, ds + ([0] + rest)), num, Cursor(EOF, rest), n);
  }

  lemma FirstToken(cur: Cursor, num: octet, after: Cursor, n: octet)
    requires LexAt(cur, num) == Lexed(NUM_CHAR, after, n)
    ensures Tokens(cur, num) == [Num(n)] + Tokens(after, n)
  {
  }

  /** Anywhere else a NUL byte ends the input, whatever follows it. */
  lemma NulEndsInput(rest: seq<byte>, num: octet)
    ensures TokensOf([0] + rest, num) == []
  {
    AsciiDecodes(0, rest);
  }

  lemma {:induction false} DigitsThenNul(ds: seq<byte>, rest: seq<byte>)
    requires AllDigits(ds)
    ensures Digits(Cursor(EOF, ds + ([0] + rest))) == (ds, EOF, Cursor(EOF, rest))
  {
    if ds == [] {
      All([0] + rest);
      AsciiDecodes(0, rest);
    } else {
      NextAscii(ds[0], ds[1..] + ([0] + rest));
      Head(ds);
      Assoc([ds[0]], ds[1..], [0] + rest);
      DigitsThenNul(ds[1..], rest);
    }
  }
}
