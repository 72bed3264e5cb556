/** The decoder and encoder of Go's unicode/utf8 (sections 3 and 4 of RFC 3629), on bytes given as integers. */
module Utf8 {
  type byte = x: int | 0 <= x < 256
  type rune = nat

  const RUNE_ERROR: rune := 0xFFFD
  const UTF_MAX := 4

  datatype Decoded = Decoded(r: rune, size: nat)

  /** What a decoder reports for a byte that starts no encoding. */
  const INVALID := Decoded(RUNE_ERROR, 1)

  /** The length of an encoding announced by its first byte; 0 for bytes that start none. */
  function Announced(b: byte): nat {
    if b < 0x80 then 1
    else if 0xC2 <= b <= 0xDF then 2
    else if 0xE0 <= b <= 0xEF then 3
    else if 0xF0 <= b <= 0xF4 then 4
    else 0
  }

  predicate Continues(b: byte) { 0x80 <= b <= 0xBF }

  /** RuneStart: anything but a continuation byte. */
  predicate RuneStart(b: byte) { !Continues(b) }

  /** The bytes allowed second, which rule out overlong forms, surrogates and runes above 0x10FFFF. */
  predicate AcceptsSecond(first: byte, b: byte) {
    Continues(b) && (first == 0xE0 ==> b >= 0xA0) && (first == 0xED ==> b <= 0x9F) &&
    (first == 0xF0 ==> b >= 0x90) && (first == 0xF4 ==> b <= 0x8F)
  }

  function Bits(b: byte, base: int): int { b - base }

  /** Six more bits from a continuation byte. */
  function Join(high: int, b: byte): int { high * 64 + Bits(b, 0x80) }

  /** utf8.DecodeRune */
  function DecodeRune(s: seq<byte>): (d: Decoded)
    ensures s != [] ==> 1 <= d.size <= |s| && d.size <= UTF_MAX
  {
    if s == [] then Decoded(RUNE_ERROR, 0)
    else
      var n := Announced(s[0]);
      if n == 1 then Decoded(s[0], 1)
      else if n == 0 || |s| < n || !AcceptsSecond(s[0], s[1]) then INVALID
      else if n == 2 then Decoded(Join(Bits(s[0], 0xC0), s[1]), 2)
      else if !Continues(s[2]) then INVALID
      else if n == 3 then Decoded(Join(Join(Bits(s[0], 0xE0), s[1]), s[2]), 3)
      else if !Continues(s[3]) then INVALID
      else Decoded(Join(Join(Join(Bits(s[0], 0xF0), s[1]), s[2]), s[3]), 4)
  }

  /** The search of utf8.DecodeLastRune: the last rune start at or before `start` and not before `lim`. */
  function FindStart(s: seq<byte>, start: int, lim: int): (r: int)
    requires 0 <= lim <= start + 1 <= |s|
    ensures lim - 1 <= r <= start
    ensures r >= lim ==> RuneStart(s[r])
    ensures forall i :: r < i <= start ==> Continues(s[i])
    decreases start
  {
    if start < lim || RuneStart(s[start]) then start else FindStart(s, start - 1, lim)
  }

  /** utf8.DecodeLastRune */
  function DecodeLastRune(s: seq<byte>): (d: Decoded)
    ensures s != [] ==> 1 <= d.size <= |s|
  {
    var end := |s|;
    if end == 0 then Decoded(RUNE_ERROR, 0)
    else if s[end - 1] < 0x80 then Decoded(s[end - 1], 1)
    else
      var lim := if end < UTF_MAX then 0 else end - UTF_MAX;
      var found := if end - 2 < lim then end - 2 else FindStart(s, end - 2, lim);
      var start := if found < 0 then 0 else found;
      var d := DecodeRune(s[start..]);
      if start + d.size != end then INVALID else d
  }

  /** utf8.RuneLen, with -1 for what is not a Unicode scalar value. */
  function RuneLen(r: rune): int {
    if !IsScalar(r) then -1
    else if r < 0x80 then 1 else if r < 0x800 then 2 else if r < 0x10000 then 3 else 4
  }

  predicate IsScalar(r: rune) { 0 <= r < 0xD800 || 0xE000 <= r <= 0x10FFFF }

  /** utf8.AppendRune, as used by strings.Builder.WriteRune */
  function EncodeRune(r: rune): seq<byte> {
    if !IsScalar(r) then [0xEF, 0xBF, 0xBD]
    else if r < 0x80 then [r]
    else if r < 0x800 then [0xC0 + r / 64, Tail(r)]
    else if r < 0x10000 then [0xE0 + r / 64 / 64, Tail(r / 64), Tail(r)]
    else [0xF0 + r / 64 / 64 / 64, Tail(r / 64 / 64), Tail(r / 64), Tail(r)]
  }

  /** The continuation byte of the low six bits. */
  function Tail(r: int): (b: byte)
    ensures Continues(b)
  {
    0x80 + r % 64
  }

  /** `p` is the encoding of exactly one rune. */
  predicate IsEncoding(p: seq<byte>) {
    p != [] && DecodeRune(p).size == |p| && DecodeRune(p) != INVALID
  }

  /** `for _, r := range s`: the runes of `s`, RUNE_ERROR for each byte that starts no encoding. */
  function Decode(s: seq<byte>): seq<rune> {
    if s == [] then [] else [DecodeRune(s).r] + Decode(s[DecodeRune(s).size..])
  }

  function Encode(runes: seq<rune>): seq<byte> {
    if runes == [] then [] else EncodeRune(runes[0]) + Encode(runes[1..])
  }

  /** Valid UTF-8: a concatenation of encodings. */
  predicate Valid(s: seq<byte>) {
    s == [] || (DecodeRune(s) != INVALID && Valid(s[DecodeRune(s).size..]))
  }

  lemma DecodeCons(s: seq<byte>)
    requires s != []
    ensures Decode(s) == [DecodeRune(s).r] + Decode(s[DecodeRune(s).size..])
    ensures Valid(s) <==> DecodeRune(s) != INVALID && Valid(s[DecodeRune(s).size..])
  {
  }

  lemma EncodeCons(r: rune, runes: seq<rune>)
    ensures Encode([r] + runes) == EncodeRune(r) + Encode(runes)
  {
  }

  /** Decoding looks at no byte beyond the encoding it finds: a valid prefix decides. */
  lemma DecodeIsLocal(s: seq<byte>, n: nat)
    requires s != [] && DecodeRune(s).size <= n <= |s|
    ensures DecodeRune(s[..n]) == DecodeRune(s)
  {
  }

  /** Every decoded rune is a scalar value. */
  lemma DecodedIsScalar(s: seq<byte>)
    requires s != []
    ensures IsScalar(DecodeRune(s).r)
  {
  }

  /** Encoding undoes decoding wherever decoding succeeded. */
  lemma EncodeAfterDecode(s: seq<byte>)
    requires s != [] && DecodeRune(s) != INVALID
    ensures EncodeRune(DecodeRune(s).r) == s[..DecodeRune(s).size]
  {
    DecodedIsScalar(s);
    var d := DecodeRune(s);
    if d.size == 2 {
      JoinSplit(Bits(s[0], 0xC0), s[1]);
    } else if d.size == 3 {
      JoinSplit(Bits(s[0], 0xE0), s[1]);
      JoinSplit(Join(Bits(s[0], 0xE0), s[1]), s[2]);
    } else if d.size == 4 {
      JoinSplit(Bits(s[0], 0xF0), s[1]);
      JoinSplit(Join(Bits(s[0], 0xF0), s[1]), s[2]);
      JoinSplit(Join(Join(Bits(s[0], 0xF0), s[1]), s[2]), s[3]);
    }
  }

  /** What re-encoding does to one decoded segment. */
  lemma ReencodedSegment(s: seq<byte>)
    requires s != []
    ensures DecodeRune(s) != INVALID ==> EncodeRune(DecodeRune(s).r) == s[..DecodeRune(s).size]
    ensures DecodeRune(s) == INVALID ==> EncodeRune(DecodeRune(s).r) == [0xEF, 0xBF, 0xBD]
  {
    if DecodeRune(s) != INVALID { EncodeAfterDecode(s); }
  }

  lemma JoinSplit(high: int, b: byte)
    requires Continues(b)
    ensures Join(high, b) / 64 == high && Tail(Join(high, b)) == b
  {
  }

  lemma SplitJoin(r: int)
    ensures Join(r / 64, Tail(r)) == r
  {
  }

  /** Decoding undoes encoding, whatever follows. */
  lemma DecodeAfterEncode(r: rune, rest: seq<byte>)
    requires IsScalar(r)
    ensures DecodeRune(EncodeRune(r) + rest) == Decoded(r, |EncodeRune(r)|)
    ensures DecodeRune(EncodeRune(r) + rest) != INVALID && |EncodeRune(r)| == RuneLen(r)
  {
    SplitJoin(r);
    SplitJoin(r / 64);
    SplitJoin(r / 64 / 64);
  }

  // ---- The syntax of section 4 of RFC 3629 ----

  predicate IsTail(b: byte) { 0x80 <= b <= 0xBF }

  /** UTF8-1, UTF8-2, UTF8-3 and UTF8-4. */
  predicate IsUtf8Char(p: seq<byte>) {
    if |p| == 1 then p[0] <= 0x7F
    else if |p| == 2 then 0xC2 <= p[0] <= 0xDF && IsTail(p[1])
    else if |p| == 3 then
      IsTail(p[2]) &&
      ((p[0] == 0xE0 && 0xA0 <= p[1] <= 0xBF) || (0xE1 <= p[0] <= 0xEC && IsTail(p[1])) ||
       (p[0] == 0xED && 0x80 <= p[1] <= 0x9F) || (0xEE <= p[0] <= 0xEF && IsTail(p[1])))
    else
      |p| == 4 && IsTail(p[2]) && IsTail(p[3]) &&
      ((p[0] == 0xF0 && 0x90 <= p[1] <= 0xBF) || (0xF1 <= p[0] <= 0xF3 && IsTail(p[1])) ||
       (p[0] == 0xF4 && 0x80 <= p[1] <= 0x8F))
  }

  /** The decoder takes exactly what the syntax allows for a character. */
  lemma EncodingsAreChars(p: seq<byte>)
    ensures IsEncoding(p) <==> IsUtf8Char(p)
  {
    if |p| >= 2 { assert p[..|p|] == p; }
  }

  /** How many bytes at the start make a character; 1 for a byte that starts none. */
  function CharLength(s: seq<byte>): (n: nat)
    requires s != []
    ensures 1 <= n <= |s|
  {
    if |s| >= 2 && IsUtf8Char(s[..2]) then 2
    else if |s| >= 3 && IsUtf8Char(s[..3]) then 3
    else if |s| >= 4 && IsUtf8Char(s[..4]) then 4
    else 1
  }

  /** Decoding advances by characters, and by one byte where there is none. */
  lemma DecodeAdvances(s: seq<byte>)
    requires s != []
    ensures DecodeRune(s).size == CharLength(s)
    ensures DecodeRune(s) == INVALID <==> !IsUtf8Char(s[..CharLength(s)])
  {
  }

}
