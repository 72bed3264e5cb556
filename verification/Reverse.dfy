/** utf8/reverse/reverse.go: reversing a byte string rune by rune, decoding it from the back. */
module Reverse {
  import opened Seqs
  import opened Utf8

  function Rev(runes: seq<rune>): (r: seq<rune>)
    ensures |r| == |runes|
  {
    if runes == [] then [] else Rev(runes[1..]) + [runes[0]]
  }

  lemma {:induction false} RevAt(runes: seq<rune>, k: nat)
    requires k < |runes|
    ensures Rev(runes)[k] == runes[|runes| - 1 - k]
  {
    if k < |runes| - 1 {
      RevAt(runes[1..], k);
    }
  }

  lemma RevRev(runes: seq<rune>)
    ensures Rev(Rev(runes)) == runes
  {
    forall k | 0 <= k < |runes| ensures Rev(Rev(runes))[k] == runes[k] {
      RevAt(Rev(runes), k);
      RevAt(runes, |runes| - 1 - k);
    }
  }

  lemma RevSnoc(runes: seq<rune>, r: rune)
    ensures Rev(runes + [r]) == [r] + Rev(runes)
  {
    forall k | 0 <= k <= |runes| ensures Rev(runes + [r])[k] == ([r] + Rev(runes))[k] {
      RevAt(runes + [r], k);
      if k > 0 { RevAt(runes, k - 1); }
    }
  }

  /** What `Reverse` should return. */
  function Reversed(s: seq<byte>): seq<byte> { Encode(Rev(Decode(s))) }

  // ---- Decoding from the back finds the segments that decoding from the front finds ----

  /** The last `k` bytes of `s` are one encoding. */
  predicate EndsWithEncoding(s: seq<byte>, k: nat) {
    1 <= k <= |s| && IsEncoding(s[|s| - k..])
  }

  /** DecodeLastRune returns the encoding at the end of `s` if there is one, whatever stands before it. */
  lemma LastRuneIsEncoding(s: seq<byte>, k: nat)
    requires EndsWithEncoding(s, k)
    ensures DecodeLastRune(s) == DecodeRune(s[|s| - k..])
  {
  }

  ghost predicate NoEncodingAtEnd(s: seq<byte>) {
    forall k: nat :: k <= |s| ==> !EndsWithEncoding(s, k)
  }

  /** Otherwise it consumes one byte as invalid. */
  lemma LastRuneIsInvalid(s: seq<byte>)
    requires s != [] && NoEncodingAtEnd(s)
    ensures DecodeLastRune(s) == INVALID
  {
    assert s[|s| - 1..] == [s[|s| - 1]];
    assert !EndsWithEncoding(s, 1);
    assert forall start {:trigger s[start..]} :: 0 <= start < |s| ==> !EndsWithEncoding(s, |s| - start);
  }

  /** An encoding at the end of `s` cannot reach back over a segment boundary of the forward decoding. */
  lemma NoOverlap(s: seq<byte>, k: nat)
    requires s != [] && EndsWithEncoding(s, k) && DecodeRune(s).size < |s|
    ensures k <= |s| - DecodeRune(s).size
  {
  }

  lemma SameEnd(s: seq<byte>, n: nat, k: nat)
    requires n + k <= |s|
    ensures EndsWithEncoding(s[n..], k) <==> EndsWithEncoding(s, k)
    ensures s[n..][|s| - n - k..] == s[|s| - k..]
  {
  }

  /** The bytes before the last segment do not influence what is decoded from the back. */
  lemma SameLast(s: seq<byte>, n: nat)
    requires s != [] && n == DecodeRune(s).size < |s|
    ensures DecodeLastRune(s) == DecodeLastRune(s[n..])
  {
    var rest := s[n..];
    if k: nat :| EndsWithEncoding(s, k) {
      NoOverlap(s, k);
      SameEnd(s, n, k);
      LastRuneIsEncoding(s, k);
      LastRuneIsEncoding(rest, k);
    } else {
      LastRuneIsInvalid(s);
      forall k: nat | k <= |rest| ensures !EndsWithEncoding(rest, k) {
        SameEnd(s, n, k);
      }
      LastRuneIsInvalid(rest);
    }
  }

  /** Cutting after the first segment leaves that segment alone. */
  lemma DecodePrefix(s: seq<byte>, n: nat, m: nat)
    requires s != [] && n == DecodeRune(s).size <= m <= |s|
    ensures Decode(s[..m]) == [DecodeRune(s).r] + Decode(s[n..][..m - n])
  {
    DecodeIsLocal(s, m);
    DecodeCons(s[..m]);
    TakeDrop(s, n, m);
  }

  lemma OneSegment(s: seq<byte>)
    requires s != [] && DecodeRune(s).size == |s|
    ensures DecodeLastRune(s) == DecodeRune(s)
  {
  }

  /** The segment found from the back is the last segment found from the front. */
  lemma {:induction false} LastSegment(s: seq<byte>) returns (m: nat, r: rune)
    requires s != []
    ensures m < |s| && DecodeLastRune(s) == Decoded(r, |s| - m)
    ensures Decode(s) == Decode(s[..m]) + [r]
  {
    var n := DecodeRune(s).size;
    if n == |s| {
      DecodeCons(s);
      OneSegment(s);
      m, r := 0, DecodeRune(s).r;
    } else {
      SameLast(s, n);
      m, r := LastSegment(s[n..]);
      m := n + m;
      PrependSegment(s, n, m, r);
    }
  }

  lemma PrependSegment(s: seq<byte>, n: nat, m: nat, r: rune)
    requires s != [] && n == DecodeRune(s).size <= m <= |s|
    requires Decode(s[n..]) == Decode(s[n..][..m - n]) + [r]
    ensures Decode(s) == Decode(s[..m]) + [r]
  {
    DecodeCons(s);
    DecodePrefix(s, n, m);
    Assoc([DecodeRune(s).r], Decode(s[n..][..m - n]), [r]);
  }

  /** The runes of `s` in the order in which DecodeLastRune finds them. */
  function DecodeBack(s: seq<byte>): seq<rune> {
    if s == [] then [] else [DecodeLastRune(s).r] + DecodeBack(s[..|s| - DecodeLastRune(s).size])
  }

  /** On arbitrary bytes, decoding from the back yields exactly the runes of decoding from the front, reversed. */
  lemma {:induction false} BackwardIsForward(s: seq<byte>)
    ensures DecodeBack(s) == Rev(Decode(s))
  {
    if s != [] {
      var m, r := LastSegment(s);
      BackwardIsForward(s[..m]);
      RevSnoc(Decode(s[..m]), r);
    }
  }

  // ---- The method ----

  function TotalLen(runes: seq<rune>): int {
    if runes == [] then 0 else TotalLen(runes[..|runes| - 1]) + RuneLen(runes[|runes| - 1])
  }

  lemma {:induction false} EncodeSnoc(runes: seq<rune>, r: rune)
    ensures Encode(runes + [r]) == Encode(runes) + EncodeRune(r)
  {
    if runes == [] {
      assert [r][1..] == [];
      assert Encode([r]) == EncodeRune(r) + [];
    } else {
      assert (runes + [r])[1..] == runes[1..] + [r];
      EncodeSnoc(runes[1..], r);
    }
  }

  lemma {:induction false} EncodedLength(runes: seq<rune>)
    requires forall r :: r in runes ==> IsScalar(r)
    ensures |Encode(runes)| == TotalLen(runes)
  {
    if runes != [] {
      var init, last := runes[..|runes| - 1], runes[|runes| - 1];
      assert runes == init + [last];
      EncodedLength(init);
      EncodeSnoc(init, last);
      DecodeAfterEncode(last, []);
    }
  }

  lemma {:induction false} DecodedAreScalars(s: seq<byte>)
    ensures forall r :: r in Decode(s) ==> IsScalar(r)
  {
    if s != [] {
      DecodedIsScalar(s);
      DecodedAreScalars(s[DecodeRune(s).size..]);
    }
  }

  lemma {:induction false} TotalLenRev(runes: seq<rune>)
    ensures TotalLen(Rev(runes)) == TotalLen(runes)
  {
    if runes != [] {
      var init, last := runes[..|runes| - 1], runes[|runes| - 1];
      assert runes == init + [last];
      RevSnoc(init, last);
      TotalLenRev(init);
      TotalLenCons(last, Rev(init));
    }
  }

  lemma {:induction false} TotalLenCons(r: rune, runes: seq<rune>)
    ensures TotalLen([r] + runes) == RuneLen(r) + TotalLen(runes)
  {
    if runes != [] {
      assert ([r] + runes)[..|runes|] == [r] + runes[..|runes| - 1];
      TotalLenCons(r, runes[..|runes| - 1]);
    }
  }

  /** The first pass has seen `runes` and stands at `j`. */
  predicate Forward(input: seq<byte>, j: nat, runes: seq<rune>)
    requires j <= |input|
  {
    runes + Decode(input[j..]) == Decode(input)
  }

  /** The second pass has seen `done` and stands at `i`. */
  predicate Backward(input: seq<byte>, i: nat, done: seq<rune>)
    requires i <= |input|
  {
    Decode(input[..i]) + Rev(done) == Decode(input)
  }

  lemma ForwardStart(input: seq<byte>)
    ensures Forward(input, 0, [])
  {
  }

  lemma ForwardDone(input: seq<byte>, runes: seq<rune>)
    requires Forward(input, |input|, runes)
    ensures runes == Decode(input)
  {
  }

  lemma ForwardStep(input: seq<byte>, j: nat, runes: seq<rune>)
    requires j < |input| && Forward(input, j, runes)
    ensures var d := DecodeRune(input[j..]);
            Forward(input, j + d.size, runes + [d.r]) &&
            TotalLen(runes + [d.r]) == TotalLen(runes) + RuneLen(d.r)
  {
    var d := DecodeRune(input[j..]);
    DecodeCons(input[j..]);
    DropDrop(input, j, d.size);
    Assoc(runes, [d.r], Decode(input[j + d.size..]));
    TotalLenSnoc(runes, d.r);
  }

  lemma BackwardStep(input: seq<byte>, i: nat, done: seq<rune>)
    requires 0 < i <= |input| && Backward(input, i, done)
    ensures var d := DecodeLastRune(input[..i]);
            Backward(input, i - d.size, done + [d.r]) &&
            Encode(done + [d.r]) == Encode(done) + EncodeRune(d.r)
  {
    var d := DecodeLastRune(input[..i]);
    var m, r := LastSegment(input[..i]);
    TakeTake(input, i, i - d.size);
    Assoc(Decode(input[..i - d.size]), [d.r], Rev(done));
    EncodeSnoc(done, d.r);
    RevSnoc(done, d.r);
  }

  lemma BackwardDone(input: seq<byte>, done: seq<rune>)
    requires Backward(input, 0, done)
    ensures Encode(done) == Reversed(input) && |Encode(done)| == TotalLen(Decode(input))
  {
    All(Rev(done));
    RevRev(done);
    ReversedLength(input);
  }

  /** The first pass: what the builder is grown to. */
  method GrownLength(input: seq<byte>) returns (totalLen: int)
    ensures totalLen == TotalLen(Decode(input))
  {
    totalLen := 0;
    var j := 0;
    ghost var runes := [];
    ForwardStart(input);
    while j < |input|
      invariant j <= |input| && Forward(input, j, runes) && totalLen == TotalLen(runes)
    {
      ForwardStep(input, j, runes);
      var d := DecodeRune(input[j..]);
      totalLen, runes, j := totalLen + RuneLen(d.r), runes + [d.r], j + d.size;
    }
    ForwardDone(input, runes);
  }

  /** The second pass: what the builder is filled with. */
  method WriteBackwards(input: seq<byte>) returns (output: seq<byte>)
    ensures output == Reversed(input) && |output| == TotalLen(Decode(input))
  {
    output := [];
    var i := |input|;
    ghost var done := [];
    BackwardStart(input);
    while i > 0
      invariant 0 <= i <= |input| && Backward(input, i, done) && output == Encode(done)
    {
      var d := DecodeLastRune(input[..i]);
      BackwardStep(input, i, done);
      output := output + EncodeRune(d.r);
      done := done + [d.r];
      i := i - d.size;
    }
    BackwardDone(input, done);
  }

  /** Reverse: grows the builder to `totalLen` and fills it with `output`. */
  method Reverse(input: seq<byte>) returns (totalLen: int, output: seq<byte>)
    ensures output == Reversed(input) == Backwards(input)
    ensures totalLen == |output|
  {
    ReversedIsBackwards(input);
    totalLen := GrownLength(input);
    output := WriteBackwards(input);
  }

  lemma BackwardStart(input: seq<byte>)
    ensures Backward(input, |input|, [])
  {
    All(input);
    All(Decode(input));
  }

  lemma TotalLenSnoc(runes: seq<rune>, r: rune)
    ensures TotalLen(runes + [r]) == TotalLen(runes) + RuneLen(r)
  {
  }

  lemma RevMember(runes: seq<rune>, r: rune)
    requires r in Rev(runes)
    ensures r in runes
  {
  }

  lemma ReversedLength(s: seq<byte>)
    ensures |Reversed(s)| == TotalLen(Decode(s))
  {
    DecodedAreScalars(s);
    forall r | r in Rev(Decode(s)) ensures IsScalar(r) { RevMember(Decode(s), r); }
    EncodedLength(Rev(Decode(s)));
    TotalLenRev(Decode(s));
  }

  // ---- Laws ----

  lemma {:induction false} DecodeEncode(runes: seq<rune>)
    requires forall r :: r in runes ==> IsScalar(r)
    ensures Decode(Encode(runes)) == runes && Valid(Encode(runes))
  {
    if runes != [] {
      DecodeAfterEncode(runes[0], Encode(runes[1..]));
      DecodeEncode(runes[1..]);
      assert Encode(runes)[|EncodeRune(runes[0])|..] == Encode(runes[1..]);
    }
  }

  /** Re-encoding keeps valid text; each invalid byte becomes a three-byte replacement character. */
  lemma {:induction false} EncodeDecode(s: seq<byte>)
    ensures |Encode(Decode(s))| >= |s|
    ensures Valid(s) ==> Encode(Decode(s)) == s
    ensures !Valid(s) ==> |Encode(Decode(s))| > |s|
  {
    if s != [] {
      var d := DecodeRune(s);
      ReencodedSegment(s);
      DecodeCons(s);
      EncodeCons(d.r, Decode(s[d.size..]));
      EncodeDecode(s[d.size..]);
      Cut(s, d.size);
    }
  }

  /** The output is always valid UTF-8 and decodes to the reversed runes of the input. */
  lemma ReversedDecodes(s: seq<byte>)
    ensures Valid(Reversed(s)) && Decode(Reversed(s)) == Rev(Decode(s))
  {
    DecodedAreScalars(s);
    forall r | r in Rev(Decode(s)) ensures IsScalar(r) { RevMember(Decode(s), r); }
    DecodeEncode(Rev(Decode(s)));
  }

  /** Reversing twice is the identity exactly on valid UTF-8. */
  lemma ReverseTwice(s: seq<byte>)
    ensures Reversed(Reversed(s)) == s <==> Valid(s)
  {
    ReversedDecodes(s);
    RevRev(Decode(s));
    EncodeDecode(s);
  }

  // ---- The output, without runes ----

  /** A character as it is; any other byte becomes the replacement character U+FFFD. */
  function Repaired(p: seq<byte>): seq<byte> { if IsUtf8Char(p) then p else [0xEF, 0xBF, 0xBD] }

  /** The characters of the text from the last to the first, each with its bytes in their order. */
  function Backwards(s: seq<byte>): seq<byte> {
    if s == [] then [] else Backwards(s[CharLength(s)..]) + Repaired(s[..CharLength(s)])
  }

  lemma {:induction false} EncodeAppend(a: seq<rune>, r: rune)
    ensures Encode(a + [r]) == Encode(a) + EncodeRune(r)
  {
    if a == [] {
      All([r]);
      All(EncodeRune(r));
      assert Encode([r]) == EncodeRune(r) + Encode([]);
    } else {
      EncodeAppend(a[1..], r);
      Head(a);
      Assoc([a[0]], a[1..], [r]);
      EncodeCons(a[0], a[1..] + [r]);
      Assoc(EncodeRune(a[0]), Encode(a[1..]), EncodeRune(r));
    }
  }

  /** What Reverse returns: character by character from the back, with each invalid byte replaced. */
  lemma {:induction false} ReversedIsBackwards(s: seq<byte>)
    ensures Reversed(s) == Backwards(s)
  {
    if s != [] {
      var d := DecodeRune(s);
      DecodeAdvances(s);
      DecodeCons(s);
      ReencodedSegment(s);
      ReversedIsBackwards(s[d.size..]);
      EncodeAppend(Rev(Decode(s[d.size..])), d.r);
      RevCons(d.r, Decode(s[d.size..]));
    }
  }

  lemma RevCons(r: rune, runes: seq<rune>)
    ensures Rev([r] + runes) == Rev(runes) + [r]
  {
  }
}
