/** externalsort/sort.go: the buffered line reader and the line writer. */
module LineIO {
  import opened Utf8
  import opened TextLines
  import Seqs

  /** One answer of an io.Reader: at most `size` bytes, with an end of file reported along with the last ones, or with
      a failure. */
  datatype Answer = Bytes(size: nat, eof: bool) | Fault(size: nat)

  ghost predicate Faultless(answers: seq<Answer>) { forall a :: a in answers ==> a.Bytes? }

  datatype Error = None | Eof | Failed

  /**
   * A stream that is read, written and rewound. `answers` holds the answers to come, so that every
   * way of cutting the bytes into reads is covered; `faults` says which writes fail.
   */
  class File {
    var data: seq<byte>
    var pos: nat
    var answers: seq<Answer>
    var faults: seq<bool>

    ghost predicate Valid() reads this { pos <= |data| }

    /** The bytes not yet read. */
    ghost function Left(): seq<byte> reads this requires Valid() { data[pos..] }

    ghost predicate Sound() reads this { Faultless(answers) && true !in faults }

    ghost function Work(): nat reads this requires Valid() { |answers| + |Left()| }

    constructor (data: seq<byte>, answers: seq<Answer>, faults: seq<bool>)
      ensures Valid() && this.data == data && pos == 0 && this.answers == answers && this.faults == faults
    {
      this.data, pos, this.answers, this.faults := data, 0, answers, faults;
    }

    method Deliver(p: array<byte>, size: nat) returns (n: nat)
      requires Valid()
      modifies this`pos, p
      ensures Valid() && n <= p.Length && n <= |old(Left())| && n <= size
      ensures n < size ==> n == p.Length || Left() == []
      ensures p[..n] == old(Left())[..n] && Left() == old(Left())[n..]
    {
      n := if size < p.Length then size else p.Length;
      n := if |data| - pos < n then |data| - pos else n;
      for i := 0 to n
        modifies p
        invariant forall j :: 0 <= j < i ==> p[j] == data[pos + j]
      {
        p[i] := data[pos + i];
      }
      pos := pos + n;
    }

    method Read(p: array<byte>) returns (n: nat, err: Error)
      requires Valid() && p.Length > 0
      modifies this`pos, this`answers, p
      ensures Valid() && n <= p.Length && n <= |old(Left())|
      ensures p[..n] == old(Left())[..n] && Left() == old(Left())[n..]
      ensures err.Eof? ==> Left() == []
      ensures err.Failed? ==> !Faultless(old(answers))
      ensures forall a :: a in answers ==> a in old(answers)
      ensures n != 0 || !err.Eof? ==> Work() < old(Work()) || err.Failed?
    {
      if answers == [] {
        n := Deliver(p, p.Length);
        err := if n == 0 then Eof else None;
        return;
      }
      var answer := answers[0];
      assert answer in answers;
      answers := answers[1..];
      n := Deliver(p, answer.size);
      err := if answer.Fault? then Failed else if answer.eof && pos == |data| then Eof else None;
    }

    /** Writes at the current position, growing the file as needed; a failing write may leave a part. */
    method Write(p: seq<byte>) returns (err: Error)
      requires Valid()
      modifies this`data, this`pos, this`faults
      ensures Valid() && err in {None, Failed} && (old(true !in faults) ==> err == None && true !in faults)
      ensures err == None && old(pos == |data|) ==> data == old(data) + p && pos == |data|
    {
      var count := |p|;
      err := None;
      if faults != [] {
        if faults[0] {
          count :| 0 <= count <= |p|;
          err := Failed;
        }
        faults := faults[1..];
      }
      var end := pos + count;
      data := data[..pos] + p[..count] + (if end < |data| then data[end..] else []);
      pos := end;
    }

    method SeekToStart()
      modifies this`pos
      ensures Valid() && pos == 0
    {
      pos := 0;
    }

    /** Truncate(0), with the position at the start. */
    method Truncate()
      requires pos == 0
      modifies this`data
      ensures Valid() && data == []
    {
      data := [];
    }
  }

  // ---- ParseLine ----

  /** An ASCII rune is decoded exactly where its byte is, and no decoding step jumps over it. */
  lemma AsciiStep(b: seq<byte>, sym: byte)
    requires b != [] && sym < 0x80
    ensures DecodeRune(b).r == sym <==> b[0] == sym
    ensures b[0] != sym ==> sym !in b[..DecodeRune(b).size]
  {
  }

  /** The bytes before the separator and whether there is one. Runes cut off at the end of the buffer do no harm. */
  method ParseLine(b: array<byte>, lo: nat, hi: nat, splitSym: rune) returns (res: seq<byte>, hasSplitSym: bool)
    requires lo <= hi <= b.Length
    ensures lo + |res| <= hi && res == b[lo..lo + |res|]
    ensures !hasSplitSym ==> lo + |res| == hi
    ensures splitSym < 0x80 ==> splitSym !in res
    ensures splitSym < 0x80 && hasSplitSym ==> lo + |res| < hi && b[lo + |res|] == splitSym
  {
    if lo == hi {
      return [], false;
    }
    var i := lo;
    while i < hi
      invariant lo <= i <= hi
      invariant splitSym < 0x80 ==> splitSym !in b[lo..i]
    {
      var d := DecodeRune(b[i..hi]);
      if splitSym < 0x80 {
        AsciiStep(b[i..hi], splitSym);
        assert b[i..hi][..d.size] == b[i..i + d.size];
        assert b[lo..i + d.size] == b[lo..i] + b[i..i + d.size];
      }
      if d.r == splitSym {
        return b[lo..i], true;
      }
      i := i + d.size;
    }
    return b[lo..hi], false;
  }

  // ---- LineReaderT ----

  class LineReader {
    const r: File
    const buf: array<byte>
    var offset: nat
    var cntBytes: nat
    const splitSym: rune

    ghost predicate Valid() reads this, r {
      r.Valid() && buf.Length == 256 && offset <= cntBytes <= buf.Length && splitSym == NL
    }

    /** Everything still to be delivered: the buffered bytes, then those not yet read. */
    ghost function Text(): seq<byte>
      reads this, r, buf
      requires Valid()
    {
      buf[offset..cntBytes] + r.Left()
    }

    /** NewReader */
    constructor (r: File)
      requires r.Valid()
      ensures Valid() && this.r == r && Text() == r.Left() && fresh(buf)
    {
      this.r := r;
      buf := new byte[256];
      offset, cntBytes, splitSym := 0, 0, 10;
    }

    /** Fills the buffer with the next bytes; at the end of the file `done` is set. */
    method Refill() returns (done: bool, failed: bool)
      requires Valid()
      modifies r`pos, r`answers, buf, this`offset, this`cntBytes
      ensures Valid() && forall a :: a in r.answers ==> a in old(r.answers)
      ensures failed ==> !Faultless(old(r.answers))
      ensures !failed ==> offset == 0 && Text() == old(r.Left())
      ensures !failed && done ==> Text() == []
      ensures !failed && !done ==> r.Work() < old(r.Work())
    {
      done, failed := false, false;
      var cnt, err := r.Read(buf);
      if err.Failed? {
        failed := true;
        return;
      }
      cntBytes := cnt;
      offset := 0;
      done := cnt == 0 && err.Eof?;
      assert buf[0..cnt] == buf[..cnt];
    }

    /** Takes from the buffer up to the separator, stepping over it, or everything. */
    method TakeParsed() returns (res: seq<byte>, hasSplitSym: bool)
      requires Valid()
      modifies this`offset
      ensures Valid() && NL !in res
      ensures hasSplitSym ==> old(Text()) == res + ([NL] + Text())
      ensures !hasSplitSym ==> old(Text()) == res + r.Left()
    {
      res, hasSplitSym := ParseLine(buf, offset, cntBytes, splitSym);
      if hasSplitSym {
        SplitAt(buf[offset..cntBytes], r.Left(), |res|);
        Slices(buf[..], offset, cntBytes, |res|);
        offset := offset + |res| + RuneLen(splitSym);
      }
    }

    /** The next line and no error when a newline ends it; the rest of the text and Eof otherwise. */
    method ReadLine() returns (line: seq<byte>, err: Error)
      requires Valid()
      modifies r`pos, r`answers, buf, this`offset, this`cntBytes
      ensures Valid() && forall a :: a in r.answers ==> a in old(r.answers)
      ensures err.Failed? ==> !Faultless(old(r.answers))
      ensures err.None? ==> NL !in line && old(Text()) == line + ([NL] + Text())
      ensures err.Eof? ==> NL !in line && old(Text()) == line && Text() == []
    {
      line := [];
      if offset >= cntBytes {
        var done, failed := Refill();
        if failed { return [], Failed; }
        if done { return [], Eof; }
      }
      while true
        invariant Valid() && forall a :: a in r.answers ==> a in old(r.answers)
        invariant NL !in line && old(Text()) == line + Text()
        decreases r.Work()
      {
        var res, hasSplitSym := TakeParsed();
        Seqs.Assoc(line, res, if hasSplitSym then [NL] + Text() else r.Left());
        line := line + res;
        if hasSplitSym { return line, None; }
        var done, failed := Refill();
        if failed { return [], Failed; }
        if done { return line, Eof; }
      }
    }
  }

  /** LineWriterT */
  class LineWriter {
    const w: File

    /** NewWriter */
    constructor (w: File)
      ensures this.w == w
    {
      this.w := w;
    }

    /** The line and a newline; a stream positioned at its end stays so. */
    method Write(str: seq<byte>) returns (err: Error)
      requires w.Valid()
      modifies w`data, w`pos, w`faults
      ensures w.Valid() && err in {None, Failed} && (old(true !in w.faults) ==> err == None && true !in w.faults)
      ensures err == None && old(w.pos == |w.data|) ==> w.data == old(w.data) + (str + [NL]) && w.pos == |w.data|
    {
      ghost var before := w.data;
      err := w.Write(str);
      if err != None { return err; }
      err := w.Write([10]);
      Seqs.Assoc(before, str, [NL]);
    }
  }

  lemma Slices(s: seq<byte>, lo: nat, hi: nat, n: nat)
    requires lo + n < hi <= |s|
    ensures s[lo..hi][..n] == s[lo..lo + n] && s[lo..hi][n + 1..] == s[lo + n + 1..hi]
  {
  }

  lemma SplitAt(a: seq<byte>, b: seq<byte>, n: nat)
    requires n < |a|
    ensures a + b == a[..n] + ([a[n]] + (a[n + 1..] + b))
  {
  }
}
