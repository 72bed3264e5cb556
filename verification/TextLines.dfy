/** Text as lines: what a line reader must deliver and a line writer must produce (externalsort/README.md). */
module TextLines {
  import opened Utf8
  import Seqs

  type Bytes = seq<byte>

  const NL: byte := '\n' as int

  /** Where the first newline is, or the length. */
  function Index(s: Bytes): (n: nat)
    ensures n <= |s| && (n < |s| ==> s[n] == NL) && NL !in s[..n]
  {
    if s == [] || s[0] == NL then 0 else
      var n := 1 + Index(s[1..]);
      assert s[..n] == [s[0]] + s[1..][..n - 1];
      n
  }

  /** The lines of a text; bytes after the last newline are a line too. */
  function Lines(s: Bytes): seq<Bytes> {
    if s == [] then []
    else if Index(s) == |s| then [s]
    else [s[..Index(s)]] + Lines(s[Index(s) + 1..])
  }

  /** Each line followed by a newline. */
  function Unlines(lines: seq<Bytes>): Bytes {
    if lines == [] then [] else lines[0] + [NL] + Unlines(lines[1..])
  }

  /** No line holds a newline. */
  predicate AreLines(lines: seq<Bytes>) {
    forall l :: l in lines ==> NL !in l
  }

  lemma {:induction false} FirstIsUnique(s: Bytes, n: nat)
    requires n < |s| && s[n] == NL && NL !in s[..n]
    ensures Index(s) == n
  {
  }

  lemma LinesOfLine(a: Bytes, b: Bytes)
    requires NL !in a
    ensures Lines(a + [NL] + b) == [a] + Lines(b)
  {
    var s := a + [NL] + b;
    assert s[..|a|] == a;
    FirstIsUnique(s, |a|);
    assert s[|a| + 1..] == b;
  }

  /** A text of two lines, each ended by the character the format names. */
  lemma TwoLines(a: Bytes, b: Bytes)
    requires NL !in a && NL !in b
    ensures Lines(a + ['\n' as int] + (b + ['\n' as int])) == [a, b]
    ensures Unlines([a, b]) == a + ['\n' as int] + (b + ['\n' as int])
  {
    LinesOfLine(b, []);
    Seqs.All(b + [NL]);
    LinesOfLine(a, b + [NL]);
    UnlinesOne(b);
    UnlinesCons(a, [b]);
    assert [a] + [b] == [a, b];
  }

  /** What was written line by line is read back unchanged, if no line holds a newline. */
  lemma {:induction false} LinesAfterUnlines(lines: seq<Bytes>)
    requires AreLines(lines)
    ensures Lines(Unlines(lines)) == lines
  {
    if lines != [] {
      LinesOfLine(lines[0], Unlines(lines[1..]));
      LinesAfterUnlines(lines[1..]);
      Seqs.Head(lines);
    }
  }

  /**
   * Reading gives lines, and writing them back restores the text, completed by a newline where the last was
   * missing.
   */
  lemma {:induction false} UnlinesAfterLines(s: Bytes)
    ensures AreLines(Lines(s))
    ensures Unlines(Lines(s)) == if s == [] || s[|s| - 1] == NL then s else s + [NL]
  {
    if s != [] {
      var n := Index(s);
      if n == |s| {
        UnlinesOne(s);
      } else {
        var rest := s[n + 1..];
        UnlinesAfterLines(rest);
        UnlinesCons(s[..n], Lines(rest));
        Rebuilt(s, n);
      }
    }
  }

  lemma Rebuilt(s: Bytes, n: nat)
    requires n < |s| && s[n] == NL
    ensures s[..n] + [NL] + s[n + 1..] == s
    ensures s[..n] + [NL] + (s[n + 1..] + [NL]) == s + [NL]
    ensures s[|s| - 1] == NL <==> s[n + 1..] == [] || s[n + 1..][|s[n + 1..]| - 1] == NL
  {
  }

  lemma UnlinesOne(l: Bytes)
    ensures Unlines([l]) == l + [NL]
  {
  }

  lemma UnlinesCons(l: Bytes, lines: seq<Bytes>)
    ensures Unlines([l] + lines) == l + [NL] + Unlines(lines)
  {
  }

  lemma {:induction false} UnlinesAppend(lines: seq<Bytes>, l: Bytes)
    ensures Unlines(lines + [l]) == Unlines(lines) + (l + [NL])
  {
    if lines == [] {
      UnlinesOne(l);
      assert lines + [l] == [l];
    } else {
      var rest := lines[1..];
      UnlinesAppend(rest, l);
      assert lines + [l] == [lines[0]] + (rest + [l]);
      UnlinesCons(lines[0], rest + [l]);
      Seqs.Assoc(lines[0] + [NL], Unlines(rest), l + [NL]);
    }
  }
}
