/** The automaton accepts exactly the grammar, and crashes exactly on prefixes above 32. */
module IpTheorems {
  import opened Seqs
  import opened IpRange
  import opened IpGrammar
  import opened IpDrive
  import opened IpSound
  import opened IpComplete

  /** `tokens` derives from the grammar and denotes `output`. */
  ghost predicate Derives(tokens: seq<Token>, output: seq<AddressRange>) {
    exists r :: Ok(r) && Yield(r) == tokens && Denote(r) == output
  }

  /** `tokens` begins with a target list whose last target has a prefix above 32. */
  ghost predicate BadPrefix(tokens: seq<Token>) {
    exists c, rest :: Crashes(c) && tokens == YieldCrash(c) + rest
  }

  /** A token stream is accepted with `output` if and only if the grammar derives it and it denotes `output`. */
  lemma AcceptsExactlyTheGrammar(tokens: seq<Token>, output: seq<AddressRange>)
    requires ValidTokens(tokens)
    ensures WF(START) && (Drive(START, tokens) == Accepted(output) <==> Derives(tokens, output))
  {
    if Drive(START, tokens) == Accepted(output) {
      var r := Sound(START, [], tokens);
      All(tokens);
      assert Ok(r) && Yield(r) == tokens && Denote(r) == output;
    }
    if Derives(tokens, output) {
      var r :| Ok(r) && Yield(r) == tokens && Denote(r) == output;
      All(tokens);
      RunResult(r, []);
      ResultActs(END);
    }
  }

  /** The parser crashes if and only if a prefix above 32 is reached before any syntax error. */
  lemma CrashesExactlyOnBadPrefix(tokens: seq<Token>)
    requires ValidTokens(tokens)
    ensures WF(START) && (Drive(START, tokens) == Panic <==> BadPrefix(tokens))
  {
    if Drive(START, tokens) == Panic {
      var c, rest := CrashSound(START, [], tokens);
      All(tokens);
      assert tokens == YieldCrash(c) + rest;
    }
    if BadPrefix(tokens) {
      var c, rest :| Crashes(c) && tokens == YieldCrash(c) + rest;
      CrashComplete(c, rest);
    }
  }

  lemma CrashComplete(c: Crash, rest: seq<Token>)
    requires Crashes(c) && ValidTokens(YieldCrash(c) + rest)
    ensures WF(START) && Drive(START, YieldCrash(c) + rest) == Panic
  {
    assert ValidTokens(rest) by {
      forall i | 0 <= i < |rest| ensures rest[i] == (YieldCrash(c) + rest)[|YieldCrash(c)| + i] {}
    }
    var t := Block(c.addr, c.bits);
    if c.First? {
      RunCrash(START, t, rest);
    } else {
      ValidTarget(t, rest);
      RunBefore(c.r, c.spaced, t, rest);
      RunCrash(ResultStack(c.r) + [Entry(8, Nothing)], t, rest);
    }
  }

  /** A derivation never denotes the empty list. */
  lemma {:induction false} NeverEmpty(tokens: seq<Token>, output: seq<AddressRange>)
    requires Derives(tokens, output)
    ensures |output| >= 1
  {
  }
}
