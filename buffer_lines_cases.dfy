/**
 * The behaviour `BufferLinesTest` pins down, each case driven through
 * `BufferLines.Next` on the chunk source of that test. A source whose answer
 * depends on a call counter is the function of the pull count it describes.
 * The read limit is a parameter wherever the test relies on the default one.
 */
module BufferLinesCases {
  import opened Wrappers
  import opened Io

  /** A bare "\r\n" chunk yields one empty line. */
  method OnlyTerminator(limit: nat) returns (r: Result<string>)
    requires limit >= 1
    ensures r == Ok("")
  {
    var source := (j: nat) => "\r\n";
    var b := new BufferLines(source, limit);
    r := b.Next();
    assert "" + Pulled(source, 0, 1) == "" + Terminator + "";
    NoCRNoTerminator("");
    NextReturnsLine(source, limit, "", 0, r, b.buffer, b.pulls, 1, "", "");
  }

  /** CR ending one chunk and LF starting the next form one terminator. */
  method TerminatorAcrossChunks(limit: nat) returns (r: Result<string>)
    requires limit >= 2
    ensures r == Ok("")
  {
    var source := (j: nat) => if j == 0 then "\r" else "\n";
    var b := new BufferLines(source, limit);
    r := b.Next();
    assert "" + Pulled(source, 0, 1) == "\r";
    assert "" + Pulled(source, 0, 2) == "" + Terminator + "";
    NoLFNoTerminator("\r");
    NoCRNoTerminator("");
    NextReturnsLine(source, limit, "", 0, r, b.buffer, b.pulls, 2, "", "");
  }

  /** "qwe\r" then "\nrty" yields "qwe" and keeps "rty" for later. */
  method SplitTerminatorKeepsRest(limit: nat) returns (r: Result<string>, kept: string)
    requires limit >= 2
    ensures r == Ok("qwe") && kept == "rty"
  {
    var source := (j: nat) => if j == 0 then "qwe\r" else "\nrty";
    var b := new BufferLines(source, limit);
    r := b.Next();
    kept := b.buffer;
    assert "" + Pulled(source, 0, 1) == "qwe\r";
    assert "" + Pulled(source, 0, 2) == "qwe" + Terminator + "rty";
    NoLFNoTerminator("qwe\r");
    NoCRNoTerminator("qwe");
    NextReturnsLine(source, limit, "", 0, r, b.buffer, b.pulls, 2, "qwe", "rty");
  }

  /** Chunks without a terminator accumulate: "qwe", "rty", "uio\r\n" yield "qwertyuio". */
  method ThirdChunkCompletes(limit: nat) returns (r: Result<string>)
    requires limit >= 3
    ensures r == Ok("qwertyuio")
  {
    var source := (j: nat) => if j == 0 then "qwe" else if j == 1 then "rty" else "uio\r\n";
    var b := new BufferLines(source, limit);
    r := b.Next();
    assert "" + Pulled(source, 0, 2) == "qwerty";
    assert "" + Pulled(source, 0, 3) == "qwertyuio" + Terminator + "";
    NoCRNoTerminator("qwerty");
    NoCRNoTerminator("qwertyuio");
    NextReturnsLine(source, limit, "", 0, r, b.buffer, b.pulls, 3, "qwertyuio", "");
  }

  /** Two lines in one chunk come out one per call, in order, without a second pull. */
  method TwoLinesOneChunk(limit: nat) returns (first: Result<string>, second: Result<string>)
    requires limit >= 1
    ensures first == Ok("qwe") && second == Ok("rty")
  {
    var source := (j: nat) => "qwe\r\nrty\r\n";
    var b := new BufferLines(source, limit);
    first := b.Next();
    assert "" + Pulled(source, 0, 1) == "qwe" + Terminator + "rty\r\n";
    NoCRNoTerminator("qwe");
    NextReturnsLine(source, limit, "", 0, first, b.buffer, b.pulls, 1, "qwe", "rty\r\n");
    second := b.Next();
    assert "rty\r\n" + Pulled(source, 1, 1) == "rty" + Terminator + "";
    NoCRNoTerminator("rty");
    NextReturnsLine(source, limit, "rty\r\n", 1, second, b.buffer, b.pulls, 1, "rty", "");
  }

  /** The source of the next case: "\r", "\n", "\r", "\n", then "\r" forever. */
  function CrLfTwiceThenCr(j: nat): string
  {
    if j == 1 || j == 3 then "\n" else "\r"
  }

  /** Each of the first two pairs of pulls completes an empty line, and its first pull alone does not. */
  lemma CrLfTwicePulls(from: nat)
    requires from == 0 || from == 2
    ensures "" + Pulled(CrLfTwiceThenCr, from, from + 1) == "\r"
    ensures "" + Pulled(CrLfTwiceThenCr, from, from + 2) == "" + Terminator + ""
    ensures !HasTerminator("\r") && !HasTerminator("")
  {
    NoLFNoTerminator("\r");
    NoCRNoTerminator("");
  }

  /** One `next()` on that source at pull 0 or 2: the pair of pulls "\r", "\n" gives an empty line. */
  method ReadEmptyLine(b: BufferLines) returns (r: Result<string>)
    requires b.Valid() && b.source == CrLfTwiceThenCr && b.limit >= 2
    requires b.buffer == "" && (b.pulls == 0 || b.pulls == 2)
    modifies b`buffer, b`pulls, b`lines
    ensures b.Valid() && r == Ok("") && b.buffer == "" && b.pulls == old(b.pulls) + 2
  {
    ghost var from := b.pulls;
    r := b.Next();
    CrLfTwicePulls(from);
    NextReturnsLine(CrLfTwiceThenCr, b.limit, "", from, r, b.buffer, b.pulls, from + 2, "", "");
  }

  /** After the fourth pull only carriage returns come, so no pull count completes a line. */
  lemma OnlyCrAfterFour(n: nat)
    ensures !HasTerminator("" + Pulled(CrLfTwiceThenCr, 4, 4 + n))
  {
    assert forall j: nat :: 4 <= j ==> NoLF(CrLfTwiceThenCr(j));
    PulledNoLF(CrLfTwiceThenCr, "", 4, 4 + n);
    NoLFNoTerminator("" + Pulled(CrLfTwiceThenCr, 4, 4 + n));
  }

  /**
   * Chunks "\r", "\n", "\r", "\n" and then "\r" forever: two empty lines, then
   * the read limit is reached.
   */
  method EmptyLinesThenExhausted(limit: nat)
    returns (first: Result<string>, second: Result<string>, third: Result<string>)
    requires limit >= 2
    ensures first == Ok("") && second == Ok("")
    ensures third == Err(IllegalState(NoNewLineMessage(limit)))
  {
    var b := new BufferLines(CrLfTwiceThenCr, limit);
    first := ReadEmptyLine(b);
    second := ReadEmptyLine(b);
    third := ReadPastFour(b);
  }

  /** One `next()` on that source after four pulls: only "\r" comes, so the read limit is reached. */
  method ReadPastFour(b: BufferLines) returns (r: Result<string>)
    requires b.Valid() && b.source == CrLfTwiceThenCr
    requires b.buffer == "" && b.pulls == 4
    modifies b`buffer, b`pulls, b`lines
    ensures r == Err(IllegalState(NoNewLineMessage(b.limit)))
  {
    r := b.Next();
    OnlyCrAfterFour(b.limit);
    NextExhausted(CrLfTwiceThenCr, b.limit, "", 4, r, b.buffer, b.pulls);
  }

  /** The source of the next case: "asd" on every pull. */
  function Asd(j: nat): string
  {
    "asd"
  }

  /** However often it is pulled, "asd" brings no terminator. */
  lemma AsdNeverEnds(n: nat)
    ensures !HasTerminator("" + Pulled(Asd, 0, n))
  {
    assert forall j: nat :: NoCR(Asd(j));
    PulledNoCR(Asd, "", 0, n);
    NoCRNoTerminator("" + Pulled(Asd, 0, n));
  }

  /** "asd" forever with a limit of 1000 throws "Couldn't find new line after 1000 reads". */
  method NoTerminatorWithinLimit() returns (r: Result<string>)
    ensures r == Err(IllegalState("Couldn't find new line after 1000 reads"))
  {
    var b := new BufferLines(Asd, 1000);
    r := b.Next();
    AsdNeverEnds(b.limit);
    NextExhausted(Asd, b.limit, "", 0, r, b.buffer, b.pulls);
    ThousandReads();
  }

  lemma ThousandReads()
    ensures NoNewLineMessage(1000) == "Couldn't find new line after 1000 reads"
  {
    assert Text.NatToString(1) == "1";
    assert Text.NatToString(10) == "10";
    assert Text.NatToString(100) == "100";
  }
}
