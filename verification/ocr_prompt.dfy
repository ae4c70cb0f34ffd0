/**
 * The OCR text handed to the model: one line `[p{p} b{b}] {text}` per entry,
 * the lines joined with "\n". The decoder below inverts the rendering when no
 * entry text holds a line break.
 */
module OcrPrompt {
  import opened Wrappers
  import opened Seqs
  import opened Decimal
  import opened OcrPages

  /** `[p${x.p} b${x.b}] ${x.text}`: a `[p` prefix and at least six more characters of indices and literals before the text. */
  function FormatEntry(e: OcrEntry): (r: string)
    ensures |r| >= |e.text| + 8
    ensures r[..2] == "[p"
  {
    "[p" + (NatToDecimal(e.p) + (" b" + (NatToDecimal(e.b) + ("] " + e.text))))
  }

  /**
   * `blocks.map(...).join("\n")`: empty exactly when there are no entries,
   * and, for a non-empty list of entries none of whose texts holds a line
   * break, made of exactly one line per entry, in order.
   */
  function OcrText(entries: seq<OcrEntry>): (r: string)
    ensures r == "" <==> entries == []
    ensures entries != [] && (forall i :: 0 <= i < |entries| ==> NoNewline(entries[i].text)) ==>
      SplitLines(r) == MapSeq(entries, FormatEntry)
  {
    JoinedLines(entries);
    JoinWith(MapSeq(entries, FormatEntry), "\n")
  }

  /** The facts behind `OcrText`'s contract, stated on the joined lines themselves. */
  lemma JoinedLines(entries: seq<OcrEntry>)
    ensures JoinWith(MapSeq(entries, FormatEntry), "\n") == "" <==> entries == []
    ensures entries != [] && (forall i :: 0 <= i < |entries| ==> NoNewline(entries[i].text)) ==>
      SplitLines(JoinWith(MapSeq(entries, FormatEntry), "\n")) == MapSeq(entries, FormatEntry)
  {
    var lines := MapSeq(entries, FormatEntry);
    if entries != [] && (forall i :: 0 <= i < |entries| ==> NoNewline(entries[i].text)) {
      forall i | 0 <= i < |lines|
        ensures NoNewline(lines[i])
      {
        FormatEntryNoNewline(entries[i]);
      }
      SplitJoin(lines);
    }
    if entries != [] {
      assert |lines[0]| > 0;
    }
  }

  /** Read one line back: the two decimal indices, then everything after "] " is the text. */
  function DecodeEntry(line: string): Option<OcrEntry> {
    match Expect("[p", line)
    case None => None
    case Some(s1) =>
      match ReadNat(s1)
      case None => None
      case Some((p, s2)) =>
        match Expect(" b", s2)
        case None => None
        case Some(s3) =>
          match ReadNat(s3)
          case None => None
          case Some((b, s4)) =>
            match Expect("] ", s4)
            case None => None
            case Some(text) => Some(OcrEntry(p, b, text))
  }

  /** What follows the literal `lit` at the start of `s`, if `s` starts with it. */
  function Expect(lit: string, s: string): Option<string> {
    if |lit| <= |s| && s[..|lit|] == lit then Some(s[|lit|..]) else None
  }

  /** The number spelled by the leading digits of `s` and what follows them, if there is at least one digit. */
  function ReadNat(s: string): Option<(nat, string)> {
    var n := DigitRun(s);
    if n == 0 then None else Some((DecimalValue(s[..n]), s[n..]))
  }

  /** The position of the first "\n" in `s`, or `|s|` when there is none. */
  function IndexOfNewline(s: string): (i: nat)
    ensures i <= |s|
    ensures i < |s| ==> s[i] == '\n'
    ensures forall k :: 0 <= k < i ==> s[k] != '\n'
    decreases |s|
  {
    if |s| == 0 then 0
    else if s[0] == '\n' then 0
    else 1 + IndexOfNewline(s[1..])
  }

  /** `s.split("\n")`: never empty, and an empty string splits into one empty line. */
  function SplitLines(s: string): (r: seq<string>)
    ensures |r| >= 1
    decreases |s|
  {
    var i := IndexOfNewline(s);
    if i == |s| then [s] else [s[..i]] + SplitLines(s[i + 1..])
  }

  /** Split the model's input back into lines and decode each. */
  function DecodeOcrText(text: string): Option<seq<OcrEntry>> {
    DecodeAll(SplitLines(text))
  }

  function DecodeAll(lines: seq<string>): Option<seq<OcrEntry>>
    decreases |lines|
  {
    if |lines| == 0 then Some([])
    else
      match DecodeEntry(lines[0])
      case None => None
      case Some(e) =>
        match DecodeAll(lines[1..])
        case None => None
        case Some(rest) => Some([e] + rest)
  }

  predicate NoNewline(s: string) {
    forall k :: 0 <= k < |s| ==> s[k] != '\n'
  }

  // ---------------------------------------------------------------------------

  lemma ExpectLiteral(lit: string, t: string)
    ensures Expect(lit, lit + t) == Some(t)
  {
    assert (lit + t)[..|lit|] == lit;
    assert (lit + t)[|lit|..] == t;
  }

  /** The decimal text of `n` followed by a non-digit reads back as `n`. */
  lemma ReadNatOfDecimal(n: nat, t: string)
    requires |t| > 0 && !IsDigit(t[0])
    ensures ReadNat(NatToDecimal(n) + t) == Some((n, t))
  {
    var d := NatToDecimal(n);
    DigitRunOfConcat(d, t);
    assert (d + t)[..|d|] == d;
    assert (d + t)[|d|..] == t;
    DecimalRoundTrip(n);
  }

  /** Every formatted line reads back as the entry it came from. */
  lemma FormatEntryRoundTrip(e: OcrEntry)
    ensures DecodeEntry(FormatEntry(e)) == Some(e)
  {
    var dp, db := NatToDecimal(e.p), NatToDecimal(e.b);
    var s4 := "] " + e.text;
    var s3 := db + s4;
    var s2 := " b" + s3;
    var s1 := dp + s2;
    ExpectLiteral("[p", s1);
    ReadNatOfDecimal(e.p, s2);
    ExpectLiteral(" b", s3);
    ReadNatOfDecimal(e.b, s4);
    ExpectLiteral("] ", e.text);
  }

  /** Two different entries never format to the same line. */
  lemma FormatEntryInjective(e1: OcrEntry, e2: OcrEntry)
    requires FormatEntry(e1) == FormatEntry(e2)
    ensures e1 == e2
  {
    FormatEntryRoundTrip(e1);
    FormatEntryRoundTrip(e2);
  }

  /** A formatted line contains a newline only if the entry's text does. */
  lemma FormatEntryNoNewline(e: OcrEntry)
    requires NoNewline(e.text)
    ensures NoNewline(FormatEntry(e))
  {
    var dp, db := NatToDecimal(e.p), NatToDecimal(e.b);
    assert forall k :: 0 <= k < |dp| ==> IsDigit(dp[k]);
    assert forall k :: 0 <= k < |db| ==> IsDigit(db[k]);
  }

  /** Splitting undoes joining when no line contains the separator. */
  lemma {:induction false} SplitJoin(lines: seq<string>)
    requires |lines| >= 1
    requires forall i :: 0 <= i < |lines| ==> NoNewline(lines[i])
    ensures SplitLines(JoinWith(lines, "\n")) == lines
    decreases |lines|
  {
    if |lines| == 1 {
      assert IndexOfNewline(lines[0]) == |lines[0]|;
    } else {
      var rest := JoinWith(lines[1..], "\n");
      assert JoinWith(lines, "\n") == lines[0] + "\n" + rest;
      SplitLinesCons(lines[0], rest);
      SplitJoin(lines[1..]);
      assert lines == [lines[0]] + lines[1..];
    }
  }

  /** A line without a break, then a break: splitting takes that line off the front. */
  lemma SplitLinesCons(a: string, t: string)
    requires NoNewline(a)
    ensures SplitLines(a + "\n" + t) == [a] + SplitLines(t)
  {
    var s := a + "\n" + t;
    assert IndexOfNewline(s) == |a| by {
      assert s[|a|] == '\n';
      assert forall k :: 0 <= k < |a| ==> s[k] == a[k];
    }
    assert s[..|a|] == a;
    assert s[|a| + 1..] == t;
  }

  /** Decoding each formatted line gives back the entries. */
  lemma {:induction false} DecodeAllFormatted(entries: seq<OcrEntry>)
    ensures DecodeAll(MapSeq(entries, FormatEntry)) == Some(entries)
    decreases |entries|
  {
    if |entries| > 0 {
      var lines := MapSeq(entries, FormatEntry);
      assert DecodeEntry(lines[0]) == Some(entries[0]) by {
        FormatEntryRoundTrip(entries[0]);
      }
      assert DecodeAll(lines[1..]) == Some(entries[1..]) by {
        assert lines[1..] == MapSeq(entries[1..], FormatEntry);
        DecodeAllFormatted(entries[1..]);
      }
      DecodeAllCons(lines, entries[0], entries[1..]);
      assert entries == [entries[0]] + entries[1..];
    }
  }

  /** Decoding succeeds on a list of lines when it does on the first line and on the others. */
  lemma DecodeAllCons(lines: seq<string>, e: OcrEntry, rest: seq<OcrEntry>)
    requires |lines| > 0
    requires DecodeEntry(lines[0]) == Some(e) && DecodeAll(lines[1..]) == Some(rest)
    ensures DecodeAll(lines) == Some([e] + rest)
  {
  }

  /**
   * For a non-empty list of entries none of whose texts spans lines,
   * splitting the OCR text at "\n" and decoding each line gives back exactly
   * the entries, in order. (With no entries the text is "", which splits
   * into one empty line that does not decode; the handler never formats an
   * empty list, since it rejects that case first.)
   */
  lemma OcrTextRoundTrip(entries: seq<OcrEntry>)
    requires |entries| >= 1
    requires forall i :: 0 <= i < |entries| ==> NoNewline(entries[i].text)
    ensures DecodeOcrText(OcrText(entries)) == Some(entries)
  {
    var lines := MapSeq(entries, FormatEntry);
    forall i | 0 <= i < |lines|
      ensures NoNewline(lines[i])
    {
      FormatEntryNoNewline(entries[i]);
    }
    SplitJoin(lines);
    DecodeAllFormatted(entries);
  }

  /** A line is its entry's header followed by the text: extending the text extends the line by the same characters. */
  lemma FormatEntryAppend(e: OcrEntry, t: string)
    ensures FormatEntry(OcrEntry(e.p, e.b, e.text + t)) == FormatEntry(e) + t
  {
    var dp, db := NatToDecimal(e.p), NatToDecimal(e.b);
    ConcatAssoc("] ", e.text, t);
    ConcatAssoc(db, "] " + e.text, t);
    ConcatAssoc(" b", db + ("] " + e.text), t);
    ConcatAssoc(dp, " b" + (db + ("] " + e.text)), t);
    ConcatAssoc("[p", dp + (" b" + (db + ("] " + e.text))), t);
  }

  /**
   * A line break inside an entry's text makes the prompt ambiguous: an
   * entry whose text continues, after a line break, with the line of a
   * second entry renders exactly as the two entries do.
   */
  lemma PromptAmbiguousAcrossLines(e0: OcrEntry, e1: OcrEntry)
    ensures [OcrEntry(e0.p, e0.b, e0.text + ("\n" + FormatEntry(e1)))] != [e0, e1]
    ensures OcrText([OcrEntry(e0.p, e0.b, e0.text + ("\n" + FormatEntry(e1)))]) == OcrText([e0, e1])
  {
    var merged := OcrEntry(e0.p, e0.b, e0.text + ("\n" + FormatEntry(e1)));
    FormatEntryAppend(e0, "\n" + FormatEntry(e1));
    OcrTextSingle(merged);
    OcrTextPair(e0, e1);
    ConcatAssoc(FormatEntry(e0), "\n", FormatEntry(e1));
  }

  lemma OcrTextSingle(e: OcrEntry)
    ensures OcrText([e]) == FormatEntry(e)
  {
    assert MapSeq([e], FormatEntry) == [FormatEntry(e)];
  }

  lemma OcrTextPair(e0: OcrEntry, e1: OcrEntry)
    ensures OcrText([e0, e1]) == FormatEntry(e0) + "\n" + FormatEntry(e1)
  {
    assert MapSeq([e0, e1], FormatEntry) == [FormatEntry(e0), FormatEntry(e1)];
    JoinPair(FormatEntry(e0), FormatEntry(e1), "\n");
  }
}
