/**
 * The four replies of the self-test in backend/tmp_test_parser.py, run
 * through the copy of the reader without the early direct parse and decoded
 * with the JSON recogniser: a diagnostic after the object, a fenced code
 * block, a truncated object, and a trailing comma.
 *
 * Each reply is written as a constant; what the decoder reads of it is
 * stated as a list of its characters (a predicate on any text), so that the
 * decoding lemmas reason about those characters only.
 */
module ParserCases {
  import opened Wrappers
  import opened Text
  import opened Json
  import opened Recovery

  // The pieces a test text is written in.

  /** A string literal around a text. */
  function Quoted(t: string): string {
    "\"" + t + "\""
  }

  lemma QuotedChars(t: string, c: char)
    ensures c in Quoted(t) <==> c == '"' || c in t
  {
  }

  // The bracket walk over flat text.

  /** A piece the walk passes without changing its stack: plain text, a string literal without escapes, or a bracketed plain text. */
  predicate FlatPiece(p: string) {
    Inert(p)
    || (|p| >= 2 && p[0] == '"' && p[|p| - 1] == '"' && '"' !in p[1..|p| - 1] && '\\' !in p[1..|p| - 1])
    || (|p| >= 2 && p[0] == '[' && p[|p| - 1] == ']' && Inert(p[1..|p| - 1]))
  }

  lemma QuotedFlat(t: string)
    requires '"' !in t && '\\' !in t
    ensures FlatPiece(Quoted(t))
  {
    assert Quoted(t)[1..|t| + 1] == t;
  }

  lemma BracketFlat(t: string)
    requires Inert(t)
    ensures FlatPiece("[" + t + "]")
  {
    assert ("[" + t + "]")[1..|t| + 1] == t;
  }

  /** Outside quotes, with a bracket open. */
  predicate Settled(st: ScanState) {
    !st.inString && !st.escape && st.stack != []
  }

  lemma ScanQuotedPiece(st: ScanState, p: string, offset: nat)
    requires Settled(st) && |p| >= 2 && p[0] == '"' && p[|p| - 1] == '"' && '"' !in p[1..|p| - 1] && '\\' !in p[1..|p| - 1]
    ensures Scan(st, p, offset) == Open(st.(quote := '"'))
  {
    var body := p[1..|p| - 1];
    assert p == "\"" + body + "\"";
    ScanQuoted(st, body, offset);
  }

  lemma ScanBracketPiece(st: ScanState, p: string, offset: nat)
    requires Settled(st) && |p| >= 2 && p[0] == '[' && p[|p| - 1] == ']' && Inert(p[1..|p| - 1])
    ensures Scan(st, p, offset) == Open(st)
  {
    var body := p[1..|p| - 1];
    var pushed := st.(stack := st.stack + ['[']);
    assert p[1..] == body + "]";
    ScanInert(pushed, body, offset + 1);
    ScanAppend(pushed, body, "]", offset + 1);
    assert pushed.stack[..|pushed.stack| - 1] == st.stack;
  }

  lemma ScanFlatPiece(st: ScanState, p: string, offset: nat) returns (st': ScanState)
    requires Settled(st) && FlatPiece(p)
    ensures Scan(st, p, offset) == Open(st') && Settled(st') && st'.stack == st.stack
  {
    if Inert(p) {
      ScanInert(st, p, offset);
      st' := st;
    } else if p[0] == '"' {
      ScanQuotedPiece(st, p, offset);
      st' := st.(quote := '"');
    } else {
      ScanBracketPiece(st, p, offset);
      st' := st;
    }
  }

  const InObject := ScanState(['{'], false, '\0', false)

  lemma ScanBrace()
    ensures Scan(ScanStart, "{", 0) == Open(InObject) && Settled(InObject)
  {
    assert "{"[1..] == [];
  }

  /** The walk over a text that stays settled goes on settled over one more flat piece. */
  lemma Extend(prefix: string, st: ScanState, p: string) returns (st': ScanState)
    requires Scan(ScanStart, prefix, 0) == Open(st) && Settled(st) && FlatPiece(p)
    ensures Scan(ScanStart, prefix + p, 0) == Open(st') && Settled(st') && st'.stack == st.stack
  {
    st' := ScanFlatPiece(st, p, |prefix|);
    ScanThen(ScanStart, prefix, p, 0, st, st');
  }

  /** With only `{` open, a `}` ends the walk. */
  lemma CloseBrace(prefix: string, st: ScanState)
    requires Scan(ScanStart, prefix, 0) == Open(st) && Settled(st) && st.stack == ['{']
    ensures Scan(ScanStart, prefix + "}", 0) == Ended(|prefix|)
  {
    ScanAppend(ScanStart, prefix, "}", 0);
  }

  /** A `"` after settled text starts a string literal, which text without `"` or a backslash does not end. */
  lemma OpenQuote(prefix: string, st: ScanState, tail: string)
    requires Scan(ScanStart, prefix, 0) == Open(st) && Settled(st) && st.stack == ['{']
    requires '"' !in tail && '\\' !in tail
    ensures Scan(ScanStart, prefix + "\"" + tail, 0) == Open(ScanState(['{'], true, '"', false))
  {
    var inside := ScanState(['{'], true, '"', false);
    assert Scan(st, "\"", |prefix|) == Open(inside) by {
      assert "\""[1..] == [];
    }
    ScanThen(ScanStart, prefix, "\"", 0, st, inside);
    ScanInsideQuotes(inside, tail, |prefix| + 1);
    ScanThen(ScanStart, prefix + "\"", tail, 0, inside, inside);
  }

  lemma Assoc(x: string, y: string, z: string)
    ensures x + (y + z) == x + y + z
  {
  }

  lemma SliceMiddle(x: string, y: string, z: string)
    ensures (x + y + z)[|x|..|x| + |y|] == y
  {
  }

  // The stages before the walk.

  /** Neither fence, so cleaning only strips. */
  lemma CleanPlain(raw: string)
    requires raw != [] && IsOpener(raw[0]) && !IsSpace(raw[|raw| - 1]) && raw[|raw| - 1] != '`'
    ensures Clean(raw) == raw
  {
    StripUnchanged(raw);
    if |raw| >= 3 {
      assert raw[..3][0] == raw[0];
      assert raw[|raw| - 3..][2] == raw[|raw| - 1];
    }
    CleanUnfenced(raw);
  }

  /** A text without the characters the markers need passes the marker stage unchanged. */
  lemma NoMarkers(t: string)
    requires '\n' !in t && 'E' !in t && ('T' !in t || 'b' !in t)
    ensures CutAll(t, Markers) == t
  {
    FindNeedsChar(t, Markers[0], '\n');
    FindNeedsChar(t, Markers[1], '\n');
    FindNeedsChar(t, Markers[2], '\n');
    FindNeedsChar(t, Markers[3], 'E');
    if 'T' !in t {
      FindNeedsChar(t, Markers[4], 'T');
    } else {
      FindNeedsChar(t, Markers[4], 'b');
    }
    assert Markers[4..][1..] == [];
    assert CutAll(t, Markers[4..]) == t;
    assert Markers[3..][1..] == Markers[4..];
    assert CutAll(t, Markers[3..]) == t;
    assert Markers[2..][1..] == Markers[3..];
    assert CutAll(t, Markers[2..]) == t;
    assert Markers[1..][1..] == Markers[2..];
    assert CutAll(t, Markers[1..]) == t;
  }

  lemma OpensAtStart(t: string)
    requires t != [] && IsOpener(t[0])
    ensures StartOf(t) == 0 && t[0..] == t
  {
  }

  /** A reply that does not clean to nothing is judged by its text after the marker stage. */
  lemma CleanedReply(raw: string)
    requires Clean(raw) != []
    ensures Candidates(raw, false) == CutCandidates(CutAll(Clean(raw), Markers))
    ensures Verdict(raw) == CutVerdict(CutAll(Clean(raw), Markers))
  {
  }

  /** A cut text that starts with a bracket the walk balances yields the two balanced candidates. */
  lemma BalancedReply(raw: string, t: string, end: nat)
    requires Clean(raw) != [] && CutAll(Clean(raw), Markers) == t
    requires t != [] && IsOpener(t[0]) && Scan(ScanStart, t, 0) == Ended(end)
    ensures Candidates(raw, false) == BalancedCandidates(t, 0, end)
    ensures Verdict(raw) == BalancedVerdict(t, 0, end)
  {
    CleanedReply(raw);
    OpensAtStart(t);
    CutEnded(t, 0, end);
    CutEndedVerdict(t, 0, end);
  }

  /** A text from an opening to a closing bracket is left as it is by stripping. */
  lemma WholeChunk(t: string)
    requires t != [] && IsOpener(t[0]) && IsCloser(t[|t| - 1])
    ensures Strip(t[0..|t|]) == t
  {
    assert t[0..|t|] == t;
    StripUnchanged(t);
  }

  /** A cut text that is one balanced object is tried as it is, then without trailing commas. */
  lemma WholeObject(raw: string, t: string)
    requires Clean(raw) != [] && CutAll(Clean(raw), Markers) == t
    requires t != [] && IsOpener(t[0]) && Scan(ScanStart, t, 0) == Ended(|t| - 1)
    ensures Candidates(raw, false) == [t, DropTrailingCommas(t)]
    ensures Verdict(raw) == CandidateRejected(Prefix(t, 400))
  {
    BalancedReply(raw, t, |t| - 1);
    WholeChunk(t);
  }

  /** A cut text whose walk is left inside a string literal with one brace open. */
  lemma OpenReply(raw: string, t: string)
    requires Clean(raw) != [] && CutAll(Clean(raw), Markers) == t
    requires t != [] && IsOpener(t[0]) && Scan(ScanStart, t, 0) == Open(ScanState(['{'], true, '"', false))
    ensures Candidates(raw, false) == OpenCandidates(t, 0, ['{'])
    ensures Verdict(raw) == OpenVerdict(t, 0)
  {
    CleanedReply(raw);
    OpensAtStart(t);
    CutOpen(t, 0, ['{']);
  }

  /** The first candidate decodes. */
  lemma FirstDecodes(cs: seq<string>, loads: Loader, verdict: ParseError, v: Json)
    requires cs != [] && loads(cs[0]) == Some(v)
    ensures FirstParsed(cs, loads, verdict) == Parsed(v)
  {
  }

  /** Only the second of two candidates decodes. */
  lemma SecondDecodes(a: string, b: string, loads: Loader, verdict: ParseError, v: Json)
    requires loads(a) == None && loads(b) == Some(v)
    ensures FirstParsed([a, b], loads, verdict) == Parsed(v)
  {
    assert [a, b][1..] == [b];
  }

  /** The only candidate does not decode. */
  lemma NoneDecodes(a: string, loads: Loader, verdict: ParseError)
    requires loads(a) == None
    ensures FirstParsed([a], loads, verdict) == Failed(verdict)
  {
    assert [a][1..] == [];
  }

  // Test 1 (line 104): an object followed by a diagnostic.

  const Summary := "{" + Quoted("title") + ": " + Quoted("History of India") + ", " + Quoted("summary") + ": " + Quoted("A long summary.") + "}"
  const Diagnostic := Summary + " " + "Error:" + " Unterminated string starting at"
  const SummaryValue := JObj(map[]["title" := JStr("History of India")]["summary" := JStr("A long summary.")])

  lemma SummaryLacks(c: char)
    requires c in "\nET"
    ensures c !in Summary
  {
    QuotedChars("title", c);
    QuotedChars("History of India", c);
    QuotedChars("summary", c);
    QuotedChars("A long summary.", c);
  }

  lemma DiagnosticFound()
    ensures Find(Diagnostic, Markers[3]) == 60
  {
    SummaryLacks('E');
    var head := Summary + " ";
    assert |head| == 60;
    forall j | 0 <= j < 60 ensures Diagnostic[j] != 'E' {
      assert Diagnostic[j] == head[j];
    }
    SliceMiddle(head, "Error:", " Unterminated string starting at");
    assert Diagnostic[60..66] == "Error:";
    FindFirstAt(Diagnostic, Markers[3], 60);
  }

  lemma DiagnosticHead()
    ensures CutAt(Diagnostic, Markers[3]) == Summary
  {
    DiagnosticFound();
    assert Diagnostic[..60] == [] + Summary + " " by {
      SliceMiddle([], Summary + " ", "Error:" + " Unterminated string starting at");
      Assoc(Summary + " ", "Error:", " Unterminated string starting at");
    }
    StripAround([], Summary, " ");
  }

  lemma DiagnosticMarkers()
    ensures CutAll(Diagnostic, Markers) == CutAll(Diagnostic, Markers[3..])
  {
    SummaryLacks('\n');
    assert '\n' !in Diagnostic;
    FindNeedsChar(Diagnostic, Markers[0], '\n');
    FindNeedsChar(Diagnostic, Markers[1], '\n');
    FindNeedsChar(Diagnostic, Markers[2], '\n');
    assert Markers[2..][1..] == Markers[3..];
    assert Markers[1..][1..] == Markers[2..];
  }

  lemma DiagnosticCut()
    ensures CutAll(Diagnostic, Markers) == Summary
  {
    DiagnosticMarkers();
    DiagnosticHead();
    SummaryLacks('T');
    FindNeedsChar(Summary, Markers[4], 'T');
    assert Markers[3..][1..] == Markers[4..];
    assert Markers[4..][1..] == [];
  }

  lemma SummaryScan()
    ensures Scan(ScanStart, Summary, 0) == Ended(58)
  {
    QuotedFlat("title");
    QuotedFlat("History of India");
    QuotedFlat("summary");
    QuotedFlat("A long summary.");
    assert Inert(": ") && Inert(", ");
    ScanBrace();
    var p := "{";
    var st := Extend(p, InObject, Quoted("title"));
    p := p + Quoted("title");
    st := Extend(p, st, ": ");
    p := p + ": ";
    st := Extend(p, st, Quoted("History of India"));
    p := p + Quoted("History of India");
    st := Extend(p, st, ", ");
    p := p + ", ";
    st := Extend(p, st, Quoted("summary"));
    p := p + Quoted("summary");
    st := Extend(p, st, ": ");
    p := p + ": ";
    st := Extend(p, st, Quoted("A long summary."));
    p := p + Quoted("A long summary.");
    CloseBrace(p, st);
  }

  /** The characters of the object in test 1. */
  predicate SummaryText(s: string) {
    |s| == 59 && s[0] == '{' && s[1] == '"' && s[2..7] == "title" && s[7] == '"' && s[8] == ':' && s[9] == ' '
    && s[10] == '"' && s[11..27] == "History of India" && s[27] == '"' && s[28] == ',' && s[29] == ' '
    && s[30] == '"' && s[31..38] == "summary" && s[38] == '"' && s[39] == ':' && s[40] == ' '
    && s[41] == '"' && s[42..57] == "A long summary." && s[57] == '"' && s[58] == '}'
  }

  lemma SummaryShape()
    ensures SummaryText(Summary)
  {
  }

  lemma SummaryKeys(s: string)
    requires SummaryText(s)
    ensures StringBody(s, 2) == Some(("title", 8)) && StringBody(s, 31) == Some(("summary", 39))
  {
    PlainAt(s, 2, "title");
    PlainAt(s, 31, "summary");
  }

  lemma SummaryStrings(s: string)
    requires SummaryText(s)
    ensures Value(s, 10) == Some((JStr("History of India"), 28)) && Value(s, 41) == Some((JStr("A long summary."), 58))
  {
    PlainAt(s, 11, "History of India");
    PlainAt(s, 42, "A long summary.");
  }

  lemma SummarySpaces(s: string)
    requires SummaryText(s)
    ensures SkipSpace(s, 0) == 0 && SkipSpace(s, 1) == 1
    ensures SkipSpace(s, 8) == 8 && SkipSpace(s, 9) == 10
    ensures SkipSpace(s, 28) == 28 && SkipSpace(s, 29) == 30
    ensures SkipSpace(s, 39) == 39 && SkipSpace(s, 40) == 41
    ensures SkipSpace(s, 58) == 58 && SkipSpace(s, 59) == 59
  {
    assert SkipSpace(s, 10) == 10 && SkipSpace(s, 30) == 30 && SkipSpace(s, 41) == 41;
  }

  lemma SummaryTail(s: string)
    requires SummaryText(s)
    ensures Members(s, 30, map[]["title" := JStr("History of India")], false) == Some((SummaryValue, 59))
  {
    SummaryKeys(s);
    SummaryStrings(s);
    SummarySpaces(s);
  }

  lemma SummaryDecodes(s: string)
    requires SummaryText(s)
    ensures Loads(s) == Some(SummaryValue)
  {
    SummaryKeys(s);
    SummaryStrings(s);
    SummarySpaces(s);
    SummaryTail(s);
    assert Members(s, 1, map[], true) == Some((SummaryValue, 59));
  }

  /** Test 1: the diagnostic after the object is cut off and the object decodes. */
  lemma DiagnosticCase()
    ensures Recover(Diagnostic, false, Loads) == Parsed(SummaryValue)
  {
    SummaryShape();
    CleanPlain(Diagnostic);
    DiagnosticCut();
    SummaryScan();
    WholeObject(Diagnostic, Summary);
    SummaryDecodes(Summary);
    FirstDecodes([Summary, DropTrailingCommas(Summary)], Loads, Verdict(Diagnostic), SummaryValue);
  }

  // Test 2 (line 106): an object inside a fenced code block.

  const Listing := "{" + Quoted("title") + ": " + Quoted("Foo") + ", " + Quoted("items") + ": " + ("[" + "1,2,3" + "]") + "}"
  const Fenced := "```json\n" + Listing + "\n```\n"
  const Items := JArr([JNum(1), JNum(2), JNum(3)])
  const ListingValue := JObj(map[]["title" := JStr("Foo")]["items" := Items])

  lemma ListingLacks(c: char)
    requires c in "\nET"
    ensures c !in Listing
  {
    QuotedChars("title", c);
    QuotedChars("Foo", c);
    QuotedChars("items", c);
  }

  lemma FencedStripped()
    ensures Strip(Fenced) == "```json" + ("\n" + Listing + "\n") + "```"
  {
    var block := "```json" + ("\n" + Listing + "\n") + "```";
    assert Fenced == [] + block + "\n";
    assert AllSpace("\n") by {
      assert IsSpace("\n"[0]);
    }
    StripAround([], block, "\n");
  }

  lemma FencedCleaned()
    ensures Clean(Fenced) == Listing
  {
    FencedStripped();
    CleanFenced(Fenced, "\n" + Listing + "\n");
    assert AllSpace("\n") by {
      assert IsSpace("\n"[0]);
    }
    StripAround("\n", Listing, "\n");
  }

  lemma ListingScan()
    ensures Scan(ScanStart, Listing, 0) == Ended(33)
  {
    QuotedFlat("title");
    QuotedFlat("Foo");
    QuotedFlat("items");
    assert Inert(": ") && Inert(", ") && Inert("1,2,3");
    BracketFlat("1,2,3");
    ScanBrace();
    var p := "{";
    var st := Extend(p, InObject, Quoted("title"));
    p := p + Quoted("title");
    st := Extend(p, st, ": ");
    p := p + ": ";
    st := Extend(p, st, Quoted("Foo"));
    p := p + Quoted("Foo");
    st := Extend(p, st, ", ");
    p := p + ", ";
    st := Extend(p, st, Quoted("items"));
    p := p + Quoted("items");
    st := Extend(p, st, ": ");
    p := p + ": ";
    st := Extend(p, st, "[" + "1,2,3" + "]");
    p := p + ("[" + "1,2,3" + "]");
    CloseBrace(p, st);
  }

  /** The characters of the object in test 2. */
  predicate ListingText(s: string) {
    |s| == 34 && s[0] == '{' && s[1] == '"' && s[2..7] == "title" && s[7] == '"' && s[8] == ':' && s[9] == ' '
    && s[10] == '"' && s[11..14] == "Foo" && s[14] == '"' && s[15] == ',' && s[16] == ' '
    && s[17] == '"' && s[18..23] == "items" && s[23] == '"' && s[24] == ':' && s[25] == ' '
    && s[26] == '[' && s[27] == '1' && s[28] == ',' && s[29] == '2' && s[30] == ',' && s[31] == '3' && s[32] == ']'
    && s[33] == '}'
  }

  lemma ListingShape()
    ensures ListingText(Listing)
  {
  }

  lemma ListingStrings(s: string)
    requires ListingText(s)
    ensures StringBody(s, 2) == Some(("title", 8)) && StringBody(s, 18) == Some(("items", 24))
    ensures Value(s, 10) == Some((JStr("Foo"), 15))
  {
    PlainAt(s, 2, "title");
    PlainAt(s, 18, "items");
    PlainAt(s, 11, "Foo");
  }

  lemma ListingSpaces(s: string)
    requires ListingText(s)
    ensures SkipSpace(s, 0) == 0 && SkipSpace(s, 1) == 1 && SkipSpace(s, 8) == 8 && SkipSpace(s, 9) == 10
    ensures SkipSpace(s, 15) == 15 && SkipSpace(s, 16) == 17 && SkipSpace(s, 24) == 24 && SkipSpace(s, 25) == 26
    ensures SkipSpace(s, 27) == 27 && SkipSpace(s, 28) == 28 && SkipSpace(s, 29) == 29 && SkipSpace(s, 30) == 30
    ensures SkipSpace(s, 31) == 31 && SkipSpace(s, 32) == 32 && SkipSpace(s, 33) == 33 && SkipSpace(s, 34) == 34
  {
    assert SkipSpace(s, 10) == 10 && SkipSpace(s, 17) == 17 && SkipSpace(s, 26) == 26;
  }

  lemma ListingDigits(s: string)
    requires ListingText(s)
    ensures Value(s, 27) == Some((JNum(1), 28)) && Value(s, 29) == Some((JNum(2), 30)) && Value(s, 31) == Some((JNum(3), 32))
  {
    DigitValue(s, 27);
    DigitValue(s, 29);
    DigitValue(s, 31);
  }

  lemma ListingArray(s: string)
    requires ListingText(s)
    ensures Value(s, 26) == Some((Items, 33))
  {
    ListingSpaces(s);
    ListingDigits(s);
    assert Elements(s, 31, [] + [JNum(1)] + [JNum(2)], false) == Some((JArr([] + [JNum(1)] + [JNum(2)] + [JNum(3)]), 33));
    assert [] + [JNum(1)] + [JNum(2)] + [JNum(3)] == [JNum(1), JNum(2), JNum(3)];
    assert Elements(s, 29, [] + [JNum(1)], false) == Some((Items, 33));
    assert Elements(s, 27, [], true) == Some((Items, 33));
  }

  lemma ListingTail(s: string)
    requires ListingText(s)
    ensures Members(s, 17, map[]["title" := JStr("Foo")], false) == Some((ListingValue, 34))
  {
    ListingStrings(s);
    ListingSpaces(s);
    ListingArray(s);
  }

  lemma ListingDecodes(s: string)
    requires ListingText(s)
    ensures Loads(s) == Some(ListingValue)
  {
    ListingStrings(s);
    ListingSpaces(s);
    ListingTail(s);
    assert Members(s, 1, map[], true) == Some((ListingValue, 34));
  }

  lemma FencedCut()
    ensures Clean(Fenced) == Listing && CutAll(Listing, Markers) == Listing
  {
    FencedCleaned();
    ListingLacks('\n');
    ListingLacks('E');
    ListingLacks('T');
    NoMarkers(Listing);
  }

  /** Test 2: the fence is removed and the object in it decodes. */
  lemma FencedCase()
    ensures Recover(Fenced, false, Loads) == Parsed(ListingValue)
  {
    ListingShape();
    FencedCut();
    ListingScan();
    WholeObject(Fenced, Listing);
    ListingDecodes(Listing);
    FirstDecodes([Listing, DropTrailingCommas(Listing)], Loads, Verdict(Fenced), ListingValue);
  }

  // Test 3 (line 108): an object cut off inside its last string.

  const Truncated := "{" + Quoted("title") + ": " + Quoted("Truncated") + ", " + Quoted("summary") + ": " + "\"" + "This is incomplete..."

  lemma TruncatedLacks(c: char)
    requires c in "\nEb}]"
    ensures c !in Truncated
  {
    QuotedChars("title", c);
    QuotedChars("Truncated", c);
    QuotedChars("summary", c);
  }

  lemma TruncatedTail()
    ensures '"' !in "This is incomplete..." && '\\' !in "This is incomplete..."
  {
  }

  lemma TruncatedScan()
    ensures Scan(ScanStart, Truncated, 0) == Open(ScanState(['{'], true, '"', false))
  {
    QuotedFlat("title");
    QuotedFlat("Truncated");
    QuotedFlat("summary");
    assert Inert(": ") && Inert(", ");
    ScanBrace();
    var p := "{";
    var st := Extend(p, InObject, Quoted("title"));
    p := p + Quoted("title");
    st := Extend(p, st, ": ");
    p := p + ": ";
    st := Extend(p, st, Quoted("Truncated"));
    p := p + Quoted("Truncated");
    st := Extend(p, st, ", ");
    p := p + ", ";
    st := Extend(p, st, Quoted("summary"));
    p := p + Quoted("summary");
    st := Extend(p, st, ": ");
    p := p + ": ";
    TruncatedTail();
    OpenQuote(p, st, "This is incomplete...");
  }

  /** Nothing closes after the start, so only the closed-up text is tried. */
  lemma TruncatedCandidates()
    ensures Candidates(Truncated, false) == [Truncated + "}"]
    ensures Verdict(Truncated) == Unbalanced(Truncated)
  {
    CleanPlain(Truncated);
    TruncatedLacks('\n');
    TruncatedLacks('E');
    TruncatedLacks('b');
    NoMarkers(Truncated);
    TruncatedScan();
    OpenReply(Truncated, Truncated);
    TruncatedLacks('}');
    TruncatedLacks(']');
    assert RFind(Truncated, '}') == -1 && RFind(Truncated, ']') == -1;
    assert Closers(['{']) == "}";
    assert Truncated[0..] == Truncated;
  }

  /** The characters of the closed-up text of test 3. */
  predicate ClosedText(s: string) {
    |s| == 57 && s[0] == '{' && s[1] == '"' && s[2..7] == "title" && s[7] == '"' && s[8] == ':' && s[9] == ' '
    && s[10] == '"' && s[11..20] == "Truncated" && s[20] == '"' && s[21] == ',' && s[22] == ' '
    && s[23] == '"' && s[24..31] == "summary" && s[31] == '"' && s[32] == ':' && s[33] == ' '
    && s[34] == '"' && s[35..56] == "This is incomplete..." && s[56] == '}'
  }

  lemma ClosedShape()
    ensures ClosedText(Truncated + "}")
  {
  }

  lemma ClosedStrings(s: string)
    requires ClosedText(s)
    ensures StringBody(s, 2) == Some(("title", 8)) && StringBody(s, 24) == Some(("summary", 32))
    ensures Value(s, 10) == Some((JStr("Truncated"), 21)) && Value(s, 34) == None
  {
    PlainAt(s, 2, "title");
    PlainAt(s, 24, "summary");
    PlainAt(s, 11, "Truncated");
    forall i | 35 <= i < |s| ensures s[i] != '"' && s[i] != '\\' {
      if i < 56 {
        assert s[i] == s[35..56][i - 35];
      }
    }
    UnterminatedString(s, 35);
  }

  lemma ClosedSpaces(s: string)
    requires ClosedText(s)
    ensures SkipSpace(s, 0) == 0 && SkipSpace(s, 1) == 1 && SkipSpace(s, 8) == 8 && SkipSpace(s, 9) == 10
    ensures SkipSpace(s, 21) == 21 && SkipSpace(s, 22) == 23 && SkipSpace(s, 32) == 32 && SkipSpace(s, 33) == 34
  {
    assert SkipSpace(s, 10) == 10 && SkipSpace(s, 23) == 23 && SkipSpace(s, 34) == 34;
  }

  lemma ClosedRejected(s: string)
    requires ClosedText(s)
    ensures Loads(s) == None
  {
    ClosedStrings(s);
    ClosedSpaces(s);
    assert Members(s, 23, map[]["title" := JStr("Truncated")], false) == None;
    assert Members(s, 1, map[], true) == None;
  }

  /** Test 3: closing the brace leaves the last string unterminated, so the unbalanced error is raised. */
  lemma TruncatedCase()
    ensures Recover(Truncated, false, Loads) == Failed(Unbalanced(Truncated))
  {
    TruncatedCandidates();
    ClosedShape();
    ClosedRejected(Truncated + "}");
    NoneDecodes(Truncated + "}", Loads, Verdict(Truncated));
  }

  // Test 4 (line 110): a trailing comma before the closing brace.

  const Trailing := "{" + Quoted("a") + ": 1, " + Quoted("b") + ": 2," + "}"
  const TrailingFixed := "{" + Quoted("a") + ": 1, " + Quoted("b") + ": 2" + "}"
  const TrailingValue := JObj(map[]["a" := JNum(1)]["b" := JNum(2)])

  lemma TrailingScan()
    ensures Scan(ScanStart, Trailing, 0) == Ended(16)
  {
    QuotedFlat("a");
    QuotedFlat("b");
    assert Inert(": 1, ") && Inert(": 2,");
    ScanBrace();
    var p := "{";
    var st := Extend(p, InObject, Quoted("a"));
    p := p + Quoted("a");
    st := Extend(p, st, ": 1, ");
    p := p + ": 1, ";
    st := Extend(p, st, Quoted("b"));
    p := p + Quoted("b");
    st := Extend(p, st, ": 2,");
    p := p + ": 2,";
    CloseBrace(p, st);
  }

  /** The characters both versions of test 4 share: `{"a": 1, "b": 2`. */
  predicate TwoMembers(s: string) {
    |s| >= 16 && s[0] == '{' && s[1] == '"' && s[2] == 'a' && s[3] == '"' && s[4] == ':' && s[5] == ' '
    && s[6] == '1' && s[7] == ',' && s[8] == ' ' && s[9] == '"' && s[10] == 'b' && s[11] == '"'
    && s[12] == ':' && s[13] == ' ' && s[14] == '2' && (s[15] == ',' || s[15] == '}')
  }

  lemma TrailingShape()
    ensures TwoMembers(Trailing) && |Trailing| == 17 && Trailing[15] == ',' && Trailing[16] == '}'
    ensures TwoMembers(TrailingFixed) && |TrailingFixed| == 16 && TrailingFixed[15] == '}'
  {
  }

  lemma TwoMembersParts(s: string)
    requires TwoMembers(s)
    ensures StringBody(s, 2) == Some(("a", 4)) && StringBody(s, 10) == Some(("b", 12))
    ensures Value(s, 6) == Some((JNum(1), 7)) && Value(s, 14) == Some((JNum(2), 15))
    ensures SkipSpace(s, 0) == 0 && SkipSpace(s, 1) == 1 && SkipSpace(s, 4) == 4 && SkipSpace(s, 5) == 6
    ensures SkipSpace(s, 7) == 7 && SkipSpace(s, 8) == 9 && SkipSpace(s, 12) == 12 && SkipSpace(s, 13) == 14
    ensures SkipSpace(s, 15) == 15
  {
    PlainAt(s, 2, "a");
    PlainAt(s, 10, "b");
    DigitValue(s, 6);
    DigitValue(s, 14);
    assert SkipSpace(s, 6) == 6 && SkipSpace(s, 9) == 9 && SkipSpace(s, 14) == 14;
  }

  lemma TrailingRejected(s: string)
    requires TwoMembers(s) && |s| == 17 && s[15] == ',' && s[16] == '}'
    ensures Loads(s) == None
  {
    TwoMembersParts(s);
    assert SkipSpace(s, 16) == 16;
    assert Members(s, 9, map[]["a" := JNum(1)], false) == None;
    assert Members(s, 1, map[], true) == None;
  }

  lemma FixedDecodes(s: string)
    requires TwoMembers(s) && |s| == 16 && s[15] == '}'
    ensures Loads(s) == Some(TrailingValue)
  {
    TwoMembersParts(s);
    assert SkipSpace(s, 16) == 16;
    assert Members(s, 9, map[]["a" := JNum(1)], false) == Some((TrailingValue, 16));
    assert Members(s, 1, map[], true) == Some((TrailingValue, 16));
  }

  lemma LastCommaDropped()
    ensures DropTrailingCommas(",}") == "}"
  {
    assert ",}"[1..] == "}";
    assert ClosingRun("}") == Some(1);
    assert ",}"[2..] == [];
  }

  /** `, "b": 2,}` keeps its first comma, which a member follows, and loses the last. */
  lemma SecondMemberRepaired()
    ensures DropTrailingCommas("," + (" " + Quoted("b") + ": 2") + ",}") == "," + (" " + Quoted("b") + ": 2") + "}"
  {
    var v := " " + Quoted("b") + ": 2";
    var s := "," + v + ",}";
    assert s[1..] == v + ",}" && s[1] == ' ' && s[2] == '"';
    assert ClosingRun(v + ",}") == None by {
      assert (v + ",}")[..1] == " ";
    }
    LastCommaDropped();
    DropCommaFree(v, ",}");
  }

  lemma TrailingRepaired()
    ensures DropTrailingCommas(Trailing) == TrailingFixed
  {
    var u := "{" + Quoted("a") + ": 1";
    var v := " " + Quoted("b") + ": 2";
    SecondMemberRepaired();
    assert ',' !in u;
    DropCommaFree(u, "," + v + ",}");
    assert Trailing == u + ("," + v + ",}");
    assert TrailingFixed == u + ("," + v + "}");
  }

  lemma TrailingLacks(c: char)
    requires c in "\nET"
    ensures c !in Trailing
  {
    QuotedChars("a", c);
    QuotedChars("b", c);
  }

  lemma TrailingCut()
    ensures Clean(Trailing) == Trailing && CutAll(Trailing, Markers) == Trailing
  {
    TrailingShape();
    CleanPlain(Trailing);
    TrailingLacks('\n');
    TrailingLacks('E');
    TrailingLacks('T');
    NoMarkers(Trailing);
  }

  lemma TrailingCandidates()
    ensures Candidates(Trailing, false) == [Trailing, TrailingFixed]
  {
    TrailingShape();
    TrailingCut();
    TrailingScan();
    WholeObject(Trailing, Trailing);
    TrailingRepaired();
  }

  /** Test 4: the trailing comma is removed by the last repair and the object decodes. */
  lemma TrailingCommaCase()
    ensures Recover(Trailing, false, Loads) == Parsed(TrailingValue)
  {
    TrailingCandidates();
    TrailingShape();
    TrailingRejected(Trailing);
    FixedDecodes(TrailingFixed);
    SecondDecodes(Trailing, TrailingFixed, Loads, Verdict(Trailing), TrailingValue);
  }
}
