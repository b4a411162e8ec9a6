/**
 * The tolerant JSON reader `_safe_json_parse` of the quiz backend
 * (backend/app/llm.py) and its duplicate in backend/tmp_test_parser.py.
 *
 * The reader cleans the model's reply in stages (strip, drop code fences,
 * cut trailing diagnostics), locates the first `{` or `[`, walks to the
 * bracket that balances it while skipping quoted text, and tries a short
 * list of candidate texts with `json.loads`. `json.loads` is a parameter
 * (`loads`), so everything here holds for any decoder.
 */
module Recovery {
  import opened Wrappers
  import opened Text
  import opened Json

  /** The reasons the reader raises `ValueError`; each carries the text shown in the message. */
  datatype ParseError =
    | EmptyResponse
    | EmptyAfterCleaning
    | NoContainer(preview: string)
    | UnbalancedAfterAttempts(snippet: string)
    | Unbalanced(snippet: string)
    | CandidateRejected(candidate: string)

  datatype Outcome = Parsed(value: Json) | Failed(error: ParseError)

  /** `json.loads`: a decoded value, or `None` where it raises `JSONDecodeError`. */
  type Loader = string -> Option<Json>

  predicate IsOpener(c: char) {
    c == '{' || c == '['
  }

  predicate IsCloser(c: char) {
    c == '}' || c == ']'
  }

  /** Stage one: strip, remove a leading ```` ```json ```` or ```` ``` ```` and a trailing ```` ``` ````, strip again. */
  function Clean(raw: string): (r: string)
    ensures Stripped(r)
    ensures r == [] <==> AllSpace(Unfence(Strip(raw)))
  {
    Strip(Unfence(Strip(raw)))
  }

  /** The fence removal of stage one, on the stripped reply. */
  function Unfence(t: string): string {
    var a := if StartsWith(t, "```json") then t[7..] else if StartsWith(t, "```") then t[3..] else t;
    if EndsWith(a, "```") then a[..|a| - 3] else a
  }

  /** A reply that strips to a JSON code block cleans to the block's stripped body. */
  lemma CleanFenced(raw: string, body: string)
    requires Strip(raw) == "```json" + body + "```"
    ensures Clean(raw) == Strip(body)
  {
    var t := Strip(raw);
    assert t[..7] == "```json";
    assert t[7..] == body + "```";
    assert (body + "```")[|body + "```"| - 3..] == "```";
    assert (body + "```")[..|body|] == body;
  }

  /** A reply without fences is only stripped. */
  lemma CleanUnfenced(raw: string)
    requires !StartsWith(Strip(raw), "```") && !EndsWith(Strip(raw), "```")
    ensures Clean(raw) == Strip(raw)
  {
    var t := Strip(raw);
    assert !StartsWith(t, "```json") by {
      if |t| >= 7 {
        assert t[..3] == t[..7][..3];
      }
    }
    assert Unfence(t) == t;
    StripUnchanged(t);
  }

  /** The diagnostic markers cut off the text, in the order they are tried. */
  const Markers: seq<string> := ["\nError:", "\nTraceback", "\nException:", "Error:", "Traceback (most recent call last)"]

  /** One marker: cut the text at its first occurrence and strip what is left. */
  function CutAt(t: string, marker: string): string {
    var idx := Find(t, marker);
    if idx == -1 then t else Strip(t[..idx])
  }

  function CutAll(t: string, ms: seq<string>): string
    decreases |ms|
  {
    if ms == [] then t else CutAll(CutAt(t, ms[0]), ms[1..])
  }

  /** Cutting at a marker keeps every pattern that was absent absent. */
  lemma CutAtKeepsAbsence(t: string, m: string, p: string)
    requires !Contains(t, p)
    ensures !Contains(CutAt(t, m), p)
  {
    var idx := Find(t, m);
    if idx != -1 {
      StripOfPrefixIsInfix(t, idx);
      NotContainsInfix(t, LeadingSpace(t[..idx]), LeadingSpace(t[..idx]) + |Strip(t[..idx])|, p);
    }
  }

  /** After cutting at a non-empty marker, the marker no longer occurs. */
  lemma CutAtRemoves(t: string, m: string)
    requires m != []
    ensures !Contains(CutAt(t, m), m)
  {
    var idx := Find(t, m);
    if idx != -1 {
      var r := Strip(t[..idx]);
      var l := LeadingSpace(t[..idx]);
      StripOfPrefixIsInfix(t, idx);
      forall k | OccursAt(r, m, k) ensures OccursAt(t, m, l + k) && l + k < idx {
        OccursInInfix(t, l, l + |r|, m, k);
      }
      ContainsIff(r, m);
    }
  }

  lemma {:induction false} CutAllKeepsAbsence(t: string, ms: seq<string>, p: string)
    requires !Contains(t, p)
    ensures !Contains(CutAll(t, ms), p)
    decreases |ms|
  {
    if ms != [] {
      CutAtKeepsAbsence(t, ms[0], p);
      CutAllKeepsAbsence(CutAt(t, ms[0]), ms[1..], p);
    }
  }

  /** After the marker stage no marker occurs in the text any more. */
  lemma {:induction false} CutAllRemoves(t: string, ms: seq<string>)
    requires forall m :: m in ms ==> m != []
    ensures forall m :: m in ms ==> !Contains(CutAll(t, ms), m)
    decreases |ms|
  {
    if ms != [] {
      var t1 := CutAt(t, ms[0]);
      assert ms[0] in ms;
      CutAtRemoves(t, ms[0]);
      CutAllKeepsAbsence(t1, ms[1..], ms[0]);
      assert forall m :: m in ms[1..] ==> m in ms;
      CutAllRemoves(t1, ms[1..]);
      forall m | m in ms ensures !Contains(CutAll(t, ms), m) {
        if m != ms[0] {
          assert m in ms[1..];
        }
      }
    }
  }

  /** The marker stage turns a stripped text into a stripped prefix of it. */
  lemma {:induction false} CutAllPrefix(t: string, ms: seq<string>)
    requires Stripped(t)
    ensures Stripped(CutAll(t, ms))
    ensures |CutAll(t, ms)| <= |t| && CutAll(t, ms) == t[..|CutAll(t, ms)|]
    decreases |ms|
  {
    if ms != [] {
      var idx := Find(t, ms[0]);
      var t1 := CutAt(t, ms[0]);
      if idx != -1 {
        StripOfPrefix(t, idx);
      }
      assert Stripped(t1) && |t1| <= |t| && t1 == t[..|t1|];
      CutAllPrefix(t1, ms[1..]);
    }
  }

  /** The markers of llm.py, removed by the marker stage from every text. */
  lemma MarkersRemoved(t: string)
    ensures forall m :: m in Markers ==> !Contains(CutAll(t, Markers), m)
  {
    CutAllRemoves(t, Markers);
  }

  /** Stage two: the index of the first `{` or `[`, or -1 when the text has neither. */
  function StartOf(t: string): (r: int)
    ensures -1 <= r < |t|
    ensures r == -1 <==> forall k :: 0 <= k < |t| ==> !IsOpener(t[k])
    ensures r >= 0 ==> IsOpener(t[r]) && forall k :: 0 <= k < r ==> !IsOpener(t[k])
  {
    FindChar(t, '{');
    FindChar(t, '[');
    var curly := if Contains(t, "{") then Find(t, "{") else -1;
    var brack := if Contains(t, "[") then Find(t, "[") else -1;
    if curly == -1 && brack == -1 then -1
    else if curly == -1 then brack
    else if brack == -1 then curly
    else if curly < brack then curly else brack
  }

  /** The variables of the bracket walk: open brackets, whether inside quotes, which quote, and a pending backslash. */
  datatype ScanState = ScanState(stack: seq<char>, inString: bool, quote: char, escape: bool)

  const ScanStart := ScanState([], false, '\0', false)

  /** All brackets on the stack are opening brackets. */
  predicate Openers(stack: seq<char>) {
    forall k :: 0 <= k < |stack| ==> IsOpener(stack[k])
  }

  /**
   * One character of the walk; the flag is true when this character closed
   * the outermost bracket. Both `"` and `'` open a quoted stretch, only the
   * same character ends it, and a closing bracket of either kind pops the stack.
   */
  function Step(st: ScanState, ch: char): (r: (ScanState, bool))
    ensures st.inString || st.escape ==> r.0.stack == st.stack && !r.1
    ensures r.0.stack == st.stack
         || (IsOpener(ch) && r.0.stack == st.stack + [ch])
         || (IsCloser(ch) && st.stack != [] && r.0.stack == st.stack[..|st.stack| - 1])
    ensures r.1 <==> !st.inString && !st.escape && IsCloser(ch) && |st.stack| == 1
    ensures r.0.stack == st.stack + [ch] ==> !st.inString && !st.escape
  {
    if st.escape then (st.(escape := false), false)
    else if ch == '\\' && st.inString then (st.(escape := true), false)
    else if ch == '"' || ch == '\'' then
      if !st.inString then (st.(inString := true, quote := ch), false)
      else if ch == st.quote then (st.(inString := false), false)
      else (st, false)
    else if st.inString then (st, false)
    else if IsOpener(ch) then (st.(stack := st.stack + [ch]), false)
    else if IsCloser(ch) then
      if st.stack == [] then (st, false)
      else
        var popped := st.stack[..|st.stack| - 1];
        (st.(stack := popped), popped == [])
    else (st, false)
  }

  /** Where the walk ends: at the index closing the outermost bracket, or still open at the end of the text. */
  datatype ScanEnd = Ended(end: nat) | Open(state: ScanState)

  /** The walk over `s`, whose first character sits at index `offset` of the text. */
  function Scan(st: ScanState, s: string, offset: nat): (r: ScanEnd)
    ensures r.Ended? ==> offset <= r.end < offset + |s| && IsCloser(s[r.end - offset])
    decreases |s|
  {
    if s == [] then Open(st)
    else
      var (next, closed) := Step(st, s[0]);
      if closed then Ended(offset) else Scan(next, s[1..], offset + 1)
  }

  /** The walk over a concatenation continues from where the walk over the first part stopped. */
  lemma {:induction false} ScanAppend(st: ScanState, a: string, b: string, offset: nat)
    ensures Scan(st, a + b, offset) ==
      match Scan(st, a, offset)
      case Ended(e) => Ended(e)
      case Open(st') => Scan(st', b, offset + |a|)
    decreases |a|
  {
    if a == [] {
      assert a + b == b;
    } else {
      assert (a + b)[0] == a[0];
      assert (a + b)[1..] == a[1..] + b;
      var (next, closed) := Step(st, a[0]);
      if !closed {
        ScanAppend(next, a[1..], b, offset + 1);
      }
    }
  }

  /** Once a bracket is open, the walk only leaves the stack empty by ending. */
  lemma {:induction false} ScanKeepsOpen(st: ScanState, s: string, offset: nat)
    requires st.stack != []
    ensures Scan(st, s, offset).Open? ==> Scan(st, s, offset).state.stack != []
    decreases |s|
  {
    if s != [] {
      var (next, closed) := Step(st, s[0]);
      if !closed {
        ScanKeepsOpen(next, s[1..], offset + 1);
      }
    }
  }

  /** Text without quotes or brackets leaves the walk outside quotes as it is. */
  predicate Inert(s: string) {
    '"' !in s && '\'' !in s && '{' !in s && '}' !in s && '[' !in s && ']' !in s
  }

  lemma {:induction false} ScanInert(st: ScanState, s: string, offset: nat)
    requires !st.inString && !st.escape && Inert(s)
    ensures Scan(st, s, offset) == Open(st)
    decreases |s|
  {
    if s != [] {
      assert s[0] in s;
      assert forall c :: c in s[1..] ==> c in s;
      ScanInert(st, s[1..], offset + 1);
    }
  }

  /** Inside a double-quoted stretch, text without `"` or a backslash leaves the walk as it is. */
  lemma {:induction false} ScanInsideQuotes(st: ScanState, s: string, offset: nat)
    requires st.inString && !st.escape && st.quote == '"' && '"' !in s && '\\' !in s
    ensures Scan(st, s, offset) == Open(st)
    decreases |s|
  {
    if s != [] {
      assert s[0] in s;
      assert forall c :: c in s[1..] ==> c in s;
      ScanInsideQuotes(st, s[1..], offset + 1);
    }
  }

  /** A double-quoted stretch without escapes is skipped whole; the walk remembers `"` as the last quote. */
  lemma ScanQuoted(st: ScanState, body: string, offset: nat)
    requires !st.inString && !st.escape && '"' !in body && '\\' !in body
    ensures Scan(st, "\"" + body + "\"", offset) == Open(st.(quote := '"'))
  {
    var s := "\"" + body + "\"";
    var inside := st.(inString := true, quote := '"');
    assert s[0] == '"' && s[1..] == body + "\"";
    ScanAppend(inside, body, "\"", offset + 1);
    ScanInsideQuotes(inside, body, offset + 1);
  }

  /** Two stretches of the walk that both stay open compose. */
  lemma ScanThen(st: ScanState, a: string, b: string, offset: nat, mid: ScanState, last: ScanState)
    requires Scan(st, a, offset) == Open(mid) && Scan(mid, b, offset + |a|) == Open(last)
    ensures Scan(st, a + b, offset) == Open(last)
  {
    ScanAppend(st, a, b, offset);
  }

  /**
   * Started on an opening bracket, the walk never meets a closing bracket
   * with an empty stack: after every prefix that did not end it, at least
   * one bracket is open.
   */
  lemma ScanNeverEmpty(text: string, start: nat)
    requires start < |text| && IsOpener(text[start])
    ensures forall i :: start < i <= |text| && Scan(ScanStart, text[start..i], start).Open? ==>
      Scan(ScanStart, text[start..i], start).state.stack != []
  {
    forall i | start < i <= |text| && Scan(ScanStart, text[start..i], start).Open?
      ensures Scan(ScanStart, text[start..i], start).state.stack != []
    {
      var s := text[start..i];
      var (first, _) := Step(ScanStart, s[0]);
      assert first.stack == [text[start]];
      ScanKeepsOpen(first, s[1..], start + 1);
    }
  }

  /**
   * When the walk ends at `end`, the chunk `text[start..end]` ends with the
   * bracket that closes the one at `start`: the walk over the text before
   * `end` is still open with exactly one bracket, and `end > start`.
   */
  lemma BalancedChunk(text: string, start: nat, end: nat)
    requires start < |text| && IsOpener(text[start])
    requires Scan(ScanStart, text[start..], start) == Ended(end)
    ensures start < end < |text| && IsCloser(text[end])
    ensures Scan(ScanStart, text[start..end], start).Open?
    ensures |Scan(ScanStart, text[start..end], start).state.stack| == 1
    ensures Scan(ScanStart, text[start..end + 1], start) == Ended(end)
  {
    var s := text[start..];
    assert s[0] == text[start];
    assert end != start;
    var a := text[start..end];
    var b := text[end..];
    assert a + b == s;
    ScanAppend(ScanStart, a, b, start);
    if Scan(ScanStart, a, start).Ended? {
      assert false;
    }
    var st' := Scan(ScanStart, a, start).state;
    assert b[0] == text[end];
    ScanAppend(ScanStart, a, [text[end]], start);
    assert a + [text[end]] == text[start..end + 1];
  }

  /** The closing bracket for an opening one. */
  function CloserFor(c: char): char {
    if c == '{' then '}' else ']'
  }

  /** The closers appended to an unbalanced text: one per open bracket, innermost first. */
  function Closers(stack: seq<char>): (r: string)
    ensures |r| == |stack|
    ensures forall k :: 0 <= k < |stack| ==> r[k] == CloserFor(stack[|stack| - 1 - k])
  {
    if stack == [] then []
    else [CloserFor(stack[|stack| - 1])] + Closers(stack[..|stack| - 1])
  }

  /** An unbalanced text always gets at least one closer appended. */
  lemma UnbalancedNeedsClosers(text: string, start: nat)
    requires start < |text| && IsOpener(text[start])
    requires Scan(ScanStart, text[start..], start).Open?
    ensures |Closers(Scan(ScanStart, text[start..], start).state.stack)| >= 1
  {
    ScanNeverEmpty(text, start);
    assert text[start..|text|] == text[start..];
  }

  /** The length of a match of `\s*[}\]]` at the start of `s`, if there is one. */
  function ClosingRun(s: string): (r: Option<nat>)
    ensures r.Some? ==> 1 <= r.value <= |s| && IsCloser(s[r.value - 1]) && AllSpace(s[..r.value - 1])
    ensures r.None? ==> forall n :: 0 <= n < |s| && AllSpace(s[..n]) ==> !IsCloser(s[n])
  {
    var w := LeadingSpace(s);
    if w < |s| && IsCloser(s[w]) then
      assert s[..w] == s[..w + 1 - 1];
      Some(w + 1)
    else
      assert forall n :: 0 <= n < |s| && AllSpace(s[..n]) ==> !IsCloser(s[n]) by {
        forall n | 0 <= n < |s| && AllSpace(s[..n]) ensures !IsCloser(s[n]) {
          LeadingSpaceCovers(s, n);
          if n < w {
            assert s[..w][n] == s[n];
          }
        }
      }
      None
  }

  /** A comma that the trailing-comma repair removes: the text after it matches `\s*[}\]]`. */
  predicate TrailingComma(s: string) {
    s != [] && s[0] == ',' && ClosingRun(s[1..]).Some?
  }

  /** `re.sub(r',(\s*[}\]])', r'\1', s)`: matches are found left to right and do not overlap. */
  function DropTrailingCommas(s: string): string
    decreases |s|
  {
    if s == [] then []
    else if TrailingComma(s) then
      var n := ClosingRun(s[1..]).value;
      s[1..1 + n] + DropTrailingCommas(s[1 + n..])
    else [s[0]] + DropTrailingCommas(s[1..])
  }

  /** Reference: the text with exactly the trailing commas deleted, every other character kept in order. */
  function WithoutTrailingCommas(s: string): string
    decreases |s|
  {
    if s == [] then []
    else (if TrailingComma(s) then [] else [s[0]]) + WithoutTrailingCommas(s[1..])
  }

  lemma {:induction false} WithoutCommaFree(s: string, n: nat)
    requires n <= |s|
    requires forall k :: 0 <= k < n ==> s[k] != ','
    ensures WithoutTrailingCommas(s) == s[..n] + WithoutTrailingCommas(s[n..])
    decreases n
  {
    if n > 0 {
      WithoutCommaFree(s[1..], n - 1);
      assert s[1..][n - 1..] == s[n..];
      assert [s[0]] + s[1..][..n - 1] == s[..n];
    }
  }

  /** The substitution deletes exactly the commas followed by optional whitespace and a closing bracket. */
  lemma {:induction false} DropTrailingCommasSpec(s: string)
    ensures DropTrailingCommas(s) == WithoutTrailingCommas(s)
    decreases |s|
  {
    if s != [] {
      if TrailingComma(s) {
        WithoutTrailingComma(s);
        DropTrailingCommasSpec(s[1 + ClosingRun(s[1..]).value..]);
      } else {
        DropTrailingCommasSpec(s[1..]);
      }
    }
  }

  /** A trailing comma is dropped and the closing run after it kept. */
  lemma WithoutTrailingComma(s: string)
    requires TrailingComma(s)
    ensures var n := ClosingRun(s[1..]).value;
      WithoutTrailingCommas(s) == s[1..1 + n] + WithoutTrailingCommas(s[1 + n..])
  {
    var n := ClosingRun(s[1..]).value;
    var t := s[1..];
    forall k | 0 <= k < n ensures t[k] != ',' {
      if k < n - 1 {
        assert t[..n - 1][k] == t[k];
      }
    }
    WithoutCommaFree(t, n);
    assert t[n..] == s[1 + n..];
  }

  /** Text without commas passes the trailing-comma repair unchanged. */
  lemma {:induction false} DropCommaFree(x: string, y: string)
    requires ',' !in x
    ensures DropTrailingCommas(x + y) == x + DropTrailingCommas(y)
    decreases |x|
  {
    if x != [] {
      assert (x + y)[0] == x[0] && (x + y)[1..] == x[1..] + y;
      assert forall c :: c in x[1..] ==> c in x;
      DropCommaFree(x[1..], y);
      assert [x[0]] + x[1..] == x;
    } else {
      assert x + y == y;
    }
  }

  /** The candidates given to `loads` once the text has been cut, in the order they are tried. */
  function CutCandidates(t: string): seq<string> {
    var start := StartOf(t);
    if start < 0 then [t]
    else
      match Scan(ScanStart, t[start..], start)
      case Ended(end) => BalancedCandidates(t, start, end)
      case Open(st) => OpenCandidates(t, start, st.stack)
  }

  /** A balanced chunk is tried as it is, then with its trailing commas removed. */
  function BalancedCandidates(t: string, start: nat, end: nat): seq<string>
    requires start <= end < |t|
  {
    var c := Strip(t[start..end + 1]);
    [c, DropTrailingCommas(c)]
  }

  /**
   * An unbalanced text is tried with the missing closers appended, then cut
   * after the last closing bracket when that lies after the start.
   */
  function OpenCandidates(t: string, start: nat, stack: seq<char>): seq<string>
    requires start < |t|
  {
    var last := Max(RFind(t, '}'), RFind(t, ']'));
    [t[start..] + Closers(stack)] + (if last > start then [t[start..last + 1]] else [])
  }

  function Max(a: int, b: int): int {
    if a >= b then a else b
  }

  /** The error raised once every candidate of a cut text has failed. */
  function CutVerdict(t: string): ParseError {
    var start := StartOf(t);
    if start < 0 then NoContainer(Prefix(t, 200))
    else
      match Scan(ScanStart, t[start..], start)
      case Ended(end) => BalancedVerdict(t, start, end)
      case Open(_) => OpenVerdict(t, start)
  }

  /** The error for a balanced chunk that does not decode even without trailing commas. */
  function BalancedVerdict(t: string, start: nat, end: nat): ParseError
    requires start <= end < |t|
  {
    CandidateRejected(Prefix(Strip(t[start..end + 1]), 400))
  }

  /** The error for an unbalanced text, which says whether the cut at the last closer was tried. */
  function OpenVerdict(t: string, start: nat): ParseError
    requires start < |t|
  {
    if Max(RFind(t, '}'), RFind(t, ']')) > start then UnbalancedAfterAttempts(Prefix(t[start..], 400))
    else Unbalanced(Prefix(t[start..], 200))
  }

  /**
   * Every text the reader hands to `loads`, in order. `direct` selects the
   * llm.py reader, which first tries the cleaned text as it is; the copy in
   * tmp_test_parser.py does not.
   */
  function Candidates(raw: string, direct: bool): seq<string> {
    var cleaned := Clean(raw);
    if cleaned == [] then []
    else (if direct then [cleaned] else []) + CutCandidates(CutAll(cleaned, Markers))
  }

  /** The error raised when no candidate decodes; it does not depend on the decoder. */
  function Verdict(raw: string): ParseError {
    if Strip(raw) == [] then EmptyResponse
    else if Clean(raw) == [] then EmptyAfterCleaning
    else CutVerdict(CutAll(Clean(raw), Markers))
  }

  /** The value of the first candidate that decodes, or `verdict` when none does. */
  function FirstParsed(cs: seq<string>, loads: Loader, verdict: ParseError): (o: Outcome)
    ensures o.Parsed? <==> exists i :: 0 <= i < |cs| && loads(cs[i]).Some?
    ensures o.Parsed? ==>
      exists i :: 0 <= i < |cs| && loads(cs[i]) == Some(o.value) && (forall j :: 0 <= j < i ==> loads(cs[j]).None?)
    ensures o.Failed? ==> o.error == verdict
  {
    if cs == [] then Failed(verdict)
    else if loads(cs[0]).Some? then Parsed(loads(cs[0]).value)
    else
      var o := FirstParsed(cs[1..], loads, verdict);
      assert forall i :: 1 <= i < |cs| ==> cs[i] == cs[1..][i - 1];
      o
  }

  /** `_safe_json_parse(raw)`: the first candidate `loads` accepts, or the error for this reply. */
  function Recover(raw: string, direct: bool, loads: Loader): Outcome {
    FirstParsed(Candidates(raw, direct), loads, Verdict(raw))
  }

  /** A reply that is empty or whitespace fails as an empty response, whatever the decoder. */
  lemma EmptyReplyFails(raw: string, direct: bool, loads: Loader)
    requires AllSpace(raw)
    ensures Recover(raw, direct, loads) == Failed(EmptyResponse)
  {
    CleanOfSpace(raw);
    assert Candidates(raw, direct) == [];
    assert Verdict(raw) == EmptyResponse;
  }

  /**
   * A reply with text that cleans to nothing (a bare code fence, say) fails
   * as empty after cleaning, whatever the decoder.
   */
  lemma EmptyAfterCleaningFails(raw: string, direct: bool, loads: Loader)
    requires !AllSpace(raw) && Clean(raw) == []
    ensures Recover(raw, direct, loads) == Failed(EmptyAfterCleaning)
  {
    assert Candidates(raw, direct) == [];
    assert Strip(raw) != [];
  }

  /** A bare code fence is such a reply. */
  lemma BareFenceCleansToNothing()
    ensures !AllSpace("```") && Clean("```") == []
  {
    var f := "```";
    assert !IsSpace(f[0]);
    StripUnchanged(f);
    assert StartsWith(f, "```");
    assert f[3..] == [];
  }

  lemma CleanOfSpace(raw: string)
    requires AllSpace(raw)
    ensures Strip(raw) == [] && Clean(raw) == []
  {
    assert Unfence([]) == [];
  }

  /** In llm.py a cleaned reply that decodes as it is is returned unchanged, before any repair. */
  lemma DirectParseFirst(raw: string, loads: Loader)
    requires Clean(raw) != [] && loads(Clean(raw)).Some?
    ensures Recover(raw, true, loads) == Parsed(loads(Clean(raw)).value)
  {
    var c := Clean(raw);
    var cs := Candidates(raw, true);
    assert cs == [c] + CutCandidates(CutAll(c, Markers));
    assert loads(cs[0]).Some?;
  }

  /**
   * The two copies of the reader agree except on a cleaned reply that
   * decodes as it is, which only the llm.py copy returns before cutting
   * at the markers.
   */
  lemma VariantsAgree(raw: string, loads: Loader)
    ensures Clean(raw) == [] || loads(Clean(raw)).None? ==>
      Recover(raw, true, loads) == Recover(raw, false, loads)
  {
    var cleaned := Clean(raw);
    if cleaned != [] && loads(cleaned).None? {
      var rest := CutCandidates(CutAll(cleaned, Markers));
      assert Candidates(raw, true) == [cleaned] + rest;
      assert Candidates(raw, false) == rest;
      FirstParsedCons(cleaned, rest, loads, Verdict(raw));
    }
  }

  /** The walk ends after the bracket it starts on, at a closing bracket. */
  lemma ScanEndsAfterStart(t: string, start: nat, end: nat)
    requires start < |t| && IsOpener(t[start])
    requires Scan(ScanStart, t[start..], start) == Ended(end)
    ensures start < end < |t| && IsCloser(t[end])
  {
    assert t[start..][0] == t[start];
  }

  /** Every candidate tried after the marker stage starts with the first opening bracket of the text. */
  lemma CandidatesStartAtOpener(t: string)
    requires StartOf(t) >= 0
    ensures forall i :: 0 <= i < |CutCandidates(t)| ==> CutCandidates(t)[i] != [] && CutCandidates(t)[i][0] == t[StartOf(t)]
  {
    var start := StartOf(t);
    var walk := Scan(ScanStart, t[start..], start);
    if walk.Ended? {
      ScanEndsAfterStart(t, start, walk.end);
      CutEnded(t, start, walk.end);
      BalancedStartAtOpener(t, start, walk.end);
    } else {
      CutOpen(t, start, walk.state.stack);
      OpenStartAtOpener(t, start, walk.state.stack);
    }
  }

  /** Both tries of a balanced chunk start with its opening bracket. */
  lemma BalancedStartAtOpener(t: string, start: nat, end: nat)
    requires start < end < |t| && IsOpener(t[start]) && IsCloser(t[end])
    ensures forall i :: 0 <= i < |BalancedCandidates(t, start, end)| ==>
      BalancedCandidates(t, start, end)[i] != [] && BalancedCandidates(t, start, end)[i][0] == t[start]
  {
    var c := t[start..end + 1];
    BalancedChunkStripped(t, start, end);
    DropKeepsFirst(c);
    assert c[0] == t[start];
  }

  /** Both tries of an unbalanced text start at its first opening bracket. */
  lemma OpenStartAtOpener(t: string, start: nat, stack: seq<char>)
    requires start < |t|
    ensures forall i :: 0 <= i < |OpenCandidates(t, start, stack)| ==>
      OpenCandidates(t, start, stack)[i] != [] && OpenCandidates(t, start, stack)[i][0] == t[start]
  {
    var cs := OpenCandidates(t, start, stack);
    assert cs[0][0] == t[start];
  }

  /** A chunk from an opening to a closing bracket is already stripped: the two candidates are the chunk and its repair. */
  lemma BalancedChunkStripped(t: string, start: nat, end: nat)
    requires start < end < |t| && IsOpener(t[start]) && IsCloser(t[end])
    ensures BalancedCandidates(t, start, end) == [t[start..end + 1], DropTrailingCommas(t[start..end + 1])]
  {
    var c := t[start..end + 1];
    assert c[0] == t[start] && c[|c| - 1] == t[end];
    assert Stripped(c);
    StripUnchanged(c);
    assert Strip(t[start..end + 1]) == c;
  }

  /** The comma repair never touches a first character that is not a comma. */
  lemma DropKeepsFirst(c: string)
    requires c != [] && c[0] != ','
    ensures DropTrailingCommas(c) != [] && DropTrailingCommas(c)[0] == c[0]
  {
    assert !TrailingComma(c);
  }

  /** The marker stage as the loop in llm.py writes it. */
  method CutMarkers(text: string) returns (t: string)
    ensures t == CutAll(text, Markers)
  {
    t := text;
    var j := 0;
    while j < |Markers|
      invariant 0 <= j <= |Markers|
      invariant CutAll(text, Markers) == CutAll(t, Markers[j..])
    {
      var idx := Find(t, Markers[j]);
      if idx != -1 {
        t := Strip(t[..idx]);
      }
      assert Markers[j..][1..] == Markers[j + 1..];
      j := j + 1;
    }
  }

  /**
   * The bracket walk as the loop in llm.py writes it: `end` is the index of
   * the bracket closing the one at `start`, or -1 (`None`) with the brackets
   * still open in `stack`.
   */
  method ScanText(text: string, start: nat) returns (end: int, stack: seq<char>)
    requires start < |text|
    ensures end >= -1
    ensures end >= 0 ==> Scan(ScanStart, text[start..], start) == Ended(end)
    ensures end < 0 ==> (Scan(ScanStart, text[start..], start).Open?
      && stack == Scan(ScanStart, text[start..], start).state.stack)
  {
    stack := [];
    var inString := false;
    var quote := '\0';
    var escape := false;
    end := -1;
    var i := start;
    while i < |text|
      invariant start <= i <= |text|
      invariant end == -1
      invariant Scan(ScanStart, text[start..], start) == Scan(ScanState(stack, inString, quote, escape), text[i..], i)
    {
      var ch := text[i];
      assert text[i..][0] == ch && text[i..][1..] == text[i + 1..];
      if escape {
        escape := false;
      } else if ch == '\\' && inString {
        escape := true;
      } else if ch == '"' || ch == '\'' {
        if !inString {
          inString := true;
          quote := ch;
        } else if ch == quote {
          inString := false;
        }
      } else if !inString {
        if ch == '{' || ch == '[' {
          stack := stack + [ch];
        } else if (ch == '}' || ch == ']') && stack != [] {
          stack := stack[..|stack| - 1];
          if stack == [] {
            end := i;
            break;
          }
        }
      }
      i := i + 1;
    }
  }

  /** The closers for the brackets left open, built by walking the stack from the top. */
  method BuildClosers(stack: seq<char>) returns (closers: string)
    ensures closers == Closers(stack)
  {
    closers := [];
    var k := |stack|;
    while k > 0
      invariant 0 <= k <= |stack|
      invariant |closers| == |stack| - k
      invariant forall j :: 0 <= j < |closers| ==> closers[j] == CloserFor(stack[|stack| - 1 - j])
    {
      k := k - 1;
      closers := closers + [if stack[k] == '{' then '}' else ']'];
    }
  }

  /** `_safe_json_parse` step by step; `direct` selects the llm.py copy over the tmp_test_parser.py one. */
  method SafeJsonParse(raw: string, direct: bool, loads: Loader) returns (o: Outcome)
    ensures o == Recover(raw, direct, loads)
  {
    if Strip(raw) == [] {
      assert Unfence([]) == [];
      return Failed(EmptyResponse);
    }
    var text := Clean(raw);
    if text == [] {
      return Failed(EmptyAfterCleaning);
    }
    ghost var rest := CutCandidates(CutAll(text, Markers));
    if direct {
      assert Candidates(raw, direct) == [text] + rest;
      var v := loads(text);
      if v.Some? {
        return Parsed(v.value);
      }
      assert Candidates(raw, direct)[1..] == rest;
    } else {
      assert Candidates(raw, direct) == rest;
    }
    text := CutMarkers(text);
    o := ParseCutText(text, loads);
  }

  /** The part of `_safe_json_parse` after the marker stage: locate, walk, and try the candidates. */
  method ParseCutText(text: string, loads: Loader) returns (o: Outcome)
    ensures o == FirstParsed(CutCandidates(text), loads, CutVerdict(text))
  {
    var start := StartOf(text);
    if start == -1 {
      var v := loads(text);
      if v.Some? {
        return Parsed(v.value);
      }
      return Failed(NoContainer(Prefix(text, 200)));
    }
    var end, stack := ScanText(text, start);
    if end == -1 {
      CutOpen(text, start, stack);
      o := ParseUnbalanced(text, start, stack, loads);
    } else {
      CutEnded(text, start, end);
      CutEndedVerdict(text, start, end);
      o := ParseBalanced(text, start, end, loads);
    }
  }

  lemma CutOpen(t: string, start: nat, stack: seq<char>)
    requires StartOf(t) == start >= 0
    requires Scan(ScanStart, t[start..], start).Open? && Scan(ScanStart, t[start..], start).state.stack == stack
    ensures CutCandidates(t) == OpenCandidates(t, start, stack)
    ensures CutVerdict(t) == OpenVerdict(t, start)
  {
  }

  lemma CutEnded(t: string, start: nat, end: nat)
    requires StartOf(t) == start >= 0
    requires Scan(ScanStart, t[start..], start) == Ended(end)
    ensures start <= end < |t|
    ensures CutCandidates(t) == BalancedCandidates(t, start, end)
  {
  }

  lemma CutEndedVerdict(t: string, start: nat, end: nat)
    requires StartOf(t) == start >= 0
    requires Scan(ScanStart, t[start..], start) == Ended(end)
    ensures start <= end < |t|
    ensures CutVerdict(t) == BalancedVerdict(t, start, end)
  {
  }

  /** The unbalanced branch: append the missing closers, then try the cut at the last closer. */
  method ParseUnbalanced(text: string, start: nat, stack: seq<char>, loads: Loader) returns (o: Outcome)
    requires start < |text|
    ensures o == FirstParsed(OpenCandidates(text, start, stack), loads, OpenVerdict(text, start))
  {
    var closers := BuildClosers(stack);
    var last := Max(RFind(text, '}'), RFind(text, ']'));
    ghost var verdict := OpenVerdict(text, start);
    ghost var rest: seq<string> := if last > start then [text[start..last + 1]] else [];
    assert OpenCandidates(text, start, stack) == [text[start..] + closers] + rest;
    FirstParsedCons(text[start..] + closers, rest, loads, verdict);
    var v := loads(text[start..] + closers);
    if v.Some? {
      return Parsed(v.value);
    }
    if last > start {
      FirstParsedCons(text[start..last + 1], [], loads, verdict);
      v := loads(text[start..last + 1]);
      if v.Some? {
        return Parsed(v.value);
      }
      return Failed(UnbalancedAfterAttempts(Prefix(text[start..], 400)));
    }
    return Failed(Unbalanced(Prefix(text[start..], 200)));
  }

  /** `FirstParsed` tries its first candidate, then the rest. */
  lemma FirstParsedCons(c: string, rest: seq<string>, loads: Loader, verdict: ParseError)
    ensures FirstParsed([c] + rest, loads, verdict) ==
      if loads(c).Some? then Parsed(loads(c).value) else FirstParsed(rest, loads, verdict)
  {
    assert ([c] + rest)[1..] == rest;
  }

  /** The balanced branch: try the chunk, then the chunk without trailing commas. */
  method ParseBalanced(text: string, start: nat, end: nat, loads: Loader) returns (o: Outcome)
    requires start <= end < |text|
    ensures o == FirstParsed(BalancedCandidates(text, start, end), loads, BalancedVerdict(text, start, end))
  {
    var candidate := Strip(text[start..end + 1]);
    var v := loads(candidate);
    if v.Some? {
      return Parsed(v.value);
    }
    var cleaned := DropTrailingCommas(candidate);
    v := loads(cleaned);
    if v.Some? {
      return Parsed(v.value);
    }
    return Failed(CandidateRejected(Prefix(candidate, 400)));
  }
}
