/**
 * JSON values as Python's `json.loads` returns them, without floats (dict,
 * list, str, int, bool, None), and a small recogniser for RFC 8259 text that
 * stands in for `json.loads` where a concrete answer is needed. The recovery
 * parser itself is proved for every loader into these values; this one is
 * used to evaluate the test inputs of `backend/tmp_test_parser.py`.
 */
module Json {
  import opened Wrappers
  import opened Text

  /** A decoded JSON value; an object keeps the last value given for a repeated key, as a dict does. */
  datatype Json =
    | JNull
    | JBool(b: bool)
    | JNum(n: int)
    | JStr(s: string)
    | JArr(items: seq<Json>)
    | JObj(fields: map<string, Json>)

  /** JSON's insignificant whitespace (section 2 of RFC 8259). */
  predicate IsJsonSpace(c: char) {
    c == ' ' || c == '\t' || c == '\n' || c == '\r'
  }

  function SkipSpace(s: string, pos: nat): (r: nat)
    requires pos <= |s|
    ensures pos <= r <= |s|
    ensures r < |s| ==> !IsJsonSpace(s[r])
    decreases |s| - pos
  {
    if pos < |s| && IsJsonSpace(s[pos]) then SkipSpace(s, pos + 1) else pos
  }

  /** The character an escape `\c` stands for (section 7 of RFC 8259, without `\u`). */
  function Unescape(c: char): Option<char> {
    match c
    case '"' => Some('"')
    case '\\' => Some('\\')
    case '/' => Some('/')
    case 'b' => Some(8 as char)
    case 'f' => Some(12 as char)
    case 'n' => Some('\n')
    case 'r' => Some('\r')
    case 't' => Some('\t')
    case _ => None
  }

  /** The rest of a string literal after its opening quote: its decoded text and the index after the closing quote. */
  function StringBody(s: string, pos: nat): (r: Option<(string, nat)>)
    requires pos <= |s|
    ensures r.Some? ==> pos < r.value.1 <= |s|
    decreases |s| - pos
  {
    if pos >= |s| || s[pos] < ' ' then None
    else if s[pos] == '"' then Some(("", pos + 1))
    else if s[pos] == '\\' then
      if pos + 1 < |s| && Unescape(s[pos + 1]).Some? then
        match StringBody(s, pos + 2)
        case None => None
        case Some((t, p)) => Some(([Unescape(s[pos + 1]).value] + t, p))
      else None
    else
      match StringBody(s, pos + 1)
      case None => None
      case Some((t, p)) => Some(([s[pos]] + t, p))
  }

  /** The digits from `pos` on, read as a decimal number together with the index after them. */
  function DigitRun(s: string, pos: nat, acc: nat): (r: (nat, nat))
    requires pos <= |s|
    ensures pos <= r.1 <= |s|
    ensures r.1 < |s| ==> !IsDigit(s[r.1])
    decreases |s| - pos
  {
    if pos < |s| && IsDigit(s[pos]) then DigitRun(s, pos + 1, acc * 10 + (s[pos] as int - '0' as int))
    else (acc, pos)
  }

  /** An integer: `-?(0|[1-9][0-9]*)` not followed by a fraction or an exponent. */
  function Integer(s: string, pos: nat): (r: Option<(Json, nat)>)
    requires pos <= |s|
    ensures r.Some? ==> pos < r.value.1 <= |s|
  {
    var neg := pos < |s| && s[pos] == '-';
    var p := if neg then pos + 1 else pos;
    if p >= |s| || !IsDigit(s[p]) then None
    else
      var (n, q) := if s[p] == '0' then (0, p + 1) else DigitRun(s, p, 0);
      if q < |s| && (s[q] == '.' || s[q] == 'e' || s[q] == 'E' || IsDigit(s[q])) then None
      else Some((JNum(if neg then -(n as int) else n), q))
  }

  function Value(s: string, pos: nat): (r: Option<(Json, nat)>)
    requires pos <= |s|
    ensures r.Some? ==> pos < r.value.1 <= |s|
    decreases |s| - pos, 1
  {
    if pos >= |s| then None
    else if s[pos] == '"' then
      match StringBody(s, pos + 1)
      case None => None
      case Some((t, p)) => Some((JStr(t), p))
    else if s[pos] == '[' then Elements(s, SkipSpace(s, pos + 1), [], true)
    else if s[pos] == '{' then Members(s, SkipSpace(s, pos + 1), map[], true)
    else if OccursAt(s, "true", pos) then Some((JBool(true), pos + 4))
    else if OccursAt(s, "false", pos) then Some((JBool(false), pos + 5))
    else if OccursAt(s, "null", pos) then Some((JNull, pos + 4))
    else Integer(s, pos)
  }

  /** The elements of an array after `[` (or after a `,`), up to and including `]`. */
  function Elements(s: string, pos: nat, acc: seq<Json>, first: bool): (r: Option<(Json, nat)>)
    requires pos <= |s|
    ensures r.Some? ==> pos < r.value.1 <= |s|
    decreases |s| - pos, 2
  {
    if first && pos < |s| && s[pos] == ']' then Some((JArr(acc), pos + 1))
    else
      match Value(s, pos)
      case None => None
      case Some((v, p)) =>
        var q := SkipSpace(s, p);
        if q < |s| && s[q] == ']' then Some((JArr(acc + [v]), q + 1))
        else if q < |s| && s[q] == ',' then Elements(s, SkipSpace(s, q + 1), acc + [v], false)
        else None
  }

  /** The members of an object after `{` (or after a `,`), up to and including `}`. */
  function Members(s: string, pos: nat, acc: map<string, Json>, first: bool): (r: Option<(Json, nat)>)
    requires pos <= |s|
    ensures r.Some? ==> pos < r.value.1 <= |s|
    decreases |s| - pos, 2
  {
    if first && pos < |s| && s[pos] == '}' then Some((JObj(acc), pos + 1))
    else if pos < |s| && s[pos] == '"' then
      match StringBody(s, pos + 1)
      case None => None
      case Some((k, p)) =>
        var c := SkipSpace(s, p);
        if c < |s| && s[c] == ':' then
          match Value(s, SkipSpace(s, c + 1))
          case None => None
          case Some((v, p2)) =>
            var q := SkipSpace(s, p2);
            if q < |s| && s[q] == '}' then Some((JObj(acc[k := v]), q + 1))
            else if q < |s| && s[q] == ',' then Members(s, SkipSpace(s, q + 1), acc[k := v], false)
            else None
        else None
    else None
  }

  /** `json.loads(s)` on the part of JSON this recogniser covers: one value, surrounded by whitespace only. */
  function Loads(s: string): Option<Json> {
    match Value(s, SkipSpace(s, 0))
    case None => None
    case Some((v, p)) => if SkipSpace(s, p) == |s| then Some(v) else None
  }

  /** A string literal without escapes or control characters, closed at `close`. */
  lemma PlainStringValue(s: string, pos: nat, close: nat)
    requires pos < close < |s| && s[pos] == '"' && s[close] == '"'
    requires forall i :: pos < i < close ==> s[i] != '"' && s[i] != '\\' && s[i] >= ' '
    ensures Value(s, pos) == Some((JStr(s[pos + 1..close]), close + 1))
  {
    PlainStringBody(s, pos + 1, close);
  }

  /** A one-digit number that nothing continues. */
  lemma DigitValue(s: string, pos: nat)
    requires pos < |s| && '1' <= s[pos] <= '9'
    requires pos + 1 == |s| || !(IsDigit(s[pos + 1]) || s[pos + 1] == '.' || s[pos + 1] == 'e' || s[pos + 1] == 'E')
    ensures Value(s, pos) == Some((JNum(s[pos] as int - '0' as int), pos + 1))
  {
    if pos + 4 <= |s| {
      assert s[pos..pos + 4][0] == s[pos];
    }
    if pos + 5 <= |s| {
      assert s[pos..pos + 5][0] == s[pos];
    }
    assert DigitRun(s, pos + 1, s[pos] as int - '0' as int) == (s[pos] as int - '0' as int, pos + 1);
    assert Integer(s, pos) == Some((JNum(s[pos] as int - '0' as int), pos + 1));
  }

  /** No closing quote before the end of the text: the string literal is unterminated. */
  lemma {:induction false} UnterminatedString(s: string, pos: nat)
    requires pos <= |s|
    requires forall i :: pos <= i < |s| ==> s[i] != '"' && s[i] != '\\'
    ensures StringBody(s, pos) == None
    decreases |s| - pos
  {
    if pos < |s| {
      UnterminatedString(s, pos + 1);
    }
  }

  /** A string body without escapes or control characters decodes to itself. */
  lemma {:induction false} PlainStringBody(s: string, pos: nat, close: nat)
    requires pos <= close < |s| && s[close] == '"'
    requires forall i :: pos <= i < close ==> s[i] != '"' && s[i] != '\\' && s[i] >= ' '
    ensures StringBody(s, pos) == Some((s[pos..close], close + 1))
    decreases close - pos
  {
    if pos < close {
      PlainStringBody(s, pos + 1, close);
      assert [s[pos]] + s[pos + 1..close] == s[pos..close];
    }
  }

  /** Text that a string literal holds as it is: no quote, no backslash, no control character. */
  predicate PlainText(t: string) {
    forall i :: 0 <= i < |t| ==> t[i] != '"' && t[i] != '\\' && t[i] >= ' '
  }

  /** A plain text followed by a quote at `pos` is the body of a string literal. */
  lemma PlainAt(s: string, pos: nat, body: string)
    requires pos + |body| < |s| && s[pos..pos + |body|] == body && s[pos + |body|] == '"' && PlainText(body)
    ensures StringBody(s, pos) == Some((body, pos + |body| + 1))
  {
    forall i | pos <= i < pos + |body|
      ensures s[i] != '"' && s[i] != '\\' && s[i] >= ' '
    {
      assert s[i] == body[i - pos];
    }
    PlainStringBody(s, pos, pos + |body|);
  }
}
