/**
 * String operations with the meaning of the Python `str` methods the quiz
 * backend relies on: `strip`, `find`, `rfind`, `split`, `lower`, slicing
 * with `[:n]`, and the `in` operator on strings.
 */
module Text {

  /** `str.isspace()` on one character: the set `str.strip()` removes and `\s` matches. */
  predicate IsSpace(c: char) {
    var n := c as int;
    n == 0x20 || 0x09 <= n <= 0x0d || 0x1c <= n <= 0x1f || n == 0x85 || n == 0xa0
    || n == 0x1680 || 0x2000 <= n <= 0x200a || n == 0x2028 || n == 0x2029
    || n == 0x202f || n == 0x205f || n == 0x3000
  }

  /** An ASCII decimal digit, as JSON numbers and the `\d` of the retry patterns read it. */
  predicate IsDigit(c: char) {
    '0' <= c <= '9'
  }

  predicate AllSpace(s: string) {
    forall i :: 0 <= i < |s| ==> IsSpace(s[i])
  }

  /** A string with no whitespace at either end, as `strip()` leaves it. */
  predicate Stripped(s: string) {
    s == [] || (!IsSpace(s[0]) && !IsSpace(s[|s| - 1]))
  }

  /** The number of whitespace characters `s` starts with. */
  function LeadingSpace(s: string): (n: nat)
    ensures n <= |s|
    ensures AllSpace(s[..n])
    ensures n < |s| ==> !IsSpace(s[n])
  {
    if s != [] && IsSpace(s[0]) then
      var m := LeadingSpace(s[1..]);
      assert s[..1 + m] == [s[0]] + s[1..][..m];
      1 + m
    else 0
  }

  /** Every whitespace-only prefix lies within the leading whitespace. */
  lemma {:induction false} LeadingSpaceCovers(s: string, n: nat)
    requires n <= |s| && AllSpace(s[..n])
    ensures n <= LeadingSpace(s)
  {
    if n > 0 {
      assert s[..n][0] == s[0];
      assert s[1..][..n - 1] == s[..n][1..];
      LeadingSpaceCovers(s[1..], n - 1);
    }
  }

  /** The number of whitespace characters `s` ends with. */
  function TrailingSpace(s: string): (n: nat)
    ensures n <= |s|
    ensures AllSpace(s[|s| - n..])
    ensures n < |s| ==> !IsSpace(s[|s| - n - 1])
  {
    if s != [] && IsSpace(s[|s| - 1]) then
      var t := s[..|s| - 1];
      var m := TrailingSpace(t);
      assert s[|s| - (1 + m)..] == t[|t| - m..] + [s[|s| - 1]];
      1 + m
    else 0
  }

  /** `s.strip()`: the text without its leading and trailing whitespace. */
  function Strip(s: string): (r: string)
    ensures Stripped(r)
    ensures LeadingSpace(s) + |r| <= |s|
    ensures AllSpace(s[LeadingSpace(s) + |r|..])
    ensures r == [] <==> AllSpace(s)
  {
    var i := LeadingSpace(s);
    var t := s[i..];
    var n := TrailingSpace(t);
    StripEnds(s, i, t, n);
    StripEmpty(s, i, t, n);
    StripSlices(s, i, t, n);
    t[..|t| - n]
  }

  lemma StripEnds(s: string, i: nat, t: string, n: nat)
    requires i == LeadingSpace(s) && t == s[i..] && n == TrailingSpace(t)
    ensures Stripped(t[..|t| - n])
  {
    var r := t[..|t| - n];
    if r != [] {
      assert r[0] == s[i];
      assert r[|r| - 1] == t[|t| - n - 1];
    }
  }

  lemma StripEmpty(s: string, i: nat, t: string, n: nat)
    requires i == LeadingSpace(s) && t == s[i..] && n == TrailingSpace(t)
    ensures t[..|t| - n] == [] <==> AllSpace(s)
  {
    if AllSpace(s) {
      assert i == |s|;
    }
    if n == |t| {
      AllSpaceWhole(t, n);
      AllSpaceConcat(s[..i], t);
      Rejoin(s, i);
    }
  }

  lemma AllSpaceWhole(t: string, n: nat)
    requires n == |t| && AllSpace(t[|t| - n..])
    ensures AllSpace(t)
  {
    assert t[|t| - n..] == t;
  }

  lemma Rejoin<T>(s: seq<T>, i: nat)
    requires i <= |s|
    ensures s[..i] + s[i..] == s
  {
  }

  lemma AllSpaceConcat(a: string, b: string)
    requires AllSpace(a) && AllSpace(b)
    ensures AllSpace(a + b)
  {
    forall k | 0 <= k < |a + b| ensures IsSpace((a + b)[k]) {
      if k >= |a| {
        assert (a + b)[k] == b[k - |a|];
      }
    }
  }

  lemma StripSlices(s: string, i: nat, t: string, n: nat)
    requires i <= |s| && t == s[i..] && n <= |t|
    ensures t[..|t| - n] == s[i..i + (|t| - n)]
    ensures s[i + (|t| - n)..] == t[|t| - n..]
  {
  }

  /** The stripped text is the infix of `s` that starts after its leading whitespace. */
  lemma StripIsInfix(s: string)
    ensures Strip(s) == s[LeadingSpace(s)..LeadingSpace(s) + |Strip(s)|]
  {
    var i := LeadingSpace(s);
    StripSlices(s, i, s[i..], TrailingSpace(s[i..]));
  }

  lemma StripUnchanged(s: string)
    requires Stripped(s)
    ensures Strip(s) == s
  {
    if s != [] {
      assert LeadingSpace(s) == 0;
      assert TrailingSpace(s) == 0;
    }
  }

  /** Stripping the prefix `s[..k]` leaves an infix of `s` that ends by `k`. */
  lemma StripOfPrefixIsInfix(s: string, k: nat)
    requires k <= |s|
    ensures LeadingSpace(s[..k]) + |Strip(s[..k])| <= k
    ensures Strip(s[..k]) == s[LeadingSpace(s[..k])..LeadingSpace(s[..k]) + |Strip(s[..k])|]
  {
    var p := s[..k];
    StripIsInfix(p);
    var l := LeadingSpace(p);
    var n := |Strip(p)|;
    InfixOfPrefix(s, k, l, l + n);
  }

  lemma InfixOfPrefix(s: string, k: nat, i: nat, j: nat)
    requires i <= j <= k <= |s|
    ensures s[..k][i..j] == s[i..j]
  {
    forall m | 0 <= m < j - i ensures s[..k][i..j][m] == s[i..j][m] {
      assert s[..k][i + m] == s[i + m];
    }
  }

  /**
   * Stripping a prefix of a string that does not start with whitespace only
   * removes characters at the end: the result is again a prefix.
   */
  lemma StripOfPrefix(s: string, k: nat)
    requires k <= |s|
    requires s == [] || !IsSpace(s[0])
    ensures Strip(s[..k]) == s[..|Strip(s[..k])|]
  {
    var p := s[..k];
    StripIsInfix(p);
    if p != [] {
      assert p[0] == s[0];
      assert LeadingSpace(p) == 0;
    }
  }

  /** Whitespace followed by text that does not start with whitespace: the leading whitespace is exactly `w`. */
  lemma {:induction false} LeadingSpaceOf(w: string, y: string)
    requires AllSpace(w) && (y == [] || !IsSpace(y[0]))
    ensures LeadingSpace(w + y) == |w|
    decreases |w|
  {
    if w == [] {
      assert w + y == y;
    } else {
      assert (w + y)[0] == w[0];
      assert (w + y)[1..] == w[1..] + y;
      LeadingSpaceOf(w[1..], y);
    }
  }

  /** Text that does not end with whitespace, followed by whitespace: the trailing whitespace is exactly `w`. */
  lemma {:induction false} TrailingSpaceOf(y: string, w: string)
    requires AllSpace(w) && (y == [] || !IsSpace(y[|y| - 1]))
    ensures TrailingSpace(y + w) == |w|
    decreases |w|
  {
    if w == [] {
      assert y + w == y;
    } else {
      var s := y + w;
      assert s[|s| - 1] == w[|w| - 1];
      assert s[..|s| - 1] == y + w[..|w| - 1];
      TrailingSpaceOf(y, w[..|w| - 1]);
    }
  }

  /** `strip` removes exactly the whitespace around a stripped, non-empty text. */
  lemma StripAround(w1: string, x: string, w2: string)
    requires AllSpace(w1) && AllSpace(w2) && Stripped(x) && x != []
    ensures Strip(w1 + x + w2) == x
  {
    var s := w1 + x + w2;
    assert s == w1 + (x + w2);
    LeadingSpaceOf(w1, x + w2);
    assert s[|w1|..] == x + w2;
    TrailingSpaceOf(x, w2);
    assert (x + w2)[..|x|] == x;
  }

  /** Python's `xs[:n]` for a non-negative `n`, on strings and lists alike. */
  function Prefix<T>(xs: seq<T>, n: nat): (r: seq<T>)
    ensures |r| == if |xs| < n then |xs| else n
    ensures r == xs[..|r|]
  {
    if |xs| < n then xs else xs[..n]
  }

  /** `s.startswith(p)`. */
  predicate StartsWith(s: string, p: string) {
    |p| <= |s| && s[..|p|] == p
  }

  /** `s.endswith(p)`. */
  predicate EndsWith(s: string, p: string) {
    |p| <= |s| && s[|s| - |p|..] == p
  }

  /** `pat` occurs in `s` starting at index `k`. */
  predicate OccursAt(s: string, pat: string, k: int) {
    0 <= k && k + |pat| <= |s| && s[k..k + |pat|] == pat
  }

  function FindFrom(s: string, pat: string, k: nat): (r: int)
    ensures r == -1 || (k <= r && OccursAt(s, pat, r))
    ensures forall j :: k <= j < (if r < 0 then |s| + 1 else r) ==> !OccursAt(s, pat, j)
    decreases |s| + 1 - k
  {
    if k > |s| then -1
    else if OccursAt(s, pat, k) then k
    else FindFrom(s, pat, k + 1)
  }

  /** `s.find(pat)`: the least index at which `pat` occurs, or -1 when it does not occur. */
  function Find(s: string, pat: string): (r: int)
    ensures r == -1 || OccursAt(s, pat, r)
    ensures forall j :: 0 <= j < (if r < 0 then |s| + 1 else r) ==> !OccursAt(s, pat, j)
  {
    FindFrom(s, pat, 0)
  }

  /** `pat in s`. */
  predicate Contains(s: string, pat: string) {
    Find(s, pat) >= 0
  }

  lemma ContainsIff(s: string, pat: string)
    ensures Contains(s, pat) <==> exists k :: OccursAt(s, pat, k)
  {
    if exists k :: OccursAt(s, pat, k) {
      var k :| OccursAt(s, pat, k);
      assert k <= |s|;
    }
  }

  /** `s.find(c)` for a one-character pattern: the first index holding `c`, or -1 when `c` is absent. */
  lemma FindChar(s: string, c: char)
    ensures Find(s, [c]) == -1 <==> (forall k :: 0 <= k < |s| ==> s[k] != c)
    ensures Find(s, [c]) >= 0 ==> Find(s, [c]) < |s| && s[Find(s, [c])] == c
    ensures forall k :: 0 <= k < |s| && (Find(s, [c]) < 0 || k < Find(s, [c])) ==> s[k] != c
  {
    forall k | 0 <= k < |s| ensures OccursAt(s, [c], k) <==> s[k] == c {
      assert s[k..k + 1] == [s[k]];
    }
  }

  /** Every character of an occurring pattern is a character of the text. */
  lemma OccurrenceChars(s: string, pat: string, k: int, c: char)
    ensures OccursAt(s, pat, k) && c in pat ==> c in s
  {
    if OccursAt(s, pat, k) && c in pat {
      var i :| 0 <= i < |pat| && pat[i] == c;
      assert s[k..k + |pat|][i] == s[k + i];
    }
  }

  /** A pattern holding a character the text lacks is not found. */
  lemma FindNeedsChar(s: string, pat: string, c: char)
    requires c in pat && c !in s
    ensures Find(s, pat) == -1
  {
    OccurrenceChars(s, pat, Find(s, pat), c);
  }

  /** An occurrence with no earlier copy of the pattern's first character is the one `find` returns. */
  lemma FindFirstAt(s: string, pat: string, k: nat)
    requires OccursAt(s, pat, k) && pat != []
    requires forall j :: 0 <= j < k ==> s[j] != pat[0]
    ensures Find(s, pat) == k
  {
    var r := Find(s, pat);
    assert 0 <= r <= k;
    assert s[r..r + |pat|][0] == s[r];
  }

  /** An occurrence in an infix of `s` is an occurrence in `s`. */
  lemma OccursInInfix(s: string, i: nat, j: nat, pat: string, k: int)
    requires i <= j <= |s|
    requires OccursAt(s[i..j], pat, k)
    ensures OccursAt(s, pat, i + k)
  {
    forall n | 0 <= n < |pat| ensures s[i + k + n] == pat[n] {
      assert s[i..j][k..k + |pat|][n] == pat[n];
    }
    assert s[i + k..i + k + |pat|] == pat;
  }

  /** An infix of a string that does not contain `pat` does not contain it either. */
  lemma NotContainsInfix(s: string, i: nat, j: nat, pat: string)
    requires i <= j <= |s|
    requires !Contains(s, pat)
    ensures !Contains(s[i..j], pat)
  {
    forall k | OccursAt(s[i..j], pat, k) ensures OccursAt(s, pat, i + k) {
      OccursInInfix(s, i, j, pat, k);
    }
  }

  /** `s.rfind(c)` for a one-character pattern: the greatest index holding `c`, or -1. */
  function RFind(s: string, c: char): (r: int)
    ensures -1 <= r < |s|
    ensures r >= 0 ==> s[r] == c
    ensures forall j :: r < j < |s| ==> s[j] != c
  {
    if s == [] then -1
    else if s[|s| - 1] == c then |s| - 1
    else RFind(s[..|s| - 1], c)
  }

  /** `c.lower()` restricted to ASCII letters; every other character is left as it is. */
  function LowerChar(c: char): char {
    if 'A' <= c <= 'Z' then (c as int + 32) as char else c
  }

  function Lower(s: string): (r: string)
    ensures |r| == |s|
    ensures forall i :: 0 <= i < |s| ==> r[i] == LowerChar(s[i])
  {
    seq(|s|, i requires 0 <= i < |s| => LowerChar(s[i]))
  }

  /** Lowering commutes with taking an infix. */
  lemma LowerInfix(s: string, i: nat, j: nat)
    requires i <= j <= |s|
    ensures Lower(s)[i..j] == Lower(s[i..j])
  {
  }

  /** The piece of `s` at `k` as long as `pat` lowers to `pat`. */
  predicate LowersTo(s: string, pat: string, k: int)
  {
    0 <= k && k + |pat| <= |s| && Lower(s[k..k + |pat|]) == pat
  }

  /** `pat` occurs in the lowered text at `k` exactly when the text there lowers to `pat`. */
  lemma LowerOccursAt(s: string, pat: string, k: int)
    ensures OccursAt(Lower(s), pat, k) <==> LowersTo(s, pat, k)
  {
    if 0 <= k && k + |pat| <= |s| {
      LowerInfix(s, k, k + |pat|);
    }
  }

  /** `s.split(sep)` for a one-character separator. */
  function Split(s: string, sep: char): (parts: seq<string>)
    ensures |parts| >= 1
  {
    if s == [] then [""]
    else
      var rest := Split(s[1..], sep);
      if s[0] == sep then [""] + rest else [[s[0]] + rest[0]] + rest[1..]
  }

  /** `sep.join(parts)`. */
  function Join(parts: seq<string>, sep: char): string
    requires |parts| >= 1
  {
    if |parts| == 1 then parts[0] else parts[0] + [sep] + Join(parts[1..], sep)
  }

  /**
   * `split` and `join` are inverse: joining the pieces with the separator
   * gives back the original text, and no piece contains the separator.
   */
  lemma {:induction false} SplitJoin(s: string, sep: char)
    ensures Join(Split(s, sep), sep) == s
    ensures forall p :: p in Split(s, sep) ==> sep !in p
  {
    if s != [] {
      var rest := Split(s[1..], sep);
      SplitJoin(s[1..], sep);
      if s[0] == sep {
        assert Split(s, sep) == [""] + rest;
        assert ([""] + rest)[1..] == rest;
        assert s == [sep] + s[1..];
      } else {
        var parts := [[s[0]] + rest[0]] + rest[1..];
        assert parts[1..] == rest[1..];
        if |rest| == 1 {
          assert s == [s[0]] + s[1..];
        } else {
          assert Join(rest, sep) == rest[0] + [sep] + Join(rest[1..], sep);
          assert s == [s[0]] + s[1..];
        }
        forall p | p in parts ensures sep !in p {
          if p != parts[0] { assert p in rest; }
        }
      }
    }
  }

  /** `[x.strip() for x in parts if x.strip()]`. */
  function StrippedNonEmpty(parts: seq<string>): (r: seq<string>)
    ensures |r| <= |parts|
    ensures forall x :: x in r ==> x != [] && Stripped(x)
  {
    if parts == [] then []
    else
      var rest := StrippedNonEmpty(parts[1..]);
      if Strip(parts[0]) != [] then [Strip(parts[0])] + rest else rest
  }

  /** The kept entries are exactly the non-empty stripped parts. */
  lemma {:induction false} StrippedNonEmptyMembers(parts: seq<string>)
    ensures forall x :: x in StrippedNonEmpty(parts) <==> x != [] && exists p :: p in parts && Strip(p) == x
  {
    forall x ensures x in StrippedNonEmpty(parts) <==> x != [] && exists p :: p in parts && Strip(p) == x {
      StrippedNonEmptyMember(parts, x);
    }
  }

  lemma {:induction false} StrippedNonEmptyMember(parts: seq<string>, x: string)
    ensures x in StrippedNonEmpty(parts) <==> x != [] && exists p :: p in parts && Strip(p) == x
  {
    if parts != [] {
      StrippedNonEmptyMember(parts[1..], x);
      var rest := StrippedNonEmpty(parts[1..]);
      assert StrippedNonEmpty(parts) == if Strip(parts[0]) != [] then [Strip(parts[0])] + rest else rest;
      if x != [] && exists p :: p in parts && Strip(p) == x {
        var p :| p in parts && Strip(p) == x;
        if p != parts[0] {
          assert p in parts[1..];
        }
      }
      if x in StrippedNonEmpty(parts) && x != Strip(parts[0]) {
        assert x in rest;
        var p :| p in parts[1..] && Strip(p) == x;
        assert p in parts;
      }
    }
  }

  /** The sentence list `[s.strip() for s in text.split('.') if s.strip()]`. */
  function Sentences(text: string): (r: seq<string>)
    ensures forall x :: x in r ==> x != [] && Stripped(x)
  {
    StrippedNonEmpty(Split(text, '.'))
  }

  /**
   * The sentences are exactly the non-empty stripped pieces of the text cut
   * at every full stop; none holds a full stop.
   */
  lemma SentencesMembers(text: string)
    ensures forall x :: x in Sentences(text) <==> x != [] && exists p :: p in Split(text, '.') && Strip(p) == x
    ensures forall p :: p in Split(text, '.') ==> '.' !in p
  {
    StrippedNonEmptyMembers(Split(text, '.'));
    SplitJoin(text, '.');
  }
}
