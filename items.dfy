/**
 * Quiz items as the backend handles them: decoded JSON values, keyed by
 * their question text when lists of questions are merged, and the multiple
 * choice items both fallbacks synthesise (backend/app/llm.py and
 * backend/app/main.py).
 */
module Items {
  import opened Wrappers
  import opened Text
  import opened Json

  /**
   * A dict key as Python compares keys: `None`, a string, or a number
   * (`True` and `False` are the keys 1 and 0).
   */
  datatype Key = KNone | KStr(s: string) | KNum(n: int)

  /** The key a JSON value makes; lists and dicts are unhashable and make none (`TypeError`). */
  function KeyOf(v: Json): (k: Option<Key>)
    ensures k.None? <==> v.JArr? || v.JObj?
  {
    match v
    case JNull => Some(KNone)
    case JBool(b) => Some(KNum(if b then 1 else 0))
    case JNum(n) => Some(KNum(n))
    case JStr(s) => Some(KStr(s))
    case _ => None
  }

  /** `d.get(key)`: the value, or `None` (JSON null) when the key is missing. */
  function Get(d: map<string, Json>, key: string): Json {
    if key in d then d[key] else JNull
  }

  /** `q.get("question")`: the key an incoming question is looked up and recorded under. */
  function NewKey(q: map<string, Json>): Option<Key> {
    KeyOf(Get(q, "question"))
  }

  /** `q.get("question", "")`: the key a question already in the list is recorded under. */
  function ExistingKey(q: map<string, Json>): Option<Key> {
    KeyOf(if "question" in q then q["question"] else JStr(""))
  }

  /** Python truth: `None`, `False`, zero and empty strings, lists and dicts are false. */
  predicate Truthy(v: Json) {
    match v
    case JNull => false
    case JBool(b) => b
    case JNum(n) => n != 0
    case JStr(s) => s != []
    case JArr(xs) => xs != []
    case JObj(m) => m != map[]
  }

  const FallbackQuestion := "Which of the following is mentioned in the article?"

  /** A list of strings as a JSON list. */
  function Strings(xs: seq<string>): (r: seq<Json>)
    ensures |r| == |xs| && forall i :: 0 <= i < |xs| ==> r[i] == JStr(xs[i])
  {
    seq(|xs|, i requires 0 <= i < |xs| => JStr(xs[i]))
  }

  /** The item both fallbacks append: a fixed question, the options, the answer and a medium difficulty. */
  function FallbackItem(correct: string, options: seq<string>): Json {
    JObj(map[
      "question" := JStr(FallbackQuestion),
      "options" := JArr(Strings(options)),
      "answer" := JStr(correct),
      "explanation" := JStr("Mentioned in article: " + Prefix(correct, 120)),
      "difficulty" := JStr("medium")])
  }

  /** `[d for d in pool if d != correct]`. */
  function Others(pool: seq<string>, correct: string): (r: seq<string>)
    ensures |r| <= |pool|
    ensures forall d :: d in r <==> d in pool && d != correct
  {
    if pool == [] then []
    else if pool[0] == correct then Others(pool[1..], correct)
    else [pool[0]] + Others(pool[1..], correct)
  }

  /** The number of `pool` entries other than `correct`. */
  lemma {:induction false} OthersCount(pool: seq<string>, correct: string)
    ensures |Others(pool, correct)| == |pool| - multiset(pool)[correct]
  {
    if pool != [] {
      assert pool == [pool[0]] + pool[1..];
      OthersCount(pool[1..], correct);
    }
  }

  function Min(a: int, b: int): int {
    if a < b then a else b
  }

  /** `random.shuffle`: any rearrangement of the list. */
  method Shuffle<T(==)>(xs: seq<T>) returns (r: seq<T>)
    ensures multiset(r) == multiset(xs)
  {
    r :| multiset(r) == multiset(xs);
  }

  /** A prefix of a list holds no more of any entry than the list. */
  lemma PrefixMultiset<T>(xs: seq<T>, i: nat)
    requires i <= |xs|
    ensures multiset(xs[..i]) <= multiset(xs)
  {
    assert xs == xs[..i] + xs[i..];
  }

  /** Extending a prefix by one entry. */
  lemma PrefixSnoc<T>(xs: seq<T>, i: nat)
    requires i < |xs|
    ensures xs[..i + 1] == xs[..i] + [xs[i]]
  {
  }

  /** No entry occurs twice. */
  predicate Distinct<T(==)>(xs: seq<T>) {
    forall i, j :: 0 <= i < j < |xs| ==> xs[i] != xs[j]
  }

  /** A rearrangement has the same members. */
  lemma SameMembers<T>(xs: seq<T>, ys: seq<T>)
    requires multiset(xs) == multiset(ys)
    ensures forall x :: x in xs <==> x in ys
  {
    forall x ensures x in xs <==> x in ys {
      assert x in xs <==> x in multiset(xs);
      assert x in ys <==> x in multiset(ys);
    }
  }

  /** A list is distinct exactly when no element occurs more than once in its multiset. */
  lemma DistinctCounts<T>(xs: seq<T>)
    ensures Distinct(xs) <==> forall x :: multiset(xs)[x] <= 1
  {
    if Distinct(xs) {
      forall x ensures multiset(xs)[x] <= 1 {
        DistinctCount(xs, x);
      }
    } else {
      var i, j :| 0 <= i < j < |xs| && xs[i] == xs[j];
      TwoOccurrences(xs, i, j);
    }
  }

  lemma {:induction false} DistinctCount<T>(xs: seq<T>, x: T)
    requires Distinct(xs)
    ensures multiset(xs)[x] <= 1
  {
    if xs != [] {
      assert xs == [xs[0]] + xs[1..];
      DistinctCount(xs[1..], x);
      if xs[0] == x {
        assert x !in xs[1..];
        assert multiset(xs[1..])[x] == 0;
      }
    }
  }

  lemma {:induction false} TwoOccurrences<T>(xs: seq<T>, i: nat, j: nat)
    requires i < j < |xs| && xs[i] == xs[j]
    ensures multiset(xs)[xs[i]] >= 2
  {
    if i > 0 {
      assert xs == [xs[0]] + xs[1..];
      TwoOccurrences(xs[1..], i - 1, j - 1);
    } else {
      assert xs == [xs[0]] + xs[1..];
      assert xs[1..][j - 1] == xs[0];
      assert multiset(xs[1..])[xs[0]] >= 1;
    }
  }
}
