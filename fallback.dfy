/**
 * The fallback synthesis in the `/generate_quiz` endpoint
 * (backend/app/main.py): when the model returned fewer than ten questions,
 * build a pool of candidate answers from the analysis and the related
 * topics, deduplicate it and drop short entries, then add one multiple
 * choice question per pool entry until the list has ten, skipping any
 * question that would have fewer than four options. An exception while the
 * pool is built is swallowed and leaves the list as it was.
 */
module Fallback {
  import opened Wrappers
  import opened Text
  import opened Json
  import opened Items

  const Wanted := 10

  /** The keys of `key_entities` whose lists join the pool, in order. */
  const EntityKinds := ["people", "organizations", "locations"]

  /** `quiz_items` as the synthesis starts: anything but a list is replaced by `[]`. */
  function StartItems(quizItems: Json): seq<Json> {
    if quizItems.JArr? then quizItems.items else []
  }

  /** `analysis.get(key) if isinstance(analysis, dict) else absent`. */
  function Field(analysis: Json, key: string, absent: Json): Json {
    if analysis.JObj? then Get(analysis.fields, key) else absent
  }

  /** What `pool.extend(v)` adds when guarded by `isinstance(v, list)`. */
  function ListItems(v: Json): seq<Json> {
    if v.JArr? then v.items else []
  }

  /** The lists found under `kinds` in `key_entities`, in order; a kind without a list adds nothing. */
  function Listed(entities: map<string, Json>, kinds: seq<string>): seq<Json> {
    if kinds == [] then []
    else Listed(entities, kinds[..|kinds| - 1]) + ListItems(Get(entities, kinds[|kinds| - 1]))
  }

  /**
   * The pool before deduplication: sections, related topics, people,
   * organisations, locations, then the summary's sentences. `None` when
   * building it raises: `key_entities` is not a dict (`.get` fails) or
   * `summary` is not a string (`.split` fails). A non-dict analysis
   * contributes nothing.
   */
  function RawPool(analysis: Json, related: seq<Json>): Option<seq<Json>> {
    var entities := Field(analysis, "key_entities", JObj(map[]));
    var summary := Field(analysis, "summary", JStr(""));
    if !entities.JObj? || !summary.JStr? then None
    else Some(ListItems(Field(analysis, "sections", JArr([]))) + related
              + Listed(entities.fields, EntityKinds) + Strings(Sentences(summary.s)))
  }

  /** No two entries make the same dict key. */
  predicate DistinctKeys(xs: seq<Json>) {
    forall i, j :: 0 <= i < j < |xs| ==> KeyOf(xs[i]) != KeyOf(xs[j])
  }

  /**
   * `list(dict.fromkeys(pool))` with `seen` the keys met so far: the first
   * entry for each key, in order; `None` when an entry is a list or a dict
   * (`TypeError: unhashable type`).
   */
  function FromKeys(pool: seq<Json>, seen: set<Key>): (r: Option<seq<Json>>)
    ensures r.Some? <==> forall x :: x in pool ==> KeyOf(x).Some?
    ensures r.Some? ==> forall x :: x in r.value ==> x in pool && KeyOf(x).Some? && KeyOf(x).value !in seen
    ensures r.Some? ==> DistinctKeys(r.value)
    decreases |pool|
  {
    if pool == [] then Some([])
    else
      assert forall x :: x in pool <==> x == pool[0] || x in pool[1..];
      match KeyOf(pool[0])
      case None => None
      case Some(k) =>
        match FromKeys(pool[1..], seen + {k})
        case None => None
        case Some(rest) =>
          if k in seen then Some(rest)
          else
            assert forall j :: 0 < j < |[pool[0]] + rest| ==> ([pool[0]] + rest)[j] == rest[j - 1];
            Some([pool[0]] + rest)
  }

  /** Every entry can be a dict key. */
  predicate AllHashable(pool: seq<Json>) {
    forall x :: x in pool ==> KeyOf(x).Some?
  }

  /** The entry at `a` has a key outside `seen` that no earlier entry has. */
  predicate FirstOfKey(pool: seq<Json>, seen: set<Key>, a: nat)
    requires a < |pool| && AllHashable(pool)
  {
    KeyOf(pool[a]).value !in seen && forall b :: 0 <= b < a ==> KeyOf(pool[b]) != KeyOf(pool[a])
  }

  /** Reference: the entries from `a` on at which a key is met for the first time, in pool order. */
  function FirstEntries(pool: seq<Json>, seen: set<Key>, a: nat): seq<Json>
    requires a <= |pool| && AllHashable(pool)
    decreases |pool| - a
  {
    if a == |pool| then []
    else (if FirstOfKey(pool, seen, a) then [pool[a]] else []) + FirstEntries(pool, seen, a + 1)
  }

  /** The keys of `seen` and of the entries before `a`. */
  function KeysBefore(pool: seq<Json>, seen: set<Key>, a: nat): set<Key>
    requires a <= |pool| && AllHashable(pool)
  {
    seen + set b | 0 <= b < a :: KeyOf(pool[b]).value
  }

  /**
   * On a hashable pool, `dict.fromkeys` keeps exactly the entries at which a
   * key is met for the first time, in their order in the pool.
   */
  lemma FromKeysFirsts(pool: seq<Json>, seen: set<Key>)
    requires AllHashable(pool)
    ensures FromKeys(pool, seen) == Some(FirstEntries(pool, seen, 0))
  {
    assert pool[0..] == pool;
    assert KeysBefore(pool, seen, 0) == seen;
    FromKeysFrom(pool, seen, 0);
  }

  lemma {:induction false} FromKeysFrom(pool: seq<Json>, seen: set<Key>, a: nat)
    requires a <= |pool| && AllHashable(pool)
    ensures FromKeys(pool[a..], KeysBefore(pool, seen, a)) == Some(FirstEntries(pool, seen, a))
    decreases |pool| - a
  {
    if a < |pool| {
      FromKeysFrom(pool, seen, a + 1);
      var k := KeyOf(pool[a]).value;
      var s := KeysBefore(pool, seen, a);
      assert pool[a..][0] == pool[a];
      assert pool[a..][1..] == pool[a + 1..];
      assert KeysBefore(pool, seen, a + 1) == s + {k} by {
        forall key ensures key in KeysBefore(pool, seen, a + 1) <==> key in s + {k} {
          if key in KeysBefore(pool, seen, a + 1) && key !in seen && key != k {
            var b :| 0 <= b < a + 1 && key == KeyOf(pool[b]).value;
            assert b < a;
          }
        }
      }
      assert FirstOfKey(pool, seen, a) <==> k !in s by {
        if k in s && k !in seen {
          var b :| 0 <= b < a && k == KeyOf(pool[b]).value;
          assert KeyOf(pool[b]) == KeyOf(pool[a]);
        }
      }
      var rest := FirstEntries(pool, seen, a + 1);
      assert KeyOf(pool[a..][0]) == Some(k);
      assert FromKeys(pool[a..][1..], s + {k}) == Some(rest);
      assert FromKeys(pool[a..], s) == if k in s then Some(rest) else Some([pool[a]] + rest);
      assert FirstEntries(pool, seen, a) == if k in s then rest else [pool[a]] + rest by {
        assert [] + rest == rest;
      }
    }
  }

  /** `len(p)` fails on a truthy number or boolean: the values the filter raises on. */
  predicate LenRaises(x: Json) {
    (x.JNum? && x.n != 0) || x == JBool(true)
  }

  /**
   * `[p for p in keys if p and len(p) > 3]` over the deduplicated entries
   * (which are never lists or dicts): falsy entries are dropped, strings of
   * more than three characters kept; `None` when a truthy number or boolean
   * reaches `len`.
   */
  function Usable(keys: seq<Json>): (r: Option<seq<string>>)
    requires forall x :: x in keys ==> KeyOf(x).Some?
    ensures r.None? <==> exists x :: x in keys && LenRaises(x)
    ensures r.Some? ==> forall s :: s in r.value <==> JStr(s) in keys && |s| > 3
  {
    if keys == [] then Some([])
    else
      assert forall x :: x in keys <==> x == keys[0] || x in keys[1..];
      var rest := Usable(keys[1..]);
      if LenRaises(keys[0]) then None
      else if keys[0].JStr? && |keys[0].s| > 3 then
        if rest.Some? then Some([keys[0].s] + rest.value) else None
      else rest
  }

  /** `[p for p in dict.fromkeys(raw) if p and len(p) > 3]`, or `None` when it raises. */
  function Filtered(raw: seq<Json>): Option<seq<string>> {
    match FromKeys(raw, {})
    case None => None
    case Some(keys) => Usable(keys)
  }

  /** The pool the questions are drawn from, or `None` when building it raises. */
  function Pool(analysis: Json, related: seq<Json>): Option<seq<string>> {
    match RawPool(analysis, related)
    case None => None
    case Some(raw) => Filtered(raw)
  }

  // ---------------------------------------------------------------------
  // The pool
  // ---------------------------------------------------------------------

  /** A string is kept by `dict.fromkeys` exactly when its key was not met before. */
  lemma {:induction false} FromKeysStrings(pool: seq<Json>, seen: set<Key>, s: string)
    requires FromKeys(pool, seen).Some?
    ensures JStr(s) in FromKeys(pool, seen).value <==> JStr(s) in pool && KStr(s) !in seen
    decreases |pool|
  {
    if pool != [] {
      assert forall x :: x in pool <==> x == pool[0] || x in pool[1..];
      var k := KeyOf(pool[0]).value;
      FromKeysStrings(pool[1..], seen + {k}, s);
    }
  }

  /** Two values with the same key: if one is a truthy number or boolean, so is the other. */
  lemma SameKeyLenRaises(x: Json, y: Json)
    requires KeyOf(x).Some? && KeyOf(x) == KeyOf(y) && LenRaises(y)
    ensures LenRaises(x)
  {
  }

  /**
   * `dict.fromkeys` keeps a truthy number or boolean exactly when the pool
   * holds one under a key not met before: the first entry under such a key
   * is itself truthy.
   */
  lemma {:induction false} FromKeysLenRaises(pool: seq<Json>, seen: set<Key>)
    requires FromKeys(pool, seen).Some?
    ensures (exists x :: x in FromKeys(pool, seen).value && LenRaises(x)) <==>
            (exists x :: x in pool && LenRaises(x) && KeyOf(x).value !in seen)
    decreases |pool|
  {
    if pool != [] {
      assert forall x :: x in pool <==> x == pool[0] || x in pool[1..];
      var k := KeyOf(pool[0]).value;
      FromKeysLenRaises(pool[1..], seen + {k});
      var r := FromKeys(pool, seen).value;
      var rest := FromKeys(pool[1..], seen + {k}).value;
      if k !in seen {
        assert r == [pool[0]] + rest;
        if y :| y in pool[1..] && LenRaises(y) && KeyOf(y).value !in seen {
          if KeyOf(y).value == k {
            SameKeyLenRaises(pool[0], y);
            assert pool[0] in r;
          }
        }
      } else {
        assert r == rest;
      }
    }
  }

  /** Distinct keys make distinct strings. */
  lemma {:induction false} UsableDistinct(keys: seq<Json>)
    requires forall x :: x in keys ==> KeyOf(x).Some?
    requires DistinctKeys(keys) && Usable(keys).Some?
    ensures Distinct(Usable(keys).value)
  {
    if keys != [] {
      assert forall x :: x in keys <==> x == keys[0] || x in keys[1..];
      assert DistinctKeys(keys[1..]) by {
        forall i, j | 0 <= i < j < |keys[1..]| ensures KeyOf(keys[1..][i]) != KeyOf(keys[1..][j]) {
          assert keys[1..][i] == keys[i + 1] && keys[1..][j] == keys[j + 1];
        }
      }
      UsableDistinct(keys[1..]);
      var rest := Usable(keys[1..]).value;
      if !LenRaises(keys[0]) && keys[0].JStr? && |keys[0].s| > 3 {
        var s := keys[0].s;
        var r := [s] + rest;
        assert forall j :: 0 < j < |r| ==> r[j] == rest[j - 1];
      }
    }
  }

  /**
   * The filtered pool holds no entry twice, and holds exactly the strings of
   * the undeduplicated pool that are longer than three characters.
   */
  lemma FilteredShape(raw: seq<Json>)
    requires Filtered(raw).Some?
    ensures Distinct(Filtered(raw).value)
    ensures forall s :: s in Filtered(raw).value <==> JStr(s) in raw && |s| > 3
  {
    var keys := FromKeys(raw, {}).value;
    UsableDistinct(keys);
    forall s ensures JStr(s) in keys <==> JStr(s) in raw {
      FromKeysStrings(raw, {}, s);
    }
  }

  /** Filtering raises exactly when the pool holds a list, a dict, or a truthy number or boolean. */
  lemma FilteredRaises(raw: seq<Json>)
    ensures Filtered(raw).None? <==> exists x :: x in raw && (x.JArr? || x.JObj? || LenRaises(x))
  {
    if FromKeys(raw, {}).Some? {
      FromKeysLenRaises(raw, {});
    }
  }

  /** The pool holds no entry twice, and every entry is a string of the assembled pool longer than three characters. */
  lemma PoolShape(analysis: Json, related: seq<Json>)
    requires Pool(analysis, related).Some?
    ensures Distinct(Pool(analysis, related).value)
    ensures forall s :: s in Pool(analysis, related).value <==> JStr(s) in RawPool(analysis, related).value && |s| > 3
  {
    FilteredShape(RawPool(analysis, related).value);
  }

  /**
   * Building the pool raises (and nothing is added) exactly when the
   * analysis lacks a dict of entities or a string summary, or the pool holds
   * a list, a dict, or a truthy number or boolean.
   */
  lemma PoolRaises(analysis: Json, related: seq<Json>)
    ensures Pool(analysis, related).None? <==>
      RawPool(analysis, related).None? ||
      exists x :: x in RawPool(analysis, related).value && (x.JArr? || x.JObj? || LenRaises(x))
  {
    if RawPool(analysis, related).Some? {
      FilteredRaises(RawPool(analysis, related).value);
    }
  }

  /** An empty summary has no sentences. */
  lemma NoSentences()
    ensures Sentences("") == []
  {
    assert Split("", '.') == [""];
    assert StrippedNonEmpty([""]) == [];
  }

  /** An empty entities dict lists nothing. */
  lemma NoEntities()
    ensures Listed(map[], EntityKinds) == []
  {
    assert EntityKinds[..2] == ["people", "organizations"];
    assert EntityKinds[..2][..1] == ["people"];
    assert ["people"][..0] == [];
  }

  /** Without an analysis dict the pool is built from the related topics alone. */
  lemma NonDictAnalysis(analysis: Json, related: seq<Json>)
    requires !analysis.JObj?
    ensures RawPool(analysis, related) == Some(related)
  {
    NoSentences();
    NoEntities();
    assert ListItems(Field(analysis, "sections", JArr([]))) == [];
    assert Strings([]) == [];
    assert [] + related + [] + [] == related;
  }

  /** An analysis dict without `key_entities` makes the pool raise: no question is added. */
  lemma MissingEntities(analysis: Json, related: seq<Json>)
    requires analysis.JObj? && "key_entities" !in analysis.fields
    ensures Pool(analysis, related).None?
  {
  }

  /** The `for k in ("people", "organizations", "locations")` loop: extend by each list found. */
  method ExtendByEntities(raw: seq<Json>, entities: map<string, Json>) returns (r: seq<Json>)
    ensures r == raw + Listed(entities, EntityKinds)
  {
    r := raw;
    for j := 0 to |EntityKinds|
      invariant r == raw + Listed(entities, EntityKinds[..j])
    {
      var v := Get(entities, EntityKinds[j]);
      assert EntityKinds[..j + 1][..j] == EntityKinds[..j];
      if v.JArr? {
        r := r + v.items;
      }
    }
    assert EntityKinds[..|EntityKinds|] == EntityKinds;
  }

  /** The pool as main.py assembles it, extended step by step, before deduplication. */
  method AssemblePool(analysis: Json, related: seq<Json>) returns (raw: Option<seq<Json>>)
    ensures raw == RawPool(analysis, related)
  {
    var sections := Field(analysis, "sections", JArr([]));
    var pool: seq<Json> := [];
    if sections.JArr? {
      pool := pool + sections.items;
    }
    pool := pool + related;
    assert pool == ListItems(sections) + related;
    var entities := Field(analysis, "key_entities", JObj(map[]));
    if !entities.JObj? {
      return None;
    }
    pool := ExtendByEntities(pool, entities.fields);
    var summary := Field(analysis, "summary", JStr(""));
    if !summary.JStr? {
      return None;
    }
    pool := pool + Strings(Sentences(summary.s));
    return Some(pool);
  }

  /** The pool as main.py builds it: assembled, then deduplicated and filtered. */
  method BuildPool(analysis: Json, related: seq<Json>) returns (pool: Option<seq<string>>)
    ensures pool == Pool(analysis, related)
  {
    var raw := AssemblePool(analysis, related);
    if raw.None? {
      return None;
    }
    var keys := FromKeys(raw.value, {});
    if keys.None? {
      return None;
    }
    pool := Usable(keys.value);
  }

  // ---------------------------------------------------------------------
  // The questions
  // ---------------------------------------------------------------------

  /** The options of one synthesised question: four, the answer among them, all from the pool, distinct when the pool is. */
  predicate MainOptions(answer: string, opts: seq<string>, pool: seq<string>) {
    |opts| == 4 && answer in opts && (forall o :: o in opts ==> o in pool) && (Distinct(pool) ==> Distinct(opts))
  }

  /**
   * `items` is what the loop makes of the list `start` and the pool: the
   * list only grows; nothing is added when the list already had ten or the
   * pool has fewer than four entries; with a distinct pool of four or more
   * the list is filled to ten or until the pool runs out; each added item is
   * the fixed fallback item for its answer and options; no pool entry is the
   * answer more often than the pool holds it.
   */
  predicate Synthesized(start: seq<Json>, pool: seq<string>, items: seq<Json>, answers: seq<string>, options: seq<seq<string>>) {
    start <= items &&
    |answers| == |options| == |items| - |start| &&
    (|start| >= Wanted || |pool| < 4 ==> items == start) &&
    (|start| <= Wanted ==> |items| <= Wanted) &&
    (|start| < Wanted && |pool| >= 4 && Distinct(pool) ==> |items| == Min(Wanted, |start| + |pool|)) &&
    (forall j :: 0 <= j < |answers| ==> items[|start| + j] == FallbackItem(answers[j], options[j])) &&
    multiset(answers) <= multiset(pool) &&
    (forall j :: 0 <= j < |options| ==> MainOptions(answers[j], options[j], pool))
  }

  /** The others of a distinct list are distinct. */
  lemma {:induction false} OthersDistinct(pool: seq<string>, correct: string)
    requires Distinct(pool)
    ensures Distinct(Others(pool, correct))
  {
    if pool != [] {
      assert Distinct(pool[1..]) by {
        forall i, j | 0 <= i < j < |pool[1..]| ensures pool[1..][i] != pool[1..][j] {
          assert pool[1..][i] == pool[i + 1] && pool[1..][j] == pool[j + 1];
        }
      }
      OthersDistinct(pool[1..], correct);
      var rest := Others(pool[1..], correct);
      if pool[0] != correct {
        assert pool[0] !in pool[1..];
        assert pool[0] !in rest;
        var r := [pool[0]] + rest;
        assert forall j :: 0 < j < |r| ==> r[j] == rest[j - 1];
      }
    }
  }

  /** A list with the same entries as a distinct list is distinct. */
  lemma DistinctPermutation<T>(xs: seq<T>, ys: seq<T>)
    requires multiset(xs) == multiset(ys) && Distinct(xs)
    ensures Distinct(ys)
  {
    DistinctCounts(xs);
    DistinctCounts(ys);
  }

  /** `opts = [correct] + distractors[:3]` has four entries exactly when three others exist; a short pool never has them. */
  lemma OptionsLength(pool: seq<string>, correct: string, distractors: seq<string>)
    requires correct in pool
    requires multiset(distractors) == multiset(Others(pool, correct))
    ensures |pool| < 4 ==> |[correct] + Prefix(distractors, 3)| < 4
    ensures Distinct(pool) && |pool| >= 4 ==> |[correct] + Prefix(distractors, 3)| == 4
  {
    assert |distractors| == |multiset(distractors)| == |Others(pool, correct)|;
    OthersCount(pool, correct);
    assert multiset(pool)[correct] >= 1;
    if Distinct(pool) {
      DistinctCount(pool, correct);
    }
  }

  /** A question with four options satisfies `MainOptions`. */
  lemma OptionsContent(pool: seq<string>, correct: string, distractors: seq<string>, mixed: seq<string>)
    requires correct in pool
    requires multiset(distractors) == multiset(Others(pool, correct))
    requires |[correct] + Prefix(distractors, 3)| == 4
    requires multiset(mixed) == multiset([correct] + Prefix(distractors, 3))
    ensures MainOptions(correct, mixed, pool)
  {
    var picked := Prefix(distractors, 3);
    var opts := [correct] + picked;
    SameMembers(distractors, Others(pool, correct));
    SameMembers(mixed, opts);
    assert |mixed| == |multiset(mixed)| == |opts|;
    assert opts[0] == correct;
    forall x | x in picked ensures x in distractors {
      var i :| 0 <= i < |picked| && picked[i] == x;
      assert distractors[i] == x;
    }
    if Distinct(pool) {
      OthersDistinct(pool, correct);
      DistinctPermutation(Others(pool, correct), distractors);
      assert correct !in picked;
      assert forall j :: 0 < j < |opts| ==> opts[j] == distractors[j - 1];
      assert Distinct(opts);
      DistinctPermutation(opts, mixed);
    }
  }

  /**
   * The options for the answer `correct`: the other entries, shuffled; the
   * answer and the first three of them, shuffled; `None` (the entry is
   * skipped) when that makes fewer than four.
   */
  method Question(pool: seq<string>, correct: string) returns (opts: Option<seq<string>>)
    requires correct in pool
    ensures |pool| < 4 ==> opts.None?
    ensures Distinct(pool) && |pool| >= 4 ==> opts.Some?
    ensures opts.Some? ==> MainOptions(correct, opts.value, pool)
  {
    var distractors := Shuffle(Others(pool, correct));
    var picked := [correct] + Prefix(distractors, 3);
    OptionsLength(pool, correct, distractors);
    if |picked| < 4 {
      return None;
    }
    var mixed := Shuffle(picked);
    OptionsContent(pool, correct, distractors, mixed);
    return Some(mixed);
  }

  /**
   * The state of the question loop after the first `i` entries of the
   * shuffled pool: the items added so far, their answers (the entries not
   * skipped, in order) and options.
   */
  predicate Progress(start: seq<Json>, pool: seq<string>, shuffled: seq<string>, i: nat,
                     items: seq<Json>, answers: seq<string>, options: seq<seq<string>>) {
    i <= |shuffled| &&
    start <= items && |items| == |start| + |answers| && |answers| == |options| &&
    (items == start || |items| <= Wanted) &&
    multiset(answers) <= multiset(shuffled[..i]) &&
    (|pool| < 4 ==> answers == []) &&
    (Distinct(pool) && |pool| >= 4 ==> answers == shuffled[..i]) &&
    (forall j :: 0 <= j < |answers| ==> items[|start| + j] == FallbackItem(answers[j], options[j])) &&
    (forall j :: 0 <= j < |options| ==> MainOptions(answers[j], options[j], pool))
  }

  /** Before the loop nothing is added. */
  lemma ProgressStart(start: seq<Json>, pool: seq<string>, shuffled: seq<string>)
    ensures Progress(start, pool, shuffled, 0, start, [], [])
  {
    assert shuffled[..0] == [];
  }

  /** An entry skipped for want of options leaves the items as they were. */
  lemma ProgressSkip(start: seq<Json>, pool: seq<string>, shuffled: seq<string>, i: nat,
                     items: seq<Json>, answers: seq<string>, options: seq<seq<string>>)
    requires multiset(shuffled) == multiset(pool)
    requires Progress(start, pool, shuffled, i, items, answers, options) && i < |shuffled|
    requires !(Distinct(shuffled) && |shuffled| >= 4)
    ensures Progress(start, pool, shuffled, i + 1, items, answers, options)
  {
    PrefixSnoc(shuffled, i);
    assert |shuffled| == |multiset(shuffled)| == |pool|;
    if Distinct(pool) {
      DistinctPermutation(pool, shuffled);
    }
  }

  /** An entry with four options adds its item. */
  lemma ProgressAdd(start: seq<Json>, pool: seq<string>, shuffled: seq<string>, i: nat,
                    items: seq<Json>, answers: seq<string>, options: seq<seq<string>>, opts: seq<string>)
    requires multiset(shuffled) == multiset(pool)
    requires Progress(start, pool, shuffled, i, items, answers, options) && i < |shuffled| && |items| < Wanted
    requires |shuffled| >= 4 && MainOptions(shuffled[i], opts, shuffled)
    ensures Progress(start, pool, shuffled, i + 1, items + [FallbackItem(shuffled[i], opts)],
                     answers + [shuffled[i]], options + [opts])
  {
    PrefixSnoc(shuffled, i);
    assert |shuffled| == |multiset(shuffled)| == |pool|;
    MainOptionsOfShuffled(shuffled[i], opts, shuffled, pool);
  }

  /** When the loop stops, the items are as `Synthesized` says. */
  lemma ProgressDone(start: seq<Json>, pool: seq<string>, shuffled: seq<string>, i: nat,
                     items: seq<Json>, answers: seq<string>, options: seq<seq<string>>)
    requires multiset(shuffled) == multiset(pool)
    requires Progress(start, pool, shuffled, i, items, answers, options)
    requires |items| >= Wanted || i == |shuffled|
    ensures Synthesized(start, pool, items, answers, options)
  {
    assert |shuffled| == |multiset(shuffled)| == |pool|;
    PrefixMultiset(shuffled, i);
    assert shuffled[..|shuffled|] == shuffled;
  }

  /**
   * The question loop: shuffle the pool; for each entry in turn, while the
   * list has fewer than ten items, take the other entries, shuffled, and the
   * first three of them with the entry as options; skip the entry when that
   * makes fewer than four options, else shuffle them and append the item.
   */
  method AppendQuestions(start: seq<Json>, pool: seq<string>)
    returns (items: seq<Json>, ghost answers: seq<string>, ghost options: seq<seq<string>>)
    ensures Synthesized(start, pool, items, answers, options)
  {
    var shuffled := Shuffle(pool);
    items := start;
    answers := [];
    options := [];
    var i := 0;
    ProgressStart(start, pool, shuffled);
    while |items| < Wanted && i < |shuffled|
      invariant Progress(start, pool, shuffled, i, items, answers, options)
      decreases |shuffled| - i
    {
      items, answers, options := Consider(start, pool, shuffled, i, items, answers, options);
      i := i + 1;
    }
    ProgressDone(start, pool, shuffled, i, items, answers, options);
  }

  /**
   * One turn of the question loop on entry `i` of the shuffled pool: the
   * entry's item is appended when it gets four options, else it is skipped.
   */
  method Consider(start: seq<Json>, pool: seq<string>, shuffled: seq<string>, i: nat,
                  items: seq<Json>, ghost answers: seq<string>, ghost options: seq<seq<string>>)
    returns (items': seq<Json>, ghost answers': seq<string>, ghost options': seq<seq<string>>)
    requires multiset(shuffled) == multiset(pool)
    requires Progress(start, pool, shuffled, i, items, answers, options) && i < |shuffled| && |items| < Wanted
    ensures Progress(start, pool, shuffled, i + 1, items', answers', options')
  {
    var correct := shuffled[i];
    var opts := Question(shuffled, correct);
    if opts.None? {
      ProgressSkip(start, pool, shuffled, i, items, answers, options);
      return items, answers, options;
    }
    ProgressAdd(start, pool, shuffled, i, items, answers, options, opts.value);
    items' := items + [FallbackItem(correct, opts.value)];
    answers' := answers + [correct];
    options' := options + [opts.value];
  }

  /** Options drawn from a shuffle of the pool are options from the pool. */
  lemma MainOptionsOfShuffled(answer: string, opts: seq<string>, shuffled: seq<string>, pool: seq<string>)
    requires multiset(shuffled) == multiset(pool)
    requires MainOptions(answer, opts, shuffled)
    ensures MainOptions(answer, opts, pool)
  {
    SameMembers(shuffled, pool);
    if Distinct(pool) {
      DistinctPermutation(pool, shuffled);
    }
  }

  /**
   * The synthesis block of `/generate_quiz`: a list of ten or more, or a
   * pool that raises, leaves the (list-coerced) items as they were;
   * otherwise the questions are added from the pool as `Synthesized` says.
   */
  method SynthesizeFallback(quizItems: Json, analysis: Json, related: seq<Json>)
    returns (items: seq<Json>, ghost answers: seq<string>, ghost options: seq<seq<string>>)
    ensures |StartItems(quizItems)| >= Wanted || Pool(analysis, related).None? ==> items == StartItems(quizItems)
    ensures |StartItems(quizItems)| < Wanted && Pool(analysis, related).Some? ==>
      Synthesized(StartItems(quizItems), Pool(analysis, related).value, items, answers, options)
  {
    items := StartItems(quizItems);
    answers := [];
    options := [];
    if |items| < Wanted {
      var pool := BuildPool(analysis, related);
      if pool.Some? {
        items, answers, options := AppendQuestions(items, pool.value);
      }
    }
  }
}
