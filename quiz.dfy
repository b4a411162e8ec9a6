/**
 * The three model-backed entry points of backend/app/llm.py: the article
 * gate they share, one call through the retry loop, a parse of the reply
 * with at most one repair call, the completion rounds and fallback of
 * `generate_quiz`, and the related-topics call that has no repair.
 *
 * A model call is the next reply of a `Script` (see module Retry); every
 * operation returns where the script stands afterwards and the sleeps it
 * took, so the number of calls is part of what is proved. Prompts are not
 * modelled: the script stands for whatever the model answers.
 */
module Quiz {
  import opened Wrappers
  import opened Text
  import opened Json
  import opened Recovery
  import opened Retry
  import opened Items

  /** What the repair call of `_repair_with_model` and the parse after it can fail with. */
  datatype RepairError =
    | RepairRaised(message: string)     // the model call raised
    | NoRepairReply                     // the call returned empty content
    | RepairUnparsed(error: ParseError) // the repaired text still does not parse

  /** The `ValueError`s (and propagated call errors) of the entry points. */
  datatype Failure =
    | EmptyArticle
    | TooShort(length: nat)
    | CallFailed(outcome: CallOutcome)
    | EmptyReply
    | RepairFailed(original: ParseError, repair: RepairError)
    | Unparsed(error: ParseError)
    | NotAList

  /** A result, the sleeps taken on the way, and the index of the next model call. */
  datatype Run<+T> = Run(result: Result<T, Failure>, sleeps: seq<real>, next: nat)

  /** The decoder the entry points apply to a reply. */
  type Reader = string -> Outcome

  /** `_safe_json_parse` of llm.py, the variant that tries the cleaned text first. */
  function LlmReader(loads: Loader): Reader {
    raw => Recover(raw, true, loads)
  }

  /** The earlier sleeps in front of a later run. */
  function Prepend<T>(sleeps: seq<real>, r: Run<T>): Run<T> {
    Run(r.result, sleeps + r.sleeps, r.next)
  }

  // ---------------------------------------------------------------------
  // The article gate and the first call
  // ---------------------------------------------------------------------

  /** The longest article prefix that is sent to the model. */
  const MaxArticle := 8000

  /** The fewest characters the sent text may have. */
  const MinArticle := 100

  /**
   * The checks all three entry points make before any call: a blank article
   * is refused, and so is one whose first 8000 characters, stripped, are
   * fewer than 100. Otherwise the text to send.
   */
  function Gate(article: string): Result<string, Failure> {
    if AllSpace(article) then Err(EmptyArticle)
    else
      var t := Strip(Prefix(article, MaxArticle));
      if |t| < MinArticle then Err(TooShort(|t|)) else Ok(t)
  }

  /**
   * Only a blank article is refused as empty; a text that passes is a
   * stripped piece of the article's first 8000 characters, 100 to 8000 long;
   * a refusal as too short names a length under 100.
   */
  lemma GateSpec(article: string)
    ensures Gate(article) == Err(EmptyArticle) <==> AllSpace(article)
    ensures Gate(article).Err? && Gate(article).error.TooShort? ==> Gate(article).error.length < MinArticle
    ensures Gate(article).Ok? ==>
      var t := Gate(article).value;
      MinArticle <= |t| <= MaxArticle && Stripped(t) &&
      OccursAt(article, t, LeadingSpace(Prefix(article, MaxArticle)))
  {
    if Gate(article).Ok? {
      var s := Prefix(article, MaxArticle);
      var t := Strip(s);
      StripIsInfix(s);
      var i := LeadingSpace(s);
      assert t == s[i..i + |t|];
      assert article[i..i + |t|] == t;
      assert OccursAt(article, t, i);
    }
  }

  /**
   * The gate, then one call through `_invoke_chain_with_retries` with three
   * attempts under the retry policy `p` (the source's is `Backoff`); an error
   * it raises fails the run, and so does empty content.
   */
  function Prepared(p: Policy, article: string, script: Script, cursor: nat): Run<string> {
    match Gate(article)
    case Err(e) => Run(Err(e), [], cursor)
    case Ok(_) =>
      var call := Attempts(p, script, cursor, 0, MaxRetries, None);
      if !call.outcome.Returned? then Run(Err(CallFailed(call.outcome)), call.sleeps, call.next)
      else if call.outcome.text == [] then Run(Err(EmptyReply), call.sleeps, call.next)
      else Run(Ok(call.outcome.text), call.sleeps, call.next)
  }

  /**
   * A refused article makes no call; an accepted one makes one to three,
   * sleeping between 0 and 120 seconds after each retried failure under a
   * bounded policy such as the source's, and a success is the non-empty
   * content of the last call.
   */
  lemma PreparedSpec(p: Policy, article: string, script: Script, cursor: nat)
    ensures var r := Prepared(p, article, script, cursor);
      (Gate(article).Err? ==> r == Run(Err(Gate(article).error), [], cursor)) &&
      (Gate(article).Ok? ==> cursor < r.next <= cursor + MaxRetries) &&
      (BoundedWaits(p) ==> SleepsInRange(r.sleeps)) &&
      (r.result.Ok? ==> r.result.value != [] && script(r.next - 1) == Content(r.result.value)) &&
      (r.result.Err? && r.result.error.CallFailed? ==> !r.result.error.outcome.NothingToRaise?)
  {
    if Gate(article).Ok? {
      var call := Attempts(p, script, cursor, 0, MaxRetries, None);
      AttemptsEnd(p, script, cursor, 0, MaxRetries, None, call);
      if BoundedWaits(p) {
        AttemptsSleepsBounded(p, script, cursor, MaxRetries, call);
      }
    }
  }

  // ---------------------------------------------------------------------
  // Parsing with one repair
  // ---------------------------------------------------------------------

  /** `_repair_with_model`: one call, without retries; its content must be non-empty. */
  function RepairReply(script: Script, cursor: nat): Result<string, RepairError> {
    match script(cursor)
    case Raised(m) => Err(RepairRaised(m))
    case Content(t) => if t == [] then Err(NoRepairReply) else Ok(t)
  }

  /**
   * The `try`/`except` of `analyze_article` and `generate_quiz`: parse the
   * reply; when that fails, ask once for a repair and parse the repaired text.
   */
  function ParseWithRepair(content: string, script: Script, cursor: nat, read: Reader): Run<Json> {
    match read(content)
    case Parsed(v) => Run(Ok(v), [], cursor)
    case Failed(e) =>
      match RepairReply(script, cursor)
      case Err(re) => Run(Err(RepairFailed(e, re)), [], cursor + 1)
      case Ok(t) =>
        match read(t)
        case Parsed(v) => Run(Ok(v), [], cursor + 1)
        case Failed(e2) => Run(Err(RepairFailed(e, RepairUnparsed(e2))), [], cursor + 1)
  }

  /**
   * A reply that parses costs no further call; one that does not costs
   * exactly one repair call, never more, and the run then succeeds exactly
   * when that call returns content that parses; a failure keeps the original
   * parse error beside the repair's.
   */
  lemma RepairAtMostOnce(content: string, script: Script, cursor: nat, read: Reader)
    ensures var r := ParseWithRepair(content, script, cursor, read);
      r.sleeps == [] &&
      (read(content).Parsed? ==> r.next == cursor && r.result == Ok(read(content).value)) &&
      (read(content).Failed? ==>
        r.next == cursor + 1 &&
        (r.result.Ok? <==> script(cursor).Content? && script(cursor).text != [] && read(script(cursor).text).Parsed?) &&
        (r.result.Ok? ==> r.result.value == read(script(cursor).text).value) &&
        (r.result.Err? ==> r.result.error == RepairFailed(read(content).error, r.result.error.repair)))
  {
  }

  // ---------------------------------------------------------------------
  // analyze_article and generate_related_topics
  // ---------------------------------------------------------------------

  /**
   * `analyze_article`: the gate, the call, and the parse with one repair;
   * the source decodes with `LlmReader`.
   */
  function AnalyzeArticle(p: Policy, article: string, script: Script, cursor: nat, read: Reader): Run<Json> {
    var p := Prepared(p, article, script, cursor);
    match p.result
    case Err(e) => Run(Err(e), p.sleeps, p.next)
    case Ok(content) => Prepend(p.sleeps, ParseWithRepair(content, script, p.next, read))
  }

  /** The analysis makes no call for a refused article and at most four calls otherwise. */
  lemma AnalyzeCalls(p: Policy, article: string, script: Script, cursor: nat, read: Reader)
    ensures var r := AnalyzeArticle(p, article, script, cursor, read);
      (Gate(article).Err? ==> r == Run(Err(Gate(article).error), [], cursor)) &&
      r.next <= cursor + MaxRetries + 1
  {
    PreparedSpec(p, article, script, cursor);
    var p := Prepared(p, article, script, cursor);
    if p.result.Ok? {
      RepairAtMostOnce(p.result.value, script, p.next, read);
    }
  }

  /** An accepted article whose first reply parses is analysed with that one call and no repair. */
  lemma AnalyzeFirstParses(p: Policy, article: string, script: Script, cursor: nat, read: Reader, t: string)
    requires Gate(article).Ok? && script(cursor) == Content(t) && t != [] && read(t).Parsed?
    ensures AnalyzeArticle(p, article, script, cursor, read) == Run(Ok(read(t).value), [], cursor + 1)
  {
    assert Attempts(p, script, cursor, 0, MaxRetries, None) == Invocation(Returned(t), [], cursor + 1);
  }

  /** A reply that cleans to a JSON document is decoded by the llm.py reader at the first try. */
  lemma LlmReaderDirect(t: string, loads: Loader)
    requires Clean(t) != [] && loads(Clean(t)).Some?
    ensures t != [] && LlmReader(loads)(t) == Parsed(loads(Clean(t)).value)
  {
    assert Unfence([]) == [];
    DirectParseFirst(t, loads);
  }

  /**
   * With the llm.py reader: an accepted article whose first reply cleans to a
   * JSON document is analysed with that one call.
   */
  lemma AnalyzeCleanReply(p: Policy, article: string, script: Script, cursor: nat, loads: Loader, t: string)
    requires Gate(article).Ok? && script(cursor) == Content(t)
    requires Clean(t) != [] && loads(Clean(t)).Some?
    ensures AnalyzeArticle(p, article, script, cursor, LlmReader(loads)) == Run(Ok(loads(Clean(t)).value), [], cursor + 1)
  {
    LlmReaderDirect(t, loads);
    AnalyzeFirstParses(p, article, script, cursor, LlmReader(loads), t);
  }

  /** `generate_related_topics`: the gate, the call and a parse that must give a list; no repair. */
  function GenerateRelatedTopics(p: Policy, article: string, script: Script, cursor: nat, read: Reader): Run<seq<Json>> {
    var p := Prepared(p, article, script, cursor);
    match p.result
    case Err(e) => Run(Err(e), p.sleeps, p.next)
    case Ok(content) =>
      match read(content)
      case Failed(e) => Run(Err(Unparsed(e)), p.sleeps, p.next)
      case Parsed(v) =>
        if v.JArr? then Run(Ok(v.items), p.sleeps, p.next) else Run(Err(NotAList), p.sleeps, p.next)
  }

  /**
   * Related topics never ask for a repair: the calls are exactly those of the
   * first call, and a result is the list the reply itself decodes to.
   */
  lemma RelatedNoRepair(p: Policy, article: string, script: Script, cursor: nat, read: Reader)
    ensures var r := GenerateRelatedTopics(p, article, script, cursor, read);
      var p := Prepared(p, article, script, cursor);
      r.next == p.next && r.sleeps == p.sleeps &&
      (r.result.Ok? ==> p.result.Ok? && read(p.result.value) == Parsed(JArr(r.result.value))) &&
      (p.result.Ok? && read(p.result.value).Failed? ==> r.result == Err(Unparsed(read(p.result.value).error)))
  {
  }

  // ---------------------------------------------------------------------
  // generate_quiz: the first draft and the completion rounds
  // ---------------------------------------------------------------------

  /** The question list `generate_quiz` aims for. */
  const Wanted := 10

  /** The most completion rounds. */
  const MaxRounds := 3

  /**
   * The gate, the call, the parse with one repair, and the check that the
   * result is a list.
   */
  function FirstDraft(p: Policy, article: string, script: Script, cursor: nat, read: Reader): Run<seq<Json>> {
    var p := Prepared(p, article, script, cursor);
    match p.result
    case Err(e) => Run(Err(e), p.sleeps, p.next)
    case Ok(content) =>
      var d := ParseWithRepair(content, script, p.next, read);
      match d.result
      case Err(e) => Run(Err(e), p.sleeps, d.next)
      case Ok(v) => Run(if v.JArr? then Ok(v.items) else Err(NotAList), p.sleeps, d.next)
  }

  /**
   * `{q.get("question", ""): True for q in data}`: the keys of the questions
   * already in the list, or nothing when an entry is not a dict or its
   * question is unhashable (the comprehension raises).
   */
  function ExistingKeys(data: seq<Json>): Option<set<Key>> {
    if data == [] then Some({})
    else if !data[0].JObj? then None
    else
      match ExistingKey(data[0].fields)
      case None => None
      case Some(k) =>
        match ExistingKeys(data[1..])
        case None => None
        case Some(ks) => Some({k} + ks)
  }

  /**
   * The keys exist exactly when every entry is a dict with a hashable
   * question, and they are then exactly those entries' keys.
   */
  lemma {:induction false} ExistingKeysSpec(data: seq<Json>)
    ensures ExistingKeys(data).Some? <==> forall i :: 0 <= i < |data| ==> data[i].JObj? && ExistingKey(data[i].fields).Some?
    ensures ExistingKeys(data).Some? ==>
      forall k :: k in ExistingKeys(data).value <==> exists i :: 0 <= i < |data| && ExistingKey(data[i].fields) == Some(k)
  {
    if data != [] {
      ExistingKeysSpec(data[1..]);
      assert forall i :: 1 <= i < |data| ==> data[i] == data[1..][i - 1];
      if ExistingKeys(data).Some? {
        var ks := ExistingKeys(data[1..]).value;
        forall k ensures k in ExistingKeys(data).value <==> exists i :: 0 <= i < |data| && ExistingKey(data[i].fields) == Some(k) {
          if k in ks {
            var i :| 0 <= i < |data[1..]| && ExistingKey(data[1..][i].fields) == Some(k);
            assert ExistingKey(data[i + 1].fields) == Some(k);
          }
        }
      }
    }
  }

  /**
   * The `for q in more` loop of one round: entries that are not dicts are
   * skipped, so is a question whose key was seen, and any other is appended
   * and its key recorded. The flag says the loop raised part-way (an
   * unhashable question), after appending what precedes it.
   */
  function Merge(seen: set<Key>, more: seq<Json>): (seq<Json>, bool)
    decreases |more|
  {
    if more == [] then ([], false)
    else
      var q := more[0];
      if !q.JObj? then Merge(seen, more[1..])
      else
        match NewKey(q.fields)
        case None => ([], true)
        case Some(k) =>
          if k in seen then Merge(seen, more[1..])
          else
            var rest := Merge(seen + {k}, more[1..]);
            ([q] + rest.0, rest.1)
  }

  /**
   * `added` holds dicts from `more` whose questions are hashable, were not in
   * `seen`, and are pairwise different.
   */
  predicate FreshQuestions(seen: set<Key>, more: seq<Json>, added: seq<Json>) {
    (forall i :: 0 <= i < |added| ==>
      added[i] in more && added[i].JObj? && NewKey(added[i].fields).Some? && NewKey(added[i].fields).value !in seen) &&
    (forall i, j :: 0 <= i < j < |added| ==> added[i].JObj? && added[j].JObj? ==> NewKey(added[i].fields) != NewKey(added[j].fields))
  }

  /** What one round appends are fresh questions from the reply. */
  lemma {:induction false} MergeFresh(seen: set<Key>, more: seq<Json>)
    ensures FreshQuestions(seen, more, Merge(seen, more).0)
    decreases |more|
  {
    if more != [] {
      var q := more[0];
      assert more == [q] + more[1..];
      if !q.JObj? || (NewKey(q.fields).Some? && NewKey(q.fields).value in seen) {
        MergeFresh(seen, more[1..]);
        var added := Merge(seen, more).0;
        assert added == Merge(seen, more[1..]).0;
        forall i | 0 <= i < |added| ensures added[i] in more {
          assert added[i] in more[1..];
        }
      } else if NewKey(q.fields).Some? {
        var k := NewKey(q.fields).value;
        MergeFresh(seen + {k}, more[1..]);
        var rest := Merge(seen + {k}, more[1..]).0;
        assert FreshQuestions(seen + {k}, more[1..], rest);
        var added := [q] + rest;
        assert Merge(seen, more).0 == added;
        forall i | 1 <= i < |added|
          ensures added[i] == rest[i - 1] && added[i] in more && added[i].JObj? && NewKey(added[i].fields).Some?
          ensures NewKey(added[i].fields).value !in seen + {k}
        {
          assert rest[i - 1] in more[1..];
        }
      }
    }
  }

  /**
   * A round that does not raise leaves out no new question: every dict of the
   * reply has a hashable question that was seen or is appended.
   */
  lemma {:induction false} MergeComplete(seen: set<Key>, more: seq<Json>)
    ensures var (added, raised) := Merge(seen, more);
      !raised ==> forall q :: q in more && q.JObj? ==>
        NewKey(q.fields).Some? &&
        (NewKey(q.fields).value in seen || exists i :: 0 <= i < |added| && added[i].JObj? && NewKey(added[i].fields) == NewKey(q.fields))
    decreases |more|
  {
    if more != [] {
      var q := more[0];
      assert more == [q] + more[1..];
      if !q.JObj? {
        MergeComplete(seen, more[1..]);
      } else if NewKey(q.fields).Some? {
        var k := NewKey(q.fields).value;
        if k in seen {
          MergeComplete(seen, more[1..]);
        } else {
          MergeComplete(seen + {k}, more[1..]);
          var rest := Merge(seen + {k}, more[1..]);
          var added := [q] + rest.0;
          assert Merge(seen, more) == (added, rest.1);
          if !rest.1 {
            forall x | x in more && x.JObj?
              ensures NewKey(x.fields).Some? &&
                (NewKey(x.fields).value in seen || exists i :: 0 <= i < |added| && added[i].JObj? && NewKey(added[i].fields) == NewKey(x.fields))
            {
              if x != q && NewKey(x.fields).value != k && NewKey(x.fields).value !in seen {
                assert x in more[1..];
                var i :| 0 <= i < |rest.0| && rest.0[i].JObj? && NewKey(rest.0[i].fields) == NewKey(x.fields);
                assert added[i + 1] == rest.0[i];
              } else {
                assert NewKey(x.fields).value in seen || NewKey(added[0].fields) == NewKey(x.fields);
              }
            }
          }
        }
      }
    }
  }

  /** A round raises only on a dict whose question is unhashable. */
  lemma {:induction false} MergeRaises(seen: set<Key>, more: seq<Json>)
    ensures Merge(seen, more).1 ==> exists q :: q in more && q.JObj? && NewKey(q.fields).None?
    decreases |more|
  {
    if more != [] {
      var q := more[0];
      assert more == [q] + more[1..];
      if !q.JObj? || (NewKey(q.fields).Some? && NewKey(q.fields).value in seen) {
        MergeRaises(seen, more[1..]);
      } else if NewKey(q.fields).Some? {
        MergeRaises(seen + {NewKey(q.fields).value}, more[1..]);
      }
    }
  }

  /** How one round of the completion loop ends: the loop stops with a run, or goes on with a new list. */
  datatype RoundEnd =
    | Done(run: Run<seq<Json>>)
    | Again(data: seq<Json>, sleeps: seq<real>, next: nat)

  /**
   * One round of the completion loop, with `data` the list so far: a call
   * error propagates; empty content, a reply that does not parse (there is
   * no repair here), a list whose entries cannot be keyed, or a raise while
   * merging ends the loop; a reply that is not a list is ignored.
   */
  function Round(p: Policy, data: seq<Json>, script: Script, cursor: nat, read: Reader): RoundEnd {
    var call := Attempts(p, script, cursor, 0, MaxRetries, None);
    if !call.outcome.Returned? then Done(Run(Err(CallFailed(call.outcome)), call.sleeps, call.next))
    else if call.outcome.text == [] then Done(Run(Ok(data), call.sleeps, call.next))
    else
      match read(call.outcome.text)
      case Failed(_) => Done(Run(Ok(data), call.sleeps, call.next))
      case Parsed(v) =>
        if !v.JArr? then Again(data, call.sleeps, call.next)
        else
          match ExistingKeys(data)
          case None => Done(Run(Ok(data), call.sleeps, call.next))
          case Some(seen) =>
            var (added, raised) := Merge(seen, v.items);
            if raised then Done(Run(Ok(data + added), call.sleeps, call.next)) else Again(data + added, call.sleeps, call.next)
  }

  /**
   * The completion loop from round `attempts` on: while fewer than ten
   * questions and fewer than three rounds, run a round. The source retries
   * each call under `Backoff`.
   */
  function Rounds(p: Policy, data: seq<Json>, attempts: nat, script: Script, cursor: nat, read: Reader): Run<seq<Json>>
    requires attempts <= MaxRounds
    decreases MaxRounds - attempts
  {
    if |data| >= Wanted || attempts == MaxRounds then Run(Ok(data), [], cursor)
    else
      match Round(p, data, script, cursor, read)
      case Done(r) => r
      case Again(more, sleeps, next) => Prepend(sleeps, Rounds(p, more, attempts + 1, script, next, read))
  }

  /** `more` keeps `data` as its prefix and adds only dicts with a hashable question. */
  predicate AppendsQuestions(data: seq<Json>, more: seq<Json>) {
    data <= more && forall j :: |data| <= j < |more| ==> more[j].JObj? && NewKey(more[j].fields).Some?
  }

  /** No sleep is negative or longer than 120 seconds. */
  predicate SleepsInRange(sleeps: seq<real>) {
    forall j :: 0 <= j < |sleeps| ==> 0.0 <= sleeps[j] <= 120.0
  }

  lemma AppendsTransitive(a: seq<Json>, b: seq<Json>, c: seq<Json>)
    requires AppendsQuestions(a, b) && AppendsQuestions(b, c)
    ensures AppendsQuestions(a, c)
  {
  }

  lemma SleepsConcat(a: seq<real>, b: seq<real>)
    requires SleepsInRange(a) && SleepsInRange(b)
    ensures SleepsInRange(a + b)
  {
    forall j | 0 <= j < |a + b| ensures 0.0 <= (a + b)[j] <= 120.0 {
      if j >= |a| {
        assert (a + b)[j] == b[j - |a|];
      }
    }
  }

  /** One merge appends dicts with a hashable question. */
  lemma MergeAppends(data: seq<Json>, seen: set<Key>, more: seq<Json>)
    ensures AppendsQuestions(data, data + Merge(seen, more).0)
  {
    var added := Merge(seen, more).0;
    MergeFresh(seen, more);
    forall j | |data| <= j < |data + added|
      ensures (data + added)[j].JObj? && NewKey((data + added)[j].fields).Some?
    {
      assert (data + added)[j] == added[j - |data|];
    }
  }

  /**
   * One round makes one to three calls, sleeps within bounds under a bounded
   * policy, fails only when its call fails, and otherwise only appends dicts
   * with a hashable question.
   */
  lemma RoundSpec(p: Policy, data: seq<Json>, script: Script, cursor: nat, read: Reader)
    ensures var e := Round(p, data, script, cursor, read);
      (e.Done? ==> (cursor < e.run.next <= cursor + MaxRetries && (BoundedWaits(p) ==> SleepsInRange(e.run.sleeps)) &&
        (e.run.result.Err? ==> e.run.result.error.CallFailed?) &&
        (e.run.result.Ok? ==> AppendsQuestions(data, e.run.result.value)))) &&
      (e.Again? ==> (cursor < e.next <= cursor + MaxRetries && (BoundedWaits(p) ==> SleepsInRange(e.sleeps)) &&
        AppendsQuestions(data, e.data)))
  {
    var call := Attempts(p, script, cursor, 0, MaxRetries, None);
    AttemptsEnd(p, script, cursor, 0, MaxRetries, None, call);
    if BoundedWaits(p) {
      AttemptsSleepsBounded(p, script, cursor, MaxRetries, call);
    }
    if call.outcome.Returned? && call.outcome.text != [] && read(call.outcome.text).Parsed? {
      var v := read(call.outcome.text).value;
      if v.JArr? && ExistingKeys(data).Some? {
        MergeAppends(data, ExistingKeys(data).value, v.items);
      }
    }
  }

  /**
   * The rounds make at most three calls per round, and none once the list
   * has ten questions.
   */
  lemma {:induction false} RoundsCalls(p: Policy, data: seq<Json>, attempts: nat, script: Script, cursor: nat, read: Reader)
    requires attempts <= MaxRounds
    ensures var r := Rounds(p, data, attempts, script, cursor, read);
      cursor <= r.next <= cursor + MaxRetries * (MaxRounds - attempts) &&
      (|data| >= Wanted ==> r == Run(Ok(data), [], cursor))
    decreases MaxRounds - attempts
  {
    if |data| < Wanted && attempts < MaxRounds {
      RoundSpec(p, data, script, cursor, read);
      var e := Round(p, data, script, cursor, read);
      if e.Again? {
        RoundsCalls(p, e.data, attempts + 1, script, e.next, read);
      }
    }
  }

  /** Under a bounded policy, such as the source's, no sleep of the rounds is negative or over 120 seconds. */
  lemma {:induction false} RoundsSleeps(p: Policy, data: seq<Json>, attempts: nat, script: Script, cursor: nat, read: Reader)
    requires attempts <= MaxRounds && BoundedWaits(p)
    ensures SleepsInRange(Rounds(p, data, attempts, script, cursor, read).sleeps)
    decreases MaxRounds - attempts
  {
    if |data| < Wanted && attempts < MaxRounds {
      RoundSpec(p, data, script, cursor, read);
      var e := Round(p, data, script, cursor, read);
      if e.Again? {
        RoundsSleeps(p, e.data, attempts + 1, script, e.next, read);
        SleepsConcat(e.sleeps, Rounds(p, e.data, attempts + 1, script, e.next, read).sleeps);
      }
    }
  }

  /**
   * The rounds fail only when a call fails, and otherwise keep the list as a
   * prefix and append only dicts with a hashable question.
   */
  lemma {:induction false} RoundsAppend(p: Policy, data: seq<Json>, attempts: nat, script: Script, cursor: nat, read: Reader)
    requires attempts <= MaxRounds
    ensures var r := Rounds(p, data, attempts, script, cursor, read);
      (r.result.Err? ==> r.result.error.CallFailed?) &&
      (r.result.Ok? ==> AppendsQuestions(data, r.result.value))
    decreases MaxRounds - attempts
  {
    if |data| < Wanted && attempts < MaxRounds {
      RoundSpec(p, data, script, cursor, read);
      var e := Round(p, data, script, cursor, read);
      if e.Again? {
        RoundsAppend(p, e.data, attempts + 1, script, e.next, read);
        var rest := Rounds(p, e.data, attempts + 1, script, e.next, read);
        if rest.result.Ok? {
          AppendsTransitive(data, e.data, rest.result.value);
        }
      }
    }
  }

  /** A question whose key is missing and one whose key is empty are both appended in one round, although the next round counts them as one key. */
  lemma MissingAndEmptyQuestion()
    ensures var missing := JObj(map[]);
      var empty := JObj(map["question" := JStr("")]);
      Merge({}, [missing, empty]) == ([missing, empty], false) &&
      ExistingKeys([missing, empty]) == Some({KStr("")})
  {
    var missing := JObj(map[]);
    var empty := JObj(map["question" := JStr("")]);
    assert NewKey(missing.fields) == Some(KNone);
    assert NewKey(empty.fields) == Some(KStr(""));
    assert ExistingKey(missing.fields) == Some(KStr(""));
    assert [missing, empty][1..] == [empty];
    assert [empty][1..] == [];
    assert Merge({KNone}, []) == ([], false);
    assert [empty] + [] == [empty];
    assert Merge({KNone}, [empty]) == ([empty], false);
    assert {} + {KNone} == {KNone};
    assert Merge({}, [missing, empty]) == ([missing] + Merge({KNone}, [empty]).0, Merge({KNone}, [empty]).1);
    assert [missing] + [empty] == [missing, empty];
    assert ExistingKeys([]) == Some({});
    assert {KStr("")} + {} == {KStr("")};
    assert ExistingKeys([empty]) == Some({KStr("")});
  }

  /**
   * One round's merge as the source runs it: a loop over the reply that
   * appends to the list in place and records each appended key.
   */
  method MergeRound(data: seq<Json>, seen: set<Key>, more: seq<Json>) returns (out: seq<Json>, raised: bool)
    ensures out == data + Merge(seen, more).0 && raised == Merge(seen, more).1
  {
    var keys := seen;
    out := data;
    ghost var added: seq<Json> := [];
    var i := 0;
    assert more[i..] == more;
    assert [] + Merge(seen, more).0 == Merge(seen, more).0;
    while i < |more|
      invariant 0 <= i <= |more| && out == data + added
      invariant Merge(seen, more) == (added + Merge(keys, more[i..]).0, Merge(keys, more[i..]).1)
    {
      var q := more[i];
      assert more[i..] == [q] + more[i + 1..];
      if !q.JObj? {
        i := i + 1;
        continue;
      }
      var k := NewKey(q.fields);
      if k.None? {
        return out, true;
      }
      if k.value in keys {
        i := i + 1;
        continue;
      }
      assert added + ([q] + Merge(keys + {k.value}, more[i + 1..]).0) == (added + [q]) + Merge(keys + {k.value}, more[i + 1..]).0;
      out := out + [q];
      added := added + [q];
      keys := keys + {k.value};
      i := i + 1;
    }
    assert more[i..] == [];
    raised := false;
  }

  /** One turn of the completion loop, seen from the start of the loop. */
  lemma RoundsStep(p: Policy, data: seq<Json>, script: Script, cursor: nat, read: Reader,
                   sleeps: seq<real>, items: seq<Json>, attempts: nat, next: nat, e: RoundEnd)
    requires attempts < MaxRounds && |items| < Wanted && e == Round(p, items, script, next, read)
    requires Rounds(p, data, 0, script, cursor, read) == Prepend(sleeps, Rounds(p, items, attempts, script, next, read))
    ensures e.Done? ==> Rounds(p, data, 0, script, cursor, read) == Prepend(sleeps, e.run)
    ensures e.Again? ==>
      Rounds(p, data, 0, script, cursor, read) == Prepend(sleeps + e.sleeps, Rounds(p, e.data, attempts + 1, script, e.next, read))
  {
    if e.Again? {
      PrependTwice(sleeps, e.sleeps, Rounds(p, e.data, attempts + 1, script, e.next, read));
    }
  }

  lemma PrependTwice<T>(a: seq<real>, b: seq<real>, r: Run<T>)
    ensures Prepend(a, Prepend(b, r)) == Prepend(a + b, r)
  {
    assert a + (b + r.sleeps) == (a + b) + r.sleeps;
  }

  /** The body of the completion loop: one call, the parse and the merge, proved against `Round`. */
  method RunRound(p: Policy, data: seq<Json>, script: Script, cursor: nat, read: Reader) returns (e: RoundEnd)
    ensures e == Round(p, data, script, cursor, read)
  {
    var call := InvokeWithRetries(p, script, cursor, MaxRetries);
    if !call.outcome.Returned? {
      return Done(Run(Err(CallFailed(call.outcome)), call.sleeps, call.next));
    }
    if call.outcome.text == [] {
      return Done(Run(Ok(data), call.sleeps, call.next));
    }
    var parsed := read(call.outcome.text);
    if parsed.Failed? {
      return Done(Run(Ok(data), call.sleeps, call.next));
    }
    if !parsed.value.JArr? {
      return Again(data, call.sleeps, call.next);
    }
    var seen := ExistingKeys(data);
    if seen.None? {
      return Done(Run(Ok(data), call.sleeps, call.next));
    }
    var items, raised := MergeRound(data, seen.value, parsed.value.items);
    if raised {
      return Done(Run(Ok(items), call.sleeps, call.next));
    }
    e := Again(items, call.sleeps, call.next);
  }

  /**
   * The completion loop of `generate_quiz` (the `while len(data) < 10 and
   * attempts < 3` loop), proved against `Rounds`.
   */
  method CompleteQuiz(p: Policy, data: seq<Json>, script: Script, cursor: nat, read: Reader) returns (r: Run<seq<Json>>)
    ensures r == Rounds(p, data, 0, script, cursor, read)
  {
    var items := data;
    var attempts := 0;
    var next := cursor;
    var sleeps: seq<real> := [];
    while |items| < Wanted && attempts < MaxRounds
      invariant attempts <= MaxRounds
      invariant Rounds(p, data, 0, script, cursor, read) == Prepend(sleeps, Rounds(p, items, attempts, script, next, read))
      decreases MaxRounds - attempts
    {
      var e := RunRound(p, items, script, next, read);
      RoundsStep(p, data, script, cursor, read, sleeps, items, attempts, next, e);
      if e.Done? {
        return Prepend(sleeps, e.run);
      }
      sleeps := sleeps + e.sleeps;
      items := e.data;
      next := e.next;
      attempts := attempts + 1;
    }
    assert sleeps + [] == sleeps;
    r := Run(Ok(items), sleeps, next);
  }

  // ---------------------------------------------------------------------
  // generate_quiz: the fallback from the article text, and the trim
  // ---------------------------------------------------------------------

  /** `[p for p in pool if len(p) > 3]`. */
  function LongerThanThree(xs: seq<string>): (r: seq<string>)
    ensures forall x :: x in r <==> x in xs && |x| > 3
  {
    if xs == [] then []
    else (if |xs[0]| > 3 then [xs[0]] else []) + LongerThanThree(xs[1..])
  }

  /**
   * The candidate answers of the fallback in `generate_quiz`: the lines of
   * the text sent, then its stripped non-empty sentences, keeping those
   * longer than three characters; duplicates are kept.
   */
  function TextPool(text: string): seq<string> {
    LongerThanThree(Split(text, '\n') + Sentences(text))
  }

  /**
   * The options of a fallback question of `generate_quiz`, with `pool` the
   * candidate answers: the answer exactly once, every other option from the
   * pool, and as many others as the pool has entries other than the answer,
   * but at most three.
   */
  predicate LlmOptions(answer: string, opts: seq<string>, pool: multiset<string>) {
    multiset(opts)[answer] == 1 &&
    (forall o :: o in opts ==> o in pool) &&
    |opts| == 1 + Min(3, |pool| - pool[answer])
  }

  /** `opts = [correct] + distractors[:3]`, shuffled, with the distractors a shuffle of the other entries. */
  lemma LlmOptionsOf(pool: seq<string>, correct: string, distractors: seq<string>, opts: seq<string>)
    requires correct in pool
    requires multiset(distractors) == multiset(Others(pool, correct))
    requires multiset(opts) == multiset([correct] + Prefix(distractors, 3))
    ensures LlmOptions(correct, opts, multiset(pool))
  {
    SameMembers(distractors, Others(pool, correct));
    AnswerOnce(correct, distractors, opts);
    OptionsInPool(pool, correct, distractors, opts);
    OptionsCount(pool, correct, distractors, opts);
  }

  lemma OptionsInPool(pool: seq<string>, correct: string, distractors: seq<string>, opts: seq<string>)
    requires correct in pool
    requires multiset(distractors) == multiset(Others(pool, correct))
    requires multiset(opts) == multiset([correct] + Prefix(distractors, 3))
    ensures forall o :: o in opts ==> o in multiset(pool)
  {
    SameMembers(distractors, Others(pool, correct));
    SameMembers(opts, [correct] + Prefix(distractors, 3));
    forall o | o in opts ensures o in multiset(pool) {
      var picked := Prefix(distractors, 3);
      if o != correct {
        assert o in picked;
        var k :| 0 <= k < |picked| && picked[k] == o;
        assert distractors[k] == o;
      }
    }
  }

  lemma AnswerOnce(correct: string, distractors: seq<string>, opts: seq<string>)
    requires forall d :: d in distractors ==> d != correct
    requires multiset(opts) == multiset([correct] + Prefix(distractors, 3))
    ensures multiset(opts)[correct] == 1
  {
    var picked := Prefix(distractors, 3);
    forall x | x in picked ensures x in distractors {
      var i :| 0 <= i < |picked| && picked[i] == x;
      assert distractors[i] == x;
    }
    assert correct !in picked;
    assert correct !in multiset(picked);
    assert multiset([correct] + picked) == multiset([correct]) + multiset(picked);
  }

  lemma OptionsCount(pool: seq<string>, correct: string, distractors: seq<string>, opts: seq<string>)
    requires correct in pool
    requires multiset(distractors) == multiset(Others(pool, correct))
    requires multiset(opts) == multiset([correct] + Prefix(distractors, 3))
    ensures |opts| == 1 + Min(3, |multiset(pool)| - multiset(pool)[correct])
  {
    assert |opts| == |multiset(opts)| == 1 + |Prefix(distractors, 3)|;
    assert |distractors| == |multiset(distractors)| == |Others(pool, correct)|;
    OthersCount(pool, correct);
    assert |pool| == |multiset(pool)|;
  }

  /**
   * The pool is not deduplicated: a line that occurs twice can be offered
   * twice beside the answer, leaving three options with a repeat.
   */
  lemma LlmOptionsMayRepeat(answer: string, other: string, distractors: seq<string>, opts: seq<string>)
    requires answer != other
    requires multiset(distractors) == multiset(Others([answer, other, other], answer))
    requires multiset(opts) == multiset([answer] + Prefix(distractors, 3))
    ensures |opts| == 3 && !Distinct(opts)
  {
    var pool := [answer, other, other];
    assert pool[1..] == [other, other];
    assert [other, other][1..] == [other];
    assert [other][1..] == [];
    assert Others([], answer) == [];
    assert Others([other], answer) == [other];
    assert Others([other, other], answer) == [other, other];
    assert Others(pool, answer) == [other, other];
    assert |distractors| == |multiset(distractors)| == 2;
    assert Prefix(distractors, 3) == distractors;
    assert multiset(opts)[other] == 2;
    assert |opts| == |multiset(opts)| == 3;
    DistinctCounts(opts);
  }

  /**
   * The options of one fallback question: the distractors are the other pool
   * entries, shuffled; the first three of them join the answer, shuffled.
   */
  method LlmQuestion(pool: seq<string>, correct: string) returns (opts: seq<string>)
    requires correct in pool
    ensures LlmOptions(correct, opts, multiset(pool))
  {
    var distractors := Shuffle(Others(pool, correct));
    opts := Shuffle([correct] + Prefix(distractors, 3));
    LlmOptionsOf(pool, correct, distractors, opts);
  }

  /**
   * `out` is `data` followed by fallback questions, one per answer: as many
   * as the pool allows up to ten questions in all; the answers are pool
   * entries, none used more often than the pool holds it; and each
   * question's options are as `LlmOptions` says.
   */
  predicate FilledFrom(data: seq<Json>, out: seq<Json>, answers: seq<string>, options: seq<seq<string>>, candidates: seq<string>) {
    data <= out &&
    |out| == (if |data| >= Wanted then |data| else Min(Wanted, |data| + |candidates|)) &&
    |answers| == |options| == |out| - |data| &&
    (forall j :: 0 <= j < |answers| ==> out[|data| + j] == FallbackItem(answers[j], options[j])) &&
    multiset(answers) <= multiset(candidates) &&
    (forall j :: 0 <= j < |options| ==> LlmOptions(answers[j], options[j], multiset(candidates)))
  }

  /**
   * The `if len(data) < 10` fallback of `generate_quiz`, with `candidates`
   * the pool built from the text sent (`TextPool`): questions built from the
   * shuffled pool, one per entry, until the list has ten. The ghost outputs
   * are the answers and options chosen.
   */
  method LlmFallback(data: seq<Json>, candidates: seq<string>)
    returns (out: seq<Json>, ghost answers: seq<string>, ghost options: seq<seq<string>>)
    ensures FilledFrom(data, out, answers, options, candidates)
  {
    var pool := Shuffle(candidates);
    assert |pool| == |multiset(pool)| == |candidates|;
    out := data;
    answers := [];
    options := [];
    var i := 0;
    while |out| < Wanted && i < |pool|
      invariant 0 <= i <= |pool| && |out| == |data| + i && data <= out
      invariant i == 0 || |out| <= Wanted
      invariant answers == pool[..i] && |options| == i
      invariant forall j :: 0 <= j < i ==> out[|data| + j] == FallbackItem(answers[j], options[j])
      invariant forall j :: 0 <= j < i ==> LlmOptions(answers[j], options[j], multiset(pool))
    {
      var correct := pool[i];
      var opts := LlmQuestion(pool, correct);
      PrefixSnoc(pool, i);
      out := out + [FallbackItem(correct, opts)];
      answers := answers + [correct];
      options := options + [opts];
      i := i + 1;
    }
    PrefixMultiset(pool, i);
  }

  /** The draft of `generate_quiz` before its fallback: the first list, completed by the rounds. */
  function Drafted(p: Policy, article: string, script: Script, cursor: nat, read: Reader): Run<seq<Json>> {
    var f := FirstDraft(p, article, script, cursor, read);
    match f.result
    case Err(_) => f
    case Ok(data) => Prepend(f.sleeps, Rounds(p, data, 0, script, f.next, read))
  }

  /**
   * `generate_quiz` makes no call for a refused article and at most thirteen
   * otherwise: one to three for the first list, one repair, and one to three
   * in each of three rounds.
   */
  lemma QuizCalls(p: Policy, article: string, script: Script, cursor: nat, read: Reader)
    ensures var d := Drafted(p, article, script, cursor, read);
      (Gate(article).Err? ==> d == Run(Err(Gate(article).error), [], cursor)) &&
      d.next <= cursor + MaxRetries + 1 + MaxRetries * MaxRounds &&
      (d.result.Ok? ==> Gate(article).Ok?)
  {
    PreparedSpec(p, article, script, cursor);
    var pr := Prepared(p, article, script, cursor);
    if pr.result.Ok? {
      RepairAtMostOnce(pr.result.value, script, pr.next, read);
      var f := FirstDraft(p, article, script, cursor, read);
      if f.result.Ok? {
        RoundsCalls(p, f.result.value, 0, script, f.next, read);
      }
    }
  }

  /** The first list and the completion loop of `generate_quiz`, proved against `Drafted`. */
  method DraftQuiz(p: Policy, article: string, script: Script, cursor: nat, read: Reader) returns (d: Run<seq<Json>>)
    ensures d == Drafted(p, article, script, cursor, read)
  {
    d := FirstDraft(p, article, script, cursor, read);
    if d.result.Ok? {
      var rest := CompleteQuiz(p, d.result.value, script, d.next, read);
      d := Prepend(d.sleeps, rest);
    }
  }

  /**
   * `r` is what `generate_quiz` makes of the draft `d`, with `candidates`
   * the pool of the text sent (`TextPool`): a failed draft fails alike; a
   * draft of ten or more questions is cut to its first ten; a shorter one is
   * filled from the pool (`FilledFrom`, with the answers and options chosen). No further call is
   * made either way.
   */
  predicate Finished(d: Run<seq<Json>>, candidates: seq<string>, r: Run<seq<Json>>, answers: seq<string>, options: seq<seq<string>>) {
    r.sleeps == d.sleeps && r.next == d.next &&
    (d.result.Err? ==> r.result == d.result) &&
    (d.result.Ok? ==>
      r.result.Ok? && |r.result.value| <= Wanted &&
      (|d.result.value| >= Wanted ==> r.result.value == d.result.value[..Wanted] && answers == []) &&
      (|d.result.value| < Wanted ==> FilledFrom(d.result.value, r.result.value, answers, options, candidates)))
  }

  /** The end of `generate_quiz`: the fallback when the draft is short, then `data[:10]`. */
  method FinishQuiz(d: Run<seq<Json>>, candidates: seq<string>) returns (r: Run<seq<Json>>, ghost answers: seq<string>, ghost options: seq<seq<string>>)
    ensures Finished(d, candidates, r, answers, options)
  {
    answers := [];
    options := [];
    if d.result.Err? {
      return d, [], [];
    }
    var data := d.result.value;
    if |data| < Wanted {
      data, answers, options := LlmFallback(data, candidates);
      assert Prefix(data, Wanted) == data;
    }
    r := Run(Ok(Prefix(data, Wanted)), d.sleeps, d.next);
  }

  /**
   * `generate_quiz`: a refused article fails before any call; otherwise the
   * draft, finished as `Finished` says with the pool of the text the gate passed.
   */
  method GenerateQuiz(p: Policy, article: string, script: Script, cursor: nat, read: Reader)
    returns (r: Run<seq<Json>>, ghost answers: seq<string>, ghost options: seq<seq<string>>)
    ensures Gate(article).Err? ==> r == Run(Err(Gate(article).error), [], cursor)
    ensures Gate(article).Ok? ==> Finished(Drafted(p, article, script, cursor, read), TextPool(Gate(article).value), r, answers, options)
  {
    QuizCalls(p, article, script, cursor, read);
    var d := DraftQuiz(p, article, script, cursor, read);
    if d.result.Err? {
      return d, [], [];
    }
    r, answers, options := FinishQuiz(d, TextPool(Gate(article).value));
  }
}
