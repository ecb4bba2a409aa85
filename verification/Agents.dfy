// The specialist agents (agents/*.py, mcp_servers/fraud_signals.py). Every LLM answer is an
// arbitrary value; the agents turn it into an opinion the validators of models/decisions.py accept.

module Agents {
  import opened Prelude
  import opened CostMeter
  import opened Ranking
  import Rag
  import Text

  // ===== LLM answers and faults ==========================================================

  /** An exception leaving a node; a typed one already carries an `AgentError` with a message. */
  datatype Fault = Fault(message: string, typed: bool)

  const MALFORMED: Fault := Fault("Malformed LLM response", true)

  /** What an LLM call yields: an exception, or an answer that may not be a JSON object. The agents
      turn a decoding, key or type error into a typed fault; any other exception passes through. */
  datatype Reply<T> = Raised(fault: Fault) | Answer(usage: Usage, body: Body<T>)

  datatype Body<T> = Unreadable | NotAnObject | Object(raw: T)

  /** The result of an agent, with the LLM calls it paid for. */
  datatype Outcome<T> = Outcome(calls: seq<Usage>, result: Result<T, Fault>)

  function Calls<T>(reply: Reply<T>): seq<Usage> {
    if reply.Answer? then [reply.usage] else []
  }

  /** The common opening of the agents: call the LLM, parse, insist on an object. */
  function Parsed<T>(reply: Reply<T>): Result<T, Fault> {
    match reply
    case Raised(fault) => Err(fault)
    case Answer(_, Object(raw)) => Ok(raw)
    case Answer(_, _) => Err(MALFORMED)
  }

  /** A JSON value coerced by `float`. */
  datatype RawNumber = Number(v: real) | NaN | PosInf | NegInf | NotANumber

  /** `max(0.0, min(1.0, float(value)))`, with 0.5 for what is no number; `min(1.0, nan)` is 1.0. */
  function Clamp(value: RawNumber): (r: real)
    ensures 0.0 <= r <= 1.0
    ensures value.Number? && 0.0 <= value.v <= 1.0 ==> r == value.v
    ensures (value.Number? && value.v < 0.0) || value.NegInf? ==> r == 0.0
    ensures (value.Number? && value.v > 1.0) || value.PosInf? || value.NaN? ==> r == 1.0
    ensures value.NotANumber? ==> r == 0.5
  {
    match value
    case NotANumber => 0.5
    case NaN => 1.0
    case PosInf => 1.0
    case NegInf => 0.0
    case Number(v) => if v < 0.0 then 0.0 else if v > 1.0 then 1.0 else v
  }

  /** A JSON value where a string is expected. */
  datatype RawText = Str(s: string) | NotStr

  // ===== Coverage ========================================================================

  datatype Decision = Covered | Denied | Partial

  datatype PolicyContext = PolicyContext(citations: seq<Rag.Citation>, exclusions: seq<string>, sufficient: bool)

  datatype CoverageOpinion = CoverageOpinion(decision: Decision, confidence: real, citations: seq<Rag.Citation>)

  datatype RawDecision = Named(d: Decision) | Unknown | Unhashable

  datatype RawCitation = NotADict | Entry(clauseId: RawText, document: RawText, snippet: RawText)

  datatype RawCitations = NotAList | Listed(entries: seq<RawCitation>)

  datatype RawOpinion = RawOpinion(decision: RawDecision, confidence: RawNumber, citations: RawCitations)

  const CONFIDENCE_CAP_WEAK: real := 0.6
  const CONFIDENCE_UNGROUNDED: real := 0.1

  function ValidatedDecision(d: RawDecision): Result<Decision, Fault> {
    match d
    case Named(known) => Ok(known)
    case Unknown => Ok(Partial)
    case Unhashable => Err(Fault("unhashable type", false))
  }

  function CapConfidence(confidence: real, context: PolicyContext): real {
    if |context.citations| <= 1 && confidence > CONFIDENCE_CAP_WEAK then CONFIDENCE_CAP_WEAK else confidence
  }

  // ----- Matching a clause id -------------------------------------------------------------

  predicate EndsWith(s: string, suffix: string) {
    |suffix| <= |s| && s[|s| - |suffix|..] == suffix
  }

  /** The three tests of the loop body, on one valid id. */
  predicate LooksLike(lower: string -> string, raw: string, vid: string) {
    var wanted := Text.Strip(lower(raw));
    lower(vid) == wanted || EndsWith(lower(vid), wanted) || EndsWith(wanted, lower(vid))
  }

  /** An id looks like the raw one when, folded, one of the two ends with the other; equality is the case of an empty
      rest. */
  lemma LooksLikeIs(lower: string -> string, raw: string, vid: string)
    ensures LooksLike(lower, raw, vid) <==>
      exists rest: string ::
        lower(vid) == rest + Text.Strip(lower(raw)) || Text.Strip(lower(raw)) == rest + lower(vid)
  {
    var wanted := Text.Strip(lower(raw));
    EndsWithIs(lower(vid), wanted);
    EndsWithIs(wanted, lower(vid));
    if lower(vid) == wanted { assert "" + wanted == lower(vid); }
  }

  lemma EndsWithIs(s: string, suffix: string)
    ensures EndsWith(s, suffix) <==> exists rest: string :: s == rest + suffix
  {
    if EndsWith(s, suffix) { assert s == s[..|s| - |suffix|] + suffix; }
    if rest: string :| s == rest + suffix { assert s[|s| - |suffix|..] == suffix; }
  }

  /** The first id in iteration order that looks like `raw`. */
  function FirstLike(lower: string -> string, raw: string, order: seq<string>): (r: Option<string>)
    ensures r.Some? <==> exists i :: 0 <= i < |order| && LooksLike(lower, raw, order[i])
    ensures r.Some? ==> r.value in order && LooksLike(lower, raw, r.value)
  {
    if order == [] then None
    else if LooksLike(lower, raw, order[0]) then Some(order[0])
    else
      var r := FirstLike(lower, raw, order[1..]);
      assert forall i :: 0 < i < |order| ==> order[i] == order[1..][i - 1];
      r
  }

  /** `order` lists the set of valid ids the way Python happens to iterate over it. */
  function MatchClauseId(lower: string -> string, raw: string, order: seq<string>): Option<string> {
    if raw in order then Some(raw) else FirstLike(lower, raw, order)
  }

  method FindClauseId(lower: string -> string, raw: string, order: seq<string>) returns (r: Option<string>)
    ensures r == MatchClauseId(lower, raw, order)
  {
    if raw in order {
      return Some(raw);
    }
    var wanted := Text.Strip(lower(raw));
    for i := 0 to |order|
      invariant FirstLike(lower, raw, order) == FirstLike(lower, raw, order[i..])
    {
      var vid := order[i];
      assert order[i..][0] == vid && order[i..][1..] == order[i + 1..];
      if lower(vid) == wanted {
        return Some(vid);
      }
      if EndsWith(lower(vid), wanted) {
        return Some(vid);
      }
      if EndsWith(wanted, lower(vid)) {
        return Some(vid);
      }
    }
    assert order[|order|..] == [];
    r := None;
  }

  ghost predicate Enumerates(order: seq<string>, ids: set<string>) {
    forall id :: id in order <==> id in ids
  }

  ghost function Lookalikes(lower: string -> string, raw: string, ids: set<string>): set<string> {
    set id | id in ids && LooksLike(lower, raw, id)
  }

  ghost function SomeOrder(ids: set<string>): (order: seq<string>)
    ensures Enumerates(order, ids)
  {
    if ids == {} then []
    else
      var id :| id in ids;
      [id] + SomeOrder(ids - {id})
  }

  /** Whatever the iteration order, the match is a valid id equal to or looking like the raw one,
      and there is none only when no valid id does. */
  lemma MatchMeaning(lower: string -> string, raw: string, ids: set<string>, order: seq<string>)
    requires Enumerates(order, ids)
    ensures
      var r := MatchClauseId(lower, raw, order);
      && (r.Some? ==> r.value in ids && (r.value == raw || LooksLike(lower, raw, r.value)))
      && (r.None? <==> raw !in ids && Lookalikes(lower, raw, ids) == {})
  {
    var r := MatchClauseId(lower, raw, order);
    if raw !in order {
      if r.None? {
        forall id | id in ids ensures !LooksLike(lower, raw, id) {
          var i :| 0 <= i < |order| && order[i] == id;
        }
      } else {
        assert r.value in Lookalikes(lower, raw, ids);
      }
    }
  }

  /** The match is the same for every iteration order exactly when the raw id is itself valid
      or at most one valid id looks like it. */
  lemma MatchOrderFree(lower: string -> string, raw: string, ids: set<string>)
    ensures (forall o1, o2 :: Enumerates(o1, ids) && Enumerates(o2, ids) ==>
               MatchClauseId(lower, raw, o1) == MatchClauseId(lower, raw, o2))
       <==> raw in ids || forall v, w :: v in Lookalikes(lower, raw, ids) && w in Lookalikes(lower, raw, ids) ==> v == w
  {
    if raw !in ids {
      var like := Lookalikes(lower, raw, ids);
      if forall v, w :: v in like && w in like ==> v == w {
        forall o1, o2 | Enumerates(o1, ids) && Enumerates(o2, ids)
          ensures MatchClauseId(lower, raw, o1) == MatchClauseId(lower, raw, o2)
        {
          MatchMeaning(lower, raw, ids, o1);
          MatchMeaning(lower, raw, ids, o2);
          var r1, r2 := MatchClauseId(lower, raw, o1), MatchClauseId(lower, raw, o2);
          if r1.Some? && r2.Some? {
            assert r1.value in like && r2.value in like;
          }
        }
      } else {
        var v, w :| v in like && w in like && v != w;
        var o1, o2 := [v] + SomeOrder(ids), [w] + SomeOrder(ids);
        assert Enumerates(o1, ids) && Enumerates(o2, ids);
        assert MatchClauseId(lower, raw, o1) == Some(v) && MatchClauseId(lower, raw, o2) == Some(w);
      }
    }
  }

  /** `vid` equals the raw id but for case and surrounding white space. */
  predicate EqualsFolded(lower: string -> string, raw: string, vid: string) {
    lower(vid) == Text.Strip(lower(raw))
  }

  ghost predicate SomeFolded(lower: string -> string, raw: string, ids: set<string>) {
    exists v :: v in ids && EqualsFolded(lower, raw, v)
  }

  /** The documented order of the tests: an exact match first, then one equal but for case, then a suffix. */
  ghost predicate KeepsPriority(lower: string -> string, raw: string, ids: set<string>, r: Option<string>) {
    if raw in ids then r == Some(raw)
    else SomeFolded(lower, raw, ids) ==> r.Some? && EqualsFolded(lower, raw, r.value)
  }

  lemma LookalikeFirst(lower: string -> string, raw: string, ids: set<string>, v: string) returns (order: seq<string>)
    requires raw !in ids && v in Lookalikes(lower, raw, ids)
    ensures Enumerates(order, ids) && MatchClauseId(lower, raw, order) == Some(v)
  {
    order := [v] + SomeOrder(ids);
  }

  /** The documented priority is kept in every iteration order exactly when the raw id is itself valid, or no
      valid id equals it but for case, or no other valid id looks like it. */
  lemma MatchPriorityExactly(lower: string -> string, raw: string, ids: set<string>)
    ensures
      (forall order :: Enumerates(order, ids) ==> KeepsPriority(lower, raw, ids, MatchClauseId(lower, raw, order)))
       <==> || raw in ids
            || !SomeFolded(lower, raw, ids)
            || forall v :: v in Lookalikes(lower, raw, ids) ==> EqualsFolded(lower, raw, v)
  {
    var like := Lookalikes(lower, raw, ids);
    if raw !in ids && SomeFolded(lower, raw, ids) {
      if v :| v in like && !EqualsFolded(lower, raw, v) {
        var order := LookalikeFirst(lower, raw, ids, v);
      } else {
        forall order | Enumerates(order, ids) ensures KeepsPriority(lower, raw, ids, MatchClauseId(lower, raw, order)) {
          MatchMeaning(lower, raw, ids, order);
          var w :| w in ids && EqualsFolded(lower, raw, w);
          assert w in like;
          assert MatchClauseId(lower, raw, order).value in like;
        }
      }
    }
  }

  /** An input on which the priority fails: the set yields "EHO-3" first, and a citation of "ho-3" is
      renamed to it although "HO-3" equals it but for case. */
  lemma PriorityFails()
    ensures
      var ids, order := {"HO-3", "EHO-3"}, ["EHO-3", "HO-3"];
      && Enumerates(order, ids)
      && EqualsFolded(Text.AsciiLower, "ho-3", "HO-3")
      && MatchClauseId(Text.AsciiLower, "ho-3", order) == Some("EHO-3")
      && !KeepsPriority(Text.AsciiLower, "ho-3", ids, MatchClauseId(Text.AsciiLower, "ho-3", order))
  {
    var order := ["EHO-3", "HO-3"];
    assert Text.AsciiLower("ho-3") == "ho-3" && Text.AsciiLower("HO-3") == "ho-3";
    assert Text.AsciiLower("EHO-3") == "eho-3" && "eho-3"[1..] == "ho-3";
    assert Text.Strip("ho-3") == "ho-3";
    assert LooksLike(Text.AsciiLower, "ho-3", order[0]);
    assert !EqualsFolded(Text.AsciiLower, "ho-3", "EHO-3");
  }

  /** A citation with a blank or missing clause id looks like every valid id, so it takes the first one. */
  lemma BlankIdTakesFirst(lower: string -> string, raw: string, order: seq<string>)
    requires Text.Strip(lower(raw)) == "" && raw !in order && order != []
    ensures MatchClauseId(lower, raw, order) == Some(order[0])
  {
    var vid := lower(order[0]);
    assert vid[|vid| - 0..] == "";
    assert EndsWith(vid, "");
  }

  // ----- Filtering citations ---------------------------------------------------------------

  /** `Citation(**rc)` accepts the entry's document and snippet. */
  predicate Quotable(rc: RawCitation) {
    rc.Entry? && rc.document.Str? && rc.document.s != "" && rc.snippet.Str? && rc.snippet.s != ""
  }

  function CitationFor(rc: RawCitation, id: string): (r: seq<Rag.Citation>)
    requires rc.Entry?
  {
    if id != "" && Quotable(rc) then [Rag.Citation(id, rc.document.s, rc.snippet.s)] else []
  }

  /** What one raw citation contributes; an id that is not a string raises. */
  function KeepCitation(lower: string -> string, rc: RawCitation,
      order: seq<string>): Result<seq<Rag.Citation>, Fault> {
    match rc
    case NotADict => Ok([])
    case Entry(NotStr, _, _) => Err(Fault("clause id is not a string", false))
    case Entry(Str(raw), _, _) =>
      match MatchClauseId(lower, raw, order)
      case None => Ok([])
      case Some(id) => Ok(CitationFor(rc, id))
  }

  function FilterEntries(lower: string -> string, entries: seq<RawCitation>,
      order: seq<string>): Result<seq<Rag.Citation>, Fault> {
    if entries == [] then Ok([])
    else
      var n := |entries| - 1;
      var front := FilterEntries(lower, entries[..n], order);
      if front.Err? then front
      else
        match KeepCitation(lower, entries[n], order)
        case Err(f) => Err(f)
        case Ok(kept) => Ok(front.value + kept)
  }

  function FilterCitations(lower: string -> string, raw: RawCitations,
      order: seq<string>): Result<seq<Rag.Citation>, Fault> {
    if raw.NotAList? then Ok([]) else FilterEntries(lower, raw.entries, order)
  }

  lemma {:induction false} FilterErrorStays(lower: string -> string, entries: seq<RawCitation>, order: seq<string>,
      i: nat)
    requires i <= |entries| && FilterEntries(lower, entries[..i], order).Err?
    ensures FilterEntries(lower, entries, order) == FilterEntries(lower, entries[..i], order)
    decreases |entries|
  {
    if i == |entries| {
      assert entries[..i] == entries;
    } else {
      var n := |entries| - 1;
      assert entries[..n][..i] == entries[..i];
      FilterErrorStays(lower, entries[..n], order, i);
    }
  }

  method CollectCitations(lower: string -> string, raw: RawCitations, order: seq<string>)
    returns (r: Result<seq<Rag.Citation>, Fault>)
    ensures r == FilterCitations(lower, raw, order)
  {
    if raw.NotAList? {
      return Ok([]);
    }
    var entries := raw.entries;
    var found: seq<Rag.Citation> := [];
    for i := 0 to |entries|
      invariant FilterEntries(lower, entries[..i], order) == Ok(found)
    {
      var rc := entries[i];
      assert entries[..i + 1][..i] == entries[..i];
      if rc.Entry? {
        if rc.clauseId.NotStr? {
          FilterErrorStays(lower, entries, order, i + 1);
          return Err(Fault("clause id is not a string", false));
        }
        var id := FindClauseId(lower, rc.clauseId.s, order);
        if id.Some? {
          found := found + CitationFor(rc, id.value);
        } else {
          assert found + [] == found;
        }
      } else {
        assert found + [] == found;
      }
    }
    assert entries[..|entries|] == entries;
    r := Ok(found);
  }

  /** Every citation that survives names a valid id. */
  lemma {:induction false} FilteredAreValid(lower: string -> string, entries: seq<RawCitation>, order: seq<string>,
      ids: set<string>)
    requires Enumerates(order, ids)
    ensures
      var r := FilterEntries(lower, entries, order);
      r.Ok? ==> forall i :: 0 <= i < |r.value| ==> r.value[i].clauseId in ids && r.value[i].clauseId != ""
  {
    if entries != [] {
      var n := |entries| - 1;
      FilteredAreValid(lower, entries[..n], order, ids);
      if entries[n].Entry? && entries[n].clauseId.Str? {
        MatchMeaning(lower, entries[n].clauseId.s, ids, order);
      }
    }
  }

  /** A quotable citation that names a valid id exactly is never lost or renamed. */
  lemma {:induction false} ExactCitationKept(lower: string -> string, entries: seq<RawCitation>, order: seq<string>,
      i: nat)
    requires i < |entries| && Quotable(entries[i]) && entries[i].clauseId.Str?
    requires entries[i].clauseId.s in order && entries[i].clauseId.s != ""
    requires FilterEntries(lower, entries, order).Ok?
    ensures
      var rc := entries[i];
      Rag.Citation(rc.clauseId.s, rc.document.s, rc.snippet.s) in FilterEntries(lower, entries, order).value
    decreases |entries|
  {
    var n := |entries| - 1;
    if i < n {
      ExactCitationKept(lower, entries[..n], order, i);
    } else {
      var rc := entries[n];
      assert KeepCitation(lower, rc, order).value == [Rag.Citation(rc.clauseId.s, rc.document.s, rc.snippet.s)];
    }
  }

  ghost predicate Increasing(at: seq<nat>) {
    forall i, j :: 0 <= i < j < |at| ==> at[i] < at[j]
  }

  /** The entry makes a citation of the id it is matched to: it has a document and a snippet, and the id is not
      empty. */
  ghost predicate Makes(lower: string -> string, order: seq<string>, rc: RawCitation, c: Rag.Citation) {
    && rc.Entry? && rc.clauseId.Str? && MatchClauseId(lower, rc.clauseId.s, order) == Some(c.clauseId)
    && rc.document == Str(c.document) && rc.snippet == Str(c.snippet)
    && c.clauseId != "" && c.document != "" && c.snippet != ""
  }

  ghost predicate MakesNone(lower: string -> string, order: seq<string>, rc: RawCitation) {
    forall c :: !Makes(lower, order, rc, c)
  }

  /** `kept` lists exactly the citations the entries make, in order; `at` gives their places. */
  ghost predicate CitationsAt(lower: string -> string, order: seq<string>, entries: seq<RawCitation>,
      kept: seq<Rag.Citation>, at: seq<nat>) {
    && Increasing(at) && |at| == |kept|
    && (forall j :: 0 <= j < |at| ==> at[j] < |entries| && Makes(lower, order, entries[at[j]], kept[j]))
    && (forall i, c :: 0 <= i < |entries| && Makes(lower, order, entries[i], c) ==> i in at)
  }

  lemma CitationAdded(lower: string -> string, order: seq<string>, entries: seq<RawCitation>, kept: seq<Rag.Citation>,
      at: seq<nat>, c: Rag.Citation)
    requires entries != [] && CitationsAt(lower, order, entries[..|entries| - 1], kept, at)
    requires Makes(lower, order, entries[|entries| - 1], c)
    ensures CitationsAt(lower, order, entries, kept + [c], at + [|entries| - 1])
  {
    var n := |entries| - 1;
    assert forall i :: 0 <= i < n ==> entries[..n][i] == entries[i];
    forall i, d | 0 <= i < |entries| && Makes(lower, order, entries[i], d) ensures i in at + [n] {
      if i < n { assert i in at; }
    }
  }

  lemma CitationSkipped(lower: string -> string, order: seq<string>, entries: seq<RawCitation>,
      kept: seq<Rag.Citation>, at: seq<nat>)
    requires entries != [] && CitationsAt(lower, order, entries[..|entries| - 1], kept, at)
    requires MakesNone(lower, order, entries[|entries| - 1])
    ensures CitationsAt(lower, order, entries, kept, at)
  {
    var n := |entries| - 1;
    assert forall i :: 0 <= i < n ==> entries[..n][i] == entries[i];
  }

  lemma KeptIsMade(lower: string -> string, order: seq<string>, rc: RawCitation)
    requires KeepCitation(lower, rc, order).Ok?
    ensures
      var kept := KeepCitation(lower, rc, order).value;
      if kept == [] then MakesNone(lower, order, rc)
      else kept == [kept[0]] && Makes(lower, order, rc, kept[0])
  {
  }

  /** Filtering keeps exactly the citations the entries make, in order. */
  lemma {:induction false} FilterKeeps(lower: string -> string, order: seq<string>, entries: seq<RawCitation>)
    returns (at: seq<nat>)
    requires FilterEntries(lower, entries, order).Ok?
    ensures CitationsAt(lower, order, entries, FilterEntries(lower, entries, order).value, at)
  {
    if entries == [] {
      at := [];
    } else {
      var n := |entries| - 1;
      at := FilterKeeps(lower, order, entries[..n]);
      var front, kept := FilterEntries(lower, entries[..n], order).value, KeepCitation(lower, entries[n], order).value;
      KeptIsMade(lower, order, entries[n]);
      if kept == [] {
        CitationSkipped(lower, order, entries, front, at);
        assert front + [] == front;
      } else {
        CitationAdded(lower, order, entries, front, at, kept[0]);
        at := at + [n];
      }
    }
  }

  /** It raises exactly when some entry's clause id is no string, and the exception has a message. */
  lemma {:induction false} FilterRaises(lower: string -> string, order: seq<string>, entries: seq<RawCitation>)
    ensures FilterEntries(lower, entries, order).Err? <==>
      exists i :: 0 <= i < |entries| && entries[i].Entry? && entries[i].clauseId.NotStr?
    ensures FilterEntries(lower, entries, order).Err? ==> FilterEntries(lower, entries, order).error.message != ""
  {
    if entries != [] {
      var n := |entries| - 1;
      FilterRaises(lower, order, entries[..n]);
      assert forall i :: 0 <= i < n ==> entries[..n][i] == entries[i];
    }
  }

  // ----- decide ------------------------------------------------------------------------------

  function ContextIds(context: PolicyContext): set<string> {
    set i | 0 <= i < |context.citations| :: context.citations[i].clauseId
  }

  function Ungrounded(context: PolicyContext): CoverageOpinion {
    CoverageOpinion(Partial, CONFIDENCE_UNGROUNDED, Take(context.citations, 1))
  }

  function OpinionFrom(lower: string -> string, context: PolicyContext, order: seq<string>,
      raw: RawOpinion): Result<CoverageOpinion, Fault> {
    match ValidatedDecision(raw.decision)
    case Err(f) => Err(f)
    case Ok(decision) =>
      match FilterCitations(lower, raw.citations, order)
      case Err(f) => Err(f)
      case Ok(kept) =>
        if kept == [] then Ok(Ungrounded(context))
        else Ok(CoverageOpinion(decision, CapConfidence(Clamp(raw.confidence), context), kept))
  }

  /** `decide`: no LLM call on an insufficient context, citations filtered, confidence capped. */
  function Decide(lower: string -> string, context: PolicyContext, order: seq<string>,
      reply: Reply<RawOpinion>): Outcome<CoverageOpinion> {
    if !context.sufficient then Outcome([], Ok(Ungrounded(context)))
    else
      match Parsed(reply)
      case Err(f) => Outcome(Calls(reply), Err(f))
      case Ok(raw) => Outcome(Calls(reply), OpinionFrom(lower, context, order, raw))
  }

  /** The validators of `CoverageOpinion`. */
  ghost predicate ValidOpinion(o: CoverageOpinion) {
    0.0 <= o.confidence <= 1.0 && o.citations != []
  }

  ghost predicate CitesContext(o: CoverageOpinion, context: PolicyContext) {
    forall i :: 0 <= i < |o.citations| ==> o.citations[i].clauseId in ContextIds(context)
  }

  lemma UngroundedCites(context: PolicyContext)
    requires context.citations != []
    ensures ValidOpinion(Ungrounded(context)) && CitesContext(Ungrounded(context), context)
  {
    assert context.citations[0].clauseId in ContextIds(context);
    assert Ungrounded(context).citations == [context.citations[0]];
  }

  lemma OpinionCites(lower: string -> string, context: PolicyContext, order: seq<string>, raw: RawOpinion)
    requires Enumerates(order, ContextIds(context)) && context.citations != []
    requires OpinionFrom(lower, context, order, raw).Ok?
    ensures ValidOpinion(OpinionFrom(lower, context, order, raw).value)
    ensures CitesContext(OpinionFrom(lower, context, order, raw).value, context)
  {
    var kept := FilterCitations(lower, raw.citations, order).value;
    if kept == [] {
      UngroundedCites(context);
    } else {
      FilteredAreValid(lower, raw.citations.entries, order, ContextIds(context));
      assert forall i :: 0 <= i < |kept| ==> kept[i].clauseId in ContextIds(context);
      assert OpinionFrom(lower, context, order, raw).value.citations == kept;
    }
  }

  /** Partial coverage at a confidence of 0.1, with the context's first citation. */
  ghost predicate Withheld(o: CoverageOpinion, context: PolicyContext)
    requires context.citations != []
  {
    o.decision == Partial && o.confidence == 0.1 && o.citations == [context.citations[0]]
  }

  /** What an answer with these citations kept comes to: withheld if there are none, and else the answer's own
      decision, partial if it names none, at its clamped confidence, capped at 0.6 exactly when the context has at most
      one citation. */
  ghost predicate Follows(o: CoverageOpinion, context: PolicyContext, raw: RawOpinion, kept: seq<Rag.Citation>)
    requires context.citations != []
  {
    if kept == [] then Withheld(o, context)
    else
      && (raw.decision.Named? ==> o.decision == raw.decision.d) && (raw.decision.Unknown? ==> o.decision == Partial)
      && (|context.citations| > 1 || Clamp(raw.confidence) <= 0.6 ==> o.confidence == Clamp(raw.confidence))
      && (|context.citations| <= 1 && Clamp(raw.confidence) > 0.6 ==> o.confidence == 0.6)
      && o.citations == kept
  }

  /** For any LLM answer and any iteration order: an opinion is valid and cites only clauses of the context. An
      insufficient context withholds it without asking; on a sufficient one it follows the answer. */
  lemma DecideGrounded(lower: string -> string, context: PolicyContext, order: seq<string>, reply: Reply<RawOpinion>)
    requires Enumerates(order, ContextIds(context)) && context.citations != []
    requires Decide(lower, context, order, reply).result.Ok?
    ensures
      var o := Decide(lower, context, order, reply).result.value;
      && ValidOpinion(o) && CitesContext(o, context)
      && (!context.sufficient ==> Withheld(o, context) && Decide(lower, context, order, reply).calls == [])
      && (context.sufficient ==>
            && reply.Answer? && reply.body.Object? && FilterCitations(lower, reply.body.raw.citations, order).Ok?
            && Follows(o, context, reply.body.raw, FilterCitations(lower, reply.body.raw.citations, order).value))
      && (|context.citations| <= 1 ==> o.confidence <= 0.6)
  {
    if !context.sufficient {
      UngroundedCites(context);
    } else {
      OpinionCites(lower, context, order, Parsed(reply).value);
    }
  }

  /** The answer can be used: an object whose decision can be looked up and whose clause ids are strings. */
  ghost predicate UsableOpinion(reply: Reply<RawOpinion>) {
    && reply.Answer? && reply.body.Object? && !reply.body.raw.decision.Unhashable?
    && (reply.body.raw.citations.Listed? ==>
          forall i :: 0 <= i < |reply.body.raw.citations.entries| ==>
            !(reply.body.raw.citations.entries[i].Entry? && reply.body.raw.citations.entries[i].clauseId.NotStr?))
  }

  /** The agent fails exactly on a sufficient context with an answer it cannot use, and what it raises itself has a
      message. It pays for the call it made, if it came back. */
  lemma DecideFails(lower: string -> string, context: PolicyContext, order: seq<string>, reply: Reply<RawOpinion>)
    ensures
      var o := Decide(lower, context, order, reply);
      && (o.result.Err? <==> context.sufficient && !UsableOpinion(reply))
      && (o.result.Err? ==> if reply.Raised? then o.result.error == reply.fault else o.result.error.message != "")
      && o.calls == (if context.sufficient && reply.Answer? then [reply.usage] else [])
  {
    if reply.Answer? && reply.body.Object? && reply.body.raw.citations.Listed? {
      FilterRaises(lower, order, reply.body.raw.citations.entries);
    }
  }

  // ===== Fraud / risk ======================================================================

  datatype Facts = Facts(incidentType: string, claimedAmount: real, claimant: string)

  /** A record of the claims history (mcp_servers/claims_history.py:28-35), without the prior claims. */
  datatype ClaimantRecord = ClaimantRecord(claimantId: string, name: string, totalClaims: nat, flagged: bool)

  /** The records the graph is always built with, by claimant id (claims_history.py:82-131). */
  const DEFAULT_HISTORY: map<string, ClaimantRecord> := map[
    "CLT-001" := ClaimantRecord("CLT-001", "Jane Doe", 2, false),
    "CLT-002" := ClaimantRecord("CLT-002", "Suspicious Sam", 5, true)
  ]

  datatype FraudSignal = FraudSignal(name: string, weight: real)

  datatype FraudScore = FraudScore(score: real, signals: seq<FraudSignal>)

  function WeightSum(signals: seq<FraudSignal>): real {
    if signals == [] then 0.0 else WeightSum(signals[..|signals| - 1]) + signals[|signals| - 1].weight
  }

  lemma WeightSumStep(signals: seq<FraudSignal>, more: seq<FraudSignal>)
    requires |more| <= 1
    ensures WeightSum(signals + more) == WeightSum(signals) + (if more == [] then 0.0 else more[0].weight)
  {
    if more == [] {
      assert signals + more == signals;
    } else {
      assert (signals + more)[..|signals|] == signals;
    }
  }

  function HighAmount(amount: real): seq<FraudSignal> {
    if amount > 25000.0 then [FraudSignal("high_amount", 0.2)] else []
  }

  function Frequent(priorClaims: nat): seq<FraudSignal> {
    if priorClaims >= 3 then [FraudSignal("frequent_claimant", 0.3)] else []
  }

  function Flagged(flagged: bool): seq<FraudSignal> {
    if flagged then [FraudSignal("flagged_claimant", 0.4)] else []
  }

  function ToolScore(amount: real, priorClaims: nat, flagged: bool): real {
    (if amount > 25000.0 then 0.2 else 0.0) + (if priorClaims >= 3 then 0.3 else 0.0) + (if flagged then 0.4 else 0.0)
  }

  function Fired(amount: real, priorClaims: nat, flagged: bool): seq<FraudSignal> {
    HighAmount(amount) + Frequent(priorClaims) + Flagged(flagged)
  }

  /** The tool's score is the sum of the weights of the rules that fire, and the cap at 1 never binds. */
  lemma ScoreIsWeightSum(amount: real, priorClaims: nat, flagged: bool)
    ensures WeightSum(Fired(amount, priorClaims, flagged)) == ToolScore(amount, priorClaims, flagged) < 1.0
  {
    var high, frequent := HighAmount(amount), Frequent(priorClaims);
    assert [] + high == high;
    WeightSumStep([], high);
    WeightSumStep(high, frequent);
    WeightSumStep(high + frequent, Flagged(flagged));
  }

  /** The rules: 0.2 for an amount above 25000, 0.3 for three prior claims or more, 0.4 for a flag. */
  lemma FiredRules(amount: real, priorClaims: nat, flagged: bool)
    ensures amount > 25000.0 <==> FraudSignal("high_amount", 0.2) in Fired(amount, priorClaims, flagged)
    ensures priorClaims >= 3 <==> FraudSignal("frequent_claimant", 0.3) in Fired(amount, priorClaims, flagged)
    ensures flagged <==> FraudSignal("flagged_claimant", 0.4) in Fired(amount, priorClaims, flagged)
  {
    InEither(HighAmount(amount), Frequent(priorClaims), Flagged(flagged));
  }

  lemma InEither<T>(a: seq<T>, b: seq<T>, c: seq<T>)
    ensures forall x :: x in a + b + c <==> x in a || x in b || x in c
  {
  }

  /** `FraudSignalsServer.score`: each rule that fires is reported once, in rule order, and adds its weight. */
  method ScoreSignals(amount: real, priorClaims: nat, flagged: bool) returns (r: FraudScore)
    ensures r.signals == Fired(amount, priorClaims, flagged)
    ensures r.score == WeightSum(r.signals)
  {
    ScoreIsWeightSum(amount, priorClaims, flagged);
    var signals: seq<FraudSignal> := [];
    var total := 0.0;
    if amount > 25000.0 {
      signals := signals + [FraudSignal("high_amount", 0.2)];
      total := total + 0.2;
    }
    assert signals == HighAmount(amount);
    if priorClaims >= 3 {
      signals := signals + [FraudSignal("frequent_claimant", 0.3)];
      total := total + 0.3;
    }
    assert signals == HighAmount(amount) + Frequent(priorClaims);
    if flagged {
      signals := signals + [FraudSignal("flagged_claimant", 0.4)];
      total := total + 0.4;
    }
    assert signals == Fired(amount, priorClaims, flagged);
    r := FraudScore(if total < 1.0 then total else 1.0, signals);
  }

  /** The tool's score; the history is asked for the claimant's name, though its keys are claimant ids. */
  function ToolFloor(history: map<string, ClaimantRecord>, facts: Facts): real {
    if facts.claimant in history
    then ToolScore(facts.claimedAmount, history[facts.claimant].totalClaims, history[facts.claimant].flagged)
    else ToolScore(facts.claimedAmount, 0, false)
  }

  datatype RiskAssessment = RiskAssessment(score: real)

  /** `assess`: the higher of the LLM's clamped score and the tool's. */
  function Assess(history: map<string, ClaimantRecord>, facts: Facts,
      reply: Reply<RawNumber>): Outcome<RiskAssessment> {
    match Parsed(reply)
    case Err(f) => Outcome(Calls(reply), Err(f))
    case Ok(raw) =>
      var score, floor := Clamp(raw), ToolFloor(history, facts);
      Outcome(Calls(reply), Ok(RiskAssessment(if score < floor then floor else score)))
  }

  method AssessClaim(history: map<string, ClaimantRecord>, facts: Facts, reply: Reply<RawNumber>)
    returns (r: Result<RiskAssessment, Fault>)
    ensures r == Assess(history, facts, reply).result
  {
    var priorClaims, flagged := 0, false;
    if facts.claimant in history {
      priorClaims, flagged := history[facts.claimant].totalClaims, history[facts.claimant].flagged;
    }
    var tool := ScoreSignals(facts.claimedAmount, priorClaims, flagged);
    ScoreIsWeightSum(facts.claimedAmount, priorClaims, flagged);
    var parsed := Parsed(reply);
    if parsed.Err? {
      return Err(parsed.error);
    }
    var score := Clamp(parsed.value);
    if score < tool.score {
      score := tool.score;
    }
    r := Ok(RiskAssessment(score));
  }

  /** The assessment is the higher of the LLM's score, clamped, and the sum of 0.2 for an amount above 25000, 0.3 for
      three prior claims or more and 0.4 for a flag, the latter two by the record under the claimant's name. The agent
      fails exactly on an answer that is no object, and pays for a call that came back. */
  lemma AssessIs(history: map<string, ClaimantRecord>, facts: Facts, reply: Reply<RawNumber>)
    ensures
      var o := Assess(history, facts, reply);
      && (o.result.Ok? <==> reply.Answer? && reply.body.Object?)
      && (o.result.Ok? ==>
            IsHigher(o.result.value.score, Clamp(reply.body.raw),
              (if facts.claimedAmount > 25000.0 then 0.2 else 0.0)
              + (if facts.claimant in history && history[facts.claimant].totalClaims >= 3 then 0.3 else 0.0)
              + (if facts.claimant in history && history[facts.claimant].flagged then 0.4 else 0.0)))
      && (o.result.Err? ==> if reply.Raised? then o.result.error == reply.fault else o.result.error.message != "")
      && o.calls == (if reply.Answer? then [reply.usage] else [])
  {
    var floor := ToolFloor(history, facts);
    if reply.Answer? && reply.body.Object? {
      assert IsHigher(Assess(history, facts, reply).result.value.score, Clamp(reply.body.raw), floor);
    }
  }

  predicate IsHigher(x: real, a: real, b: real) {
    a <= x && b <= x && (x == a || x == b)
  }

  /** Whatever the LLM says, the score is the higher of its own, clamped, and the tool's: a probability that
      never falls below the tool's score. */
  lemma AssessFloor(history: map<string, ClaimantRecord>, facts: Facts, reply: Reply<RawNumber>)
    requires Assess(history, facts, reply).result.Ok?
    ensures ToolFloor(history, facts) <= Assess(history, facts, reply).result.value.score <= 1.0
    ensures Clamp(Parsed(reply).value) <= Assess(history, facts, reply).result.value.score
    ensures Assess(history, facts, reply).result.value.score in {ToolFloor(history, facts), Clamp(Parsed(reply).value)}
    ensures Flags(history, facts.claimant) ==> Assess(history, facts, reply).result.value.score >= 0.4
  {
    if facts.claimant in history {
      ScoreIsWeightSum(facts.claimedAmount, history[facts.claimant].totalClaims, history[facts.claimant].flagged);
    }
  }

  /** The record found under the claimant's name is flagged. */
  predicate Flags(history: map<string, ClaimantRecord>, claimant: string) {
    claimant in history && history[claimant].flagged
  }

  /** Some record of a person of this name is flagged. */
  ghost predicate FlaggedByName(history: map<string, ClaimantRecord>, claimant: string) {
    exists k :: k in history && history[k].name == claimant && history[k].flagged
  }

  /** Whatever the incident, the amount and the LLM's answer, an assessment scores at least 0.4. */
  ghost predicate AlwaysFloored(history: map<string, ClaimantRecord>, claimant: string) {
    forall facts: Facts, reply: Reply<RawNumber> ::
      facts.claimant == claimant && Assess(history, facts, reply).result.Ok? ==>
        Assess(history, facts, reply).result.value.score >= 0.4
  }

  /** A claimant is always floored exactly when the record stored under the claimant's name is flagged. */
  lemma FlooredExactly(history: map<string, ClaimantRecord>, claimant: string)
    ensures AlwaysFloored(history, claimant) <==> Flags(history, claimant)
  {
    forall facts: Facts, reply: Reply<RawNumber>
      | facts.claimant == claimant && Assess(history, facts, reply).result.Ok? && Flags(history, claimant)
      ensures Assess(history, facts, reply).result.value.score >= 0.4
    {
      AssessFloor(history, facts, reply);
    }
    if !Flags(history, claimant) {
      var facts, reply := Facts("theft", 0.0, claimant), Answer(Usage(0, 0), Object(Number(0.0)));
      assert facts.claimant == claimant && Assess(history, facts, reply).result.value.score < 0.4;
    }
  }

  /** Everybody with a flagged record is always floored exactly when each flagged record's name is itself the
      key of a flagged record. */
  lemma FlaggedFlooredExactly(history: map<string, ClaimantRecord>)
    ensures (forall c :: FlaggedByName(history, c) ==> AlwaysFloored(history, c))
       <==> (forall k :: k in history && history[k].flagged ==> Flags(history, history[k].name))
  {
    forall c ensures AlwaysFloored(history, c) <==> Flags(history, c) {
      FlooredExactly(history, c);
    }
    forall k | k in history && history[k].flagged ensures FlaggedByName(history, history[k].name) {
    }
  }

  /** The default records miss their own flagged claimant: the record is under "CLT-002". */
  lemma SuspiciousSamNotFloored(amount: real)
    requires amount <= 25000.0
    ensures FlaggedByName(DEFAULT_HISTORY, "Suspicious Sam")
    ensures !AlwaysFloored(DEFAULT_HISTORY, "Suspicious Sam")
    ensures ToolFloor(DEFAULT_HISTORY, Facts("theft", amount, "Suspicious Sam")) == 0.0
  {
    assert DEFAULT_HISTORY["CLT-002"].name == "Suspicious Sam";
    FlooredExactly(DEFAULT_HISTORY, "Suspicious Sam");
  }

  // ===== Settlement ========================================================================

  /** A `Decimal`. */
  datatype Dec = Fin(v: real) | DecPosInf | DecNegInf | DecNaN

  /** A JSON value handed to `Decimal(str(value))`. */
  datatype RawDecimal = Decimal(d: Dec) | Junk

  function ToDecimal(raw: RawDecimal): Dec {
    match raw
    case Decimal(d) => d
    case Junk => Fin(0.0)
  }

  datatype LineItem = LineItem(description: string, amount: real)

  datatype RawItem = ItemNotADict | RawItem(description: string, amount: RawDecimal)

  datatype RawSettlement = RawSettlement(payable: RawDecimal, deductible: RawDecimal, limit: Option<RawDecimal>,
      breakdown: seq<RawItem>)

  datatype SettlementProposal = SettlementProposal(payable: real, deductible: real, limit: real,
      breakdown: seq<LineItem>)

  const NOT_FINITE: Fault := Fault("Input should be a finite number", false)
  const NAN_COMPARED: Fault := Fault("[<class 'decimal.InvalidOperation'>]", false)
  const NEGATIVE: Fault := Fault("Input should be greater than or equal to 0", false)

  function KeepItem(item: RawItem): Result<seq<LineItem>, Fault> {
    if item.ItemNotADict? || item.description == "" then Ok([])
    else
      match ToDecimal(item.amount)
      case Fin(v) => Ok([LineItem(item.description, v)])
      case _ => Err(NOT_FINITE)
  }

  function BreakdownOf(items: seq<RawItem>): Result<seq<LineItem>, Fault> {
    if items == [] then Ok([])
    else
      var n := |items| - 1;
      var front := BreakdownOf(items[..n]);
      if front.Err? then front
      else
        match KeepItem(items[n])
        case Err(f) => Err(f)
        case Ok(kept) => Ok(front.value + kept)
  }

  lemma {:induction false} BreakdownErrorStays(items: seq<RawItem>, i: nat)
    requires i <= |items| && BreakdownOf(items[..i]).Err?
    ensures BreakdownOf(items) == BreakdownOf(items[..i])
    decreases |items|
  {
    if i == |items| {
      assert items[..i] == items;
    } else {
      var n := |items| - 1;
      assert items[..n][..i] == items[..i];
      BreakdownErrorStays(items[..n], i);
    }
  }

  method ExtractBreakdown(items: seq<RawItem>) returns (r: Result<seq<LineItem>, Fault>)
    ensures r == BreakdownOf(items)
  {
    var found: seq<LineItem> := [];
    for i := 0 to |items|
      invariant BreakdownOf(items[..i]) == Ok(found)
    {
      var item := items[i];
      assert items[..i + 1][..i] == items[..i];
      if item.RawItem? && item.description != "" {
        var amount := ToDecimal(item.amount);
        if !amount.Fin? {
          BreakdownErrorStays(items, i + 1);
          return Err(NOT_FINITE);
        }
        found := found + [LineItem(item.description, amount.v)];
      } else {
        assert found + [] == found;
      }
    }
    assert items[..|items|] == items;
    r := Ok(found);
  }

  /** A line item with a description is used; what is no dictionary, or has none, is passed over. */
  predicate Usable(item: RawItem) {
    item.RawItem? && item.description != ""
  }

  /** The breakdown raises exactly when a usable item's amount is not finite. */
  lemma {:induction false} BreakdownRaises(items: seq<RawItem>)
    ensures BreakdownOf(items).Ok? <==>
      forall i :: 0 <= i < |items| && Usable(items[i]) ==> ToDecimal(items[i].amount).Fin?
  {
    if items != [] {
      var n := |items| - 1;
      BreakdownRaises(items[..n]);
      assert forall i :: 0 <= i < n ==> items[..n][i] == items[i];
    }
  }

  /** `kept` lists exactly the usable items, in order; `at` gives their places. */
  ghost predicate KeptAt(items: seq<RawItem>, kept: seq<LineItem>, at: seq<nat>) {
    && Increasing(at) && |at| == |kept|
    && (forall j :: 0 <= j < |at| ==> at[j] < |items| && IsLine(items[at[j]], kept[j]))
    && (forall i :: 0 <= i < |items| && Usable(items[i]) ==> i in at)
  }

  predicate IsLine(item: RawItem, line: LineItem) {
    Usable(item) && item.description == line.description && ToDecimal(item.amount) == Fin(line.amount)
  }

  lemma KeptAtStep(items: seq<RawItem>, kept: seq<LineItem>, at: seq<nat>, line: LineItem)
    requires items != [] && KeptAt(items[..|items| - 1], kept, at) && IsLine(items[|items| - 1], line)
    ensures KeptAt(items, kept + [line], at + [|items| - 1])
  {
    var n := |items| - 1;
    assert forall i :: 0 <= i < n ==> items[..n][i] == items[i];
    forall i | 0 <= i < |items| && Usable(items[i]) ensures i in at + [n] {
      if i < n { assert i in at; }
    }
  }

  lemma KeptAtSkip(items: seq<RawItem>, kept: seq<LineItem>, at: seq<nat>)
    requires items != [] && KeptAt(items[..|items| - 1], kept, at) && !Usable(items[|items| - 1])
    ensures KeptAt(items, kept, at)
  {
    var n := |items| - 1;
    assert forall i :: 0 <= i < n ==> items[..n][i] == items[i];
  }

  /** Otherwise it keeps exactly the usable items, in order. */
  lemma {:induction false} BreakdownKeeps(items: seq<RawItem>) returns (at: seq<nat>)
    requires BreakdownOf(items).Ok?
    ensures KeptAt(items, BreakdownOf(items).value, at)
  {
    if items == [] {
      at := [];
    } else {
      var n := |items| - 1;
      at := BreakdownKeeps(items[..n]);
      var front := BreakdownOf(items[..n]).value;
      if Usable(items[n]) {
        KeptAtStep(items, front, at, LineItem(items[n].description, ToDecimal(items[n].amount).v));
        at := at + [n];
      } else {
        KeptAtSkip(items, front, at);
        assert front + [] == front;
      }
    }
  }

  /** `limit > 0 and payable > limit`, where comparing a NaN raises. */
  function ExceedsLimit(payable: Dec, limit: Dec): Result<bool, Fault> {
    match limit
    case DecNaN => Err(NAN_COMPARED)
    case DecNegInf => Ok(false)
    case DecPosInf => if payable.DecNaN? then Err(NAN_COMPARED) else Ok(false)
    case Fin(l) =>
      if l <= 0.0 then Ok(false)
      else
        match payable
        case DecNaN => Err(NAN_COMPARED)
        case DecPosInf => Ok(true)
        case DecNegInf => Ok(false)
        case Fin(p) => Ok(p > l)
  }

  /** The validators of `SettlementProposal`. */
  function Propose(payable: Dec, deductible: Dec, limit: Dec,
      breakdown: seq<LineItem>): Result<SettlementProposal, Fault> {
    if !payable.Fin? || !deductible.Fin? || !limit.Fin? then Err(NOT_FINITE)
    else if payable.v < 0.0 || deductible.v < 0.0 || limit.v < 0.0 then Err(NEGATIVE)
    else if breakdown == [] || (limit.v > 0.0 && payable.v > limit.v) then Err(Fault("Value error", false))
    else Ok(SettlementProposal(payable.v, deductible.v, limit.v, breakdown))
  }

  /** The settlement an LLM answer leads to once coverage is not denied. */
  function SettlementFrom(facts: Facts, raw: RawSettlement): Result<SettlementProposal, Fault> {
    var payable, deductible := ToDecimal(raw.payable), ToDecimal(raw.deductible);
    var limit := if raw.limit.Some? then ToDecimal(raw.limit.value) else Fin(facts.claimedAmount);
    match BreakdownOf(raw.breakdown)
    case Err(f) => Err(f)
    case Ok(items) =>
      if items == [] && !payable.Fin? then Err(NOT_FINITE)
      else
        var breakdown := if items == [] then [LineItem("Claim payment", payable.v)] else items;
        match ExceedsLimit(payable, limit)
        case Err(f) => Err(f)
        case Ok(exceeds) => Propose(if exceeds then limit else payable, deductible, limit, breakdown)
  }

  /** `compute`: nothing is paid on denied coverage, and no LLM is asked. */
  function Settle(facts: Facts, coverage: CoverageOpinion, reply: Reply<RawSettlement>): Outcome<SettlementProposal> {
    if coverage.decision == Denied
    then Outcome([], Propose(Fin(0.0), Fin(0.0), Fin(facts.claimedAmount), [LineItem("Coverage denied", 0.0)]))
    else
      match Parsed(reply)
      case Err(f) => Outcome(Calls(reply), Err(f))
      case Ok(raw) => Outcome(Calls(reply), SettlementFrom(facts, raw))
  }

  /** What is paid is the LLM's figure, or the limit where a positive limit is below it; the limit is the
      claimed amount where the LLM names none. */
  predicate PaysWithin(facts: Facts, raw: RawSettlement, s: SettlementProposal) {
    && ToDecimal(raw.deductible) == Fin(s.deductible)
    && (if raw.limit.Some? then ToDecimal(raw.limit.value) else Fin(facts.claimedAmount)) == Fin(s.limit)
    && (|| ToDecimal(raw.payable) == Fin(s.payable)
        || (s.payable == s.limit > 0.0 && Above(ToDecimal(raw.payable), s.limit)))
  }

  predicate Above(d: Dec, bound: real) {
    d.DecPosInf? || (d.Fin? && d.v > bound)
  }

  /** The reassignments of amount and breakdown: nothing is paid on denied coverage, whatever is paid is valid
      and is the LLM's figure within the limit, and it takes a readable answer to pay anything. */
  method ComputeSettlement(facts: Facts, coverage: CoverageOpinion, reply: Reply<RawSettlement>)
    returns (r: Result<SettlementProposal, Fault>)
    ensures r.Ok? ==> ValidProposal(r.value)
    ensures coverage.decision == Denied && facts.claimedAmount >= 0.0 ==> r.Ok? && r.value.payable == 0.0
    ensures coverage.decision != Denied && r.Ok? ==>
      Parsed(reply).Ok? && PaysWithin(facts, Parsed(reply).value, r.value)
    ensures coverage.decision != Denied && Parsed(reply).Err? ==> r == Err(Parsed(reply).error)
    ensures r == Settle(facts, coverage, reply).result
  {
    if coverage.decision == Denied {
      r := Propose(Fin(0.0), Fin(0.0), Fin(facts.claimedAmount), [LineItem("Coverage denied", 0.0)]);
      return;
    }
    var parsed := Parsed(reply);
    if parsed.Err? {
      return Err(parsed.error);
    }
    var raw := parsed.value;
    var payable, deductible := ToDecimal(raw.payable), ToDecimal(raw.deductible);
    var limit := if raw.limit.Some? then ToDecimal(raw.limit.value) else Fin(facts.claimedAmount);
    var items := ExtractBreakdown(raw.breakdown);
    if items.Err? {
      return Err(items.error);
    }
    var breakdown := items.value;
    if breakdown == [] {
      if !payable.Fin? {
        return Err(NOT_FINITE);
      }
      breakdown := [LineItem("Claim payment", payable.v)];
    }
    var exceeds := ExceedsLimit(payable, limit);
    if exceeds.Err? {
      return Err(exceeds.error);
    }
    if exceeds.value {
      payable := limit;
    }
    r := Propose(payable, deductible, limit, breakdown);
  }

  /** The validators of `SettlementProposal`, as a predicate: nothing negative, a breakdown,
      and never more than a positive limit. */
  ghost predicate ValidProposal(s: SettlementProposal) {
    && s.payable >= 0.0 && s.deductible >= 0.0 && s.limit >= 0.0
    && s.breakdown != []
    && (s.limit > 0.0 ==> s.payable <= s.limit)
  }

  /** The answer's figures can be settled: every usable item has a finite amount, deductible and limit are finite and
      not negative, and the payable amount is finite and not negative, or infinite over a positive limit and
      itemised. */
  ghost predicate Settleable(raw: RawSettlement, limit: Dec) {
    && (forall i :: 0 <= i < |raw.breakdown| && Usable(raw.breakdown[i]) ==> ToDecimal(raw.breakdown[i].amount).Fin?)
    && NotNegative(ToDecimal(raw.deductible)) && NotNegative(limit)
    && (|| NotNegative(ToDecimal(raw.payable))
        || (ToDecimal(raw.payable).DecPosInf? && limit.v > 0.0 && Itemised(raw.breakdown)))
  }

  ghost predicate Itemised(items: seq<RawItem>) {
    exists i :: 0 <= i < |items| && Usable(items[i])
  }

  predicate NotNegative(d: Dec) {
    d.Fin? && d.v >= 0.0
  }

  lemma BreakdownEmpty(items: seq<RawItem>)
    requires BreakdownOf(items).Ok?
    ensures BreakdownOf(items).value == [] <==> forall i :: 0 <= i < |items| ==> !Usable(items[i])
  {
    var at := BreakdownKeeps(items);
    if at != [] { assert IsLine(items[at[0]], BreakdownOf(items).value[0]); }
  }

  /** The limit applied: the claimed amount where none is named. */
  function LimitOf(facts: Facts, raw: RawSettlement): Dec {
    if raw.limit.Some? then ToDecimal(raw.limit.value) else Fin(facts.claimedAmount)
  }

  /** What is no number counts as 0: an answer of nothing but such figures pays nothing and deducts nothing, under the
      limit it names, which is 0, or the claimed amount. */
  lemma JunkPaysNothing(facts: Facts, raw: RawSettlement)
    requires raw.payable == Junk && raw.deductible == Junk && raw.breakdown == []
    requires raw.limit.Some? ==> raw.limit.value == Junk
    requires facts.claimedAmount >= 0.0
    ensures SettlementFrom(facts, raw) == Ok(SettlementProposal(0.0, 0.0,
              if raw.limit.Some? then 0.0 else facts.claimedAmount, [LineItem("Claim payment", 0.0)]))
  {
  }

  /** On covered or partial coverage a settlement comes of exactly the answers whose figures can be settled, the limit
      being the claimed amount where none is named. What it raises itself has a message, and it pays for a call that
      came back. */
  lemma SettlesExactly(facts: Facts, coverage: CoverageOpinion, reply: Reply<RawSettlement>)
    requires coverage.decision != Denied
    ensures
      var o := Settle(facts, coverage, reply);
      && (o.result.Ok? <==>
            && reply.Answer? && reply.body.Object?
            && Settleable(reply.body.raw, LimitOf(facts, reply.body.raw)))
      && (o.result.Err? ==> if reply.Raised? then o.result.error == reply.fault else o.result.error.message != "")
      && o.calls == (if reply.Answer? then [reply.usage] else [])
  {
    if reply.Answer? && reply.body.Object? {
      var raw := reply.body.raw;
      BreakdownRaises(raw.breakdown);
      BreakdownErrorNamed(raw.breakdown);
      if BreakdownOf(raw.breakdown).Ok? { BreakdownEmpty(raw.breakdown); }
    }
  }

  lemma {:induction false} BreakdownErrorNamed(items: seq<RawItem>)
    ensures BreakdownOf(items).Err? ==> BreakdownOf(items).error.message != ""
  {
    if items != [] { BreakdownErrorNamed(items[..|items| - 1]); }
  }

  /** Every proposal is valid, whatever the LLM says; denied coverage always yields one and pays zero. */
  lemma SettleSafe(facts: Facts, coverage: CoverageOpinion, reply: Reply<RawSettlement>)
    requires facts.claimedAmount >= 0.0
    ensures
      var r := Settle(facts, coverage, reply).result;
      && (r.Ok? ==> ValidProposal(r.value))
      && (coverage.decision == Denied ==>
            && r == Ok(SettlementProposal(0.0, 0.0, facts.claimedAmount, [LineItem("Coverage denied", 0.0)]))
            && Settle(facts, coverage, reply).calls == [])
  {
  }

  function ItemSum(items: seq<LineItem>): real {
    if items == [] then 0.0 else ItemSum(items[..|items| - 1]) + items[|items| - 1].amount
  }

  /** On finite figures the clamp pays min(payable, limit) under a positive limit, and is accepted
      exactly when no figure is negative. The default breakdown line is built before the clamp, so it adds
      up to the payable amount exactly when the clamp does not bind. */
  lemma SettleFinite(facts: Facts, raw: RawSettlement, p: real, d: real, l: real)
    requires ToDecimal(raw.payable) == Fin(p) && ToDecimal(raw.deductible) == Fin(d)
    requires (if raw.limit.Some? then ToDecimal(raw.limit.value) else Fin(facts.claimedAmount)) == Fin(l)
    requires BreakdownOf(raw.breakdown).Ok?
    ensures
      var r := SettlementFrom(facts, raw);
      && (r.Ok? <==> p >= 0.0 && d >= 0.0 && l >= 0.0)
      && (r.Ok? ==>
            && r.value.payable == (if l > 0.0 && p > l then l else p)
            && r.value.deductible == d && r.value.limit == l
            && r.value.breakdown
               == (if BreakdownOf(raw.breakdown).value == [] then [LineItem("Claim payment", p)]
                   else BreakdownOf(raw.breakdown).value))
      && (r.Ok? && BreakdownOf(raw.breakdown).value == [] ==>
            (ItemSum(r.value.breakdown) == r.value.payable <==> !(l > 0.0 && p > l)))
  {
    var line := LineItem("Claim payment", p);
    assert [line][..0] == [] && ItemSum([line]) == p;
  }

  // ===== Compliance ========================================================================

  datatype ComplianceVerdict = ComplianceVerdict(passed: bool, violations: seq<string>)

  datatype RawVerdict = RawVerdict(passed: bool, violations: seq<string>)

  function Review(reply: Reply<RawVerdict>): Outcome<ComplianceVerdict> {
    match Parsed(reply)
    case Err(f) => Outcome(Calls(reply), Err(f))
    case Ok(raw) =>
      Outcome(Calls(reply), Ok(ComplianceVerdict(raw.passed,
        if !raw.passed && raw.violations == [] then ["Unspecified compliance violation"] else raw.violations)))
  }

  /** The verdict is the LLM's own: it passes exactly when the answer does, with the answer's violations, and a failed
      one names a violation even when the answer does not. The agent fails exactly on an answer that is no object, and
      pays for a call that came back. */
  lemma ReviewIs(reply: Reply<RawVerdict>)
    ensures
      var o := Review(reply);
      && (o.result.Ok? <==> reply.Answer? && reply.body.Object?)
      && (o.result.Ok? ==>
            && o.result.value.passed == reply.body.raw.passed
            && (!o.result.value.passed ==> o.result.value.violations != [])
            && (reply.body.raw.passed || reply.body.raw.violations != [] ==>
                  o.result.value.violations == reply.body.raw.violations))
      && (o.result.Err? ==> if reply.Raised? then o.result.error == reply.fault else o.result.error.message != "")
      && o.calls == (if reply.Answer? then [reply.usage] else [])
  {
  }
}
