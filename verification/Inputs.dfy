// Concrete inputs on which the system does what its documentation does not say.

module Inputs {
  import opened Prelude
  import opened CostMeter
  import opened Agents
  import opened Graph
  import opened GraphTheorems
  import opened Chunker
  import Rag
  import RagTheorems
  import Text
  import VectorStore

  // ===== A claim every agent is happy with ==================================================

  const CLAUSE: Rag.Citation := Rag.Citation("c1", "policy", "Theft is covered.")
  const OTHER: Rag.Citation := Rag.Citation("c2", "policy", "Fire is covered.")

  const RETRIEVED: Rag.RetrievalResult := Rag.RetrievalResult(
    [Rag.RetrievedChunk(CLAUSE, "Theft is covered.", 0.5), Rag.RetrievedChunk(OTHER, "Fire is covered.", 0.4)], true)

  const OPINION: RawOpinion :=
    RawOpinion(Named(Covered), Number(1.0), Listed([Entry(Str("c1"), Str("policy"), Str("Theft is covered."))]))

  const OPINED: CoverageOpinion := CoverageOpinion(Covered, 1.0, [CLAUSE])

  /** A claim with a retriever that finds the context sufficient, and an LLM that is sure of everything. */
  ghost function ClaimOf(t: Thresholds, history: map<string, ClaimantRecord>, facts: Facts): Env {
    Env(t, "Stolen bike.", IntakeReply([Usage(1, 1)], Ok(facts)), (f: Facts) => f.incidentType,
        (query: string) => Ok(RETRIEVED),
        Answer(Usage(1, 1), Object(OPINION)),
        Answer(Usage(1, 1), Object(Number(0.0))),
        Answer(Usage(1, 1), Object(RawSettlement(Decimal(Fin(facts.claimedAmount)), Decimal(Fin(0.0)), None, []))),
        Answer(Usage(1, 1), Object(RawVerdict(true, []))),
        (ids: set<string>) => SomeOrder(ids), Text.AsciiLower, history, (node: string) => 0.0)
  }

  const CONTEXT: PolicyContext := PolicyContext([CLAUSE, OTHER], ExclusionsOf(Text.AsciiLower, RETRIEVED.chunks), true)

  lemma ClaimsContext(t: Thresholds, history: map<string, ClaimantRecord>, facts: Facts)
    ensures RetrievalOutcome(ClaimOf(t, history, facts), Some(facts)).result == Ok(CONTEXT)
  {
    assert CitationsOf(RETRIEVED.chunks) == [CLAUSE, OTHER];
  }

  /** The cited clause is one of the context's, so it is kept. */
  lemma ClauseKept(order: seq<string>)
    requires Enumerates(order, ContextIds(CONTEXT))
    ensures OpinionFrom(Text.AsciiLower, CONTEXT, order, OPINION) == Ok(OPINED)
  {
    var entries := OPINION.citations.entries;
    assert CONTEXT.citations[0].clauseId in ContextIds(CONTEXT);
    assert entries[..0] == [];
    assert KeepCitation(Text.AsciiLower, entries[0], order) == Ok([CLAUSE]);
    assert FilterEntries(Text.AsciiLower, entries[..0], order) == Ok([]);
    assert [] + [CLAUSE] == [CLAUSE];
  }

  lemma ClaimsCoverage(t: Thresholds, history: map<string, ClaimantRecord>, facts: Facts)
    ensures CoverageOutcome(ClaimOf(t, history, facts), CONTEXT).result == Ok(OPINED)
  {
    ClauseKept(SomeOrder(ContextIds(CONTEXT)));
  }

  lemma ClaimsRisk(t: Thresholds, history: map<string, ClaimantRecord>, facts: Facts)
    ensures Assess(history, facts, ClaimOf(t, history, facts).riskReply).result
         == Ok(RiskAssessment(ToolFloor(history, facts)))
  {
  }

  lemma ClaimsSettlement(t: Thresholds, history: map<string, ClaimantRecord>, facts: Facts)
    requires ValidFacts(facts)
    ensures
      var r := Settle(facts, OPINED, ClaimOf(t, history, facts).settlementReply).result;
      r.Ok? && r.value.payable == facts.claimedAmount
  {
  }

  /** The thresholds let such a claim through. */
  predicate Admits(t: Thresholds, history: map<string, ClaimantRecord>, facts: Facts) {
    ValidFacts(facts) && t.confidence <= 1.0 && facts.claimedAmount <= t.maxAuto && ToolFloor(history, facts) <= t.risk
  }

  lemma ClaimsDecision(t: Thresholds, history: map<string, ClaimantRecord>, facts: Facts)
    requires Admits(t, history, facts)
    ensures
      var env := ClaimOf(t, history, facts);
      && ValidEnv(env) && Adjudicate(env).Decided? && Adjudicate(env).facts == facts
      && DispositionOf(t, Adjudicate(env)) == AutoApproved
  {
    ClaimsContext(t, history, facts);
    ClaimsCoverage(t, history, facts);
    ClaimsRisk(t, history, facts);
    ClaimsSettlement(t, history, facts);
  }

  // ----- Whom the thresholds let through ----------------------------------------------------

  /** The run ends with an automatic disposition of a claim of `claimant`. */
  ghost predicate DecidesFor(env: Env, claimant: string) {
    && ValidEnv(env) && RunGraph(env).crash.None? && RunGraph(env).states != []
    && Auto(Final(RunGraph(env)))
    && Final(RunGraph(env)).facts.Some? && Final(RunGraph(env)).facts.value.claimant == claimant
  }

  /** Some claim of `claimant` is decided automatically, for some answers of the retriever and the LLM. */
  ghost predicate CanBeDecided(t: Thresholds, history: map<string, ClaimantRecord>, claimant: string) {
    exists env: Env :: env.thresholds == t && env.history == history && DecidesFor(env, claimant)
  }

  lemma AdmittedIsDecided(t: Thresholds, history: map<string, ClaimantRecord>, facts: Facts)
    requires Admits(t, history, facts)
    ensures DecidesFor(ClaimOf(t, history, facts), facts.claimant)
    ensures Final(RunGraph(ClaimOf(t, history, facts))).disposition == Some(AutoApproved)
  {
    ClaimsDecision(t, history, facts);
    RunRefines(ClaimOf(t, history, facts));
  }

  /** What an automatic disposition takes: room in every threshold, and a tool score within the risk one. */
  lemma DecidedIsAdmitted(env: Env, claimant: string)
    requires DecidesFor(env, claimant)
    ensures Admits(env.thresholds, env.history, Facts("theft", 0.0, claimant))
  {
    AutoQualifies(env, claimant);
    DecidedBounds(env);
    EmptyClaimScoresLeast(env.history, Adjudicate(env).facts);
  }

  lemma DecidedBounds(env: Env)
    requires ValidEnv(env) && Adjudicate(env).Decided?
    ensures
      var a := Adjudicate(env);
      a.coverage.confidence <= 1.0 && a.settlement.payable >= 0.0 && ToolFloor(env.history, a.facts) <= a.risk.score
  {
    DecidedParts(env);
    AssessFloor(env.history, Adjudicate(env).facts, env.riskReply);
  }

  lemma EmptyClaimScoresLeast(history: map<string, ClaimantRecord>, facts: Facts)
    ensures ToolFloor(history, Facts("theft", 0.0, facts.claimant)) <= ToolFloor(history, facts)
  {
  }

  lemma AutoQualifies(env: Env, claimant: string)
    requires DecidesFor(env, claimant)
    ensures Qualifies(env.thresholds, Adjudicate(env))
    ensures ValidFacts(Adjudicate(env).facts) && Adjudicate(env).facts.claimant == claimant
  {
    RunRefines(env);
  }

  /** A claim of a person can be decided automatically exactly when the person has a name, the confidence and
      amount thresholds can be met at all, and the tool's score of an empty claim is within the risk threshold. */
  lemma CanBeDecidedExactly(t: Thresholds, history: map<string, ClaimantRecord>, claimant: string)
    ensures CanBeDecided(t, history, claimant) <==>
      && claimant != "" && t.confidence <= 1.0 && t.maxAuto >= 0.0
      && ToolFloor(history, Facts("theft", 0.0, claimant)) <= t.risk
  {
    var facts := Facts("theft", 0.0, claimant);
    if Admits(t, history, facts) { AdmittedIsDecided(t, history, facts); }
    if CanBeDecided(t, history, claimant) {
      var env: Env :| env.thresholds == t && env.history == history && DecidesFor(env, claimant);
      DecidedIsAdmitted(env, claimant);
    }
  }

  /** No claim of a person with a flagged record is ever decided automatically exactly when, under the name of every
      flagged record, the tool's score of an empty claim exceeds the risk threshold (or nobody can be decided). */
  lemma FlaggedNeverDecidedExactly(t: Thresholds, history: map<string, ClaimantRecord>)
    ensures (forall c :: FlaggedByName(history, c) ==> !CanBeDecided(t, history, c)) <==>
      || t.confidence > 1.0 || t.maxAuto < 0.0
      || forall k :: k in history && history[k].flagged ==>
           history[k].name == "" || ToolFloor(history, Facts("theft", 0.0, history[k].name)) > t.risk
  {
    forall c ensures CanBeDecided(t, history, c) <==>
      c != "" && t.confidence <= 1.0 && t.maxAuto >= 0.0 && ToolFloor(history, Facts("theft", 0.0, c)) <= t.risk
    {
      CanBeDecidedExactly(t, history, c);
    }
    forall k | k in history && history[k].flagged ensures FlaggedByName(history, history[k].name) {
    }
  }

  const FACTS: Facts := Facts("theft", 100.0, "Suspicious Sam")

  /** The claim of a person with a flagged record, under the default thresholds and records. */
  ghost function SamsClaim(): Env {
    ClaimOf(DEFAULT_THRESHOLDS, DEFAULT_HISTORY, FACTS)
  }

  /** Under the default thresholds and records, and with a retriever that finds the context sufficient, a claimant
      with a flagged record is decided automatically: the record is not found, because the history is asked for a
      name and answers to claimant ids. */
  lemma FlaggedClaimantDecided()
    ensures FlaggedByName(DEFAULT_HISTORY, "Suspicious Sam")
    ensures DecidesFor(SamsClaim(), "Suspicious Sam")
    ensures Final(RunGraph(SamsClaim())).disposition == Some(AutoApproved)
  {
    SuspiciousSamNotFloored(100.0);
    AdmittedIsDecided(DEFAULT_THRESHOLDS, DEFAULT_HISTORY, FACTS);
  }

  // ===== Failing agents ======================================================================

  /** The same claim with another coverage answer. */
  ghost function WithCoverage(reply: Reply<RawOpinion>): Env {
    SamsClaim().(coverageReply := reply)
  }

  lemma StuckAtCoverage(reply: Reply<RawOpinion>)
    requires Parsed(reply).Err?
    ensures Adjudicate(WithCoverage(reply)) == Stuck(CoverageDecision, Parsed(reply).error, Calls(reply))
  {
    assert CitationsOf(RETRIEVED.chunks) == [CLAUSE, OTHER];
    assert RetrievalOutcome(WithCoverage(reply), Some(FACTS)).result == Ok(CONTEXT);
  }

  /** The tokens of an unreadable answer are paid for, and missing from the trace. */
  lemma TokensLost()
    ensures
      var run := RunGraph(WithCoverage(Answer(Usage(1, 0), Unreadable)));
      && run.crash.None? && run.states != []
      && TotalCost(Final(run).trace) == Spent(run.calls) - COST_PER_PROMPT_TOKEN < Spent(run.calls)
  {
    var env := WithCoverage(Answer(Usage(1, 0), Unreadable));
    var usages := [Usage(1, 0)];
    assert usages[..0] == [] && TotalPrice(usages) == COST_PER_PROMPT_TOKEN;
    StuckAtCoverage(env.coverageReply);
    RunRefines(env);
    CostLost(env);
  }

  /** An untyped exception without a message leaves the graph instead of being recorded. */
  lemma EmptyMessageCrashes()
    ensures RunGraph(WithCoverage(Raised(Fault("", false)))).crash == Some(EmptyMessage("coverage_decision"))
  {
    StuckAtCoverage(Raised(Fault("", false)));
    CrashExactly(WithCoverage(Raised(Fault("", false))));
  }

  // ===== A document without words ===========================================================

  /** The validators accept a text of white space. */
  const BLANK: SourceDoc := SourceDoc("d", "t", " ", map[])

  lemma BlankChunk()
    ensures RagTheorems.ValidSource(BLANK)
    ensures DocumentEnds(BLANK, 450, 50)
    ensures ChunksOf(BLANK, 450, 50) == [Chunk("d", "d", "t", "", map[])]
  {
    assert FindHeadings(" ", 1) == [];
    assert HeadingAt(" ", 0).None?;
    assert Text.LStrip(" ") == "" && Text.Strip(" ") == "";
    var sections := Sections(" ", "");
    assert sections == [Section("", "")];
    assert Text.Words("") == [];
    var groups := SectionGroups(BLANK, 450, 50);
    assert groups[0] == [Chunk("d", "d", "t", "", map[])];
    assert groups == [groups[0]] && groups[1..] == [];
    assert Flatten(groups) == groups[0] + [];
  }

  lemma BlankIndexed()
    ensures Rag.CorpusEnds([BLANK], Rag.DEFAULT_CONFIG)
    ensures Rag.Indexed([BLANK], Rag.DEFAULT_CONFIG) == OneEntry(Chunk("d", "d", "t", "", map[]))
  {
    BlankChunk();
    OneDocument(BLANK, Rag.DEFAULT_CONFIG);
    OnePut(Chunk("d", "d", "t", "", map[]));
  }

  lemma OneEntryIs(ch: Chunk)
    ensures Rag.ChunkMap(OneEntry(ch)) && |OneEntry(ch).m| == 1
    ensures ch.clauseId in OneEntry(ch).m && OneEntry(ch).m[ch.clauseId] == ch
    ensures ch.clauseId != "" && ch.title != "" ==> RagTheorems.Named(OneEntry(ch))
  {
  }

  /** A retrieval over one chunk without text fails if the chunk passes the filter. */
  lemma EmptyChunkFails(p: Rag.Providers, query: string, k: Option<nat>, filter: VectorStore.Filter,
      config: Rag.RagConfig, ch: Chunk)
    requires RagTheorems.IdentityReranker(p.rerank) && ch.text == "" && ch.clauseId != "" && ch.title != ""
    requires config.denseWeight >= 0.0 && config.lexicalWeight >= 0.0 && config.k > 0
    requires RagTheorems.ChunkPasses(p, ch, filter)
    ensures Rag.ChunkMap(OneEntry(ch))
    ensures Rag.RetrieveSpec(config, p, OneEntry(ch), query, k, filter).Err?
  {
    var chunks := OneEntry(ch);
    OneEntryIs(ch);
    RagTheorems.RetrieveFails(config, p, chunks, query, k, filter, ch.clauseId);
  }

  const BLANK_CHUNK: Chunk := Chunk("d", "d", "t", "", map[])

  /** Once it is all that is ingested, every retrieval whose filter it passes fails, whatever the query and the
      number of results asked for. */
  lemma BlankFails(p: Rag.Providers, query: string, k: Option<nat>, filter: VectorStore.Filter)
    requires RagTheorems.IdentityReranker(p.rerank) && RagTheorems.ChunkPasses(p, BLANK_CHUNK, filter)
    ensures Rag.CorpusEnds([BLANK], Rag.DEFAULT_CONFIG)
    ensures Rag.ChunkMap(Rag.Indexed([BLANK], Rag.DEFAULT_CONFIG))
    ensures
      Rag.RetrieveSpec(Rag.DEFAULT_CONFIG, p, Rag.Indexed([BLANK], Rag.DEFAULT_CONFIG), query, k, filter).Err?
  {
    BlankIndexed();
    EmptyChunkFails(p, query, k, filter, Rag.DEFAULT_CONFIG, BLANK_CHUNK);
  }

  // ===== Two equal headings =================================================================

  predicate Letter(c: char) {
    !Text.IsSpace(c) && c != '#'
  }

  /** A heading over one line, twice. */
  function TwiceText(a: char, x: char, y: char): string {
    ['#', ' ', a, '\n', x, '\n', '#', ' ', a, '\n', y]
  }

  function Twice(a: char, x: char, y: char): SourceDoc {
    SourceDoc("d", "t", TwiceText(a, x, y), map[])
  }

  lemma HeadingLine(t: string, at: nat)
    requires at + 4 <= |t| && t[at] == '#' && t[at + 1] == ' ' && Letter(t[at + 2]) && t[at + 3] == '\n'
    requires at == 0 || t[at - 1] == '\n'
    ensures HeadingAt(t, at) == Some(Heading(at, at + 1, at + 2, at + 3))
  {
    MarkEndIs(t, at, at + 1);
    assert SpaceEnd(t, at + 2) == at + 2 && LineEnd(t, at + 3) == at + 3;
  }

  lemma NoHeading(t: string, at: nat)
    requires at < |t| && t[at] != '#'
    ensures FindHeadings(t, at) == FindHeadings(t, at + 1)
  {
  }

  lemma TwiceHeadings(a: char, x: char, y: char)
    requires Letter(a) && Letter(x) && Letter(y)
    ensures FindHeadings(TwiceText(a, x, y), 0) == [Heading(0, 1, 2, 3), Heading(6, 7, 8, 9)]
  {
    var t := TwiceText(a, x, y);
    HeadingLine(t, 0);
    HeadingLine(t, 6);
    NoHeading(t, 3);
    NoHeading(t, 4);
    NoHeading(t, 5);
    NoHeading(t, 9);
    NoHeading(t, 10);
    assert FindHeadings(t, 11) == [];
    assert FindHeadings(t, 6) == [Heading(6, 7, 8, 9)] + FindHeadings(t, 9);
  }

  lemma OneLetter(c: char)
    requires !Text.IsSpace(c)
    ensures Text.Strip([c]) == [c] && Text.Words([c]) == [[c]]
  {
    assert Text.LStrip([c]) == [c] && Text.RStrip([c]) == [c];
    assert Text.WordLen([c]) == 1 && [c][..1] == [c] && [c][1..] == [];
  }

  lemma OneLetterLine(c: char, end: string)
    requires !Text.IsSpace(c) && (end == "" || end == "\n")
    ensures Text.Strip("\n" + [c] + end) == [c]
  {
    var line := [c] + end;
    OneLetter(c);
    assert ("\n" + [c] + end)[1..] == line;
    assert Text.LStrip("\n" + [c] + end) == line;
    if end == "" {
      assert line == [c];
    } else {
      assert line[..1] == [c];
    }
  }

  lemma TwoWords(c: char, d: char)
    requires !Text.IsSpace(c) && !Text.IsSpace(d)
    ensures Text.Words([c] + "\n" + [d]) == [[c], [d]]
  {
    OneLetter(c);
    OneLetter(d);
    Text.WordsConcat([c], "\n" + [d]);
    assert [c] + ("\n" + [d]) == [c] + "\n" + [d];
    assert ("\n" + [d])[1..] == [d];
  }

  /** The section of a one-letter heading over a one-letter line. */
  lemma SmallSection(head: char, body: char, end: string)
    requires !Text.IsSpace(head) && !Text.IsSpace(body) && (end == "" || end == "\n")
    ensures MakeSection("", [head], "\n" + [body] + end) == Section([head], [head] + "\n" + [body])
  {
    OneLetter(head);
    OneLetterLine(body, end);
  }

  /** The sections of a text that is two headings and what follows them. */
  lemma TwoSections(text: string, base: string, h: Heading, g: Heading)
    requires FindHeadings(text, 0) == [h, g] && h.start == 0
    ensures 0 <= h.headStart <= h.end <= g.start <= g.headStart <= g.end <= |text|
    ensures Sections(text, base) ==
      [MakeSection(base, text[h.headStart..h.end], text[h.end..g.start]),
       MakeSection(base, text[g.headStart..g.end], text[g.end..|text|])]
  {
    var ms := FindHeadings(text, 0);
    assert ms[0] == h && ms[1] == g && IsHeading(text, ms[0]) && IsHeading(text, ms[1]);
    assert text[..0] == "" && Text.Strip("") == "";
  }

  lemma TwiceSections(a: char, x: char, y: char)
    requires Letter(a) && Letter(x) && Letter(y)
    ensures Sections(TwiceText(a, x, y), "") == [Section([a], [a] + "\n" + [x]), Section([a], [a] + "\n" + [y])]
  {
    TwiceHeadings(a, x, y);
    TwoSections(TwiceText(a, x, y), "", Heading(0, 1, 2, 3), Heading(6, 7, 8, 9));
    TwiceSlices(a, x, y);
    SmallSection(a, x, "\n");
    SmallSection(a, y, "");
  }

  lemma TwiceSlices(a: char, x: char, y: char)
    ensures
      var t := TwiceText(a, x, y);
      && t[2..3] == [a] && t[3..6] == "\n" + [x] + "\n"
      && t[8..9] == [a] && t[9..|t|] == "\n" + [y] + ""
  {
  }

  function WholeChunk(doc: SourceDoc, s: Section): Chunk {
    Chunk(ClauseBase(doc, s.path), doc.docId, doc.title, s.text, doc.metadata)
  }

  lemma WholeSection(doc: SourceDoc, s: Section, max: nat, overlap: int)
    requires |Text.Words(s.text)| <= max
    ensures SplitEnds(|Text.Words(s.text)|, max, overlap)
    ensures SectionChunks(doc, s, max, overlap) == [WholeChunk(doc, s)]
  {
  }

  /** The chunks of a document with two short sections. */
  lemma TwoChunks(doc: SourceDoc, s: Section, r: Section, max: nat, overlap: int)
    requires Sections(doc.text, BasePath(doc)) == [s, r]
    requires |Text.Words(s.text)| <= max && |Text.Words(r.text)| <= max
    ensures DocumentEnds(doc, max, overlap)
    ensures ChunksOf(doc, max, overlap) == [WholeChunk(doc, s), WholeChunk(doc, r)]
  {
    WholeSection(doc, s, max, overlap);
    WholeSection(doc, r, max, overlap);
    var groups := SectionGroups(doc, max, overlap);
    var a, b := [WholeChunk(doc, s)], [WholeChunk(doc, r)];
    assert groups == [a, b];
    assert groups[1..] == [b] && [b][1..] == [];
    assert Flatten([b]) == b + [] == b;
    assert a + b == [WholeChunk(doc, s), WholeChunk(doc, r)];
  }

  /** The chunk of the heading `a` over the line `x`. */
  function LineChunk(a: char, x: char): Chunk {
    Chunk("d:" + [a], "d", "t", [a] + "\n" + [x], map[])
  }

  lemma TwiceChunks(a: char, x: char, y: char)
    requires Letter(a) && Letter(x) && Letter(y)
    ensures DocumentEnds(Twice(a, x, y), 450, 50)
    ensures ChunksOf(Twice(a, x, y), 450, 50) == [LineChunk(a, x), LineChunk(a, y)]
  {
    var s, r := Section([a], [a] + "\n" + [x]), Section([a], [a] + "\n" + [y]);
    TwiceSections(a, x, y);
    TwoWords(a, x);
    TwoWords(a, y);
    assert BasePath(Twice(a, x, y)) == "";
    TwoChunks(Twice(a, x, y), s, r, 450, 50);
    WholeLine(Twice(a, x, y), a, x);
    WholeLine(Twice(a, x, y), a, y);
  }

  lemma WholeLine(doc: SourceDoc, a: char, x: char)
    requires doc.docId == "d" && doc.title == "t" && doc.metadata == map[]
    ensures WholeChunk(doc, Section([a], [a] + "\n" + [x])) == LineChunk(a, x)
  {
    assert "d" + ":" + [a] == "d:" + [a];
  }

  lemma OneDocument(doc: SourceDoc, config: Rag.RagConfig)
    requires DocumentEnds(doc, config.chunkTokens, config.chunkOverlap)
    ensures Rag.CorpusEnds([doc], config)
    ensures Rag.AllChunks([doc], config) == ChunksOf(doc, config.chunkTokens, config.chunkOverlap)
  {
    assert [doc][..0] == [];
    assert Rag.AllChunks([], config) == [];
  }

  lemma SecondWins(a: Chunk, b: Chunk)
    requires a.clauseId == b.clauseId
    ensures Rag.PutChunks(Dict([], map[]), [a, b]) == OneEntry(b)
  {
    assert [a, b][..1] == [a];
    OnePut(a);
  }

  lemma OnePut(ch: Chunk)
    ensures Rag.PutChunks(Dict([], map[]), [ch]) == OneEntry(ch)
  {
    assert [ch][..0] == [];
    assert Rag.PutChunks(Dict([], map[]), []) == Dict([], map[]);
  }

  lemma TwiceIndexed(a: char, x: char, y: char)
    requires Letter(a) && Letter(x) && Letter(y)
    ensures Rag.CorpusEnds([Twice(a, x, y)], Rag.DEFAULT_CONFIG)
    ensures Rag.AllChunks([Twice(a, x, y)], Rag.DEFAULT_CONFIG) == [LineChunk(a, x), LineChunk(a, y)]
    ensures Rag.Indexed([Twice(a, x, y)], Rag.DEFAULT_CONFIG) == OneEntry(LineChunk(a, y))
  {
    TwiceChunks(a, x, y);
    OneDocument(Twice(a, x, y), Rag.DEFAULT_CONFIG);
    SecondWins(LineChunk(a, x), LineChunk(a, y));
  }

  function OneEntry(ch: Chunk): Dict<Chunk> {
    Dict([ch.clauseId], map[ch.clauseId := ch])
  }

  lemma OneEntryIndices(embed: string -> seq<real>, ch: Chunk)
    ensures Rag.TextMap(OneEntry(ch).m) == map[ch.clauseId := ch.text]
    ensures Rag.StoreOf(embed, OneEntry(ch)) == Dict([ch.clauseId], map[ch.clauseId := Rag.RecordOf(embed, ch)])
  {
  }

  /** Two equal headings in one document share a clause id, and the first section leaves all three indices:
      the chunk map, the texts BM25 indexes and the vector store hold the second one only. */
  lemma SectionsCollide(a: char, x: char, y: char, embed: string -> seq<real>)
    requires Letter(a) && Letter(x) && Letter(y) && x != y
    ensures Rag.CorpusEnds([Twice(a, x, y)], Rag.DEFAULT_CONFIG)
    ensures LineChunk(a, x) in Rag.AllChunks([Twice(a, x, y)], Rag.DEFAULT_CONFIG)
    ensures
      var chunks, kept := Rag.Indexed([Twice(a, x, y)], Rag.DEFAULT_CONFIG), LineChunk(a, y);
      && !Rag.Survives(chunks.m, LineChunk(a, x))
      && Rag.TextMap(chunks.m) == map[kept.clauseId := kept.text]
      && Rag.StoreOf(embed, chunks) == Dict([kept.clauseId], map[kept.clauseId := Rag.RecordOf(embed, kept)])
  {
    TwiceIndexed(a, x, y);
    OneEntryIndices(embed, LineChunk(a, y));
    assert LineChunk(a, x).text[2] != LineChunk(a, y).text[2];
  }
}
