/**
 * Sales stages: the pipelines, the single writer of an opportunity's stage, and the stage history it appends to.
 * Row numbers are ids.
 */
module OpportunityStage {
  import opened Common

  type Id = nat

  const MAX_LOST_REASON_LENGTH := 500

  // ------------------------------------------------------------------------------------- loss reason

  /** White space and line terminators, as String.prototype.trim removes them (ECMA-262, section 22.1.3.32). */
  predicate Blank(c: char) {
    || '\t' <= c <= '\r' || c == ' ' || c == '\U{A0}' || c == '\U{1680}' || '\U{2000}' <= c <= '\U{200A}'
    || c == '\U{2028}' || c == '\U{2029}' || c == '\U{202F}' || c == '\U{205F}' || c == '\U{3000}' || c == '\U{FEFF}'
  }

  function TrimStart(s: string): (t: string)
    ensures t == [] || !Blank(t[0])
  {
    if s == [] || !Blank(s[0]) then s else TrimStart(s[1..])
  }

  function TrimEnd(s: string): (t: string)
    ensures t <= s
    ensures t == [] || !Blank(t[|t| - 1])
  {
    if s == [] || !Blank(s[|s| - 1]) then s else TrimEnd(s[..|s| - 1])
  }

  function Trim(s: string): string { TrimEnd(TrimStart(s)) }

  function NormalizeLostReason(value: Option<string>): Option<string> {
    if value.None? || Trim(value.value) == [] then None
    else
      var trimmed := Trim(value.value);
      Some(if |trimmed| <= MAX_LOST_REASON_LENGTH then trimmed else trimmed[..MAX_LOST_REASON_LENGTH])
  }

  lemma {:induction false} TrimStartBlank(s: string)
    ensures TrimStart(s) == [] <==> forall i :: 0 <= i < |s| ==> Blank(s[i])
  {
    if s != [] && Blank(s[0]) {
      TrimStartBlank(s[1..]);
      assert s == [s[0]] + s[1..];
    }
  }

  lemma TrimKeepsFirst(s: string)
    requires s != [] && !Blank(s[0])
    ensures TrimEnd(s) != [] && TrimEnd(s)[0] == s[0]
  {
  }

  /** A reason is kept exactly when it has a character that is not blank; what is kept has 1 to 500 characters. */
  lemma LostReasonKept(value: Option<string>)
    ensures NormalizeLostReason(value).Some? <==> value.Some? && exists i :: 0 <= i < |value.value| && !Blank(value.value[i])
    ensures NormalizeLostReason(value).Some? ==>
              1 <= |NormalizeLostReason(value).value| <= MAX_LOST_REASON_LENGTH && !Blank(NormalizeLostReason(value).value[0])
  {
    if value.Some? {
      TrimStartBlank(value.value);
      var started := TrimStart(value.value);
      if started != [] {
        TrimKeepsFirst(started);
      }
    }
  }

  lemma TrimTrimmed(s: string)
    requires s == [] || (!Blank(s[0]) && !Blank(s[|s| - 1]))
    ensures Trim(s) == s
  {
  }

  lemma TrimmedEnds(s: string)
    ensures Trim(s) == [] || (!Blank(Trim(s)[0]) && !Blank(Trim(s)[|Trim(s)| - 1]))
  {
    if TrimStart(s) != [] {
      TrimKeepsFirst(TrimStart(s));
    }
  }

  /** Normalising twice changes nothing exactly when the trimmed text fits, or is not cut just behind a blank. */
  lemma LostReasonIdempotent(value: string)
    ensures NormalizeLostReason(NormalizeLostReason(Some(value))) == NormalizeLostReason(Some(value))
       <==> |Trim(value)| <= MAX_LOST_REASON_LENGTH || !Blank(Trim(value)[MAX_LOST_REASON_LENGTH - 1])
  {
    if Trim(value) != [] {
      var kept := NormalizeLostReason(Some(value)).value;
      TrimmedEnds(value);
      if !Blank(kept[|kept| - 1]) {
        TrimTrimmed(kept);
      } else {
        TrimmedEnds(kept);
      }
    }
  }

  // ------------------------------------------------------------------------------------------ tables

  datatype StageSpec = StageSpec(code: string, position: int, isWon: bool, isLost: bool)

  datatype Stage = Stage(pipeline: Id, spec: StageSpec)

  datatype Opportunity = Opportunity(person: Id, pipeline: Id, stage: Id, development: Option<Id>, unit: Option<Id>,
                                     lostReason: Option<string>)

  datatype HistoryRow = HistoryRow(opportunity: Id, from: Option<Id>, to: Id, lostReason: Option<string>)

  datatype Crm = Crm(pipelines: nat, stages: seq<Stage>, opportunities: seq<Opportunity>, history: seq<HistoryRow>)

  const DEFAULT_STAGES := [
    StageSpec("NOVO", 0, false, false), StageSpec("CONTATO_INICIAL", 1, false, false),
    StageSpec("QUALIFICADO", 2, false, false), StageSpec("VISITA", 3, false, false),
    StageSpec("PROPOSTA", 4, false, false), StageSpec("NEGOCIACAO", 5, false, false),
    StageSpec("GANHO", 6, true, false), StageSpec("PERDIDO", 7, false, true)]

  // --------------------------------------------------------------------------------------- pipelines

  function WonCount(stages: seq<StageSpec>): nat {
    if stages == [] then 0 else WonCount(stages[..|stages| - 1]) + if stages[|stages| - 1].isWon then 1 else 0
  }

  function LostCount(stages: seq<StageSpec>): nat {
    if stages == [] then 0 else LostCount(stages[..|stages| - 1]) + if stages[|stages| - 1].isLost then 1 else 0
  }

  /** Sets of codes and positions as large as the list: no two are equal. */
  predicate Distinct(stages: seq<StageSpec>) {
    forall i, j | 0 <= i < j < |stages| :: stages[i].code != stages[j].code && stages[i].position != stages[j].position
  }

  predicate ValidPipelineStages(stages: seq<StageSpec>) {
    && Distinct(stages)
    && !(exists i | 0 <= i < |stages| :: stages[i].isWon && stages[i].isLost)
    && WonCount(stages) == 1
    && LostCount(stages) == 1
  }

  function StageRows(pipeline: Id, specs: seq<StageSpec>): seq<Stage> {
    seq(|specs|, i requires 0 <= i < |specs| => Stage(pipeline, specs[i]))
  }

  function CreatePipeline(crm: Crm, specs: Option<seq<StageSpec>>): Outcome<Crm> {
    var stages := if specs.Some? then specs.value else DEFAULT_STAGES;
    if !ValidPipelineStages(stages) then Err(BadRequest)
    else Ok(crm.(pipelines := crm.pipelines + 1, stages := crm.stages + StageRows(crm.pipelines, stages)))
  }

  /** The won stage of a pipeline with the lowest position. */
  function WonStage(stages: seq<Stage>, pipeline: Id): (w: Option<Id>)
    ensures w.Some? ==> w.value < |stages| && stages[w.value].pipeline == pipeline && stages[w.value].spec.isWon
    ensures w.None? ==> forall i :: 0 <= i < |stages| && stages[i].pipeline == pipeline ==> !stages[i].spec.isWon
    ensures w.Some? ==> forall i :: 0 <= i < |stages| && stages[i].pipeline == pipeline && stages[i].spec.isWon ==>
              stages[w.value].spec.position <= stages[i].spec.position
  {
    if stages == [] then None
    else
      var last := |stages| - 1;
      var before := WonStage(stages[..last], pipeline);
      if stages[last].pipeline != pipeline || !stages[last].spec.isWon then before
      else if before.Some? && stages[before.value].spec.position <= stages[last].spec.position then before
      else Some(last)
  }

  /** The stage of a pipeline with the lowest position. */
  function FirstStage(stages: seq<Stage>, pipeline: Id): (w: Option<Id>)
    ensures w.Some? ==> w.value < |stages| && stages[w.value].pipeline == pipeline
    ensures w.None? ==> forall i :: 0 <= i < |stages| ==> stages[i].pipeline != pipeline
    ensures w.Some? ==> forall i :: 0 <= i < |stages| && stages[i].pipeline == pipeline ==>
              stages[w.value].spec.position <= stages[i].spec.position
  {
    if stages == [] then None
    else
      var last := |stages| - 1;
      var before := FirstStage(stages[..last], pipeline);
      if stages[last].pipeline != pipeline then before
      else if before.Some? && stages[before.value].spec.position <= stages[last].spec.position then before
      else Some(last)
  }

  // ------------------------------------------------------------------------------------ stage writer

  datatype StageTarget = StageTarget(id: Id, isWon: bool, isLost: bool)

  /** The single writer of Opportunity.stageId; `unit` is the additional column the proposal and sale flows set. */
  function ApplyStageChange(crm: Crm, id: Id, to: StageTarget, reason: Option<string>, unit: Option<Id>): Outcome<Crm>
    requires id < |crm.opportunities|
  {
    var row := crm.opportunities[id];
    if to.id == row.stage then Ok(crm)
    else
      var lostReason := if to.isLost then NormalizeLostReason(reason) else None;
      if to.isLost && lostReason.None? then Err(BadRequest)
      else
        var moved := row.(unit := if unit.Some? then unit else row.unit, stage := to.id, lostReason := lostReason);
        Ok(crm.(opportunities := crm.opportunities[id := moved],
                history := crm.history + [HistoryRow(id, Some(row.stage), to.id, lostReason)]))
  }

  /** The stage flags of the table, as the queries select them. */
  function StageFlags(stages: seq<Stage>, id: Id): Option<StageTarget> {
    if id >= |stages| then None else Some(StageTarget(id, stages[id].spec.isWon, stages[id].spec.isLost))
  }

  function MoveOpportunity(crm: Crm, id: Id, stage: Id, reason: Option<string>): Outcome<Crm> {
    if id >= |crm.opportunities| then Err(NotFound)
    else if stage >= |crm.stages| || crm.stages[stage].pipeline != crm.opportunities[id].pipeline then Err(BadRequest)
    else ApplyStageChange(crm, id, StageFlags(crm.stages, stage).value, reason, None)
  }

  /** A new opportunity in an initial stage, with the first row of its history. */
  function CreateOpportunity(crm: Crm, person: Id, pipeline: Id, stage: Option<Id>, development: Option<Id>, unit: Option<Id>): Outcome<Crm> {
    if pipeline >= crm.pipelines then Err(BadRequest)
    else
      var found := if stage.None? then FirstStage(crm.stages, pipeline)
                   else if stage.value < |crm.stages| && crm.stages[stage.value].pipeline == pipeline then stage
                   else None;
      if found.None? then Err(BadRequest)
      else if crm.stages[found.value].spec.isWon || crm.stages[found.value].spec.isLost then Err(BadRequest)
      else
        Ok(crm.(opportunities := crm.opportunities + [Opportunity(person, pipeline, found.value, development, unit, None)],
                history := crm.history + [HistoryRow(|crm.opportunities|, None, found.value, None)]))
  }

  /** The move to the won stage of the pipeline that an accepted proposal and a sale share. */
  function MoveToWon(crm: Crm, id: Id, unit: Id): Outcome<Crm>
    requires id < |crm.opportunities|
  {
    var won := WonStage(crm.stages, crm.opportunities[id].pipeline);
    if won.None? then Err(Conflict)
    else ApplyStageChange(crm, id, StageTarget(won.value, true, false), None, Some(unit))
  }

  /** winOpportunity of the proposal acceptance. */
  function WinOpportunity(crm: Crm, id: Id, person: Id, unit: Id): Outcome<Crm> {
    if id >= |crm.opportunities| then Err(NotFound)
    else
      var row := crm.opportunities[id];
      var current := StageFlags(crm.stages, row.stage);
      if row.person != person || (row.unit.Some? && row.unit != Some(unit)) then Err(Conflict)
      else if current.Some? && current.value.isLost then Err(Conflict)
      else if current.Some? && current.value.isWon then Ok(crm)
      else MoveToWon(crm, id, if row.unit.Some? then row.unit.value else unit)
  }

  /** ensureOpportunityWon of the sale conversion. */
  function EnsureOpportunityWon(crm: Crm, id: Id, person: Id, unit: Id, development: Id): Outcome<Crm> {
    if id >= |crm.opportunities| then Err(NotFound)
    else
      var row := crm.opportunities[id];
      var current := StageFlags(crm.stages, row.stage);
      if row.person != person || row.development != Some(development) || (row.unit.Some? && row.unit != Some(unit)) then Err(Conflict)
      else if current.Some? && current.value.isLost then Err(Conflict)
      else if current.Some? && current.value.isWon then
        Ok(if row.unit.None? then crm.(opportunities := crm.opportunities[id := row.(unit := Some(unit))]) else crm)
      else MoveToWon(crm, id, unit)
  }

  // --------------------------------------------------------------------------------------- invariant

  /** The stage that carries a flag in a pipeline, and no other does. */
  ghost predicate OnlyWon(stages: seq<Stage>, pipeline: Id, w: Id) {
    w < |stages| && stages[w].pipeline == pipeline
    && forall i :: 0 <= i < |stages| && stages[i].pipeline == pipeline ==> (stages[i].spec.isWon <==> i == w)
  }

  ghost predicate OnlyLost(stages: seq<Stage>, pipeline: Id, l: Id) {
    l < |stages| && stages[l].pipeline == pipeline
    && forall i :: 0 <= i < |stages| && stages[i].pipeline == pipeline ==> (stages[i].spec.isLost <==> i == l)
  }

  ghost predicate HasWonAndLost(stages: seq<Stage>, pipeline: Id) {
    (exists w :: OnlyWon(stages, pipeline, w)) && (exists l :: OnlyLost(stages, pipeline, l))
  }

  ghost predicate StagesOk(crm: Crm) {
    && (forall i :: 0 <= i < |crm.stages| ==> crm.stages[i].pipeline < crm.pipelines)
    && (forall i :: 0 <= i < |crm.stages| ==> !(crm.stages[i].spec.isWon && crm.stages[i].spec.isLost))
    && (forall p: Id :: p < crm.pipelines ==> HasWonAndLost(crm.stages, p))
  }

  /** The history rows of an opportunity, oldest first. */
  function HistoryOf(history: seq<HistoryRow>, id: Id): seq<HistoryRow> {
    if history == [] then []
    else
      var last := history[|history| - 1];
      HistoryOf(history[..|history| - 1], id) + if last.opportunity == id then [last] else []
  }

  /** The rows form a path of stages: no origin first, then each origin the previous target, never standing still. */
  ghost predicate IsPath(rows: seq<HistoryRow>) {
    && rows != []
    && rows[0].from.None?
    && forall i :: 0 < i < |rows| ==> rows[i].from == Some(rows[i - 1].to) && rows[i].to != rows[i - 1].to
  }

  /** Every row names a loss reason exactly when its target is a lost stage. */
  ghost predicate ReasonsOk(rows: seq<HistoryRow>, stages: seq<Stage>) {
    forall i :: 0 <= i < |rows| ==>
      rows[i].to < |stages| && (rows[i].lostReason.Some? <==> stages[rows[i].to].spec.isLost)
  }

  ghost predicate OpportunityOk(row: Opportunity, rows: seq<HistoryRow>, stages: seq<Stage>) {
    && row.stage < |stages|
    && stages[row.stage].pipeline == row.pipeline
    && IsPath(rows)
    && ReasonsOk(rows, stages)
    && rows[|rows| - 1].to == row.stage
    && rows[|rows| - 1].lostReason == row.lostReason
  }

  ghost predicate CrmInv(crm: Crm) {
    && StagesOk(crm)
    && (forall i :: 0 <= i < |crm.opportunities| ==>
          crm.opportunities[i].pipeline < crm.pipelines
          && OpportunityOk(crm.opportunities[i], HistoryOf(crm.history, i), crm.stages))
    && (forall k :: 0 <= k < |crm.history| ==> crm.history[k].opportunity < |crm.opportunities|)
  }

  lemma HistoryAppend(history: seq<HistoryRow>, row: HistoryRow, id: Id)
    ensures HistoryOf(history + [row], id) == HistoryOf(history, id) + if row.opportunity == id then [row] else []
  {
  }

  lemma {:induction false} HistoryOfFresh(history: seq<HistoryRow>, id: Id)
    requires forall k :: 0 <= k < |history| ==> history[k].opportunity != id
    ensures HistoryOf(history, id) == []
  {
    if history != [] {
      HistoryOfFresh(history[..|history| - 1], id);
    }
  }

  /** A row that starts where the path ends extends the path. */
  lemma PathExtended(row: Opportunity, moved: Opportunity, rows: seq<HistoryRow>, stages: seq<Stage>, added: HistoryRow)
    requires OpportunityOk(row, rows, stages)
    requires moved.stage < |stages| && moved.stage != row.stage
    requires moved.pipeline == row.pipeline == stages[moved.stage].pipeline
    requires added.from == Some(row.stage) && added.to == moved.stage && added.lostReason == moved.lostReason
    requires moved.lostReason.Some? <==> stages[moved.stage].spec.isLost
    ensures OpportunityOk(moved, rows + [added], stages)
  {
  }

  /** The stage writer extends the path of its opportunity by one step and leaves every other path alone. */
  lemma ApplyStageChangeKeeps(crm: Crm, id: Id, to: StageTarget, reason: Option<string>, unit: Option<Id>)
    requires CrmInv(crm) && id < |crm.opportunities|
    requires to.id < |crm.stages| && crm.stages[to.id].pipeline == crm.opportunities[id].pipeline
    requires to.isLost == crm.stages[to.id].spec.isLost
    requires ApplyStageChange(crm, id, to, reason, unit).Ok?
    ensures CrmInv(ApplyStageChange(crm, id, to, reason, unit).value)
  {
    var after := ApplyStageChange(crm, id, to, reason, unit).value;
    if to.id != crm.opportunities[id].stage {
      var added := after.history[|crm.history|];
      OthersKeep(crm, id, after, added);
      HistoryAppend(crm.history, added, id);
      PathExtended(crm.opportunities[id], after.opportunities[id], HistoryOf(crm.history, id), crm.stages, added);
    }
  }

  /** One opportunity changes and gets one history row: the others are as they were. */
  lemma OthersKeep(crm: Crm, id: Id, after: Crm, added: HistoryRow)
    requires CrmInv(crm) && added.opportunity == id && after.stages == crm.stages
    requires after.history == crm.history + [added] && |after.opportunities| >= |crm.opportunities|
    requires forall i :: 0 <= i < |crm.opportunities| && i != id ==> after.opportunities[i] == crm.opportunities[i]
    ensures forall i :: 0 <= i < |crm.opportunities| && i != id ==>
              OpportunityOk(after.opportunities[i], HistoryOf(after.history, i), after.stages)
  {
  }

  lemma MoveOpportunityKeeps(crm: Crm, id: Id, stage: Id, reason: Option<string>)
    requires CrmInv(crm) && MoveOpportunity(crm, id, stage, reason).Ok?
    ensures CrmInv(MoveOpportunity(crm, id, stage, reason).value)
  {
    ApplyStageChangeKeeps(crm, id, StageFlags(crm.stages, stage).value, reason, None);
  }

  lemma MoveToWonKeeps(crm: Crm, id: Id, unit: Id)
    requires CrmInv(crm) && id < |crm.opportunities|
    ensures MoveToWon(crm, id, unit).Ok? && CrmInv(MoveToWon(crm, id, unit).value)
  {
    var pipeline := crm.opportunities[id].pipeline;
    assert HasWonAndLost(crm.stages, pipeline);
    var w: Id :| OnlyWon(crm.stages, pipeline, w);
    var won := WonStage(crm.stages, pipeline);
    assert crm.stages[w].spec.isWon;
    ApplyStageChangeKeeps(crm, id, StageTarget(won.value, true, false), None, Some(unit));
  }

  /** A column beside the stage changes: nothing about stages does. */
  lemma OtherColumnsKeep(crm: Crm, id: Id, row: Opportunity)
    requires CrmInv(crm) && id < |crm.opportunities|
    requires row.stage == crm.opportunities[id].stage && row.pipeline == crm.opportunities[id].pipeline
    requires row.lostReason == crm.opportunities[id].lostReason
    ensures CrmInv(crm.(opportunities := crm.opportunities[id := row]))
  {
  }

  lemma WinOpportunityKeeps(crm: Crm, id: Id, person: Id, unit: Id)
    requires CrmInv(crm) && WinOpportunity(crm, id, person, unit).Ok?
    ensures CrmInv(WinOpportunity(crm, id, person, unit).value)
  {
    var row := crm.opportunities[id];
    MoveToWonKeeps(crm, id, if row.unit.Some? then row.unit.value else unit);
  }

  lemma EnsureOpportunityWonKeeps(crm: Crm, id: Id, person: Id, unit: Id, development: Id)
    requires CrmInv(crm) && EnsureOpportunityWon(crm, id, person, unit, development).Ok?
    ensures CrmInv(EnsureOpportunityWon(crm, id, person, unit, development).value)
  {
    MoveToWonKeeps(crm, id, unit);
    OtherColumnsKeep(crm, id, crm.opportunities[id].(unit := Some(unit)));
  }

  lemma CreateOpportunityKeeps(crm: Crm, person: Id, pipeline: Id, stage: Option<Id>, development: Option<Id>, unit: Option<Id>)
    requires CrmInv(crm) && CreateOpportunity(crm, person, pipeline, stage, development, unit).Ok?
    ensures CrmInv(CreateOpportunity(crm, person, pipeline, stage, development, unit).value)
  {
    var id, after := |crm.opportunities|, CreateOpportunity(crm, person, pipeline, stage, development, unit).value;
    var added := after.history[|crm.history|];
    HistoryOfFresh(crm.history, id);
    HistoryAppend(crm.history, added, id);
    OthersKeep(crm, id, after, added);
    assert OpportunityOk(after.opportunities[id], [added], after.stages);
  }

  // ----------------------------------------------------------------------------------- new pipelines

  lemma {:induction false} SingleWon(specs: seq<StageSpec>) returns (w: nat)
    requires WonCount(specs) == 1
    ensures w < |specs| && forall i :: 0 <= i < |specs| ==> (specs[i].isWon <==> i == w)
  {
    var last := |specs| - 1;
    if specs[last].isWon {
      NoneWon(specs[..last]);
      w := last;
    } else {
      w := SingleWon(specs[..last]);
      assert forall i :: 0 <= i < last ==> specs[i] == specs[..last][i];
    }
  }

  lemma {:induction false} NoneWon(specs: seq<StageSpec>)
    requires WonCount(specs) == 0
    ensures forall i :: 0 <= i < |specs| ==> !specs[i].isWon
  {
    if specs != [] {
      NoneWon(specs[..|specs| - 1]);
      assert forall i :: 0 <= i < |specs| - 1 ==> specs[i] == specs[..|specs| - 1][i];
    }
  }

  lemma {:induction false} SingleLost(specs: seq<StageSpec>) returns (l: nat)
    requires LostCount(specs) == 1
    ensures l < |specs| && forall i :: 0 <= i < |specs| ==> (specs[i].isLost <==> i == l)
  {
    var last := |specs| - 1;
    if specs[last].isLost {
      NoneLost(specs[..last]);
      l := last;
    } else {
      l := SingleLost(specs[..last]);
      assert forall i :: 0 <= i < last ==> specs[i] == specs[..last][i];
    }
  }

  lemma {:induction false} NoneLost(specs: seq<StageSpec>)
    requires LostCount(specs) == 0
    ensures forall i :: 0 <= i < |specs| ==> !specs[i].isLost
  {
    if specs != [] {
      NoneLost(specs[..|specs| - 1]);
      assert forall i :: 0 <= i < |specs| - 1 ==> specs[i] == specs[..|specs| - 1][i];
    }
  }

  lemma CreatePipelineStages(crm: Crm, specs: seq<StageSpec>)
    requires StagesOk(crm) && ValidPipelineStages(specs)
    ensures StagesOk(crm.(pipelines := crm.pipelines + 1, stages := crm.stages + StageRows(crm.pipelines, specs)))
  {
    var p, n := crm.pipelines, |crm.stages|;
    var added := StageRows(p, specs);
    var after := crm.stages + added;
    var w := SingleWon(specs);
    var l := SingleLost(specs);
    assert forall i :: n <= i < |after| ==> after[i] == Stage(p, specs[i - n]);
    assert OnlyWon(after, p, n + w);
    assert OnlyLost(after, p, n + l);
    forall q: Id | q < p
      ensures HasWonAndLost(after, q)
    {
      assert HasWonAndLost(crm.stages, q);
      var won: Id :| OnlyWon(crm.stages, q, won);
      var lost: Id :| OnlyLost(crm.stages, q, lost);
      assert OnlyWon(after, q, won);
      assert OnlyLost(after, q, lost);
    }
  }

  lemma CreatePipelineKeeps(crm: Crm, specs: Option<seq<StageSpec>>)
    requires CrmInv(crm) && CreatePipeline(crm, specs).Ok?
    ensures CrmInv(CreatePipeline(crm, specs).value)
  {
    CreatePipelineStages(crm, if specs.Some? then specs.value else DEFAULT_STAGES);
    var after := CreatePipeline(crm, specs).value;
    forall i | 0 <= i < |crm.opportunities|
      ensures OpportunityOk(crm.opportunities[i], HistoryOf(crm.history, i), after.stages)
    {
      assert OpportunityOk(crm.opportunities[i], HistoryOf(crm.history, i), crm.stages);
    }
  }

  /** The default stages pass the validation, so a pipeline without stages of its own is created. */
  lemma DefaultStagesValid()
    ensures ValidPipelineStages(DEFAULT_STAGES)
  {
    var s := DEFAULT_STAGES;
    assert s[..7][..6] == s[..6];
    NoFlags(s[..6]);
    assert WonCount(s[..7]) == 1 && LostCount(s[..7]) == 0;
  }

  lemma {:induction false} NoFlags(specs: seq<StageSpec>)
    requires forall i :: 0 <= i < |specs| ==> !specs[i].isWon && !specs[i].isLost
    ensures WonCount(specs) == 0 && LostCount(specs) == 0
  {
    if specs != [] {
      NoFlags(specs[..|specs| - 1]);
    }
  }
}
