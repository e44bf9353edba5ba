/** What each call does to pipelines, opportunities and the stage history, on their columns. */
module StageEffects {
  import opened Common
  import opened OpportunityStage

  // ------------------------------------------------------------------------------------- loss reason

  ghost predicate AllBlank(s: string) { forall i :: 0 <= i < |s| ==> Blank(s[i]) }

  predicate HasText(reason: Option<string>) {
    reason.Some? && exists i | 0 <= i < |reason.value| :: !Blank(reason.value[i])
  }

  /** The reason from its first character that is not blank to its last one. */
  ghost predicate TrimsTo(reason: string, i: nat, j: nat) {
    i < j <= |reason| && AllBlank(reason[..i]) && AllBlank(reason[j..]) && !Blank(reason[i]) && !Blank(reason[j - 1])
  }

  /** What is kept of a reason: the trimmed text, cut at 500 characters. */
  ghost predicate KeptOf(reason: string, kept: string) {
    exists i: nat, j: nat :: TrimsTo(reason, i, j) && kept == reason[i..if j - i <= 500 then j else i + 500]
  }

  lemma {:induction false} TrimStartIs(s: string) returns (i: nat)
    ensures i <= |s| && TrimStart(s) == s[i..] && AllBlank(s[..i])
  {
    if s == [] || !Blank(s[0]) {
      i := 0;
    } else {
      var k := TrimStartIs(s[1..]);
      i := k + 1;
      assert s[..i] == [s[0]] + s[1..][..k] && s[i..] == s[1..][k..];
    }
  }

  lemma {:induction false} TrimEndIs(s: string)
    ensures AllBlank(s[|TrimEnd(s)|..])
  {
    if s != [] && Blank(s[|s| - 1]) {
      var front := s[..|s| - 1];
      TrimEndIs(front);
      assert s[|TrimEnd(front)|..] == front[|TrimEnd(front)|..] + [s[|s| - 1]];
    }
  }

  lemma NormalizedIs(reason: string)
    requires NormalizeLostReason(Some(reason)).Some?
    ensures KeptOf(reason, NormalizeLostReason(Some(reason)).value)
  {
    var i := TrimStartIs(reason);
    var started := reason[i..];
    TrimEndIs(started);
    var trimmed := TrimEnd(started);
    var j := i + |trimmed|;
    assert trimmed == reason[i..j] && reason[j..] == started[|trimmed|..];
    assert started[0] == reason[i] && trimmed[|trimmed| - 1] == reason[j - 1];
    assert TrimsTo(reason, i, j);
  }

  // ------------------------------------------------------------------------------------------- moves

  /** The opportunity is in the requested stage, with one more row of history that says from where, to where and why. */
  ghost predicate Moves(crm: Crm, id: Id, stage: Id, reason: Option<string>, after: Crm) {
    && OnlyRow(crm.opportunities, after.opportunities, id) && stage < |crm.stages|
    && var row, moved := crm.opportunities[id], after.opportunities[id];
       && moved == row.(stage := stage, lostReason := moved.lostReason)
       && (moved.lostReason.Some? <==> crm.stages[stage].spec.isLost)
       && (moved.lostReason.Some? ==> reason.Some? && KeptOf(reason.value, moved.lostReason.value))
       && after.history == crm.history + [HistoryRow(id, Some(row.stage), stage, moved.lostReason)]
       && after == crm.(opportunities := after.opportunities, history := after.history)
  }

  /**
   * A move to another stage is accepted exactly within the pipeline, and into the lost stage only with a reason that has
   * a visible character; a move to the stage the opportunity is in changes nothing.
   */
  lemma MoveEffect(crm: Crm, id: Id, stage: Id, reason: Option<string>)
    requires id < |crm.opportunities|
    ensures MoveOpportunity(crm, id, stage, reason).Ok? <==>
              && stage < |crm.stages| && crm.stages[stage].pipeline == crm.opportunities[id].pipeline
              && (stage == crm.opportunities[id].stage || !crm.stages[stage].spec.isLost || HasText(reason))
    ensures MoveOpportunity(crm, id, stage, reason).Ok? && stage == crm.opportunities[id].stage ==> MoveOpportunity(crm, id, stage, reason) == Ok(crm)
    ensures MoveOpportunity(crm, id, stage, reason).Ok? && stage != crm.opportunities[id].stage ==>
              Moves(crm, id, stage, reason, MoveOpportunity(crm, id, stage, reason).value)
  {
    LostReasonKept(reason);
    if NormalizeLostReason(reason).Some? {
      NormalizedIs(reason.value);
    }
  }

  // -------------------------------------------------------------------------------------------- wins

  /** The opportunity is in the won stage of its pipeline, for this unit, with one more row of history. */
  ghost predicate Wins(crm: Crm, id: Id, unit: Id, after: Crm) {
    && OnlyRow(crm.opportunities, after.opportunities, id)
    && var row, won := crm.opportunities[id], after.opportunities[id];
       && won.stage < |crm.stages| && crm.stages[won.stage].pipeline == row.pipeline && crm.stages[won.stage].spec.isWon
       && won == row.(stage := won.stage, lostReason := None, unit := Some(unit))
       && after.history == crm.history + [HistoryRow(id, Some(row.stage), won.stage, None)]
       && after == crm.(opportunities := after.opportunities, history := after.history)
  }

  /** The stage of an opportunity exists and is in its pipeline. */
  lemma StageOf(crm: Crm, id: Id)
    requires CrmInv(crm) && id < |crm.opportunities|
    ensures crm.opportunities[id].stage < |crm.stages| && crm.opportunities[id].pipeline < crm.pipelines
    ensures crm.stages[crm.opportunities[id].stage].pipeline == crm.opportunities[id].pipeline
  {
    assert OpportunityOk(crm.opportunities[id], HistoryOf(crm.history, id), crm.stages);
  }

  lemma MoveToWonWins(crm: Crm, id: Id, unit: Id)
    requires CrmInv(crm) && id < |crm.opportunities|
    requires crm.opportunities[id].stage < |crm.stages| && !crm.stages[crm.opportunities[id].stage].spec.isWon
    ensures MoveToWon(crm, id, unit).Ok? && Wins(crm, id, unit, MoveToWon(crm, id, unit).value)
  {
    MoveToWonKeeps(crm, id, unit);
  }

  /** An acceptance wins an opportunity of its person that has no other unit and is not lost, unless it is won already. */
  lemma WinEffect(crm: Crm, id: Id, person: Id, unit: Id)
    requires CrmInv(crm) && id < |crm.opportunities|
    ensures crm.opportunities[id].stage < |crm.stages|
    ensures var row := crm.opportunities[id];
            WinOpportunity(crm, id, person, unit).Ok? <==>
              row.person == person && (row.unit.None? || row.unit == Some(unit)) && !crm.stages[row.stage].spec.isLost
    ensures WinOpportunity(crm, id, person, unit).Ok? ==>
              if crm.stages[crm.opportunities[id].stage].spec.isWon then WinOpportunity(crm, id, person, unit) == Ok(crm)
              else Wins(crm, id, unit, WinOpportunity(crm, id, person, unit).value)
  {
    var row := crm.opportunities[id];
    StageOf(crm, id);
    if !crm.stages[row.stage].spec.isWon {
      MoveToWonWins(crm, id, if row.unit.Some? then row.unit.value else unit);
    }
  }

  /** A sale wins an opportunity of its person and development likewise, and fills in the unit of one already won. */
  lemma EnsureWonEffect(crm: Crm, id: Id, person: Id, unit: Id, development: Id)
    requires CrmInv(crm) && id < |crm.opportunities|
    ensures crm.opportunities[id].stage < |crm.stages|
    ensures var row := crm.opportunities[id];
            EnsureOpportunityWon(crm, id, person, unit, development).Ok? <==>
              && row.person == person && row.development == Some(development) && (row.unit.None? || row.unit == Some(unit))
              && !crm.stages[row.stage].spec.isLost
    ensures EnsureOpportunityWon(crm, id, person, unit, development).Ok? ==>
              var after := EnsureOpportunityWon(crm, id, person, unit, development).value;
              if crm.stages[crm.opportunities[id].stage].spec.isWon then
                && OnlyRow(crm.opportunities, after.opportunities, id) && after == crm.(opportunities := after.opportunities)
                && after.opportunities[id] == crm.opportunities[id].(unit := Some(unit))
              else Wins(crm, id, unit, after)
  {
    var row := crm.opportunities[id];
    StageOf(crm, id);
    if !crm.stages[row.stage].spec.isWon {
      MoveToWonWins(crm, id, unit);
    }
  }

  // ---------------------------------------------------------------------------------- new opportunities

  /** A new opportunity starts its history in its stage. */
  ghost predicate Opens(crm: Crm, row: Opportunity, after: Crm) {
    && after.opportunities == crm.opportunities + [row]
    && after.history == crm.history + [HistoryRow(|crm.opportunities|, None, row.stage, None)]
    && after == crm.(opportunities := after.opportunities, history := after.history)
  }

  /** With a stage chosen, a new opportunity is accepted exactly for a stage of the pipeline that is not terminal. */
  lemma OpenAccepted(crm: Crm, person: Id, pipeline: Id, stage: Id, development: Option<Id>, unit: Option<Id>)
    ensures CreateOpportunity(crm, person, pipeline, Some(stage), development, unit).Ok? <==>
              && pipeline < crm.pipelines && stage < |crm.stages| && crm.stages[stage].pipeline == pipeline
              && !crm.stages[stage].spec.isWon && !crm.stages[stage].spec.isLost
  {
  }

  lemma OpenEffect(crm: Crm, person: Id, pipeline: Id, stage: Option<Id>, development: Option<Id>, unit: Option<Id>)
    requires CreateOpportunity(crm, person, pipeline, stage, development, unit).Ok?
    ensures var after := CreateOpportunity(crm, person, pipeline, stage, development, unit).value;
            && |after.opportunities| == |crm.opportunities| + 1
            && var row := after.opportunities[|crm.opportunities|];
               && Opens(crm, row, after)
               && row == Opportunity(person, pipeline, row.stage, development, unit, None)
               && row.stage < |crm.stages| && crm.stages[row.stage].pipeline == pipeline
               && !crm.stages[row.stage].spec.isWon && !crm.stages[row.stage].spec.isLost
               && (stage.Some? ==> row.stage == stage.value)
               && (stage.None? ==> forall i :: 0 <= i < |crm.stages| && crm.stages[i].pipeline == pipeline ==>
                     crm.stages[row.stage].spec.position <= crm.stages[i].spec.position)
  {
  }

  // --------------------------------------------------------------------------------------- pipelines

  /** The stage at w is the only one with the flag. */
  ghost predicate SoleWon(specs: seq<StageSpec>, w: nat) {
    w < |specs| && forall i :: 0 <= i < |specs| ==> (specs[i].isWon <==> i == w)
  }

  ghost predicate SoleLost(specs: seq<StageSpec>, l: nat) {
    l < |specs| && forall i :: 0 <= i < |specs| ==> (specs[i].isLost <==> i == l)
  }

  lemma {:induction false} CountsOne(specs: seq<StageSpec>)
    ensures WonCount(specs) == 1 <==> exists w: nat :: SoleWon(specs, w)
    ensures LostCount(specs) == 1 <==> exists l: nat :: SoleLost(specs, l)
  {
    if WonCount(specs) == 1 {
      var w := SingleWon(specs);
      assert SoleWon(specs, w);
    }
    if LostCount(specs) == 1 {
      var l := SingleLost(specs);
      assert SoleLost(specs, l);
    }
    if w: nat :| SoleWon(specs, w) {
      SoleWonCounts(specs, w);
    }
    if l: nat :| SoleLost(specs, l) {
      SoleLostCounts(specs, l);
    }
  }

  lemma {:induction false} SoleWonCounts(specs: seq<StageSpec>, w: nat)
    requires SoleWon(specs, w)
    ensures WonCount(specs) == 1
  {
    var front := specs[..|specs| - 1];
    if w == |specs| - 1 {
      WonNever(front);
    } else {
      SoleWonCounts(front, w);
    }
  }

  lemma {:induction false} WonNever(specs: seq<StageSpec>)
    requires forall i :: 0 <= i < |specs| ==> !specs[i].isWon
    ensures WonCount(specs) == 0
  {
    if specs != [] {
      WonNever(specs[..|specs| - 1]);
    }
  }

  lemma {:induction false} SoleLostCounts(specs: seq<StageSpec>, l: nat)
    requires SoleLost(specs, l)
    ensures LostCount(specs) == 1
  {
    var front := specs[..|specs| - 1];
    if l == |specs| - 1 {
      LostNever(front);
    } else {
      SoleLostCounts(front, l);
    }
  }

  lemma {:induction false} LostNever(specs: seq<StageSpec>)
    requires forall i :: 0 <= i < |specs| ==> !specs[i].isLost
    ensures LostCount(specs) == 0
  {
    if specs != [] {
      LostNever(specs[..|specs| - 1]);
    }
  }

  /** The stages a pipeline may have: codes and positions distinct, one won and one lost stage, and not the same. */
  ghost predicate Complete(specs: seq<StageSpec>) {
    && (forall i, j :: 0 <= i < j < |specs| ==> specs[i].code != specs[j].code)
    && (forall i, j :: 0 <= i < j < |specs| ==> specs[i].position != specs[j].position)
    && (forall i :: 0 <= i < |specs| ==> !(specs[i].isWon && specs[i].isLost))
    && (exists w: nat :: SoleWon(specs, w))
    && (exists l: nat :: SoleLost(specs, l))
  }

  /** One pipeline more, with these stages behind the others. */
  ghost predicate Adds(crm: Crm, specs: seq<StageSpec>, after: Crm) {
    && after.pipelines == crm.pipelines + 1 && |after.stages| == |crm.stages| + |specs| && crm.stages <= after.stages
    && (forall k :: 0 <= k < |specs| ==> after.stages[|crm.stages| + k] == Stage(crm.pipelines, specs[k]))
    && after == crm.(pipelines := after.pipelines, stages := after.stages)
  }

  /** A pipeline is created exactly with such stages, or with the default ones, and they are appended for it in order. */
  lemma PipelineEffect(crm: Crm, specs: seq<StageSpec>)
    ensures CreatePipeline(crm, Some(specs)).Ok? <==> Complete(specs)
    ensures CreatePipeline(crm, None) == CreatePipeline(crm, Some(DEFAULT_STAGES))
    ensures CreatePipeline(crm, Some(specs)).Ok? ==>
              Adds(crm, specs, CreatePipeline(crm, Some(specs)).value)
  {
    CountsOne(specs);
    if Distinct(specs) {
      assert forall i, j :: 0 <= i < j < |specs| ==> specs[i].code != specs[j].code && specs[i].position != specs[j].position;
    }
  }
}
