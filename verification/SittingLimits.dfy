/** Where the sitting services keep less than their comments say: what an approval covers, and what
    a resolution amendment leaves in order. Each gap has its exact condition and a run that
    shows it. */
module SittingLimits {
  import opened Wrappers
  import opened SittingLifecycle
  import opened SittingLaws

  // ----- what an approval covers -----

  predicate IsEdit(op: Op) {
    op.UpdateDraft? || op.PutPaper? || op.RemovePaper?
  }

  predicate Edits(s: Sitting, op: Op) {
    IsEdit(op) && Step(s, op).Ok?
  }

  /** The record after one edit, a new configuration and the lock. */
  function Relocked(s: Sitting, edit: Op, actor: Option<nat>, why: string, now: int): Sitting {
    Next(Next(Next(s, edit), Configure), Lock(actor, why, now))
  }

  /** An approved sitting, and an edit of it that can be configured again. */
  predicate EditedAfterApproval(s: Sitting, edit: Op) {
    && Inv(s) && s.status == Configured && s.approvedAt.Some? && TypedOp(edit) && IsEdit(edit)
    && Step(s, edit).Ok? && Step(Next(s, edit), Configure).Ok?
  }

  lemma EditShape(s: Sitting, edit: Op)
    requires IsEdit(edit) && Step(s, edit).Ok? && s.status == Configured
    ensures var t := Next(s, edit);
            && t.status == Draft && t.events == s.events && t.lockedAt == s.lockedAt
            && t.approvedAt == s.approvedAt && t.meeting == s.meeting
  {
  }

  /** APPROVAL SURVIVES ANY EDIT. After any of the three edit calls and a new configuration the
      sitting locks on the old approval, and what is locked is the edited record. */
  lemma ApprovalSurvivesEdit(s: Sitting, edit: Op, actor: Option<nat>, why: string, now: int)
    requires EditedAfterApproval(s, edit)
    ensures var t := Relocked(s, edit, actor, why, now);
            && t.status == Locked && SnapshotOf(t) == Live(t)
            && t.fields == Next(s, edit).fields && t.papers == Next(s, edit).papers
            && t.approvedAt == s.approvedAt && t.meeting == s.meeting
  {
    hide Inv, Step, Next, SnapshotOf;
    EditShape(s, edit);
    StepKeepsInv(s, edit);
    StepKeepsInv(Next(s, edit), Configure);
    ConfigureShape(Next(s, edit));
    LocksAsItIs(Next(Next(s, edit), Configure), actor, why, now);
  }

  predicate SameConfiguration(a: Sitting, p: Snapshot) {
    p.fields == a.fields && p.papers == a.papers
  }

  /** After a draft edit the locked configuration is the approved one if and only if every column
      of the payload already held its value. */
  lemma FieldEditKeepsApprovedIff(s: Sitting, data: Fields, actor: Option<nat>, why: string, now: int)
    requires EditedAfterApproval(s, UpdateDraft(data))
    ensures SameConfiguration(s, SnapshotOf(Relocked(s, UpdateDraft(data), actor, why, now)))
       <==> forall f :: f in data ==> f in s.fields && data[f] == s.fields[f]
  {
    ApprovalSurvivesEdit(s, UpdateDraft(data), actor, why, now);
    var m := Next(s, UpdateDraft(data)).fields;
    assert m == s.fields + data && Next(s, UpdateDraft(data)).papers == s.papers;
    hide Inv, Relocked, SnapshotOf, EditedAfterApproval;
    if m == s.fields {
      forall f | f in data ensures f in s.fields && data[f] == s.fields[f] {
        assert m[f] == data[f];
      }
    }
  }

  /** Every column that the payload gives already holds its value. */
  predicate GivesNothingNew(p: Paper, d: PaperData) {
    && (d.name.Some? ==> d.name.value == p.name) && (d.totalMarks.Some? ==> d.totalMarks.value == p.totalMarks)
    && (d.passMark.Some? ==> d.passMark.value == p.passMark) && (d.sections.Some? ==> d.sections.value == p.sections)
    && (d.blueprint.Some? ==> d.blueprint.value == p.blueprint) && (d.delivery.Some? ==> d.delivery.value == p.delivery)
  }

  /** A configured sitting has its five papers, so a paper call can only edit one of them. Then the
      locked configuration is the approved one if and only if the payload gave that paper nothing new. */
  lemma PaperEditKeepsApprovedIff(s: Sitting, d: PaperData, newId: nat, actor: Option<nat>, why: string, now: int)
    requires EditedAfterApproval(s, PutPaper(d, newId))
    ensures FindPaper(s.papers, d.code) >= 0
    ensures SameConfiguration(s, SnapshotOf(Relocked(s, PutPaper(d, newId), actor, why, now)))
       <==> GivesNothingNew(s.papers[FindPaper(s.papers, d.code)], d)
  {
    ApprovalSurvivesEdit(s, PutPaper(d, newId), actor, why, now);
    var i, t := FindPaper(s.papers, d.code), Next(s, PutPaper(d, newId));
    assert i >= 0 && t.fields == s.fields && t.papers == s.papers[i := Overlay(s.papers[i], d)];
    hide Inv, Relocked, SnapshotOf, EditedAfterApproval, Step, Next, FindPaper;
    assert t.papers == s.papers <==> t.papers[i] == s.papers[i];
  }

  /** A removal cannot be configured again by itself: a replacement has to be put first. */
  lemma RemovalBlocksConfigure(s: Sitting, id: nat)
    requires Inv(s) && s.status == Configured && Step(s, RemovePaper(id)).Ok?
    ensures Step(Next(s, RemovePaper(id)), Configure) == Err(SittingNotReady)
  {
    hide HistoryOk, DistinctCodes;
  }

  lemma ConfigureShape(s: Sitting)
    requires Step(s, Configure).Ok?
    ensures Next(s, Configure) == s.(status := Configured)
  {
  }

  /** An approved, configured sitting locks exactly as it is. */
  lemma LocksAsItIs(s: Sitting, actor: Option<nat>, why: string, now: int)
    requires Inv(s) && s.status == Configured && s.approvedAt.Some?
    ensures var t := Next(s, Lock(actor, why, now));
            && t.status == Locked && SnapshotOf(t) == Live(t) && t.fields == s.fields && t.papers == s.papers
            && t.approvedAt == s.approvedAt && t.meeting == s.meeting
  {
    ConfiguredIsLockable(s, actor, why, now);
    LockFreezes(s, actor, why, now);
    hide Inv, Ready, SnapshotOf;
  }

  /** With a replacement under a fresh id it locks on the old approval, and what is locked is never
      what was approved. */
  lemma ReplacementIsNeverApproved(s: Sitting, id: nat, d: PaperData, newId: nat, actor: Option<nat>, why: string,
                                   now: int)
    requires Inv(s) && s.status == Configured && s.approvedAt.Some? && Step(s, RemovePaper(id)).Ok?
    requires var t := Next(s, RemovePaper(id));
             Step(t, PutPaper(d, newId)).Ok? && Step(Next(t, PutPaper(d, newId)), Configure).Ok?
    requires forall i :: 0 <= i < |s.papers| ==> s.papers[i].id != newId
    ensures var t := Relocked(Next(s, RemovePaper(id)), PutPaper(d, newId), actor, why, now);
            && t.status == Locked && t.approvedAt == s.approvedAt && SnapshotOf(t) == Live(t)
            && !SameConfiguration(s, SnapshotOf(t))
  {
    hide Inv, Step, Next, Ready;
    var gone := Next(s, RemovePaper(id));
    var put := Next(gone, PutPaper(d, newId));
    ReplacedShape(s, id, d, newId);
    StepKeepsInv(s, RemovePaper(id));
    StepKeepsInv(gone, PutPaper(d, newId));
    StepKeepsInv(put, Configure);
    ConfigureShape(put);
    LocksAsItIs(Next(put, Configure), actor, why, now);
  }

  /** Removing a paper of a full sitting and putting one that can be configured appends it. */
  lemma ReplacedShape(s: Sitting, id: nat, d: PaperData, newId: nat)
    requires Inv(s) && s.status == Configured && Step(s, RemovePaper(id)).Ok?
    requires var t := Next(s, RemovePaper(id));
             Step(t, PutPaper(d, newId)).Ok? && Step(Next(t, PutPaper(d, newId)), Configure).Ok?
    ensures var gone := Next(s, RemovePaper(id));
            var put := Next(gone, PutPaper(d, newId));
            && put.status == Draft && put.events == s.events && put.lockedAt == s.lockedAt
            && put.approvedAt == s.approvedAt && put.meeting == s.meeting
            && |put.papers| == |s.papers| && put.papers != [] && put.papers[|put.papers| - 1].id == newId
  {
    hide HistoryOk, DistinctCodes, SectionsOk, PassBandOk, CompensationOk, Complete;
  }

  /** Call `i` of the run meets an unlocked sitting and is no accepted edit. */
  predicate LeavesConfiguration(s: Sitting, ops: seq<Op>, i: nat)
    requires i < |ops|
  {
    TypedOp(ops[i]) && !IsLocked(After(s, ops, i).status) && !Edits(After(s, ops, i), ops[i])
  }

  /** OVER RUNS. As long as no edit call is accepted between an approval and the lock, whatever else
      happens or fails, what is locked is exactly what was approved. */
  lemma {:induction false} UneditedLocksApproved(s: Sitting, ops: seq<Op>, n: nat)
    requires Inv(s) && !IsLocked(s.status) && n <= |ops|
    requires forall i :: 0 <= i < n ==> LeavesConfiguration(s, ops, i)
    ensures Inv(After(s, ops, n))
    ensures After(s, ops, n).fields == s.fields && After(s, ops, n).papers == s.papers
    ensures IsLocked(After(s, ops, n).status) ==> SameConfiguration(s, SnapshotOf(After(s, ops, n)))
  {
    hide Inv, Next, IsLocked, SnapshotOf, LeavesConfiguration;
    if n > 0 {
      UneditedLocksApproved(s, ops, n - 1);
      OneMoreUnedited(s, ops, n - 1);
    }
  }

  lemma OneMoreUnedited(s: Sitting, ops: seq<Op>, n: nat)
    requires n < |ops| && LeavesConfiguration(s, ops, n) && Inv(After(s, ops, n))
    ensures var t := Next(After(s, ops, n), ops[n]);
            && Inv(t) && t.fields == After(s, ops, n).fields && t.papers == After(s, ops, n).papers
            && (IsLocked(t.status) ==> SnapshotOf(t) == Live(t))
  {
    hide Inv, Next, Edits, TypedOp, SnapshotOf;
    StepKeepsInv(After(s, ops, n), ops[n]);
    UneditedStep(After(s, ops, n), ops[n]);
  }

  lemma UneditedStep(s: Sitting, op: Op)
    requires Inv(s) && !IsLocked(s.status) && !Edits(s, op)
    ensures Next(s, op).fields == s.fields && Next(s, op).papers == s.papers
    ensures IsLocked(Next(s, op).status) ==> SnapshotOf(Next(s, op)) == Live(Next(s, op))
  {
    hide Inv;
    if IsLocked(Next(s, op).status) {
      OnlyLockLocks(s, op);
      LockFreezes(s, op.actor, op.why, op.now);
    }
  }

  // ----- what a resolution amendment leaves in order -----

  predicate StandardInBand(s: Sitting) {
    PassBandOk(s.fields, AmountOf(s.fields, PassMark))
  }

  predicate DatesInOrder(s: Sitting) {
    DayOf(s.fields, SittingDate) <= DayOf(s.fields, SittingEndDate)
  }

  /** Which amount or day an amendment leaves in a column: its own, else the old one. */
  function Amended(s: Sitting, changes: Fields, f: Field): int {
    if f in changes then AmountOf(changes, f) else AmountOf(s.fields, f)
  }

  function AmendedDay(s: Sitting, changes: Fields, f: Field): int {
    if f in changes then DayOf(changes, f) else DayOf(s.fields, f)
  }

  predicate InNewBand(s: Sitting, changes: Fields, mark: int) {
    Amended(s, changes, PassBandMin) <= mark <= Amended(s, changes, PassBandMax)
  }

  /** READINESS AFTER A RESOLUTION, EXACTLY. A successful resolution amendment leaves a sitting that
      passes the readiness check if and only if it sets the pass mark or the old one lies in the
      new band, every paper's own pass mark lies in the new band, and the dates it leaves are in
      order. The code looks at the first of the three only when the amendment sets the pass mark,
      and at the other two never. */
  lemma ResolutionKeepsReadyIff(s: Sitting, actor: Option<nat>, changes: Fields, resolution: string, why: string)
    requires Inv(s) && Step(s, AmendCritical(actor, changes, resolution, why)).Ok?
    ensures var t := Next(s, AmendCritical(actor, changes, resolution, why));
            Ready(t.fields, t.papers) <==>
              && (PassMark in changes || InNewBand(s, changes, AmountOf(s.fields, PassMark)))
              && (forall i :: 0 <= i < |s.papers| ==> InNewBand(s, changes, s.papers[i].passMark))
              && AmendedDay(s, changes, SittingDate) <= AmendedDay(s, changes, SittingEndDate)
  {
    hide HistoryOk, DistinctCodes, StrippedLength, Complete;
    assert forall mark :: PassBandOk(s.fields + changes, mark) <==> InNewBand(s, changes, mark);
  }

  /** The pass standard alone. */
  lemma ResolutionKeepsBandIff(s: Sitting, actor: Option<nat>, changes: Fields, resolution: string, why: string)
    requires Inv(s) && Step(s, AmendCritical(actor, changes, resolution, why)).Ok?
    ensures StandardInBand(Next(s, AmendCritical(actor, changes, resolution, why))) <==>
              PassMark in changes || InNewBand(s, changes, AmountOf(s.fields, PassMark))
  {
  }

  /** The dates alone. */
  lemma ResolutionKeepsDatesIff(s: Sitting, actor: Option<nat>, changes: Fields, resolution: string, why: string)
    requires Inv(s) && Step(s, AmendCritical(actor, changes, resolution, why)).Ok?
    ensures DatesInOrder(Next(s, AmendCritical(actor, changes, resolution, why))) <==>
              AmendedDay(s, changes, SittingDate) <= AmendedDay(s, changes, SittingEndDate)
  {
  }

  predicate TouchesDatesOnly(changes: Fields) {
    changes.Keys <= {SittingDate, SittingEndDate} && WellTyped(changes)
  }

  /** An amendment of one or both dates is accepted whatever they are, so the dates stay in order
      exactly when the amendment leaves them so. */
  lemma ResolutionAcceptsAnyDates(s: Sitting, actor: Option<nat>, changes: Fields, resolution: string, why: string)
    requires Inv(s) && IsLocked(s.status) && TouchesDatesOnly(changes)
    requires resolution != "" && StrippedLength(why) >= 30
    ensures var op := AmendCritical(actor, changes, resolution, why);
            && Step(s, op).Ok?
            && (DatesInOrder(Next(s, op)) <==>
                  AmendedDay(s, changes, SittingDate) <= AmendedDay(s, changes, SittingEndDate))
  {
    hide StrippedLength, HistoryOk, Ready, DistinctCodes, SectionsOk, Complete;
    assert PassMark !in changes && Rule !in changes && CompensatedMin !in changes && CompensatedFloor !in changes;
    assert CompensationOk(s.fields + changes);
    ResolutionKeepsDatesIff(s, actor, changes, resolution, why);
  }

  // ----- a run that shows each gap -----

  function DraftSitting(): Sitting {
    Sitting("2026-MAY", Draft,
            map[PassMark := Amount(5000), Rule := RuleValue(AllPass), PassBandMin := Amount(4000),
                PassBandMax := Amount(6500), CompensatedMin := MaybeAmount(None), CompensatedFloor := MaybeAmount(None),
                SittingDate := Date(100), SittingEndDate := Date(110), Normalisation := Text(""), Centres := Refs([])],
            None, None, None, [], [])
  }

  function PutOp(code: string, id: nat): Op {
    PutPaper(PaperData(code, None, None, None, None, Some(Some(id)), None), id)
  }

  function PutResult(code: string, id: nat): Paper {
    Paper(id, code, code, 100, 5000, [], Some(id), "cbt/180/none")
  }

  const JUSTIFICATION: string := "NBEC minutes of the May meeting, item four"

  /** Five papers, configured, approved, one edit of the end date, configured again, locked; then a
      resolution amendment that raises the lower end of the band to 60 under a pass mark of 50. */
  function Run(): (ops: seq<Op>)
    ensures |ops| == 11
  {
    [PutOp("A", 1), PutOp("B", 2), PutOp("C", 3), PutOp("D", 4), PutOp("E", 5),
     Configure, Approve(7, 60), UpdateDraft(map[SittingEndDate := Date(120)]), Configure, Lock(None, "", 70),
     AmendCritical(None, map[PassBandMin := Amount(6000)], "NBEC-1", JUSTIFICATION)]
  }

  lemma PutAppends(s: Sitting, code: string, id: nat)
    requires s.status == Draft && |s.papers| < REQUIRED_PAPERS
    requires forall i :: 0 <= i < |s.papers| ==> s.papers[i].code != code
    ensures Next(s, PutOp(code, id)) == s.(papers := s.papers + [PutResult(code, id)])
  {
  }

  function FivePapers(): (ps: seq<Paper>)
    ensures |ps| == 5
  {
    [PutResult("A", 1), PutResult("B", 2), PutResult("C", 3), PutResult("D", 4), PutResult("E", 5)]
  }

  /** The first calls put the five papers one by one. */
  lemma {:induction false} RunPutsPapers(n: nat)
    requires n <= 5
    ensures After(DraftSitting(), Run(), n) == DraftSitting().(papers := FivePapers()[..n])
  {
    RunStart();
    FreshDraft();
    hide After, DraftSitting, Run, Fresh, FivePapers, Next;
    if n > 0 {
      RunPutsPapers(n - 1);
      AfterOne(DraftSitting(), Run(), n - 1);
      PaperCodes(n);
      PutAppends(After(DraftSitting(), Run(), n - 1), FivePapers()[n - 1].code, FivePapers()[n - 1].id);
    }
  }

  lemma PaperCodes(n: nat)
    requires 0 < n <= 5
    ensures var p := FivePapers()[n - 1];
            && p == PutResult(p.code, p.id) && Run()[n - 1] == PutOp(p.code, p.id)
            && FivePapers()[..n] == FivePapers()[..n - 1] + [p]
            && forall i :: 0 <= i < n - 1 ==> FivePapers()[i].code != p.code
  {
  }

  lemma RunStart()
    ensures After(DraftSitting(), Run(), 0) == DraftSitting() == DraftSitting().(papers := FivePapers()[..0])
    ensures FivePapers()[..5] == FivePapers()
  {
  }

  lemma FreshDraft()
    ensures Fresh(DraftSitting()) && AmountOf(DraftSitting().fields, PassMark) == 5000
    ensures DraftSitting().status == Draft && DraftSitting().papers == []
  {
  }

  lemma RunIsTyped()
    ensures forall i :: 0 <= i < |Run()| ==> TypedOp(Run()[i])
  {
  }

  function EndDateEdit(): Fields {
    map[SittingEndDate := Date(120)]
  }

  lemma PapersAreReady(m: Fields)
    requires PassBandOk(m, 5000) && AmountOf(m, PassMark) == 5000 && CompensationOk(m)
    requires DayOf(m, SittingDate) <= DayOf(m, SittingEndDate)
    ensures Ready(m, FivePapers())
  {
  }

  lemma Configures(s: Sitting)
    requires s.status == Draft && Ready(s.fields, s.papers)
    ensures Next(s, Configure) == s.(status := Configured)
  {
  }

  lemma Approves(s: Sitting, meeting: nat, now: int)
    requires s.status == Configured
    ensures Next(s, Approve(meeting, now)) == s.(approvedAt := Some(now), meeting := Some(meeting))
  {
  }

  lemma EditsEndDate(s: Sitting)
    requires s.status == Configured && CompensationOk(s.fields + EndDateEdit())
    ensures Next(s, UpdateDraft(EndDateEdit())) == s.(status := Draft, fields := s.fields + EndDateEdit())
  {
  }

  lemma Locks(s: Sitting, actor: Option<nat>, why: string, now: int)
    requires s.status == Configured && s.approvedAt.Some? && Ready(s.fields, s.papers)
    ensures var t := Next(s, Lock(actor, why, now));
            && t.status == Locked && t.approvedAt == s.approvedAt && t.fields == s.fields && t.papers == s.papers
  {
  }

  /** The fields of the run before and after the edit. */
  lemma RunFields()
    ensures Ready(DraftSitting().fields, FivePapers())
    ensures Ready(DraftSitting().fields + EndDateEdit(), FivePapers())
    ensures CompensationOk(DraftSitting().fields + EndDateEdit())
  {
    PapersAreReady(DraftSitting().fields);
    PapersAreReady(DraftSitting().fields + EndDateEdit());
  }

  /** The calls of the run after the papers. */
  lemma RunOps()
    ensures Run()[5] == Configure && Run()[6] == Approve(7, 60)
    ensures Run()[7] == UpdateDraft(EndDateEdit()) && Run()[8] == Configure && Run()[9] == Lock(None, "", 70)
    ensures Run()[10] == AmendCritical(None, map[PassBandMin := Amount(6000)], "NBEC-1", JUSTIFICATION)
  {
  }

  /** The witness states: approved after seven calls, locked after ten. */
  lemma RunLocks()
    ensures var approved := After(DraftSitting(), Run(), 7);
            && approved.status == Configured && approved.fields == DraftSitting().fields
            && approved.approvedAt == Some(60) && approved.papers == FivePapers()
    ensures After(DraftSitting(), Run(), 9).status == Configured
    ensures var locked := After(DraftSitting(), Run(), 10);
            && locked.status == Locked && locked.approvedAt == Some(60)
            && locked.fields == DraftSitting().fields + EndDateEdit() && locked.papers == FivePapers()
  {
    var s, ops := DraftSitting(), Run();
    FreshDraft();
    RunStart();
    RunPutsPapers(5);
    RunFields();
    RunOps();
    hide Ready, After, Next, DraftSitting, FivePapers, Run, EndDateEdit, CompensationOk;
    AfterOne(s, ops, 5);
    Configures(After(s, ops, 5));
    AfterOne(s, ops, 6);
    Approves(After(s, ops, 6), 7, 60);
    AfterOne(s, ops, 7);
    EditsEndDate(After(s, ops, 7));
    AfterOne(s, ops, 8);
    Configures(After(s, ops, 8));
    AfterOne(s, ops, 9);
    Locks(After(s, ops, 9), None, "", 70);
  }

  lemma AfterOne(s: Sitting, ops: seq<Op>, n: nat)
    requires n < |ops|
    ensures After(s, ops, n + 1) == Next(After(s, ops, n), ops[n])
  {
  }

  lemma RunFreezes()
    ensures Inv(After(DraftSitting(), Run(), 10))
    ensures SnapshotOf(After(DraftSitting(), Run(), 10)) == Live(After(DraftSitting(), Run(), 10))
  {
    hide After, Inv, SnapshotOf, Step, DraftSitting, FivePapers, Run, EndDateEdit, Fresh, TypedOp;
    var s, ops := DraftSitting(), Run();
    FreshDraft();
    RunIsTyped();
    RunOps();
    RunLocks();
    AfterOne(s, ops, 9);
    RunKeepsInv(s, ops, 9);
    RunKeepsInv(s, ops, 10);
    LockFreezes(After(s, ops, 9), None, "", 70);
  }

  /** The approval gap is real: in this run from a new sitting the lock goes through on the approval
      of another end date. */
  lemma LockedIsNotApproved()
    ensures Fresh(DraftSitting()) && forall i :: 0 <= i < |Run()| ==> TypedOp(Run()[i])
    ensures var approved, locked := After(DraftSitting(), Run(), 7), After(DraftSitting(), Run(), 10);
            && approved.status == Configured && locked.status == Locked
            && approved.approvedAt.Some? && SnapshotOf(locked).approvedAt == approved.approvedAt
            && !SameConfiguration(approved, SnapshotOf(locked))
  {
    FreshDraft();
    RunIsTyped();
    RunLocks();
    RunFreezes();
    assert DraftSitting().fields[SittingEndDate] == Date(110);
    assert EndDateEdit()[SittingEndDate] == Date(120);
    hide After, Inv, SnapshotOf, DraftSitting, FivePapers, EndDateEdit;
  }

  lemma NothingToStrip(s: string)
    requires s != "" && !IsSpace(s[0]) && !IsSpace(s[|s| - 1])
    ensures StrippedLength(s) == |s|
  {
  }

  lemma JustificationIsLong()
    ensures StrippedLength(JUSTIFICATION) >= 30
  {
    hide StrippedLength;
    assert |JUSTIFICATION| >= 30 && JUSTIFICATION[0] == 'N' && JUSTIFICATION[|JUSTIFICATION| - 1] == 'r';
    NothingToStrip(JUSTIFICATION);
  }

  /** An amendment that raises the band's lower end to 60 under a pass mark of 50 goes through. */
  lemma ResolutionCanLeaveBand(s: Sitting)
    requires Inv(s) && IsLocked(s.status) && AmountOf(s.fields, PassMark) == 5000
    ensures var op := AmendCritical(None, map[PassBandMin := Amount(6000)], "NBEC-1", JUSTIFICATION);
            && Step(s, op).Ok? && IsLocked(Next(s, op).status)
            && !StandardInBand(Next(s, op)) && !Ready(Next(s, op).fields, Next(s, op).papers)
  {
    JustificationIsLong();
    hide StrippedLength, HistoryOk, DistinctCodes, SectionsOk;
    var changes: Fields := map[PassBandMin := Amount(6000)];
    assert changes.Keys == {PassBandMin} <= AMENDABLE_FIELDS;
    assert CompensationOk(s.fields + changes);
  }

  lemma EditKeepsMark()
    ensures AmountOf(DraftSitting().fields + EndDateEdit(), PassMark) == 5000
  {
  }

  /** The band gap is real: the whole run from a new sitting ends locked, with the pass mark outside
      its band and the readiness check failing. */
  lemma LockedCanLeaveBand()
    ensures Fresh(DraftSitting()) && forall i :: 0 <= i < |Run()| ==> TypedOp(Run()[i])
    ensures var t := After(DraftSitting(), Run(), 11);
            IsLocked(t.status) && !StandardInBand(t) && !Ready(t.fields, t.papers)
  {
    hide After, Inv, Step, Next, DraftSitting, FivePapers, Run, EndDateEdit, Fresh, TypedOp, Ready, StandardInBand,
         AmountOf;
    FreshDraft();
    RunIsTyped();
    RunOps();
    RunLocks();
    RunFreezes();
    EditKeepsMark();
    AfterOne(DraftSitting(), Run(), 10);
    ResolutionCanLeaveBand(After(DraftSitting(), Run(), 10));
  }
}
