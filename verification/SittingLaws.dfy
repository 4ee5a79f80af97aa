/** What every run of service calls keeps true of a sitting: readiness of what is configured,
    the shape and meaning of the amendment history, and agreement of the frozen snapshot. */
module SittingLaws {
  import opened Wrappers
  import opened SittingLifecycle

  // ----- reading the history -----

  function AfterOf(e: LockEvent): Fields {
    if e.AutoLock? then map[] else e.after
  }

  function BeforeOf(e: LockEvent): Fields {
    if e.AutoLock? then map[] else e.before
  }

  /** The amendable fields after the first `n` events: the lock snapshot's fields with the
      after-values folded forward. */
  function Replay(events: seq<LockEvent>, n: nat): Fields
    requires 1 <= n <= |events| && events[0].AutoLock?
  {
    if n == 1 then events[0].snapshot.fields else Replay(events, n - 1) + AfterOf(events[n - 1])
  }

  /** Undoing the before-values of the newest events down to event `n`. */
  function Undo(m: Fields, events: seq<LockEvent>, n: nat): Fields
    requires n <= |events|
    decreases |events| - n
  {
    if n == |events| then m else Undo(m, events, n + 1) + BeforeOf(events[n])
  }

  predicate BearsSnapshot(e: LockEvent) {
    e.AutoLock? || e.ResolutionAmend?
  }

  function SnapshotIn(e: LockEvent): Snapshot
    requires BearsSnapshot(e)
  {
    if e.AutoLock? then e.snapshot else e.rebuilt
  }

  // ----- the invariant -----

  predicate DistinctCodes(papers: seq<Paper>) {
    forall i, j :: 0 <= i < j < |papers| ==> papers[i].code != papers[j].code
  }

  predicate ConfigurationOk(s: Sitting) {
    && Complete(s.fields)
    && DistinctCodes(s.papers) && |s.papers| <= REQUIRED_PAPERS
    && (s.status == Configured ==> Ready(s.fields, s.papers))
    && (s.status == Configured || IsLocked(s.status) ==> |s.papers| == REQUIRED_PAPERS)
    && (IsLocked(s.status) ==>
          CompensationOk(s.fields)
          && forall i :: 0 <= i < |s.papers| ==> SectionsOk(s.papers[i]) && s.papers[i].blueprint.Some?)
  }

  /** Event `i` of the history: an amendment whose before-values are what it overwrote, whose
      Chair form touches no critical field, and whose resolution form stores the new state. */
  predicate AmendmentOk(events: seq<LockEvent>, i: nat)
    requires 1 <= i < |events| && events[0].AutoLock?
  {
    var e := events[i];
    && !e.AutoLock?
    && AfterOf(e).Keys <= AMENDABLE_FIELDS
    && BeforeOf(e) == Restrict(Replay(events, i), AfterOf(e).Keys)
    && (e.ChairAmend? ==> AfterOf(e).Keys * CRITICAL_FIELDS == {})
    && (e.ResolutionAmend? ==> e.rebuilt.fields == Replay(events, i + 1))
  }

  /** Everything a stored snapshot shares with the record except status and amendable fields. */
  predicate SameFrame(p: Snapshot, s: Sitting) {
    && p.ref == s.ref && IsLocked(p.status)
    && p.lockedAt == s.lockedAt && p.approvedAt == s.approvedAt && p.meeting == s.meeting
    && p.papers == s.papers
  }

  /** One lock event, the oldest, followed by well-formed amendments. */
  predicate LogOk(events: seq<LockEvent>) {
    && events != [] && events[0].AutoLock? && Complete(events[0].snapshot.fields)
    && forall i :: 1 <= i < |events| ==> AmendmentOk(events, i)
  }

  predicate FramesOk(s: Sitting) {
    forall i :: 0 <= i < |s.events| && BearsSnapshot(s.events[i]) ==> SameFrame(SnapshotIn(s.events[i]), s)
  }

  predicate HistoryOk(s: Sitting) {
    if IsLocked(s.status) then
      && s.lockedAt.Some? && s.approvedAt.Some?
      && LogOk(s.events) && FramesOk(s)
      && Replay(s.events, |s.events|) == s.fields
    else
      s.events == [] && s.lockedAt.None?
  }

  predicate Inv(s: Sitting) {
    ConfigurationOk(s) && HistoryOk(s)
  }

  /** What the serializers demand of a payload: known columns for a draft edit, typed values. */
  predicate TypedOp(op: Op) {
    match op
    case UpdateDraft(data) => WellTyped(data) && data.Keys <= AMENDABLE_FIELDS
    case AmendNonCritical(_, changes, _) => WellTyped(changes)
    case AmendCritical(_, changes, _, _) => WellTyped(changes)
    case _ => true
  }

  // ----- preservation -----

  lemma {:induction false} ReplayIgnoresLater(events: seq<LockEvent>, e: LockEvent, n: nat)
    requires 1 <= n <= |events| && events[0].AutoLock?
    ensures Replay(events + [e], n) == Replay(events, n)
  {
    if n > 1 {
      ReplayIgnoresLater(events, e, n - 1);
    }
  }

  lemma OverlayStaysComplete(m: Fields, changes: Fields)
    requires Complete(m) && WellTyped(changes) && changes.Keys <= AMENDABLE_FIELDS
    ensures Complete(m + changes)
  {
  }

  lemma PutPaperKeepsConfiguration(s: Sitting, d: PaperData, newId: nat)
    requires ConfigurationOk(s) && PutPaperStep(s, d, newId).Ok?
    ensures ConfigurationOk(PutPaperStep(s, d, newId).value)
  {
    hide Complete, SectionsOk, PassBandOk, Ready;
    var i, t := FindPaper(s.papers, d.code), PutPaperStep(s, d, newId).value;
    assert forall k :: 0 <= k < |s.papers| && k != i ==> t.papers[k] == s.papers[k];
  }

  lemma RemovePaperKeepsConfiguration(s: Sitting, id: nat)
    requires ConfigurationOk(s) && Step(s, RemovePaper(id)).Ok?
    ensures ConfigurationOk(Next(s, RemovePaper(id)))
  {
    hide Complete, SectionsOk, PassBandOk, Ready;
    var i, t := FindId(s.papers, id), Next(s, RemovePaper(id));
    assert forall k :: 0 <= k < |t.papers| ==> t.papers[k] == s.papers[if k < i then k else k + 1];
  }

  lemma DraftStepsKeepConfiguration(s: Sitting, op: Op)
    requires Inv(s) && TypedOp(op) && !IsLocked(s.status) && Step(s, op).Ok?
    ensures ConfigurationOk(Next(s, op))
  {
    hide PutPaperStep, HistoryOk, DistinctCodes, PassBandOk;
    match op
    case UpdateDraft(data) =>
      OverlayStaysComplete(s.fields, data);
    case PutPaper(d, newId) =>
      PutPaperKeepsConfiguration(s, d, newId);
    case RemovePaper(id) =>
      RemovePaperKeepsConfiguration(s, id);
    case _ =>
  }

  lemma AmendmentKeepsConfiguration(s: Sitting, t: Sitting, changes: Fields)
    requires ConfigurationOk(s) && IsLocked(s.status)
    requires WellTyped(changes) && changes.Keys <= AMENDABLE_FIELDS
    requires t.status == s.status && t.papers == s.papers && t.fields == s.fields + changes
    requires CompensationOk(t.fields)
    ensures ConfigurationOk(t)
  {
    OverlayStaysComplete(s.fields, changes);
  }

  lemma ChairKeepsCompensation(m: Fields, changes: Fields)
    requires CompensationOk(m) && changes.Keys * CRITICAL_FIELDS == {}
    ensures CompensationOk(m + changes)
  {
    forall f | f in CRITICAL_FIELDS ensures f !in changes {
      assert f in changes ==> f in changes.Keys * CRITICAL_FIELDS;
    }
    assert {Rule, CompensatedMin, CompensatedFloor} <= CRITICAL_FIELDS;
  }

  lemma StepKeepsConfiguration(s: Sitting, op: Op)
    requires Inv(s) && TypedOp(op) && Step(s, op).Ok?
    ensures ConfigurationOk(Next(s, op))
  {
    if !IsLocked(s.status) {
      DraftStepsKeepConfiguration(s, op);
    } else {
      match op
      case AmendNonCritical(_, changes, _) =>
        ChairKeepsCompensation(s.fields, changes);
        AmendmentKeepsConfiguration(s, Next(s, op), changes);
      case AmendCritical(_, changes, _, _) =>
        AmendmentKeepsConfiguration(s, Next(s, op), changes);
      case _ =>
    }
  }

  /** The event that an amendment call appends to the history of `s`. */
  predicate Amends(s: Sitting, e: LockEvent, changes: Fields) {
    && !e.AutoLock?
    && AfterOf(e) == Restrict(s.fields + changes, changes.Keys)
    && BeforeOf(e) == Restrict(s.fields, changes.Keys)
    && (e.ChairAmend? ==> changes.Keys * CRITICAL_FIELDS == {})
    && (e.ResolutionAmend? ==> e.rebuilt == Live(s.(fields := s.fields + changes)))
  }

  lemma AppendReplays(s: Sitting, e: LockEvent, changes: Fields)
    requires HistoryOk(s) && IsLocked(s.status) && Amends(s, e, changes)
    ensures AfterOf(e) == changes
    ensures Replay(s.events + [e], |s.events|) == s.fields
    ensures Replay(s.events + [e], |s.events| + 1) == s.fields + changes
  {
    assert AfterOf(e) == changes;
    ReplayIgnoresLater(s.events, e, |s.events|);
  }

  lemma EarlierAmendmentsStay(events: seq<LockEvent>, e: LockEvent, i: nat)
    requires 1 <= i < |events| && events[0].AutoLock? && AmendmentOk(events, i)
    ensures AmendmentOk(events + [e], i)
  {
    ReplayIgnoresLater(events, e, i);
    ReplayIgnoresLater(events, e, i + 1);
  }

  /** Appending one amendment event keeps the history well formed. */
  lemma AppendKeepsLog(s: Sitting, e: LockEvent, changes: Fields)
    requires HistoryOk(s) && IsLocked(s.status) && changes.Keys <= AMENDABLE_FIELDS
    requires Amends(s, e, changes)
    ensures LogOk(s.events + [e])
    ensures Replay(s.events + [e], |s.events| + 1) == s.fields + changes
  {
    hide Replay, Restrict, Complete, FramesOk;
    var n, more := |s.events|, s.events + [e];
    AppendReplays(s, e, changes);
    forall i | 1 <= i < n + 1 ensures AmendmentOk(more, i) {
      if i < n {
        EarlierAmendmentsStay(s.events, e, i);
      }
    }
  }

  lemma AppendKeepsFrames(s: Sitting, t: Sitting, e: LockEvent, changes: Fields)
    requires FramesOk(s) && IsLocked(s.status) && Amends(s, e, changes)
    requires t == s.(fields := s.fields + changes, events := s.events + [e])
    ensures FramesOk(t)
  {
    forall i | 0 <= i < |t.events| && BearsSnapshot(t.events[i]) ensures SameFrame(SnapshotIn(t.events[i]), t) {
      if i < |s.events| {
        assert t.events[i] == s.events[i];
        assert SameFrame(SnapshotIn(s.events[i]), s);
      }
    }
  }

  /** A successful amendment call, of either kind. */
  predicate AmendsNow(s: Sitting, op: Op) {
    (op.AmendNonCritical? || op.AmendCritical?) && Step(s, op).Ok?
  }

  function ChangesOf(op: Op): Fields {
    match op
    case AmendNonCritical(_, changes, _) => changes
    case AmendCritical(_, changes, _, _) => changes
    case _ => map[]
  }

  /** On a locked sitting a call appends one amendment event, or changes at most the status. */
  lemma LockedStepShape(s: Sitting, op: Op)
    requires IsLocked(s.status)
    ensures IsLocked(Next(s, op).status)
    ensures if AmendsNow(s, op) then
              && Next(s, op).events == s.events + [Next(s, op).events[|s.events|]]
              && Next(s, op) == s.(fields := s.fields + ChangesOf(op), events := Next(s, op).events)
              && ChangesOf(op).Keys <= AMENDABLE_FIELDS
              && Amends(s, Next(s, op).events[|s.events|], ChangesOf(op))
              && Next(s, op).events[|s.events|].ResolutionAmend? == op.AmendCritical?
            else
              Next(s, op) == s.(status := Next(s, op).status)
  {
  }

  lemma StepKeepsHistory(s: Sitting, op: Op)
    requires Inv(s) && TypedOp(op) && Step(s, op).Ok?
    ensures HistoryOk(Next(s, op))
  {
    if IsLocked(s.status) {
      LockedStepKeepsHistory(s, op);
    }
  }

  lemma LockedStepKeepsHistory(s: Sitting, op: Op)
    requires HistoryOk(s) && IsLocked(s.status)
    ensures HistoryOk(Next(s, op))
  {
    hide Step, Amends, Restrict, Complete, Replay, AmendmentOk;
    LockedStepShape(s, op);
    var t := Next(s, op);
    if AmendsNow(s, op) {
      AppendKeepsLog(s, t.events[|s.events|], ChangesOf(op));
      AppendKeepsFrames(s, t, t.events[|s.events|], ChangesOf(op));
    } else {
      StatusKeepsFrames(s, t);
    }
  }

  lemma StatusKeepsFrames(s: Sitting, t: Sitting)
    requires FramesOk(s) && t == s.(status := t.status)
    ensures FramesOk(t)
  {
    forall i | 0 <= i < |t.events| && BearsSnapshot(t.events[i]) ensures SameFrame(SnapshotIn(t.events[i]), t) {
      assert SameFrame(SnapshotIn(s.events[i]), s);
    }
  }

  lemma StepKeepsInv(s: Sitting, op: Op)
    requires Inv(s) && TypedOp(op)
    ensures Inv(Next(s, op))
  {
    if Step(s, op).Ok? {
      StepKeepsConfiguration(s, op);
      StepKeepsHistory(s, op);
    }
  }

  /** A new sitting, as the create serializer lets it in. */
  predicate Fresh(s: Sitting) {
    && s.status == Draft && Complete(s.fields) && s.papers == [] && s.events == []
    && s.lockedAt.None? && s.approvedAt.None? && s.meeting.None?
  }

  function After(s: Sitting, ops: seq<Op>, n: nat): Sitting
    requires n <= |ops|
  {
    if n == 0 then s else Next(After(s, ops, n - 1), ops[n - 1])
  }

  /** THE INVARIANT holds after every run of typed calls, successful or not, on a new sitting. */
  lemma {:induction false} RunKeepsInv(s: Sitting, ops: seq<Op>, n: nat)
    requires Fresh(s) && n <= |ops| && forall i :: 0 <= i < |ops| ==> TypedOp(ops[i])
    ensures Inv(After(s, ops, n))
  {
    hide Next, TypedOp;
    if n == 0 {
      FreshIsOk(s);
    } else {
      hide Inv, Fresh;
      RunKeepsInv(s, ops, n - 1);
      StepKeepsInv(After(s, ops, n - 1), ops[n - 1]);
    }
  }

  lemma FreshIsOk(s: Sitting)
    requires Fresh(s)
    ensures Inv(s)
  {
  }

  // ----- readiness -----

  function Codes(papers: seq<Paper>): set<string> {
    set i | 0 <= i < |papers| :: papers[i].code
  }

  lemma {:induction false} DistinctCodesCount(papers: seq<Paper>)
    requires DistinctCodes(papers)
    ensures |Codes(papers)| == |papers|
  {
    if papers != [] {
      var n := |papers| - 1;
      DistinctCodesCount(papers[..n]);
      assert Codes(papers) == Codes(papers[..n]) + {papers[n].code} by {
        assert forall i :: 0 <= i < n ==> papers[..n][i] == papers[i];
      }
      assert papers[n].code !in Codes(papers[..n]);
    }
  }

  /** READINESS. In every reachable state a CONFIGURED sitting passes the whole readiness check,
      has exactly five distinct subjects, and locking it once approved cannot fail. */
  lemma ConfiguredIsLockable(s: Sitting, actor: Option<nat>, why: string, now: int)
    requires Inv(s) && s.status == Configured
    ensures Ready(s.fields, s.papers) && |Codes(s.papers)| == REQUIRED_PAPERS
    ensures Step(s, Lock(actor, why, now)).Ok? <==> s.approvedAt.Some?
    ensures s.approvedAt.Some? ==> Next(s, Lock(actor, why, now)).status == Locked
  {
    DistinctCodesCount(s.papers);
  }

  /** From any reachable state, the calls that succeed in locking are exactly those on an already
      locked sitting (which change nothing) and those on a configured, approved one. */
  lemma LockSucceedsIff(s: Sitting, actor: Option<nat>, why: string, now: int)
    requires Inv(s)
    ensures Step(s, Lock(actor, why, now)).Ok? <==>
              IsLocked(s.status) || (s.status == Configured && s.approvedAt.Some?)
    ensures IsLocked(s.status) ==> Next(s, Lock(actor, why, now)) == s
  {
  }

  // ----- history -----

  /** REPLAY. Folding the after-values forward from the lock snapshot gives the live fields, and
      a sitting is locked exactly when it has one AUTO_LOCK event, which is then its oldest. */
  lemma HistoryReplays(s: Sitting)
    requires Inv(s)
    ensures IsLocked(s.status) ==>
              s.events != [] && s.events[0].AutoLock? && Replay(s.events, |s.events|) == s.fields
    ensures IsLocked(s.status) <==> exists i :: 0 <= i < |s.events| && s.events[i].AutoLock?
    ensures forall i :: 0 <= i < |s.events| ==> (s.events[i].AutoLock? <==> i == 0)
  {
    if IsLocked(s.status) {
      forall i | 0 <= i < |s.events| ensures s.events[i].AutoLock? <==> i == 0 {
        assert i > 0 ==> AmendmentOk(s.events, i);
      }
    }
  }

  lemma OverwriteUndoes(before: Fields, after: Fields)
    requires after.Keys <= before.Keys
    ensures before + after + Restrict(before, after.Keys) == before
  {
  }

  lemma ReplayUnfolds(events: seq<LockEvent>, n: nat)
    requires LogOk(events) && 1 <= n <= |events|
    ensures n == 1 ==> Replay(events, n).Keys == AMENDABLE_FIELDS
    ensures n > 1 ==> Replay(events, n) == Replay(events, n - 1) + AfterOf(events[n - 1])
  {
    hide Restrict, AmendmentOk, AfterOf;
  }

  lemma AmendmentColumns(events: seq<LockEvent>, i: nat)
    requires LogOk(events) && 1 <= i < |events|
    ensures AfterOf(events[i]).Keys <= AMENDABLE_FIELDS
  {
    hide Restrict, Replay, Complete, AfterOf;
    assert AmendmentOk(events, i);
  }

  lemma {:induction false} ReplayIsComplete(events: seq<LockEvent>, n: nat)
    requires LogOk(events) && 1 <= n <= |events|
    ensures Replay(events, n).Keys == AMENDABLE_FIELDS
  {
    hide Restrict, AmendmentOk, Replay, AfterOf;
    ReplayUnfolds(events, n);
    if n > 1 {
      ReplayIsComplete(events, n - 1);
      AmendmentColumns(events, n - 1);
    }
  }

  lemma OneUndo(events: seq<LockEvent>, n: nat)
    requires LogOk(events) && 1 <= n < |events|
    ensures Replay(events, n + 1) + BeforeOf(events[n]) == Replay(events, n)
  {
    hide Restrict, Complete;
    assert AmendmentOk(events, n);
    ReplayIsComplete(events, n);
    OverwriteUndoes(Replay(events, n), AfterOf(events[n]));
  }

  lemma {:induction false} LogUndoes(events: seq<LockEvent>, n: nat)
    requires LogOk(events) && 1 <= n <= |events|
    ensures Undo(Replay(events, |events|), events, n) == Replay(events, n)
    decreases |events| - n
  {
    hide Restrict, Complete, Replay, AmendmentOk, BeforeOf;
    if n < |events| {
      LogUndoes(events, n + 1);
      OneUndo(events, n);
    }
  }

  /** UNDO. Undoing the before-values newest first gives back the state after any earlier event,
      down to the lock-time values. */
  lemma HistoryUndoes(s: Sitting, n: nat)
    requires Inv(s) && IsLocked(s.status) && 1 <= n <= |s.events|
    ensures Undo(s.fields, s.events, n) == Replay(s.events, n)
    ensures n == 1 ==> Undo(s.fields, s.events, n) == s.events[0].snapshot.fields
  {
    LogUndoes(s.events, n);
  }

  // ----- snapshot agreement -----

  predicate AgreeOnCritical(a: Fields, b: Fields) {
    forall f :: f in CRITICAL_FIELDS ==> f in a && f in b && a[f] == b[f]
  }

  /** Event `i` is the newest of the first `n` that bears a snapshot. */
  predicate Newest(events: seq<LockEvent>, n: nat, i: nat)
    requires n <= |events|
  {
    i < n && BearsSnapshot(events[i]) && forall j :: i < j < n ==> events[j].ChairAmend?
  }

  lemma {:induction false} SearchFindsNewest(events: seq<LockEvent>, n: nat) returns (i: nat)
    requires 1 <= n <= |events| && events[0].AutoLock?
    ensures Newest(events, n, i) && StoredSnapshot(events, n) == Some(SnapshotIn(events[i]))
  {
    if BearsSnapshot(events[n - 1]) {
      i := n - 1;
    } else {
      i := SearchFindsNewest(events, n - 1);
    }
  }

  /** A snapshot-bearing event stores the fields of its own moment. */
  lemma StoresReplay(events: seq<LockEvent>, i: nat)
    requires LogOk(events) && i < |events| && BearsSnapshot(events[i])
    ensures SnapshotIn(events[i]).fields == Replay(events, i + 1)
  {
    if i > 0 {
      assert AmendmentOk(events, i);
    }
  }

  lemma OverlayKeepsCritical(m: Fields, changes: Fields)
    requires changes.Keys * CRITICAL_FIELDS == {} && CRITICAL_FIELDS <= m.Keys
    ensures AgreeOnCritical(m, m + changes)
  {
    forall f | f in CRITICAL_FIELDS ensures f !in changes {
      assert f !in changes.Keys * CRITICAL_FIELDS;
    }
  }

  /** Chair amendments after event `i` leave the critical values it stored. */
  lemma {:induction false} ChairLeavesCritical(events: seq<LockEvent>, i: nat, n: nat)
    requires LogOk(events) && n <= |events| && Newest(events, n, i)
    ensures AgreeOnCritical(SnapshotIn(events[i]).fields, Replay(events, n))
    decreases n
  {
    hide Restrict, Complete;
    if i + 1 < n {
      ChairLeavesCritical(events, i, n - 1);
      assert AmendmentOk(events, n - 1);
      OverlayKeepsCritical(Replay(events, n - 1), AfterOf(events[n - 1]));
    } else {
      StoresReplay(events, i);
      ReplayIsComplete(events, n);
    }
  }

  /** SNAPSHOT AGREEMENT. In every reachable locked state the returned snapshot is the one stored
      by the newest lock or resolution event, and agrees with the live record on every critical
      field, on all papers, on the lock time and on the approval. */
  lemma SnapshotAgrees(s: Sitting) returns (i: nat)
    requires Inv(s) && IsLocked(s.status)
    ensures Newest(s.events, |s.events|, i) && SnapshotOf(s) == SnapshotIn(s.events[i])
    ensures SameFrame(SnapshotOf(s), s) && AgreeOnCritical(SnapshotOf(s).fields, s.fields)
  {
    hide Replay, AmendmentOk, ConfigurationOk;
    i := SearchFindsNewest(s.events, |s.events|);
    ChairLeavesCritical(s.events, i, |s.events|);
  }

  predicate Rebuilds(s: Sitting, op: Op) {
    op.AmendCritical? && Step(s, op).Ok?
  }

  lemma {:induction false} EarlierStored(events: seq<LockEvent>, e: LockEvent, n: nat)
    requires n <= |events|
    ensures StoredSnapshot(events + [e], n) == StoredSnapshot(events, n)
  {
    if n > 0 {
      EarlierStored(events, e, n - 1);
    }
  }

  /** SNAPSHOT STABILITY. On a locked sitting every call leaves the snapshot as it is - Chair
      amendments, activation and closing included - except a successful resolution amendment,
      which replaces it by the live record of that moment. */
  lemma SnapshotIsStable(s: Sitting, op: Op)
    requires Inv(s) && TypedOp(op) && IsLocked(s.status)
    ensures IsLocked(Next(s, op).status)
    ensures SnapshotOf(Next(s, op)) == if Rebuilds(s, op) then Live(Next(s, op)) else SnapshotOf(s)
  {
    hide Step, Restrict, Replay, Complete, AmendmentOk, ConfigurationOk, FramesOk;
    LockedStepShape(s, op);
    var n, t := |s.events|, Next(s, op);
    var i := SearchFindsNewest(s.events, n);
    if AmendsNow(s, op) {
      var e := t.events[n];
      EarlierStored(s.events, e, n);
      if Rebuilds(s, op) {
        assert t.events[n].rebuilt == Live(t);
      }
    }
  }

  /** Locking freezes the live record of that moment. */
  lemma LockFreezes(s: Sitting, actor: Option<nat>, why: string, now: int)
    requires Inv(s) && !IsLocked(s.status) && Step(s, Lock(actor, why, now)).Ok?
    ensures var t := Next(s, Lock(actor, why, now));
            && IsLocked(t.status) && SnapshotOf(t) == Live(t)
            && t.fields == s.fields && t.papers == s.papers && t.lockedAt == Some(now)
  {
  }

  /** Over a whole run from a locked state without a successful resolution amendment, readers see
      one and the same snapshot, and the critical fields and papers do not move. */
  lemma {:induction false} SnapshotFrozenOverRun(s: Sitting, ops: seq<Op>, n: nat)
    requires Inv(s) && IsLocked(s.status) && n <= |ops|
    requires forall i :: 0 <= i < |ops| ==> TypedOp(ops[i]) && !Rebuilds(After(s, ops, i), ops[i])
    ensures Inv(After(s, ops, n)) && IsLocked(After(s, ops, n).status)
    ensures SnapshotOf(After(s, ops, n)) == SnapshotOf(s)
  {
    hide Inv, Step, Next, SnapshotOf;
    if n > 0 {
      SnapshotFrozenOverRun(s, ops, n - 1);
      assert TypedOp(ops[n - 1]) && !Rebuilds(After(s, ops, n - 1), ops[n - 1]);
      StepKeepsInv(After(s, ops, n - 1), ops[n - 1]);
      SnapshotIsStable(After(s, ops, n - 1), ops[n - 1]);
    }
  }

  lemma CriticalFrozenOverRun(s: Sitting, ops: seq<Op>, n: nat)
    requires Inv(s) && IsLocked(s.status) && n <= |ops|
    requires forall i :: 0 <= i < |ops| ==> TypedOp(ops[i]) && !Rebuilds(After(s, ops, i), ops[i])
    ensures AgreeOnCritical(s.fields, After(s, ops, n).fields)
    ensures After(s, ops, n).papers == s.papers
  {
    hide Inv, Step, Next, SnapshotOf;
    SnapshotFrozenOverRun(s, ops, n);
    var i := SnapshotAgrees(s);
    var j := SnapshotAgrees(After(s, ops, n));
  }

  /** The call at which the snapshot of a locked sitting was taken: the lock itself, or a
      successful resolution amendment. */
  predicate Freezes(s: Sitting, op: Op) {
    Rebuilds(s, op) || (!IsLocked(s.status) && IsLocked(Next(s, op).status))
  }

  /** Only a successful lock call makes a sitting locked. */
  lemma OnlyLockLocks(s: Sitting, op: Op)
    requires !IsLocked(s.status) && IsLocked(Next(s, op).status)
    ensures op.Lock? && Step(s, op).Ok?
  {
  }

  /** THE SNAPSHOT IS A PAST RECORD. In every reachable locked state the returned snapshot is the
      whole live record as it stood right after some earlier lock or resolution amendment, with
      no such call since. */
  lemma {:induction false} SnapshotIsPastRecord(s: Sitting, ops: seq<Op>, n: nat) returns (m: nat)
    requires Fresh(s) && n <= |ops| && forall i :: 0 <= i < |ops| ==> TypedOp(ops[i])
    requires IsLocked(After(s, ops, n).status)
    ensures 0 < m <= n && Freezes(After(s, ops, m - 1), ops[m - 1])
    ensures forall k :: m <= k < n ==> !Freezes(After(s, ops, k), ops[k])
    ensures SnapshotOf(After(s, ops, n)) == Live(After(s, ops, m))
  {
    hide Inv, Step, Next, SnapshotOf, TypedOp;
    assert n > 0;
    var before, op := After(s, ops, n - 1), ops[n - 1];
    RunKeepsInv(s, ops, n - 1);
    if !IsLocked(before.status) {
      OnlyLockLocks(before, op);
      LockFreezes(before, op.actor, op.why, op.now);
      m := n;
    } else {
      SnapshotIsStable(before, op);
      if Rebuilds(before, op) {
        m := n;
      } else {
        m := SnapshotIsPastRecord(s, ops, n - 1);
      }
    }
  }
}
