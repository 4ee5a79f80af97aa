/** The sitting lifecycle: drafting, configuring, approving, the T-30 lock, the two kinds of
    amendment after it, and the frozen snapshot that later phases read. A service call is one
    step on a sitting; a call that raises leaves the sitting as it was. */
module SittingLifecycle {
  import opened Wrappers

  datatype Status = Draft | Configured | Locked | Active | Closed

  datatype PassRule = AllPass | Aggregate | Compensated

  /** Column names as they occur in a `changes` dictionary. */
  datatype Field =
    | PassMark | Rule | PassBandMin | PassBandMax
    | CompensatedMin | CompensatedFloor
    | SittingDate | SittingEndDate
    | Normalisation | Centres
    | Other(name: string)

  datatype Value =
    | Amount(amount: int)
    | MaybeAmount(optional: Option<int>)
    | RuleValue(rule: PassRule)
    | Date(day: int)
    | Text(text: string)
    | Refs(refs: seq<string>)

  type Fields = map<Field, Value>

  const CRITICAL_FIELDS: set<Field> := {
    PassMark, Rule, PassBandMin, PassBandMax, CompensatedMin, CompensatedFloor,
    SittingDate, SittingEndDate, Normalisation
  }

  const NON_CRITICAL_FIELDS: set<Field> := { Centres }

  const AMENDABLE_FIELDS: set<Field> := CRITICAL_FIELDS + NON_CRITICAL_FIELDS

  /** A column holds values of its own type only. */
  predicate Typed(f: Field, v: Value) {
    match f
    case PassMark | PassBandMin | PassBandMax => v.Amount?
    case CompensatedMin | CompensatedFloor => v.MaybeAmount?
    case Rule => v.RuleValue?
    case SittingDate | SittingEndDate => v.Date?
    case Normalisation => v.Text?
    case Centres => v.Refs?
    case Other(_) => true
  }

  predicate WellTyped(m: Fields) {
    forall f :: f in m ==> Typed(f, m[f])
  }

  /** The typed columns of one sitting. */
  predicate Complete(m: Fields) {
    WellTyped(m) && m.Keys == AMENDABLE_FIELDS
  }

  /** `delivery` stands for the columns that no rule reads: mode, duration, normalisation. */
  datatype Paper = Paper(id: nat, code: string, name: string, totalMarks: int, passMark: int,
                         sections: seq<int>, blueprint: Option<nat>, delivery: string)

  datatype Snapshot = Snapshot(ref: string, status: Status, fields: Fields, lockedAt: Option<int>,
                               approvedAt: Option<int>, meeting: Option<nat>, papers: seq<Paper>)

  datatype LockEvent =
    | AutoLock(actor: Option<nat>, justification: string, snapshot: Snapshot)
    | ChairAmend(actor: Option<nat>, justification: string, before: Fields, after: Fields)
    | ResolutionAmend(actor: Option<nat>, justification: string, resolution: string,
                      before: Fields, after: Fields, rebuilt: Snapshot)

  /** A sitting with its papers and its lock events, oldest first. */
  datatype Sitting = Sitting(ref: string, status: Status, fields: Fields, lockedAt: Option<int>,
                             approvedAt: Option<int>, meeting: Option<nat>,
                             papers: seq<Paper>, events: seq<LockEvent>)

  datatype Error =
    | OutOfPolicyPassStandard | InconsistentMarksAllocation | InconsistentCompensationRule
    | SittingNotReady | ConfigurationLocked | SubjectCountMismatch | InvalidTransition
    | NotApproved | NotLocked | MissingJustification | MissingResolutionRef
    | UnknownField | CriticalFieldRequiresResolution | PaperNotFound

  datatype PaperData = PaperData(code: string, name: Option<string>, totalMarks: Option<int>, passMark: Option<int>,
                                 sections: Option<seq<int>>, blueprint: Option<Option<nat>>, delivery: Option<string>)

  datatype Op =
    | UpdateDraft(data: Fields)
    | PutPaper(paper: PaperData, newId: nat)
    | RemovePaper(id: nat)
    | Configure
    | Approve(meeting: nat, now: int)
    | Lock(actor: Option<nat>, why: string, now: int)
    | Activate
    | Close
    | AmendNonCritical(actor: Option<nat>, changes: Fields, why: string)
    | AmendCritical(actor: Option<nat>, changes: Fields, resolution: string, why: string)

  // ----- validators -----

  predicate IsLocked(status: Status) {
    status == Locked || status == Active || status == Closed
  }

  function AmountOf(m: Fields, f: Field): int {
    if f in m && m[f].Amount? then m[f].amount else 0
  }

  function OptionalOf(m: Fields, f: Field): Option<int> {
    if f in m && m[f].MaybeAmount? then m[f].optional else None
  }

  function DayOf(m: Fields, f: Field): int {
    if f in m && m[f].Date? then m[f].day else 0
  }

  predicate IsCompensated(m: Fields) {
    Rule in m && m[Rule] == RuleValue(Compensated)
  }

  predicate PassBandOk(m: Fields, mark: int) {
    AmountOf(m, PassBandMin) <= mark <= AmountOf(m, PassBandMax)
  }

  predicate CompensationOk(m: Fields) {
    IsCompensated(m) ==> OptionalOf(m, CompensatedMin).Some? && OptionalOf(m, CompensatedFloor).Some?
  }

  function Sum(s: seq<int>): int {
    if s == [] then 0 else s[0] + Sum(s[1..])
  }

  predicate SectionsOk(p: Paper) {
    p.sections == [] || Sum(p.sections) == p.totalMarks
  }

  predicate PaperOk(m: Fields, p: Paper) {
    PassBandOk(m, p.passMark) && SectionsOk(p) && p.blueprint.Some?
  }

  const REQUIRED_PAPERS: nat := 5

  /** The readiness check of configuring and locking. */
  predicate Ready(m: Fields, papers: seq<Paper>) {
    && |papers| == REQUIRED_PAPERS
    && PassBandOk(m, AmountOf(m, PassMark))
    && (forall i :: 0 <= i < |papers| ==> PaperOk(m, papers[i]))
    && CompensationOk(m)
    && DayOf(m, SittingDate) <= DayOf(m, SittingEndDate)
  }

  // ----- text -----

  function StripLeft(s: string): string {
    if s != "" && IsSpace(s[0]) then StripLeft(s[1..]) else s
  }

  function StripRight(s: string): string {
    if s != "" && IsSpace(s[|s| - 1]) then StripRight(s[..|s| - 1]) else s
  }

  function StrippedLength(s: string): nat {
    |StripRight(StripLeft(s))|
  }

  // ----- papers -----

  function FindPaper(papers: seq<Paper>, code: string): (i: int)
    ensures -1 <= i < |papers|
    ensures i >= 0 ==> papers[i].code == code
    ensures i == -1 ==> forall k :: 0 <= k < |papers| ==> papers[k].code != code
  {
    if papers == [] then -1
    else if papers[|papers| - 1].code == code then |papers| - 1
    else FindPaper(papers[..|papers| - 1], code)
  }

  function FindId(papers: seq<Paper>, id: nat): (i: int)
    ensures -1 <= i < |papers|
    ensures i >= 0 ==> papers[i].id == id
  {
    if papers == [] then -1
    else if papers[|papers| - 1].id == id then |papers| - 1
    else FindId(papers[..|papers| - 1], id)
  }

  function NewPaper(d: PaperData, id: nat): Paper {
    Paper(id, d.code, if d.name.Some? then d.name.value else d.code, 100, 5000, [], None, "cbt/180/none")
  }

  /** The `setattr` loop over the payload. */
  function Overlay(p: Paper, d: PaperData): Paper {
    p.(name := if d.name.Some? then d.name.value else p.name,
       totalMarks := if d.totalMarks.Some? then d.totalMarks.value else p.totalMarks,
       passMark := if d.passMark.Some? then d.passMark.value else p.passMark,
       sections := if d.sections.Some? then d.sections.value else p.sections,
       blueprint := if d.blueprint.Some? then d.blueprint.value else p.blueprint,
       delivery := if d.delivery.Some? then d.delivery.value else p.delivery)
  }

  /** An edit of a CONFIGURED sitting drops it back to DRAFT. */
  function Demoted(status: Status): Status {
    if status == Configured then Draft else status
  }

  // ----- snapshots -----

  function Live(s: Sitting): Snapshot {
    Snapshot(s.ref, s.status, s.fields, s.lockedAt, s.approvedAt, s.meeting, s.papers)
  }

  /** The stored snapshot among the first `n` events, searched newest first. */
  function StoredSnapshot(events: seq<LockEvent>, n: nat): Option<Snapshot>
    requires n <= |events|
  {
    if n == 0 then None
    else match events[n - 1]
      case AutoLock(_, _, snapshot) => Some(snapshot)
      case ResolutionAmend(_, _, _, _, _, rebuilt) => Some(rebuilt)
      case ChairAmend(_, _, _, _) => StoredSnapshot(events, n - 1)
  }

  /** `get_sitting_snapshot`: live before the lock, stored after it. */
  function SnapshotOf(s: Sitting): Snapshot {
    if !IsLocked(s.status) then Live(s)
    else match StoredSnapshot(s.events, |s.events|)
      case Some(snapshot) => snapshot
      case None => Live(s)
  }

  // ----- the service calls -----

  /** The values of the changed columns. */
  function Restrict(m: Fields, keys: set<Field>): Fields {
    map f | f in m && f in keys :: m[f]
  }

  function Step(s: Sitting, op: Op): Result<Sitting, Error> {
    match op
    case UpdateDraft(data) =>
      var m := s.fields + data;
      if IsLocked(s.status) then Err(ConfigurationLocked)
      else if PassMark in data && !PassBandOk(m, AmountOf(m, PassMark)) then Err(OutOfPolicyPassStandard)
      else if !CompensationOk(m) then Err(InconsistentCompensationRule)
      else Ok(s.(fields := m, status := Demoted(s.status)))
    case PutPaper(d, newId) => PutPaperStep(s, d, newId)
    case RemovePaper(id) =>
      var i := FindId(s.papers, id);
      if IsLocked(s.status) then Err(ConfigurationLocked)
      else if i < 0 then Err(PaperNotFound)
      else Ok(s.(papers := s.papers[..i] + s.papers[i + 1..], status := Demoted(s.status)))
    case Configure =>
      if s.status != Draft && s.status != Configured then Err(InvalidTransition)
      else if !Ready(s.fields, s.papers) then Err(SittingNotReady)
      else Ok(s.(status := Configured))
    case Approve(meeting, now) =>
      if s.status != Configured then Err(InvalidTransition)
      else Ok(s.(approvedAt := Some(now), meeting := Some(meeting)))
    case Lock(actor, why, now) =>
      if IsLocked(s.status) then Ok(s)
      else if s.status != Configured then Err(InvalidTransition)
      else if s.approvedAt.None? then Err(NotApproved)
      else if !Ready(s.fields, s.papers) then Err(SittingNotReady)
      else
        var t := s.(status := Locked, lockedAt := Some(now));
        Ok(t.(events := t.events + [AutoLock(actor, if why == "" then "Automatic T-30 lock" else why, Live(t))]))
    case Activate =>
      if s.status != Locked then Err(InvalidTransition) else Ok(s.(status := Active))
    case Close =>
      if s.status != Active then Err(InvalidTransition) else Ok(s.(status := Closed))
    case AmendNonCritical(actor, changes, why) =>
      if !IsLocked(s.status) then Err(NotLocked)
      else if StrippedLength(why) < 10 then Err(MissingJustification)
      else if !(changes.Keys <= AMENDABLE_FIELDS) then Err(UnknownField)
      else if changes.Keys * CRITICAL_FIELDS != {} then Err(CriticalFieldRequiresResolution)
      else
        var m := s.fields + changes;
        Ok(s.(fields := m,
              events := s.events + [ChairAmend(actor, why, Restrict(s.fields, changes.Keys),
                                               Restrict(m, changes.Keys))]))
    case AmendCritical(actor, changes, resolution, why) => AmendCriticalStep(s, actor, changes, resolution, why)
  }

  function PutPaperStep(s: Sitting, d: PaperData, newId: nat): Result<Sitting, Error> {
    var i := FindPaper(s.papers, d.code);
    if IsLocked(s.status) then Err(ConfigurationLocked)
    else if d.passMark.Some? && !PassBandOk(s.fields, d.passMark.value) then Err(OutOfPolicyPassStandard)
    else if i < 0 && |s.papers| >= REQUIRED_PAPERS then Err(SubjectCountMismatch)
    else
      var p := Overlay(if i < 0 then NewPaper(d, newId) else s.papers[i], d);
      if !SectionsOk(p) then Err(InconsistentMarksAllocation)
      else Ok(s.(papers := if i < 0 then s.papers + [p] else s.papers[i := p], status := Demoted(s.status)))
  }

  function AmendCriticalStep(s: Sitting, actor: Option<nat>, changes: Fields, resolution: string, why: string):
    Result<Sitting, Error>
  {
    var m := s.fields + changes;
    if !IsLocked(s.status) then Err(NotLocked)
    else if resolution == "" then Err(MissingResolutionRef)
    else if StrippedLength(why) < 30 then Err(MissingJustification)
    else if !(changes.Keys <= AMENDABLE_FIELDS) then Err(UnknownField)
    else if PassMark in changes && !PassBandOk(m, AmountOf(m, PassMark)) then Err(OutOfPolicyPassStandard)
    else if !CompensationOk(m) then Err(InconsistentCompensationRule)
    else
      var t := s.(fields := m);
      Ok(t.(events := t.events + [ResolutionAmend(actor, why, resolution, Restrict(s.fields, changes.Keys),
                                                  Restrict(m, changes.Keys), Live(t))]))
  }

  function Next(s: Sitting, op: Op): Sitting {
    var r := Step(s, op);
    if r.Ok? then r.value else s
  }

  function Raised(r: Result<Sitting, Error>): Option<Error> {
    if r.Ok? then None else Some(r.error)
  }

  // ----- the record itself -----

  class SittingRecord {
    const ref: string
    var status: Status
    var fields: Fields
    var lockedAt: Option<int>
    var approvedAt: Option<int>
    var meeting: Option<nat>
    var papers: seq<Paper>
    var events: seq<LockEvent>

    function Row(): Sitting
      reads this
    {
      Sitting(ref, status, fields, lockedAt, approvedAt, meeting, papers, events)
    }

    constructor (ref: string, data: Fields)
      ensures Row() == Sitting(ref, Draft, data, None, None, None, [], [])
    {
      this.ref := ref;
      status, fields := Draft, data;
      lockedAt, approvedAt, meeting := None, None, None;
      papers, events := [], [];
    }

    /** The pre-flight check collects one reason per problem. */
    method ValidateComplete() returns (problems: nat)
      ensures problems == 0 <==> Ready(fields, papers)
    {
      problems := 0;
      if |papers| != REQUIRED_PAPERS {
        problems := problems + 1;
      }
      if !PassBandOk(fields, AmountOf(fields, PassMark)) {
        problems := problems + 1;
      }
      ghost var head := problems;
      for i := 0 to |papers|
        invariant problems >= head
        invariant problems == head <==> forall k :: 0 <= k < i ==> PaperOk(fields, papers[k])
      {
        if !PassBandOk(fields, papers[i].passMark) || !SectionsOk(papers[i]) {
          problems := problems + 1;
        }
        if papers[i].blueprint.None? {
          problems := problems + 1;
        }
      }
      if !CompensationOk(fields) {
        problems := problems + 1;
      }
      if DayOf(fields, SittingEndDate) < DayOf(fields, SittingDate) {
        problems := problems + 1;
      }
    }

    method Update(data: Fields) returns (error: Option<Error>)
      modifies this
      ensures Row() == Next(old(Row()), UpdateDraft(data))
      ensures error == Raised(Step(old(Row()), UpdateDraft(data)))
    {
      if IsLocked(status) {
        return Some(ConfigurationLocked);
      }
      var updated := fields + data;
      if PassMark in data && !PassBandOk(updated, AmountOf(updated, PassMark)) {
        return Some(OutOfPolicyPassStandard);
      }
      if !CompensationOk(updated) {
        return Some(InconsistentCompensationRule);
      }
      fields := updated;
      if status == Configured {
        status := Draft;
      }
      return None;
    }

    method AddOrUpdatePaper(d: PaperData, newId: nat) returns (error: Option<Error>)
      modifies this
      ensures Row() == Next(old(Row()), PutPaper(d, newId))
      ensures error == Raised(Step(old(Row()), PutPaper(d, newId)))
    {
      if IsLocked(status) {
        return Some(ConfigurationLocked);
      }
      if d.passMark.Some? && !PassBandOk(fields, d.passMark.value) {
        return Some(OutOfPolicyPassStandard);
      }
      var i := FindPaper(papers, d.code);
      if i < 0 && |papers| >= REQUIRED_PAPERS {
        return Some(SubjectCountMismatch);
      }
      var paper := Overlay(if i < 0 then NewPaper(d, newId) else papers[i], d);
      if !SectionsOk(paper) {
        return Some(InconsistentMarksAllocation);
      }
      if i < 0 {
        papers := papers + [paper];
      } else {
        papers := papers[i := paper];
      }
      if status == Configured {
        status := Draft;
      }
      return None;
    }

    method DeletePaper(id: nat) returns (error: Option<Error>)
      modifies this
      ensures Row() == Next(old(Row()), RemovePaper(id))
      ensures error == Raised(Step(old(Row()), RemovePaper(id)))
    {
      if IsLocked(status) {
        return Some(ConfigurationLocked);
      }
      var i := FindId(papers, id);
      if i < 0 {
        return Some(PaperNotFound);
      }
      papers := papers[..i] + papers[i + 1..];
      if status == Configured {
        status := Draft;
      }
      return None;
    }

    method ConfigureSitting() returns (error: Option<Error>)
      modifies this
      ensures Row() == Next(old(Row()), Configure)
      ensures error == Raised(Step(old(Row()), Configure))
    {
      if status != Draft && status != Configured {
        return Some(InvalidTransition);
      }
      var problems := ValidateComplete();
      if problems > 0 {
        return Some(SittingNotReady);
      }
      status := Configured;
      return None;
    }

    method ApproveSitting(meetingId: nat, now: int) returns (error: Option<Error>)
      modifies this
      ensures Row() == Next(old(Row()), Approve(meetingId, now))
      ensures error == Raised(Step(old(Row()), Approve(meetingId, now)))
    {
      if status != Configured {
        return Some(InvalidTransition);
      }
      approvedAt := Some(now);
      meeting := Some(meetingId);
      return None;
    }

    method LockSitting(actor: Option<nat>, why: string, now: int) returns (error: Option<Error>)
      modifies this
      ensures Row() == Next(old(Row()), Lock(actor, why, now))
      ensures error == Raised(Step(old(Row()), Lock(actor, why, now)))
    {
      if IsLocked(status) {
        return None;
      }
      if status != Configured {
        return Some(InvalidTransition);
      }
      if approvedAt.None? {
        return Some(NotApproved);
      }
      var problems := ValidateComplete();
      if problems > 0 {
        return Some(SittingNotReady);
      }
      status := Locked;
      lockedAt := Some(now);
      var snapshot := Live(Row());
      events := events + [AutoLock(actor, if why == "" then "Automatic T-30 lock" else why, snapshot)];
      return None;
    }

    method ActivateSitting() returns (error: Option<Error>)
      modifies this
      ensures Row() == Next(old(Row()), Activate)
      ensures error == Raised(Step(old(Row()), Activate))
      ensures error.None? <==> old(status) == Locked
      ensures error.None? ==> status == Active
    {
      if status != Locked {
        return Some(InvalidTransition);
      }
      status := Active;
      return None;
    }

    method CloseSitting() returns (error: Option<Error>)
      modifies this
      ensures Row() == Next(old(Row()), Close)
      ensures error == Raised(Step(old(Row()), Close))
      ensures error.None? <==> old(status) == Active
      ensures error.None? ==> status == Closed
    {
      if status != Active {
        return Some(InvalidTransition);
      }
      status := Closed;
      return None;
    }

    method ChairAmendment(actor: Option<nat>, changes: Fields, why: string) returns (error: Option<Error>)
      modifies this
      ensures Row() == Next(old(Row()), AmendNonCritical(actor, changes, why))
      ensures error == Raised(Step(old(Row()), AmendNonCritical(actor, changes, why)))
    {
      if !IsLocked(status) {
        return Some(NotLocked);
      }
      if StrippedLength(why) < 10 {
        return Some(MissingJustification);
      }
      if !(changes.Keys <= AMENDABLE_FIELDS) {
        return Some(UnknownField);
      }
      if changes.Keys * CRITICAL_FIELDS != {} {
        return Some(CriticalFieldRequiresResolution);
      }
      var before := Restrict(fields, changes.Keys);
      fields := fields + changes;
      var after := Restrict(fields, changes.Keys);
      events := events + [ChairAmend(actor, why, before, after)];
      return None;
    }

    method ResolutionAmendment(actor: Option<nat>, changes: Fields, resolution: string, why: string)
      returns (error: Option<Error>)
      modifies this
      ensures Row() == Next(old(Row()), AmendCritical(actor, changes, resolution, why))
      ensures error == Raised(Step(old(Row()), AmendCritical(actor, changes, resolution, why)))
    {
      if !IsLocked(status) {
        return Some(NotLocked);
      }
      if resolution == "" {
        return Some(MissingResolutionRef);
      }
      if StrippedLength(why) < 30 {
        return Some(MissingJustification);
      }
      if !(changes.Keys <= AMENDABLE_FIELDS) {
        return Some(UnknownField);
      }
      var updated := fields + changes;
      if PassMark in changes && !PassBandOk(updated, AmountOf(updated, PassMark)) {
        return Some(OutOfPolicyPassStandard);
      }
      if !CompensationOk(updated) {
        return Some(InconsistentCompensationRule);
      }
      var before := Restrict(fields, changes.Keys);
      fields := updated;
      var after := Restrict(fields, changes.Keys);
      events := events + [ResolutionAmend(actor, why, resolution, before, after, Live(Row()))];
      return None;
    }

    /** `get_sitting_snapshot`: the newest snapshot-bearing event wins. */
    method GetSnapshot() returns (snapshot: Snapshot)
      ensures snapshot == SnapshotOf(Row())
    {
      if !IsLocked(status) {
        return Live(Row());
      }
      var n := |events|;
      while n > 0
        invariant 0 <= n <= |events|
        invariant StoredSnapshot(events, |events|) == StoredSnapshot(events, n)
      {
        var event := events[n - 1];
        if event.AutoLock? {
          return event.snapshot;
        }
        if event.ResolutionAmend? {
          return event.rebuilt;
        }
        n := n - 1;
      }
      return Live(Row());
    }
  }
}
