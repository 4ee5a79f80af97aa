/** Each call on a sitting told with its own numbers and columns: exactly when it is accepted and what
    it leaves; and the path that the status takes over every run. */
module SittingSteps {
  import opened Wrappers
  import opened SittingLifecycle
  import opened SittingLaws

  // ----- the path of the status -----

  /** The five moves that exist, each with the call that makes it. */
  predicate StatusMove(from: Status, op: Op, to: Status) {
    || (from == Draft && op.Configure? && to == Configured)
    || (from == Configured && (op.UpdateDraft? || op.PutPaper? || op.RemovePaper?) && to == Draft)
    || (from == Configured && op.Lock? && to == Locked)
    || (from == Locked && op.Activate? && to == Active)
    || (from == Active && op.Close? && to == Closed)
  }

  /** A status changes only by one of these moves, and each of these calls makes its move when it is
      accepted in that status. */
  lemma StatusMovesIff(s: Sitting, op: Op)
    ensures Next(s, op).status != s.status <==>
              Step(s, op).Ok? && StatusMove(s.status, op, Next(s, op).status)
    ensures Step(s, op).Ok? ==> forall to :: StatusMove(s.status, op, to) ==> Next(s, op).status == to
  {
  }

  /** From where a status can have been reached. */
  predicate Reaches(s: Sitting, ops: seq<Op>, k: nat, n: nat, from: Status, to: Status)
    requires n <= |ops|
  {
    && k < n && After(s, ops, k).status == from && After(s, ops, k + 1).status == to
    && StatusMove(from, ops[k], to)
    && forall j :: k < j <= n ==> After(s, ops, j).status == to
  }

  lemma {:induction false} LastMove(s: Sitting, ops: seq<Op>, n: nat) returns (k: nat)
    requires n <= |ops| && After(s, ops, n).status != s.status
    ensures k < n && StatusMove(After(s, ops, k).status, ops[k], After(s, ops, n).status)
    ensures Reaches(s, ops, k, n, After(s, ops, k).status, After(s, ops, n).status)
  {
    hide Next, Step;
    var t := After(s, ops, n - 1);
    StatusMovesIff(t, ops[n - 1]);
    if t.status != After(s, ops, n).status {
      k := n - 1;
    } else {
      k := LastMove(s, ops, n - 1);
    }
  }

  /** THE PATH. Over every run from a new sitting a closed sitting was active and was closed by a close
      call, an active one was locked and activated, and a locked one was configured and locked; and a
      locked sitting never goes back. */
  lemma ClosedWasActive(s: Sitting, ops: seq<Op>, n: nat) returns (k: nat)
    requires s.status == Draft && n <= |ops| && After(s, ops, n).status == Closed
    ensures Reaches(s, ops, k, n, Active, Closed) && ops[k].Close?
  {
    hide After;
    k := LastMove(s, ops, n);
  }

  lemma ActiveWasLocked(s: Sitting, ops: seq<Op>, n: nat) returns (k: nat)
    requires s.status == Draft && n <= |ops| && After(s, ops, n).status == Active
    ensures Reaches(s, ops, k, n, Locked, Active) && ops[k].Activate?
  {
    hide After;
    k := LastMove(s, ops, n);
  }

  lemma LockedWasConfigured(s: Sitting, ops: seq<Op>, n: nat) returns (k: nat)
    requires s.status == Draft && n <= |ops| && After(s, ops, n).status == Locked
    ensures Reaches(s, ops, k, n, Configured, Locked) && ops[k].Lock?
  {
    hide After;
    k := LastMove(s, ops, n);
  }

  function Stage(status: Status): nat {
    match status
    case Draft => 0
    case Configured => 0
    case Locked => 1
    case Active => 2
    case Closed => 3
  }

  lemma {:induction false} NeverGoesBack(s: Sitting, ops: seq<Op>, m: nat, n: nat)
    requires m <= n <= |ops|
    ensures Stage(After(s, ops, m).status) <= Stage(After(s, ops, n).status)
    decreases n
  {
    hide Next, Step;
    if m < n {
      NeverGoesBack(s, ops, m, n - 1);
      StatusMovesIff(After(s, ops, n - 1), ops[n - 1]);
    }
  }

  // ----- drafting -----

  /** The value an edit leaves in a column: its own, else the old one. */
  function Column(s: Sitting, data: Fields, f: Field): Value
    requires f in data || f in s.fields
  {
    if f in data then data[f] else s.fields[f]
  }

  function Number(v: Value): int {
    if v.Amount? then v.amount else 0
  }

  predicate Unset(v: Value) {
    !v.MaybeAmount? || v.optional.None?
  }

  /** A compensated rule comes with both of its numbers. */
  predicate Compensates(s: Sitting, data: Fields)
    requires Complete(s.fields)
  {
    Column(s, data, Rule) == RuleValue(Compensated) ==>
      !Unset(Column(s, data, CompensatedMin)) && !Unset(Column(s, data, CompensatedFloor))
  }

  predicate MarkInBand(s: Sitting, data: Fields)
    requires Complete(s.fields)
  {
    Number(Column(s, data, PassBandMin)) <= Number(Column(s, data, PassMark)) <= Number(Column(s, data, PassBandMax))
  }

  lemma ColumnsOf(s: Sitting, data: Fields)
    requires Complete(s.fields) && WellTyped(data) && data.Keys <= AMENDABLE_FIELDS
    ensures CompensationOk(s.fields + data) <==> Compensates(s, data)
    ensures PassBandOk(s.fields + data, AmountOf(s.fields + data, PassMark)) <==> MarkInBand(s, data)
    ensures forall f :: f in s.fields ==> f in s.fields + data && (s.fields + data)[f] == Column(s, data, f)
    ensures (s.fields + data).Keys == s.fields.Keys
  {
    assert {PassMark, Rule, PassBandMin, PassBandMax, CompensatedMin, CompensatedFloor} <= AMENDABLE_FIELDS;
  }

  /** A draft edit is accepted if and only if the sitting is not locked, a pass mark it sets lies in the
      band it leaves, and a compensated rule has both numbers; it sets the columns it names and no
      other, and leaves a draft. */
  lemma UpdateIff(s: Sitting, data: Fields)
    requires Complete(s.fields) && WellTyped(data) && data.Keys <= AMENDABLE_FIELDS
    ensures Step(s, UpdateDraft(data)).Ok?
       <==> (s.status == Draft || s.status == Configured) && (PassMark in data ==> MarkInBand(s, data))
            && Compensates(s, data)
    ensures Step(s, UpdateDraft(data)).Ok? ==>
              var t := Next(s, UpdateDraft(data));
              && t == s.(fields := t.fields, status := Draft) && t.fields.Keys == s.fields.Keys
              && forall f :: f in s.fields ==> t.fields[f] == Column(s, data, f)
  {
    ColumnsOf(s, data);
    hide CompensationOk, PassBandOk, Compensates, MarkInBand, Complete;
  }

  // ----- papers -----

  function Or<T>(given: Option<T>, kept: T): T {
    if given.Some? then given.value else kept
  }

  function SumUpTo(s: seq<int>, n: nat): int
    requires n <= |s|
  {
    if n == 0 then 0 else SumUpTo(s, n - 1) + s[n - 1]
  }

  lemma {:induction false} SumAppend(s: seq<int>, x: int)
    ensures Sum(s + [x]) == Sum(s) + x
  {
    if s == [] {
      assert [] + [x] == [x];
    } else {
      SumAppend(s[1..], x);
      assert (s + [x])[1..] == s[1..] + [x];
    }
  }

  lemma {:induction false} SumIsSum(s: seq<int>, n: nat)
    requires n <= |s|
    ensures Sum(s[..n]) == SumUpTo(s, n)
  {
    if n > 0 {
      SumIsSum(s, n - 1);
      SumAppend(s[..n - 1], s[n - 1]);
      assert s[..n] == s[..n - 1] + [s[n - 1]];
    }
  }

  /** The sections, if there are any, add up to the total. */
  predicate AddsUp(sections: seq<int>, total: int) {
    sections == [] || SumUpTo(sections, |sections|) == total
  }

  predicate HasCode(papers: seq<Paper>, code: string) {
    exists i :: 0 <= i < |papers| && papers[i].code == code
  }

  /** The paper that a payload leaves where `p` was. */
  predicate Written(p: Paper, d: PaperData, q: Paper) {
    && q.id == p.id && q.code == p.code && q.name == Or(d.name, p.name)
    && q.totalMarks == Or(d.totalMarks, p.totalMarks) && q.passMark == Or(d.passMark, p.passMark)
    && q.sections == Or(d.sections, p.sections) && q.blueprint == Or(d.blueprint, p.blueprint)
    && q.delivery == Or(d.delivery, p.delivery)
  }

  predicate GivenMarkInBand(s: Sitting, d: PaperData) {
    d.passMark.Some? ==> AmountOf(s.fields, PassBandMin) <= d.passMark.value <= AmountOf(s.fields, PassBandMax)
  }

  lemma FindPaperIff(papers: seq<Paper>, code: string)
    ensures FindPaper(papers, code) >= 0 <==> HasCode(papers, code)
  {
    hide FindPaper;
  }

  /** A paper of a new code is accepted if and only if the sitting is not locked, fewer than five papers
      exist, its pass mark lies in the band, and its sections add up; it is appended with 100 marks, a
      pass mark of 50 and no blueprint unless the payload says otherwise. */
  lemma PutNewPaperIff(s: Sitting, d: PaperData, newId: nat)
    requires !HasCode(s.papers, d.code)
    ensures Step(s, PutPaper(d, newId)).Ok?
       <==> (s.status == Draft || s.status == Configured) && |s.papers| < 5 && GivenMarkInBand(s, d)
            && AddsUp(Or(d.sections, []), Or(d.totalMarks, 100))
    ensures Step(s, PutPaper(d, newId)).Ok? ==>
              var t := Next(s, PutPaper(d, newId));
              && t == s.(papers := t.papers, status := Draft)
              && |t.papers| == |s.papers| + 1 && s.papers <= t.papers
              && Written(Paper(newId, d.code, d.code, 100, 5000, [], None, "cbt/180/none"), d, t.papers[|s.papers|])
  {
    FindPaperIff(s.papers, d.code);
    SumIsSum(Or(d.sections, []), |Or(d.sections, [])|);
    assert Or(d.sections, [])[..|Or(d.sections, [])|] == Or(d.sections, []);
    hide FindPaper, Sum;
  }

  /** A paper of a known code is edited in place, by the same rules. */
  lemma PutOldPaperIff(s: Sitting, d: PaperData, newId: nat)
    requires HasCode(s.papers, d.code)
    ensures FindPaper(s.papers, d.code) >= 0
    ensures var p := s.papers[FindPaper(s.papers, d.code)];
            Step(s, PutPaper(d, newId)).Ok?
            <==> (s.status == Draft || s.status == Configured) && GivenMarkInBand(s, d)
                 && AddsUp(Or(d.sections, p.sections), Or(d.totalMarks, p.totalMarks))
    ensures Step(s, PutPaper(d, newId)).Ok? ==>
              var i, t := FindPaper(s.papers, d.code), Next(s, PutPaper(d, newId));
              && t == s.(papers := t.papers, status := Draft)
              && |t.papers| == |s.papers| && Written(s.papers[i], d, t.papers[i])
              && s.papers[i].code == d.code
              && forall k :: 0 <= k < |s.papers| && k != i ==> t.papers[k] == s.papers[k]
  {
    FindPaperIff(s.papers, d.code);
    var sections := Or(d.sections, s.papers[FindPaper(s.papers, d.code)].sections);
    SumIsSum(sections, |sections|);
    assert sections[..|sections|] == sections;
    hide FindPaper, Sum;
  }

  /** A removal is accepted if and only if the sitting is not locked and has that paper; the others stay
      in order. */
  lemma RemoveIff(s: Sitting, id: nat)
    ensures Step(s, RemovePaper(id)).Ok?
       <==> (s.status == Draft || s.status == Configured) && exists i :: 0 <= i < |s.papers| && s.papers[i].id == id
    ensures Step(s, RemovePaper(id)).Ok? ==>
              var t := Next(s, RemovePaper(id));
              && t == s.(papers := t.papers, status := Draft)
              && exists i :: 0 <= i < |s.papers| && s.papers[i].id == id
                             && t.papers == s.papers[..i] + s.papers[i + 1..]
  {
    FindIdIff(s.papers, id);
    hide FindId;
  }

  lemma {:induction false} FindIdIff(papers: seq<Paper>, id: nat)
    ensures FindId(papers, id) >= 0 <==> exists i :: 0 <= i < |papers| && papers[i].id == id
  {
    if papers != [] && papers[|papers| - 1].id != id {
      var front := papers[..|papers| - 1];
      FindIdIff(front, id);
      assert forall i :: 0 <= i < |front| ==> front[i] == papers[i];
    }
  }

  // ----- configuring, approving, locking -----

  /** A paper that may go into a locked sitting. */
  predicate PaperFit(s: Sitting, p: Paper) {
    && AmountOf(s.fields, PassBandMin) <= p.passMark <= AmountOf(s.fields, PassBandMax)
    && AddsUp(p.sections, p.totalMarks) && p.blueprint.Some?
  }

  /** Five papers, each in its band with sections that add up and a blueprint; the pass mark in its band;
      both numbers of a compensated rule; and the dates in order. */
  predicate Fit(s: Sitting)
    requires Complete(s.fields)
  {
    && |s.papers| == 5 && (forall i :: 0 <= i < |s.papers| ==> PaperFit(s, s.papers[i]))
    && MarkInBand(s, map[]) && Compensates(s, map[])
    && s.fields[SittingDate].day <= s.fields[SittingEndDate].day
  }

  lemma PaperFitIff(s: Sitting, p: Paper)
    ensures PaperFit(s, p) <==> PaperOk(s.fields, p)
  {
    SumIsSum(p.sections, |p.sections|);
    assert p.sections[..|p.sections|] == p.sections;
  }

  lemma FitIsReady(s: Sitting)
    requires Complete(s.fields)
    ensures Fit(s) <==> Ready(s.fields, s.papers)
  {
    forall i | 0 <= i < |s.papers| ensures PaperFit(s, s.papers[i]) <==> PaperOk(s.fields, s.papers[i]) {
      PaperFitIff(s, s.papers[i]);
    }
    ColumnsOf(s, map[]);
    assert s.fields + map[] == s.fields;
    assert {SittingDate, SittingEndDate} <= AMENDABLE_FIELDS;
    hide PaperFit, PaperOk, CompensationOk, PassBandOk, MarkInBand, Compensates;
  }

  lemma ConfigureIff(s: Sitting)
    requires Complete(s.fields)
    ensures Step(s, Configure).Ok? <==> (s.status == Draft || s.status == Configured) && Fit(s)
    ensures Step(s, Configure).Ok? ==> Next(s, Configure) == s.(status := Configured)
  {
    FitIsReady(s);
    hide Fit, Ready, Complete;
  }

  /** Approving, activating and closing: each in exactly one status, each setting just its own columns. */
  lemma SimpleCallsIff(s: Sitting, meeting: nat, now: int)
    ensures Step(s, Approve(meeting, now)).Ok? <==> s.status == Configured
    ensures s.status == Configured ==>
              Next(s, Approve(meeting, now)) == s.(approvedAt := Some(now), meeting := Some(meeting))
    ensures Step(s, Activate).Ok? <==> s.status == Locked
    ensures s.status == Locked ==> Next(s, Activate) == s.(status := Active)
    ensures Step(s, Close).Ok? <==> s.status == Active
    ensures s.status == Active ==> Next(s, Close) == s.(status := Closed)
  {
  }

  /** The lock call: what it needs, and the event it leaves with the record of that moment. */
  lemma LockIff(s: Sitting, actor: Option<nat>, why: string, now: int)
    requires Complete(s.fields)
    ensures Step(s, Lock(actor, why, now)).Ok?
       <==> (s.status == Locked || s.status == Active || s.status == Closed)
            || (s.status == Configured && s.approvedAt.Some? && Fit(s))
    ensures Step(s, Lock(actor, why, now)).Ok? && s.status == Configured ==>
              var t := Next(s, Lock(actor, why, now));
              && t == s.(status := Locked, lockedAt := Some(now), events := t.events)
              && t.events == s.events + [t.events[|s.events|]] && t.events[|s.events|].AutoLock?
              && var e := t.events[|s.events|];
                 && e.actor == actor && e.justification == (if why == "" then "Automatic T-30 lock" else why)
                 && e.snapshot == Snapshot(s.ref, Locked, s.fields, Some(now), s.approvedAt, s.meeting, s.papers)
  {
    FitIsReady(s);
    hide Fit, Ready, Complete;
  }

  // ----- amendments -----

  predicate IsBlank(c: char) {
    c in {' ', '\t', '\n', '\r'}
  }

  predicate AllSpace(s: string) {
    forall i :: 0 <= i < |s| ==> IsBlank(s[i])
  }

  /** A text without white space at either end. */
  predicate Trimmed(s: string) {
    s == "" || (!IsBlank(s[0]) && !IsBlank(s[|s| - 1]))
  }

  lemma {:induction false} LeftStrip(s: string) returns (a: string)
    ensures s == a + StripLeft(s) && AllSpace(a)
    ensures StripLeft(s) == "" || !IsSpace(StripLeft(s)[0])
  {
    if s != "" && IsSpace(s[0]) {
      var rest := LeftStrip(s[1..]);
      a := [s[0]] + rest;
    } else {
      a := "";
    }
  }

  lemma {:induction false} RightStrip(s: string) returns (b: string)
    ensures s == StripRight(s) + b && AllSpace(b)
    ensures StripRight(s) == "" || !IsSpace(StripRight(s)[|StripRight(s)| - 1])
  {
    if s != "" && IsSpace(s[|s| - 1]) {
      var rest := RightStrip(s[..|s| - 1]);
      b := rest + [s[|s| - 1]];
    } else {
      b := "";
    }
  }

  /** The stripped length is that of the text between the white space at both ends. */
  lemma StripIsExact(s: string) returns (a: string, m: string, b: string)
    ensures s == a + m + b && AllSpace(a) && AllSpace(b) && Trimmed(m) && StrippedLength(s) == |m|
  {
    a := LeftStrip(s);
    b := RightStrip(StripLeft(s));
    m := StripRight(StripLeft(s));
    if m != "" {
      assert StripLeft(s)[0] == m[0];
    }
  }

  /** A Chair amendment is accepted if and only if the sitting is locked, the justification has ten
      characters, and nothing but the centres is named; its event keeps who, why and both values. */
  lemma ChairIff(s: Sitting, actor: Option<nat>, changes: Fields, why: string)
    requires Complete(s.fields)
    ensures Step(s, AmendNonCritical(actor, changes, why)).Ok?
       <==> (s.status == Locked || s.status == Active || s.status == Closed) && StrippedLength(why) >= 10
            && changes.Keys <= {Centres}
    ensures Step(s, AmendNonCritical(actor, changes, why)).Ok? ==>
              var t := Next(s, AmendNonCritical(actor, changes, why));
              && t == s.(fields := t.fields, events := t.events) && t.fields == s.fields + changes
              && t.events == s.events + [t.events[|s.events|]] && t.events[|s.events|].ChairAmend?
              && var e := t.events[|s.events|];
                 && e.actor == actor && e.justification == why && e.after == changes && e.before.Keys == changes.Keys
                 && forall f :: f in changes ==> f in s.fields && e.before[f] == s.fields[f]
  {
    hide StrippedLength;
    OnlyCentres(changes.Keys);
    if Step(s, AmendNonCritical(actor, changes, why)).Ok? {
      KeptValues(s.fields, changes);
    }
  }

  lemma OnlyCentres(keys: set<Field>)
    ensures keys <= {Centres} <==> keys <= AMENDABLE_FIELDS && keys * CRITICAL_FIELDS == {}
  {
    if keys <= AMENDABLE_FIELDS && keys * CRITICAL_FIELDS == {} {
      forall f | f in keys ensures f == Centres {
        assert f !in keys * CRITICAL_FIELDS;
      }
    }
    if keys <= {Centres} {
      forall f | f in keys ensures f in AMENDABLE_FIELDS && f !in CRITICAL_FIELDS {
      }
    }
  }

  lemma KeptValues(m: Fields, changes: Fields)
    requires changes.Keys <= m.Keys
    ensures Restrict(m + changes, changes.Keys) == changes
    ensures Restrict(m, changes.Keys).Keys == changes.Keys
    ensures forall f :: f in changes ==> Restrict(m, changes.Keys)[f] == m[f]
  {
  }

  /** A resolution amendment is accepted if and only if the sitting is locked, a resolution is named, the
      justification has thirty characters, only the ten amendable columns are named, a pass mark it
      sets lies in the band it leaves, and a compensated rule has both numbers. */
  lemma ResolutionIff(s: Sitting, actor: Option<nat>, changes: Fields, resolution: string, why: string)
    requires Complete(s.fields) && WellTyped(changes)
    ensures Step(s, AmendCritical(actor, changes, resolution, why)).Ok?
       <==> && (s.status == Locked || s.status == Active || s.status == Closed)
            && resolution != "" && StrippedLength(why) >= 30
            && changes.Keys <= {PassMark, Rule, PassBandMin, PassBandMax, CompensatedMin, CompensatedFloor,
                                SittingDate, SittingEndDate, Normalisation, Centres}
            && (PassMark in changes ==> MarkInBand(s, changes)) && Compensates(s, changes)
  {
    hide StrippedLength, CompensationOk, PassBandOk, Compensates, MarkInBand, Complete, WellTyped, Restrict, Live,
         PutPaperStep;
    TenColumns();
    if changes.Keys <= AMENDABLE_FIELDS {
      ColumnsOf(s, changes);
    }
  }

  lemma TenColumns()
    ensures AMENDABLE_FIELDS == {PassMark, Rule, PassBandMin, PassBandMax, CompensatedMin, CompensatedFloor,
                                 SittingDate, SittingEndDate, Normalisation, Centres}
  {
  }

  /** It sets the columns it names, and its event keeps who, why, the resolution, both values and the
      record it leaves. */
  lemma ResolutionWrites(s: Sitting, actor: Option<nat>, changes: Fields, resolution: string, why: string)
    requires Complete(s.fields) && Step(s, AmendCritical(actor, changes, resolution, why)).Ok?
    ensures var t := Next(s, AmendCritical(actor, changes, resolution, why));
            && t == s.(fields := t.fields, events := t.events) && t.fields == s.fields + changes
            && t.events == s.events + [t.events[|s.events|]] && t.events[|s.events|].ResolutionAmend?
            && var e := t.events[|s.events|];
               && e.actor == actor && e.justification == why && e.resolution == resolution
               && e.after == changes && e.before.Keys == changes.Keys
               && (forall f :: f in changes ==> f in s.fields && e.before[f] == s.fields[f])
               && e.rebuilt == Snapshot(s.ref, s.status, t.fields, s.lockedAt, s.approvedAt, s.meeting, s.papers)
  {
    hide StrippedLength, CompensationOk, PassBandOk, Restrict;
    KeptValues(s.fields, changes);
  }
}
