/** What every run of item calls keeps true: version history, workflow log, panel votes, and the
    state of an item that is locked for use. */
module ItemLaws {
  import opened Wrappers
  import opened ItemWorkflow

  // ----- the invariant -----

  predicate PositiveOrNull(n: Option<int>) {
    n.Some? ==> n.value > 0
  }

  predicate SaneNumbers(m: Metadata) {
    PositiveOrNull(m.marks) && PositiveOrNull(m.time)
  }

  predicate Numbered(vs: seq<Version>) {
    forall i :: 0 <= i < |vs| ==> vs[i].no == i + 1
  }

  predicate DistinctVersionIds(vs: seq<Version>) {
    forall i, j :: 0 <= i < j < |vs| ==> vs[i].id != vs[j].id
  }

  /** Versions are numbered 1..n without gaps, the current one is number n, and the item's marks
      and time are the ones it recorded. */
  predicate VersionsOk(it: Item) {
    && it.versions != [] && Numbered(it.versions) && DistinctVersionIds(it.versions)
    && it.currentVersion == Some(it.versions[|it.versions| - 1].id)
    && it.metadata.marks == it.versions[|it.versions| - 1].snapshot.marks
    && it.metadata.time == it.versions[|it.versions| - 1].snapshot.time
    && forall i :: 0 <= i < |it.versions| ==> SaneNumbers(it.versions[i].snapshot)
  }

  /** The only way to a status, as the successive target states. */
  function PathTo(status: Status): seq<Status> {
    match status
    case Draft => []
    case Submitted => [Submitted]
    case InReview => [Submitted, InReview]
    case Reviewed => [Submitted, InReview, Reviewed]
    case Revised => [Submitted, InReview, Reviewed, Revised]
    case ModerationPanel => [Submitted, InReview, Reviewed, Revised, ModerationPanel]
    case Approved => [Submitted, InReview, Reviewed, Revised, ModerationPanel, Approved]
    case Rejected => [Submitted, InReview, Reviewed, Revised, ModerationPanel, Rejected]
    case LockedForUse => [Submitted, InReview, Reviewed, Revised, ModerationPanel, Approved, LockedForUse]
  }

  predicate Linked(log: seq<Transition>) {
    && (log != [] ==> log[0].from == Draft)
    && forall i :: 0 < i < |log| ==> log[i].from == log[i - 1].to
  }

  predicate LogOk(it: Item) {
    && Linked(it.log) && |it.log| == |PathTo(it.status)|
    && forall i :: 0 <= i < |it.log| ==> it.log[i].to == PathTo(it.status)[i]
  }

  predicate DistinctVoters(votes: seq<Vote>) {
    forall i, j :: 0 <= i < j < |votes| ==> votes[i].panellist != votes[j].panellist
  }

  function Approvals(it: Item): nat { CountVotes(it.votes, |it.votes|, true) }

  function Rejections(it: Item): nat { CountVotes(it.votes, |it.votes|, false) }

  predicate VotesOk(it: Item) {
    && DistinctVoters(it.votes)
    && (forall i :: 0 <= i < |it.votes| ==> |it.votes[i].words| >= MIN_WORDS)
    && match it.status
       case ModerationPanel => Approvals(it) <= 1 && Rejections(it) <= 1
       case LockedForUse => Approvals(it) == 2 && Rejections(it) <= 1
       case Rejected => Rejections(it) == 2 && Approvals(it) <= 1
       case Approved => false
       case _ => it.votes == []
  }

  predicate ReviewOk(it: Item) {
    && (it.status != Draft && it.status != Submitted ==> it.reviewer.Some? && it.reviewer.value != it.author)
    && (!Editable(it.status) ==> it.metadata.marks.Some? && it.metadata.time.Some?)
  }

  predicate Inv(it: Item) {
    VersionsOk(it) && LogOk(it) && VotesOk(it) && ReviewOk(it)
  }

  /** The draft serializer: marks are null or at least 0.01, time is null or at least 1. */
  predicate TypedData(d: DraftData) {
    && (d.marks.Some? ==> PositiveOrNull(d.marks.value))
    && (d.time.Some? ==> PositiveOrNull(d.time.value))
  }

  predicate TypedOp(op: Op) {
    op.Save? ==> TypedData(op.data)
  }

  // ----- preservation -----

  lemma {:induction false} NumberedLatest(vs: seq<Version>, n: nat)
    requires Numbered(vs) && 1 <= n <= |vs|
    ensures LatestIndex(vs, n) == n - 1
  {
    if n > 1 {
      NumberedLatest(vs, n - 1);
    }
  }

  lemma CreateIsSane(author: nat, d: DraftData, newId: nat, schema: Option<nat>)
    requires TypedData(d)
    ensures var r := Create(author, d, newId, schema); r.Ok? ==> Inv(r.value) && r.value.status == Draft
  {
  }

  /** What a save or a restore appends. */
  lemma AppendVersion(it: Item, v: Version, m: Metadata)
    requires Inv(it) && Editable(it.status)
    requires v.no == |it.versions| + 1 && FindVersion(it.versions, |it.versions|, v.id) == -1
    requires v.snapshot == m && SaneNumbers(m)
    ensures Inv(it.(metadata := m, versions := it.versions + [v], currentVersion := Some(v.id)))
  {
  }

  lemma SaveKeepsInv(it: Item, actor: nat, d: DraftData, newId: nat, schema: Option<nat>)
    requires Inv(it) && TypedData(d) && SaveStep(it, actor, d, newId, schema).Ok?
    ensures Inv(SaveStep(it, actor, d, newId, schema).value)
  {
    NumberedLatest(it.versions, |it.versions|);
    var t := SaveStep(it, actor, d, newId, schema).value;
    assert SaneNumbers(it.versions[|it.versions| - 1].snapshot);
    AppendVersion(it, t.versions[|it.versions|], t.metadata);
  }

  lemma RestoreKeepsInv(it: Item, actor: nat, versionId: nat, newId: nat)
    requires Inv(it) && RestoreStep(it, actor, versionId, newId).Ok?
    ensures Inv(RestoreStep(it, actor, versionId, newId).value)
  {
    NumberedLatest(it.versions, |it.versions|);
    var k := FindVersion(it.versions, |it.versions|, versionId);
    assert SaneNumbers(it.versions[k].snapshot);
    var t := RestoreStep(it, actor, versionId, newId).value;
    AppendVersion(it, t.versions[|it.versions|], t.metadata);
  }

  /** A legal move extends the log along the path. */
  lemma MovedKeepsLog(it: Item, target: Status, actor: nat)
    requires LogOk(it) && PathTo(target) == PathTo(it.status) + [target]
    ensures LogOk(Moved(it, target, actor))
  {
    var t := Moved(it, target, actor);
    assert it.log != [] ==> it.log[|it.log| - 1].to == it.status;
    assert it.log == [] ==> it.status == Draft;
  }

  lemma VersionsUnmoved(a: Item, b: Item)
    requires VersionsOk(a)
    requires b.versions == a.versions && b.currentVersion == a.currentVersion && b.metadata == a.metadata
    ensures VersionsOk(b)
  {
  }

  lemma LogUnmoved(a: Item, b: Item)
    requires LogOk(a) && b.log == a.log && b.status == a.status
    ensures LogOk(b)
  {
  }

  lemma SubmitKeepsInv(it: Item, actor: nat)
    requires Inv(it) && SubmitStep(it, actor).Ok?
    ensures Inv(SubmitStep(it, actor).value)
  {
    MovedKeepsLog(it, if it.status == Draft then Submitted else ModerationPanel, actor);
  }

  lemma MoveKeepsInv(it: Item, actor: nat, target: Status, privileged: bool, reviewer: Option<nat>, known: bool,
                     conflict: bool)
    requires Inv(it) && MoveStep(it, actor, target, privileged, reviewer, known, conflict).Ok?
    ensures Inv(MoveStep(it, actor, target, privileged, reviewer, known, conflict).value)
  {
    hide VersionsOk, LogOk;
    VersionsUnmoved(it, MoveStep(it, actor, target, privileged, reviewer, known, conflict).value);
    LogUnmoved(it, it.(reviewer := reviewer));
    MovedKeepsLog(it, target, actor);
    MovedKeepsLog(it.(reviewer := reviewer), target, actor);
  }

  lemma {:induction false} CountAppend(votes: seq<Vote>, v: Vote, n: nat, approves: bool)
    requires n <= |votes|
    ensures CountVotes(votes + [v], n, approves) == CountVotes(votes, n, approves)
  {
    if n > 0 {
      CountAppend(votes, v, n - 1, approves);
    }
  }

  lemma {:induction false} CountsPartition(votes: seq<Vote>, n: nat)
    requires n <= |votes|
    ensures CountVotes(votes, n, true) + CountVotes(votes, n, false) == n
  {
    if n > 0 {
      CountsPartition(votes, n - 1);
    }
  }

  /** The votes after one more accepted vote, and what they decide. */
  lemma OneMoreVote(it: Item, v: Vote)
    requires VotesOk(it) && it.status == ModerationPanel && |v.words| >= MIN_WORDS && !HasVoted(it.votes, v.panellist)
    ensures var voted := it.(votes := it.votes + [v]);
            && DistinctVoters(voted.votes)
            && (forall i :: 0 <= i < |voted.votes| ==> |voted.votes[i].words| >= MIN_WORDS)
            && Approvals(voted) == Approvals(it) + (if v.approves then 1 else 0) <= 2
            && Rejections(voted) == Rejections(it) + (if v.approves then 0 else 1) <= 2
  {
    CountAppend(it.votes, v, |it.votes|, true);
    CountAppend(it.votes, v, |it.votes|, false);
  }

  lemma VoteMovesLog(it: Item, votes: seq<Vote>, panellist: nat)
    requires LogOk(it) && it.status == ModerationPanel
    ensures var voted := it.(votes := votes);
            && LogOk(voted) && LogOk(Moved(voted, Rejected, panellist))
            && LogOk(Moved(Moved(voted, Approved, panellist), LockedForUse, panellist))
  {
    var voted := it.(votes := votes);
    MovedKeepsLog(voted, Rejected, panellist);
    MovedKeepsLog(voted, Approved, panellist);
    MovedKeepsLog(Moved(voted, Approved, panellist), LockedForUse, panellist);
  }

  lemma VoteKeepsInv(it: Item, panellist: nat, approves: bool, words: seq<string>)
    requires Inv(it) && VoteStep(it, panellist, approves, words).Ok?
    ensures Inv(VoteStep(it, panellist, approves, words).value)
  {
    hide VersionsOk, LogOk, CountVotes, DistinctVoters;
    var v := Vote(panellist, approves, words);
    VersionsUnmoved(it, VoteStep(it, panellist, approves, words).value);
    OneMoreVote(it, v);
    VoteMovesLog(it, it.votes + [v], panellist);
  }

  lemma StepKeepsInv(it: Item, op: Op)
    requires Inv(it) && TypedOp(op)
    ensures Inv(Next(it, op))
  {
    hide SaveStep, RestoreStep, SubmitStep, MoveStep, VoteStep;
    if Step(it, op).Ok? {
      match op
      case Save(actor, data, newId, schema) => SaveKeepsInv(it, actor, data, newId, schema);
      case Restore(actor, versionId, newId) => RestoreKeepsInv(it, actor, versionId, newId);
      case Submit(actor) => SubmitKeepsInv(it, actor);
      case Move(actor, target, privileged, reviewer, known, conflict) =>
        MoveKeepsInv(it, actor, target, privileged, reviewer, known, conflict);
      case CastVote(panellist, approves, words) => VoteKeepsInv(it, panellist, approves, words);
      case Retag(tags) =>
    }
  }

  function After(it: Item, ops: seq<Op>, n: nat): Item
    requires n <= |ops|
  {
    if n == 0 then it else Next(After(it, ops, n - 1), ops[n - 1])
  }

  predicate TypedOps(ops: seq<Op>) {
    forall i :: 0 <= i < |ops| ==> TypedOp(ops[i])
  }

  /** THE INVARIANT holds after every run of typed calls, successful or not, from a created item. */
  lemma {:induction false} RunKeepsInv(it: Item, ops: seq<Op>, n: nat)
    requires Inv(it) && TypedOps(ops) && n <= |ops|
    ensures Inv(After(it, ops, n))
  {
    hide Inv, Next;
    if n > 0 {
      RunKeepsInv(it, ops, n - 1);
      StepKeepsInv(After(it, ops, n - 1), ops[n - 1]);
    }
  }

  // ----- version time travel -----

  lemma StepExtendsVersions(it: Item, op: Op)
    ensures it.versions <= Next(it, op).versions
    ensures Next(it, op).author == it.author
  {
  }

  /** Old versions never change: the history after any run extends the history before it. */
  lemma {:induction false} VersionsAreAppendOnly(it: Item, ops: seq<Op>, n: nat)
    requires n <= |ops|
    ensures it.versions <= After(it, ops, n).versions
  {
    hide Next;
    if n > 0 {
      VersionsAreAppendOnly(it, ops, n - 1);
      StepExtendsVersions(After(it, ops, n - 1), ops[n - 1]);
    }
  }

  /** TIME TRAVEL. Whatever happened since, restoring version k brings back exactly the content,
      assets and metadata that version recorded, as a new version with the next number. */
  lemma RestoreBringsBack(it: Item, k: nat, actor: nat, newId: nat)
    requires Inv(it) && k < |it.versions|
    requires Step(it, Restore(actor, it.versions[k].id, newId)).Ok?
    ensures var t := Next(it, Restore(actor, it.versions[k].id, newId));
            var v := t.versions[|t.versions| - 1];
            && |t.versions| == |it.versions| + 1 && v.no == |it.versions| + 1
            && t.currentVersion == Some(v.id)
            && v.content == it.versions[k].content && v.assets == it.versions[k].assets
            && v.snapshot == it.versions[k].snapshot && v.schema == it.versions[k].schema
            && t.metadata == it.versions[k].snapshot
  {
    NumberedLatest(it.versions, |it.versions|);
    var j := FindVersion(it.versions, |it.versions|, it.versions[k].id);
    assert j == k;
  }

  /** Restoring after any run gives what version k recorded before the run. */
  lemma TimeTravelOverRun(it: Item, ops: seq<Op>, k: nat, actor: nat, newId: nat)
    requires Inv(it) && TypedOps(ops) && k < |it.versions|
    requires Step(After(it, ops, |ops|), Restore(actor, it.versions[k].id, newId)).Ok?
    ensures var t := Next(After(it, ops, |ops|), Restore(actor, it.versions[k].id, newId));
            t.metadata == it.versions[k].snapshot
            && t.versions != []
            && t.versions[|t.versions| - 1].content == it.versions[k].content
            && t.versions[|t.versions| - 1].assets == it.versions[k].assets
  {
    var later := After(it, ops, |ops|);
    RunKeepsInv(it, ops, |ops|);
    VersionsAreAppendOnly(it, ops, |ops|);
    assert later.versions[k] == it.versions[k];
    RestoreBringsBack(later, k, actor, newId);
  }

  /** The item's metadata is the one its current version recorded. */
  predicate InStep(it: Item) {
    it.versions != [] && it.metadata == it.versions[|it.versions| - 1].snapshot
  }

  /** Without bulk retags the metadata never drifts from the current version. */
  lemma {:induction false} OnlyRetagsDrift(it: Item, ops: seq<Op>, n: nat)
    requires InStep(it) && n <= |ops|
    requires forall i :: 0 <= i < |ops| ==> !ops[i].Retag?
    ensures InStep(After(it, ops, n))
  {
    if n > 0 {
      OnlyRetagsDrift(it, ops, n - 1);
      StepStaysInStep(After(it, ops, n - 1), ops[n - 1]);
    }
  }

  /** DRIFT. Over any run, bulk retags included, the metadata and the snapshot of the current
      version can differ in the six tags only. */
  lemma DriftIsOnlyTags(it: Item, ops: seq<Op>, n: nat)
    requires Inv(it) && TypedOps(ops) && n <= |ops|
    ensures var t := After(it, ops, n);
            && t.versions != []
            && var v := t.versions[|t.versions| - 1];
               t.currentVersion == Some(v.id) && t.metadata == v.snapshot.(tags := t.metadata.tags)
  {
    RunKeepsInv(it, ops, n);
    assert VersionsOk(After(it, ops, n));
  }

  lemma StepStaysInStep(it: Item, op: Op)
    requires InStep(it) && !op.Retag?
    ensures InStep(Next(it, op))
  {
  }

  // ----- panel -----

  /** The third vote always decides: with two votes on the panel, any accepted vote leaves it. */
  lemma ThirdVoteDecides(it: Item, panellist: nat, approves: bool, words: seq<string>)
    requires Inv(it) && it.status == ModerationPanel && |it.votes| == 2
    requires Step(it, CastVote(panellist, approves, words)).Ok?
    ensures Next(it, CastVote(panellist, approves, words)).status
         == if approves then LockedForUse else Rejected
  {
    CountsPartition(it.votes, 2);
    var v := Vote(panellist, approves, words);
    CountAppend(it.votes, v, 2, true);
    CountAppend(it.votes, v, 2, false);
  }

  /** A panel never holds more than two undecided votes, so no item waits for a fourth. */
  lemma PanelIsSmall(it: Item)
    requires Inv(it)
    ensures it.status == ModerationPanel ==> |it.votes| <= 2
    ensures it.status == LockedForUse || it.status == Rejected ==> 2 <= |it.votes| <= 3
  {
    CountsPartition(it.votes, |it.votes|);
  }

  lemma {:induction false} TwoApprovers(votes: seq<Vote>, n: nat) returns (i: nat, j: nat)
    requires n <= |votes| && CountVotes(votes, n, true) >= 2
    ensures i < j < n && votes[i].approves && votes[j].approves
  {
    if votes[n - 1].approves {
      i := OneApprover(votes, n - 1);
      j := n - 1;
    } else {
      i, j := TwoApprovers(votes, n - 1);
    }
  }

  lemma {:induction false} OneApprover(votes: seq<Vote>, n: nat) returns (i: nat)
    requires n <= |votes| && CountVotes(votes, n, true) >= 1
    ensures i < n && votes[i].approves
  {
    if votes[n - 1].approves {
      i := n - 1;
    } else {
      i := OneApprover(votes, n - 1);
    }
  }

  /** LOCKED ITEMS. Every item that is locked for use went the whole path, was approved by two
      different panellists with at least thirty words each against at most one rejection, has an
      assigned reviewer who is not its author, and has positive marks and time. */
  lemma LockedWasEarned(it: Item) returns (i: nat, j: nat)
    requires Inv(it) && it.status == LockedForUse
    ensures i < j < |it.votes| && it.votes[i].approves && it.votes[j].approves
    ensures it.votes[i].panellist != it.votes[j].panellist
    ensures |it.votes[i].words| >= 30 && |it.votes[j].words| >= 30
    ensures Approvals(it) == 2 && Rejections(it) <= 1
    ensures it.reviewer.Some? && it.reviewer.value != it.author
    ensures |it.log| == 7 && Linked(it.log) && it.log[6].to == LockedForUse
    ensures it.metadata.marks.Some? && it.metadata.marks.value > 0
    ensures it.metadata.time.Some? && it.metadata.time.value > 0
  {
    i, j := TwoApprovers(it.votes, |it.votes|);
    assert SaneNumbers(it.versions[|it.versions| - 1].snapshot);
  }

  // ----- locked is absorbing -----

  /** All of an item but its tags. */
  predicate SameButTags(a: Item, b: Item) {
    b == a.(metadata := a.metadata.(tags := b.metadata.tags))
  }

  lemma LockedStep(it: Item, op: Op)
    requires it.status == LockedForUse
    ensures SameButTags(it, Next(it, op))
    ensures !op.Retag? ==> Next(it, op) == it && Step(it, op).Err?
  {
  }

  /** ABSORBING. Once locked for use an item stays locked: no run changes its marks, time, current
      version, versions, votes or log; only a bulk retag is accepted, and it moves tags alone. */
  lemma {:induction false} LockedIsAbsorbing(it: Item, ops: seq<Op>, n: nat)
    requires it.status == LockedForUse && n <= |ops|
    ensures SameButTags(it, After(it, ops, n))
  {
    hide Next;
    if n > 0 {
      LockedIsAbsorbing(it, ops, n - 1);
      LockedStep(After(it, ops, n - 1), ops[n - 1]);
    }
  }
}
