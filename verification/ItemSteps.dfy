/** Each call on an item told with its own numbers and columns: exactly when it is accepted and what it
    leaves; and what an item's content is over every run. */
module ItemSteps {
  import opened Wrappers
  import opened ItemWorkflow
  import opened ItemLaws

  function Or<T>(given: Option<T>, kept: T): T {
    if given.Some? then given.value else kept
  }

  /** The newest version of an item. */
  function Newest(it: Item): Version
    requires it.versions != []
  {
    it.versions[|it.versions| - 1]
  }

  predicate HasVersion(vs: seq<Version>, id: nat) {
    exists k :: 0 <= k < |vs| && vs[k].id == id
  }

  lemma FindIff(vs: seq<Version>, id: nat)
    ensures FindVersion(vs, |vs|, id) >= 0 <==> HasVersion(vs, id)
  {
    hide FindVersion;
  }

  // ----- saving and restoring -----

  /** The columns that a payload leaves: its own, else the old ones. */
  predicate Overlaid(was: Metadata, d: DraftData, now: Metadata) {
    && (forall t: Tag :: TagOf(now.tags, t) == if t in d.tags then d.tags[t] else TagOf(was.tags, t))
    && now.marks == Or(d.marks, was.marks) && now.time == Or(d.time, was.time)
  }

  /** A save is accepted if and only if it comes from the author of a draft or revised item. The new
      version has the next number, the payload's content and assets or else those of the version before,
      and a snapshot of the columns it leaves; nothing else of the item moves. */
  lemma SaveIff(it: Item, actor: nat, d: DraftData, newId: nat, schema: Option<nat>)
    requires Inv(it)
    ensures Step(it, Save(actor, d, newId, schema)).Ok?
       <==> actor == it.author && (it.status == Draft || it.status == Revised) && !HasVersion(it.versions, newId)
    ensures Step(it, Save(actor, d, newId, schema)).Ok? ==>
              var t := Next(it, Save(actor, d, newId, schema));
              && t == it.(metadata := t.metadata, versions := t.versions, currentVersion := Some(newId))
              && |t.versions| == |it.versions| + 1 && it.versions <= t.versions
              && Overlaid(it.metadata, d, t.metadata)
              && Newest(t) == Version(newId, |it.versions| + 1, Or(d.content, Newest(it).content),
                                      Or(d.assets, Newest(it).assets), t.metadata, schema, actor)
  {
    assert VersionsOk(it);
    if Step(it, Save(actor, d, newId, schema)).Ok? {
      SaveShape(it, actor, d, newId, schema);
    }
    FindIff(it.versions, newId);
    OverlayIs(it.metadata, d);
    hide FindVersion, LatestIndex, Inv, HasVersion, Overlay, Overlaid;
  }

  lemma OverlayIs(m: Metadata, d: DraftData)
    ensures Overlaid(m, d, Overlay(m, d))
  {
  }

  lemma SaveShape(it: Item, actor: nat, d: DraftData, newId: nat, schema: Option<nat>)
    requires Inv(it) && Step(it, Save(actor, d, newId, schema)).Ok?
    ensures it.versions != []
    ensures var m := Overlay(it.metadata, d);
            var v := Version(newId, |it.versions| + 1, Or(d.content, Newest(it).content),
                             Or(d.assets, Newest(it).assets), m, schema, actor);
            Next(it, Save(actor, d, newId, schema))
            == it.(metadata := m, versions := it.versions + [v], currentVersion := Some(newId))
  {
    assert VersionsOk(it);
    hide LogOk, VotesOk, ReviewOk, FindVersion, LatestIndex, Overlay;
    NumberedLatest(it.versions, |it.versions|);
  }

  /** The first draft needs content; it has version 1 and the payload's columns. */
  lemma CreateIff(author: nat, d: DraftData, newId: nat, schema: Option<nat>)
    ensures Create(author, d, newId, schema).Ok? <==> d.content.Some?
    ensures d.content.Some? ==>
              var t := Create(author, d, newId, schema).value;
              && t == Item(author, Draft, t.metadata, Some(newId), None, t.versions, [], [])
              && Overlaid(Metadata(map[], None, None), d, t.metadata)
              && t.versions == [Version(newId, 1, d.content.value, Or(d.assets, []), t.metadata, schema, author)]
  {
  }

  /** A restore is accepted if and only if it comes from the author of a draft or revised item and names
      one of its versions; the new version copies everything but id, number and saver. */
  lemma RestoreIff(it: Item, actor: nat, versionId: nat, newId: nat)
    requires Inv(it)
    ensures Step(it, Restore(actor, versionId, newId)).Ok?
       <==> && actor == it.author && (it.status == Draft || it.status == Revised)
            && HasVersion(it.versions, versionId) && !HasVersion(it.versions, newId)
    ensures Step(it, Restore(actor, versionId, newId)).Ok? ==>
              var t := Next(it, Restore(actor, versionId, newId));
              && t == it.(metadata := t.metadata, versions := t.versions, currentVersion := Some(newId))
              && |t.versions| == |it.versions| + 1 && it.versions <= t.versions
              && exists k :: 0 <= k < |it.versions| && Copies(it, k, versionId, t, newId, actor)
  {
    NumberedLatest(it.versions, |it.versions|);
    FindIff(it.versions, newId);
    FindIff(it.versions, versionId);
    hide LatestIndex, LogOk, VotesOk;
    var k := FindVersion(it.versions, |it.versions|, versionId);
    hide FindVersion;
    if Step(it, Restore(actor, versionId, newId)).Ok? {
      assert Copies(it, k, versionId, Next(it, Restore(actor, versionId, newId)), newId, actor);
    }
  }

  predicate Copies(it: Item, k: nat, versionId: nat, t: Item, newId: nat, actor: nat)
    requires k < |it.versions| && t.versions != []
  {
    var v := it.versions[k];
    && v.id == versionId && t.metadata == v.snapshot
    && Newest(t) == Version(newId, |it.versions| + 1, v.content, v.assets, v.snapshot, v.schema, actor)
  }

  /** A bulk retag is accepted in every status: it sets the tags it names and nothing else. */
  lemma RetagLeaves(it: Item, tags: Tags)
    ensures Step(it, Retag(tags)).Ok?
    ensures var t := Next(it, Retag(tags));
            && t == it.(metadata := it.metadata.(tags := t.metadata.tags))
            && forall tag: Tag ::
                 TagOf(t.metadata.tags, tag) == if tag in tags then tags[tag] else TagOf(it.metadata.tags, tag)
  {
  }

  // ----- content over runs -----

  /** What an author sees: content and assets. */
  datatype Body = Body(content: string, assets: seq<string>)

  function BodyOf(v: Version): Body { Body(v.content, v.assets) }

  /** The body of the version with this id among the first `n`. */
  function BodyWith(vs: seq<Version>, n: nat, id: nat): Body
    requires n <= |vs|
  {
    if n == 0 then Body("", []) else if vs[n - 1].id == id then BodyOf(vs[n - 1]) else BodyWith(vs, n - 1, id)
  }

  lemma {:induction false} BodyWithIs(vs: seq<Version>, n: nat, k: nat)
    requires DistinctVersionIds(vs) && k < n <= |vs|
    ensures BodyWith(vs, n, vs[k].id) == BodyOf(vs[k])
  {
    if k < n - 1 {
      BodyWithIs(vs, n - 1, k);
    }
  }

  /** The body that the accepted calls so far gave last: a save gives what its payload holds, a restore
      gives that of the version it names, and every other call gives nothing. */
  function LastBody(it: Item, ops: seq<Op>, n: nat): Body
    requires it.versions != [] && n <= |ops|
  {
    if n == 0 then BodyOf(Newest(it))
    else
      var before, op, last := After(it, ops, n - 1), ops[n - 1], LastBody(it, ops, n - 1);
      if Step(before, op).Err? then last
      else match op
        case Save(_, d, _, _) => Body(Or(d.content, last.content), Or(d.assets, last.assets))
        case Restore(_, versionId, _) => BodyWith(before.versions, |before.versions|, versionId)
        case _ => last
  }

  /** What one accepted call does to the newest body. */
  lemma OneBody(it: Item, op: Op)
    requires Inv(it) && Step(it, op).Ok?
    ensures Next(it, op).versions != []
    ensures BodyOf(Newest(Next(it, op)))
         == match op
            case Save(_, d, _, _) => Body(Or(d.content, Newest(it).content), Or(d.assets, Newest(it).assets))
            case Restore(_, versionId, _) => BodyWith(it.versions, |it.versions|, versionId)
            case _ => BodyOf(Newest(it))
  {
    hide FindVersion, LatestIndex, LogOk, VotesOk, SaveStep, RestoreStep, VoteStep;
    match op
    case Save(actor, d, newId, schema) =>
      SaveIff(it, actor, d, newId, schema);
    case Restore(actor, versionId, newId) =>
      RestoreIff(it, actor, versionId, newId);
      var k :| 0 <= k < |it.versions| && Copies(it, k, versionId, Next(it, op), newId, actor);
      BodyWithIs(it.versions, |it.versions|, k);
    case CastVote(_, _, _) =>
      VotesKeepVersions(it, op);
    case _ =>
  }

  lemma VotesKeepVersions(it: Item, op: Op)
    requires op.CastVote?
    ensures Next(it, op).versions == it.versions
  {
  }

  lemma HasVersions(it: Item)
    requires Inv(it)
    ensures it.versions != []
  {
  }

  /** CONTENT OVER RUNS. In every state of every run the newest version carries the content and assets
      that were given or restored last, whatever else was saved, submitted, voted or retagged since. */
  lemma {:induction false} ContentIsGivenLast(it: Item, ops: seq<Op>, n: nat)
    requires Inv(it) && TypedOps(ops) && n <= |ops|
    ensures it.versions != [] && After(it, ops, n).versions != []
    ensures BodyOf(Newest(After(it, ops, n))) == LastBody(it, ops, n)
  {
    hide Inv, Step, TypedOps, BodyWith;
    RunKeepsInv(it, ops, n);
    HasVersions(it);
    HasVersions(After(it, ops, n));
    if n > 0 {
      ContentIsGivenLast(it, ops, n - 1);
      RunKeepsInv(it, ops, n - 1);
      var before := After(it, ops, n - 1);
      if Step(before, ops[n - 1]).Ok? {
        OneBody(before, ops[n - 1]);
      }
    }
  }

  // ----- review -----

  predicate IsBlank(c: char) {
    c in {' ', '\t', '\n', '\r'}
  }

  /** The column is set and has something besides white space. */
  predicate Says(m: Metadata, t: Tag) {
    TagOf(m.tags, t).Some?
    && exists i :: 0 <= i < |TagOf(m.tags, t).value| && !IsBlank(TagOf(m.tags, t).value[i])
  }

  predicate Given(n: Option<int>) {
    n.Some? && n.value != 0
  }

  /** All six tags say something, and marks and time are set. */
  predicate Filled(m: Metadata) {
    && Says(m, Subject) && Says(m, Topic) && Says(m, Difficulty) && Says(m, CognitiveLevel) && Says(m, Source)
    && Says(m, BlueprintRef) && Given(m.marks) && Given(m.time)
  }

  lemma SaysIff(m: Metadata, t: Tag)
    ensures Says(m, t) <==> TagFilled(m, t)
  {
  }

  lemma FilledIff(m: Metadata)
    ensures Filled(m) <==> HasMandatoryMetadata(m)
  {
    forall t: Tag ensures Says(m, t) <==> TagFilled(m, t) {
      SaysIff(m, t);
    }
    assert ALL_TAGS == {Subject, Topic, Difficulty, CognitiveLevel, Source, BlueprintRef};
    hide Says, TagFilled;
  }

  /** The call moves the item to a status and logs who did it. */
  predicate Logs(it: Item, t: Item, to: Status, actor: nat) {
    t.status == to && t.log == it.log + [Transition(it.status, to, actor)]
  }

  /** A submission is accepted if and only if it comes from the author of a draft or revised item whose
      mandatory columns are filled; a draft goes to review, a revised item to the panel. */
  lemma SubmitIff(it: Item, actor: nat)
    ensures Step(it, Submit(actor)).Ok?
       <==> actor == it.author && (it.status == Draft || it.status == Revised) && Filled(it.metadata)
    ensures Step(it, Submit(actor)).Ok? ==>
              var t := Next(it, Submit(actor));
              && t == it.(status := t.status, log := t.log)
              && Logs(it, t, if it.status == Draft then Submitted else ModerationPanel, actor)
  {
    FilledIff(it.metadata);
    hide Filled, HasMandatoryMetadata;
  }

  /** The three moves: a coordinator assigns a known reviewer without conflict who is not the author; the
      reviewer, or a coordinator, finishes the review; the author takes up the revision. */
  lemma MoveIff(it: Item, actor: nat, target: Status, privileged: bool, reviewer: Option<nat>, known: bool,
                conflict: bool)
    ensures var op := Move(actor, target, privileged, reviewer, known, conflict);
            Step(it, op).Ok?
            <==> || (it.status == Submitted && target == InReview && privileged && known && !conflict
                     && reviewer.Some? && reviewer.value != it.author)
                 || (it.status == InReview && target == Reviewed && (privileged || it.reviewer == Some(actor)))
                 || (it.status == Reviewed && target == Revised && actor == it.author)
    ensures var op := Move(actor, target, privileged, reviewer, known, conflict);
            Step(it, op).Ok? ==>
              var t := Next(it, op);
              && t == it.(status := t.status, log := t.log, reviewer := t.reviewer) && Logs(it, t, target, actor)
              && t.reviewer == if it.status == Submitted then reviewer else it.reviewer
  {
  }

  // ----- the panel -----

  /** Who voted which way. */
  function Voters(votes: seq<Vote>, n: nat, approves: bool): set<nat>
    requires n <= |votes|
  {
    set i | 0 <= i < n && votes[i].approves == approves :: votes[i].panellist
  }

  lemma VotersNext(votes: seq<Vote>, n: nat, approves: bool)
    requires DistinctVoters(votes) && n < |votes|
    ensures Voters(votes, 0, approves) == {} && votes[n].panellist !in Voters(votes, n, approves)
    ensures Voters(votes, n + 1, approves)
         == Voters(votes, n, approves) + if votes[n].approves == approves then {votes[n].panellist} else {}
  {
  }

  lemma {:induction false} VotersCount(votes: seq<Vote>, n: nat, approves: bool)
    requires DistinctVoters(votes) && n <= |votes|
    ensures |Voters(votes, n, approves)| == CountVotes(votes, n, approves)
  {
    if n > 0 {
      hide Voters, DistinctVoters;
      VotersCount(votes, n - 1, approves);
      VotersNext(votes, n - 1, approves);
    } else {
      assert Voters(votes, 0, approves) == {};
    }
  }

  /** A vote is accepted if and only if the item is with the panel, the justification has thirty words,
      and the panellist has not voted yet; it is kept as given. With two different approvers the item
      is locked, through Approved; with two different rejecters it is rejected; else it stays. */
  lemma VoteIff(it: Item, p: nat, approves: bool, words: seq<string>)
    requires Inv(it)
    ensures Step(it, CastVote(p, approves, words)).Ok?
       <==> it.status == ModerationPanel && |words| >= 30
            && forall i :: 0 <= i < |it.votes| ==> it.votes[i].panellist != p
    ensures Step(it, CastVote(p, approves, words)).Ok? ==>
              var t := Next(it, CastVote(p, approves, words));
              && t == it.(status := t.status, log := t.log, votes := t.votes)
              && t.votes == it.votes + [Vote(p, approves, words)]
              && if |Voters(t.votes, |t.votes|, true)| >= 2 then
                   && t.status == LockedForUse
                   && t.log == it.log + [Transition(ModerationPanel, Approved, p),
                                         Transition(Approved, LockedForUse, p)]
                 else if |Voters(t.votes, |t.votes|, false)| >= 2 then Logs(it, t, Rejected, p)
                 else t.status == ModerationPanel && t.log == it.log
  {
    hide VersionsOk, LogOk, CountVotes;
    if Step(it, CastVote(p, approves, words)).Ok? {
      var votes := it.votes + [Vote(p, approves, words)];
      assert DistinctVoters(votes);
      VotersCount(votes, |votes|, true);
      VotersCount(votes, |votes|, false);
    }
  }

  /** Over every run the decision of a locked or rejected item was logged by the panellist who voted last,
      and its author drafted, revised and submitted it. */
  predicate LoggedBy(it: Item) {
    && (|it.log| > 0 ==> it.log[0].actor == it.author)
    && (|it.log| > 3 ==> it.log[3].actor == it.author)
    && (|it.log| > 4 ==> it.log[4].actor == it.author)
    && (|it.log| > 5 ==> it.votes != [] && it.log[|it.log| - 1].actor == it.votes[|it.votes| - 1].panellist)
  }

  lemma StepKeepsLoggedBy(it: Item, op: Op)
    requires Inv(it) && LoggedBy(it)
    ensures LoggedBy(Next(it, op))
  {
    hide VersionsOk, FindVersion, LatestIndex, HasMandatoryMetadata, CountVotes;
    assert LogOk(it);
  }

  lemma {:induction false} RunKeepsLoggedBy(it: Item, ops: seq<Op>, n: nat)
    requires Inv(it) && LoggedBy(it) && TypedOps(ops) && n <= |ops|
    ensures LoggedBy(After(it, ops, n))
  {
    hide Inv, Next, LoggedBy;
    if n > 0 {
      RunKeepsLoggedBy(it, ops, n - 1);
      RunKeepsInv(it, ops, n - 1);
      StepKeepsLoggedBy(After(it, ops, n - 1), ops[n - 1]);
    }
  }
}
