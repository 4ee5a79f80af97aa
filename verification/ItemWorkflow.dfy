/** One item of the bank: drafts and versions, the review workflow and the moderation panel.
    Payloads are typed as the serializers let them in; marks count hundredths. */
module ItemWorkflow {
  import opened Wrappers

  datatype Status =
    | Draft | Submitted | InReview | Reviewed | Revised
    | ModerationPanel | Approved | Rejected | LockedForUse

  /** The six taggable metadata columns. */
  datatype Tag = Subject | Topic | Difficulty | CognitiveLevel | Source | BlueprintRef

  type Tags = map<Tag, Option<string>>

  const ALL_TAGS: set<Tag> := { Subject, Topic, Difficulty, CognitiveLevel, Source, BlueprintRef }

  function TagOf(tags: Tags, t: Tag): Option<string> {
    if t in tags then tags[t] else None
  }

  datatype Metadata = Metadata(tags: Tags, marks: Option<int>, time: Option<int>)

  datatype Version = Version(id: nat, no: nat, content: string, assets: seq<string>, snapshot: Metadata,
                             schema: Option<nat>, savedBy: nat)

  datatype Transition = Transition(from: Status, to: Status, actor: nat)

  /** A panel vote; the justification is given as its words. */
  datatype Vote = Vote(panellist: nat, approves: bool, words: seq<string>)

  datatype Item = Item(author: nat, status: Status, metadata: Metadata, currentVersion: Option<nat>,
                       reviewer: Option<nat>, versions: seq<Version>, log: seq<Transition>, votes: seq<Vote>)

  /** A draft payload: an absent key keeps the column, a present one sets it (possibly to null). */
  datatype DraftData = DraftData(tags: Tags, marks: Option<Option<int>>, time: Option<Option<int>>,
                                 content: Option<string>, assets: Option<seq<string>>)

  datatype Error =
    | NotFound | NotEditable | ContentRequired | DuplicateId | NotTheAuthor | VersionNotFound
    | CannotSubmit | MissingMetadata | InvalidTransition | RoleRequired | ReviewerRequired
    | ReviewerUnknown | AuthorCannotReview | ReviewerConflict | NotAssignedReviewer
    | NotInModeration | JustificationTooShort | AlreadyVoted

  datatype Op =
    | Save(actor: nat, data: DraftData, newId: nat, schema: Option<nat>)
    | Restore(actor: nat, versionId: nat, newId: nat)
    | Submit(actor: nat)
    | Move(actor: nat, target: Status, privileged: bool, reviewer: Option<nat>, known: bool, conflict: bool)
    | CastVote(panellist: nat, approves: bool, words: seq<string>)
    | Retag(tags: Tags)

  // ----- guards -----

  predicate Blank(s: string) {
    forall i :: 0 <= i < |s| ==> IsSpace(s[i])
  }

  predicate TagFilled(m: Metadata, t: Tag) {
    TagOf(m.tags, t).Some? && !Blank(TagOf(m.tags, t).value)
  }

  predicate NumberFilled(n: Option<int>) {
    n.Some? && n.value != 0
  }

  /** `has_mandatory_metadata`. */
  predicate HasMandatoryMetadata(m: Metadata) {
    && (forall t :: t in ALL_TAGS ==> TagFilled(m, t))
    && NumberFilled(m.marks) && NumberFilled(m.time)
  }

  predicate Editable(status: Status) {
    status == Draft || status == Revised
  }

  // ----- versions -----

  /** Where the greatest version number among the first `n` versions is. */
  function LatestIndex(vs: seq<Version>, n: nat): (k: nat)
    requires 1 <= n <= |vs|
    ensures k < n && forall i :: 0 <= i < n ==> vs[i].no <= vs[k].no
  {
    if n == 1 then 0
    else if vs[n - 1].no > vs[LatestIndex(vs, n - 1)].no then n - 1
    else LatestIndex(vs, n - 1)
  }

  function NextNo(vs: seq<Version>): nat {
    if vs == [] then 1 else vs[LatestIndex(vs, |vs|)].no + 1
  }

  function FindVersion(vs: seq<Version>, n: nat, id: nat): (k: int)
    requires n <= |vs|
    ensures -1 <= k < n
    ensures k >= 0 ==> vs[k].id == id
    ensures k == -1 ==> forall i :: 0 <= i < n ==> vs[i].id != id
  {
    if n == 0 then -1 else if vs[n - 1].id == id then n - 1 else FindVersion(vs, n - 1, id)
  }

  function Overlay(m: Metadata, d: DraftData): Metadata {
    Metadata(m.tags + d.tags,
             if d.marks.Some? then d.marks.value else m.marks,
             if d.time.Some? then d.time.value else m.time)
  }

  function KeptContent(it: Item, d: DraftData): string {
    if d.content.Some? then d.content.value
    else if it.versions == [] then ""
    else it.versions[LatestIndex(it.versions, |it.versions|)].content
  }

  function KeptAssets(it: Item, d: DraftData): seq<string> {
    if d.assets.Some? then d.assets.value
    else if it.versions == [] then []
    else it.versions[LatestIndex(it.versions, |it.versions|)].assets
  }

  function Create(author: nat, d: DraftData, newId: nat, schema: Option<nat>): Result<Item, Error> {
    var m := Overlay(Metadata(map[], None, None), d);
    if d.content.None? then Err(ContentRequired)
    else
      var v := Version(newId, 1, d.content.value, if d.assets.Some? then d.assets.value else [], m, schema, author);
      Ok(Item(author, Draft, m, Some(newId), None, [v], [], []))
  }

  function SaveStep(it: Item, actor: nat, d: DraftData, newId: nat, schema: Option<nat>): Result<Item, Error> {
    if actor != it.author then Err(NotFound)
    else if !Editable(it.status) then Err(NotEditable)
    else if FindVersion(it.versions, |it.versions|, newId) >= 0 then Err(DuplicateId)
    else
      var m := Overlay(it.metadata, d);
      var v := Version(newId, NextNo(it.versions), KeptContent(it, d), KeptAssets(it, d), m, schema, actor);
      Ok(it.(metadata := m, versions := it.versions + [v], currentVersion := Some(newId)))
  }

  function RestoreStep(it: Item, actor: nat, versionId: nat, newId: nat): Result<Item, Error> {
    if actor != it.author then Err(NotTheAuthor)
    else if !Editable(it.status) then Err(NotEditable)
    else
      var k := FindVersion(it.versions, |it.versions|, versionId);
      if k < 0 then Err(VersionNotFound)
      else if FindVersion(it.versions, |it.versions|, newId) >= 0 then Err(DuplicateId)
      else
        var historical := it.versions[k];
        var v := historical.(id := newId, no := NextNo(it.versions), savedBy := actor);
        Ok(it.(metadata := historical.snapshot, versions := it.versions + [v], currentVersion := Some(newId)))
  }

  // ----- workflow -----

  function Moved(it: Item, target: Status, actor: nat): Item {
    it.(status := target, log := it.log + [Transition(it.status, target, actor)])
  }

  function SubmitStep(it: Item, actor: nat): Result<Item, Error> {
    if actor != it.author then Err(NotFound)
    else if !Editable(it.status) then Err(CannotSubmit)
    else if !HasMandatoryMetadata(it.metadata) then Err(MissingMetadata)
    else Ok(Moved(it, if it.status == Draft then Submitted else ModerationPanel, actor))
  }

  function MoveStep(it: Item, actor: nat, target: Status, privileged: bool, reviewer: Option<nat>, known: bool,
                    conflict: bool): Result<Item, Error>
  {
    match (it.status, target)
    case (Submitted, InReview) =>
      if !privileged then Err(RoleRequired)
      else if reviewer.None? then Err(ReviewerRequired)
      else if !known then Err(ReviewerUnknown)
      else if reviewer.value == it.author then Err(AuthorCannotReview)
      else if conflict then Err(ReviewerConflict)
      else Ok(Moved(it.(reviewer := reviewer), InReview, actor))
    case (InReview, Reviewed) =>
      if it.reviewer != Some(actor) && !privileged then Err(NotAssignedReviewer)
      else Ok(Moved(it, Reviewed, actor))
    case (Reviewed, Revised) =>
      if actor != it.author then Err(NotTheAuthor) else Ok(Moved(it, Revised, actor))
    case _ => Err(InvalidTransition)
  }

  // ----- panel -----

  const MIN_WORDS: nat := 30

  function CountVotes(votes: seq<Vote>, n: nat, approves: bool): nat
    requires n <= |votes|
  {
    if n == 0 then 0 else CountVotes(votes, n - 1, approves) + if votes[n - 1].approves == approves then 1 else 0
  }

  predicate HasVoted(votes: seq<Vote>, panellist: nat) {
    exists i :: 0 <= i < |votes| && votes[i].panellist == panellist
  }

  function VoteStep(it: Item, panellist: nat, approves: bool, words: seq<string>): Result<Item, Error> {
    if it.status != ModerationPanel then Err(NotInModeration)
    else if |words| < MIN_WORDS then Err(JustificationTooShort)
    else if HasVoted(it.votes, panellist) then Err(AlreadyVoted)
    else
      var voted := it.(votes := it.votes + [Vote(panellist, approves, words)]);
      if CountVotes(voted.votes, |voted.votes|, true) >= 2 then
        Ok(Moved(Moved(voted, Approved, panellist), LockedForUse, panellist))
      else if CountVotes(voted.votes, |voted.votes|, false) >= 2 then
        Ok(Moved(voted, Rejected, panellist))
      else Ok(voted)
  }

  function Step(it: Item, op: Op): Result<Item, Error> {
    match op
    case Save(actor, data, newId, schema) => SaveStep(it, actor, data, newId, schema)
    case Restore(actor, versionId, newId) => RestoreStep(it, actor, versionId, newId)
    case Submit(actor) => SubmitStep(it, actor)
    case Move(actor, target, privileged, reviewer, known, conflict) =>
      MoveStep(it, actor, target, privileged, reviewer, known, conflict)
    case CastVote(panellist, approves, words) => VoteStep(it, panellist, approves, words)
    case Retag(tags) => Ok(it.(metadata := it.metadata.(tags := it.metadata.tags + tags)))
  }

  function Next(it: Item, op: Op): Item {
    var r := Step(it, op);
    if r.Ok? then r.value else it
  }

  function Raised(r: Result<Item, Error>): Option<Error> {
    if r.Ok? then None else Some(r.error)
  }

  // ----- the record itself -----

  class ItemRecord {
    const author: nat
    var status: Status
    var metadata: Metadata
    var currentVersion: Option<nat>
    var reviewer: Option<nat>
    var versions: seq<Version>
    var log: seq<Transition>
    var votes: seq<Vote>

    function Row(): Item
      reads this
    {
      Item(author, status, metadata, currentVersion, reviewer, versions, log, votes)
    }

    /** `create_or_update_item_draft` without an item id, for a payload with content. */
    constructor (author: nat, d: DraftData, newId: nat, schema: Option<nat>)
      requires d.content.Some?
      ensures Create(author, d, newId, schema) == Ok(Row())
    {
      this.author := author;
      status := Draft;
      metadata := Overlay(Metadata(map[], None, None), d);
      reviewer, log, votes := None, [], [];
      versions := [Version(newId, 1, d.content.value, if d.assets.Some? then d.assets.value else [],
                           Overlay(Metadata(map[], None, None), d), schema, author)];
      currentVersion := Some(newId);
    }

    /** The latest version row, if any: the descending query on the version number. */
    method LatestVersion() returns (last: Option<Version>)
      ensures last == if versions == [] then None else Some(versions[LatestIndex(versions, |versions|)])
      ensures last.Some? ==> last.value in versions && forall v :: v in versions ==> v.no <= last.value.no
    {
      if |versions| == 0 {
        return None;
      }
      var k := 0;
      for n := 1 to |versions|
        invariant k == LatestIndex(versions, n)
      {
        if versions[n].no > versions[k].no {
          k := n;
        }
      }
      return Some(versions[k]);
    }

    method SaveDraft(actor: nat, d: DraftData, newId: nat, schema: Option<nat>) returns (error: Option<Error>)
      modifies this
      ensures Row() == Next(old(Row()), Save(actor, d, newId, schema))
      ensures error == Raised(Step(old(Row()), Save(actor, d, newId, schema)))
      ensures error.None? ==> |versions| == |old(versions)| + 1
      ensures error.None? && d.content.Some? ==> versions[|old(versions)|].content == d.content.value
      ensures error.None? && d.content.None? && old(versions) != [] ==>
                exists k :: 0 <= k < |old(versions)| && versions[|old(versions)|].content == old(versions)[k].content
                            && forall v :: v in old(versions) ==> v.no <= old(versions)[k].no
    {
      if actor != author {
        return Some(NotFound);
      }
      if !Editable(status) {
        return Some(NotEditable);
      }
      var last := LatestVersion();
      var no, content, assets := 1, "", [];
      if last.Some? {
        no, content, assets := last.value.no + 1, last.value.content, last.value.assets;
      }
      if d.content.Some? {
        content := d.content.value;
      }
      if d.assets.Some? {
        assets := d.assets.value;
      }
      if FindVersion(versions, |versions|, newId) >= 0 {
        return Some(DuplicateId);
      }
      metadata := Overlay(metadata, d);
      versions := versions + [Version(newId, no, content, assets, metadata, schema, actor)];
      currentVersion := Some(newId);
      return None;
    }

    method RestoreVersion(actor: nat, versionId: nat, newId: nat) returns (error: Option<Error>)
      modifies this
      ensures Row() == Next(old(Row()), Restore(actor, versionId, newId))
      ensures error == Raised(Step(old(Row()), Restore(actor, versionId, newId)))
    {
      if actor != author {
        return Some(NotTheAuthor);
      }
      if !Editable(status) {
        return Some(NotEditable);
      }
      var k := FindVersion(versions, |versions|, versionId);
      if k < 0 {
        return Some(VersionNotFound);
      }
      var historical := versions[k];
      var last := LatestVersion();
      var no := last.value.no + 1;
      if FindVersion(versions, |versions|, newId) >= 0 {
        return Some(DuplicateId);
      }
      versions := versions + [Version(newId, no, historical.content, historical.assets, historical.snapshot,
                                      historical.schema, actor)];
      currentVersion := Some(newId);
      metadata := historical.snapshot;
      return None;
    }

    method SubmitForReview(actor: nat) returns (error: Option<Error>)
      modifies this
      ensures Row() == Next(old(Row()), Submit(actor))
      ensures error == Raised(Step(old(Row()), Submit(actor)))
    {
      if actor != author {
        return Some(NotFound);
      }
      if !Editable(status) {
        return Some(CannotSubmit);
      }
      if !HasMandatoryMetadata(metadata) {
        return Some(MissingMetadata);
      }
      var before := status;
      status := if status == Draft then Submitted else ModerationPanel;
      log := log + [Transition(before, status, actor)];
      return None;
    }

    method TransitionTo(actor: nat, target: Status, privileged: bool, chosen: Option<nat>, known: bool, conflict: bool)
      returns (error: Option<Error>)
      modifies this
      ensures Row() == Next(old(Row()), Move(actor, target, privileged, chosen, known, conflict))
      ensures error == Raised(Step(old(Row()), Move(actor, target, privileged, chosen, known, conflict)))
    {
      var before := status;
      if before == Submitted && target == InReview {
        if !privileged {
          return Some(RoleRequired);
        }
        if chosen.None? {
          return Some(ReviewerRequired);
        }
        if !known {
          return Some(ReviewerUnknown);
        }
        if chosen.value == author {
          return Some(AuthorCannotReview);
        }
        if conflict {
          return Some(ReviewerConflict);
        }
        reviewer := chosen;
      } else if before == InReview && target == Reviewed {
        if reviewer != Some(actor) && !privileged {
          return Some(NotAssignedReviewer);
        }
      } else if before == Reviewed && target == Revised {
        if actor != author {
          return Some(NotTheAuthor);
        }
      } else {
        return Some(InvalidTransition);
      }
      status := target;
      log := log + [Transition(before, target, actor)];
      return None;
    }

    method RegisterVote(panellist: nat, approves: bool, words: seq<string>) returns (error: Option<Error>)
      modifies this
      ensures Row() == Next(old(Row()), CastVote(panellist, approves, words))
      ensures error == Raised(Step(old(Row()), CastVote(panellist, approves, words)))
    {
      if status != ModerationPanel {
        return Some(NotInModeration);
      }
      if |words| < MIN_WORDS {
        return Some(JustificationTooShort);
      }
      if HasVoted(votes, panellist) {
        return Some(AlreadyVoted);
      }
      votes := votes + [Vote(panellist, approves, words)];
      var approvals := CountVotes(votes, |votes|, true);
      var rejections := CountVotes(votes, |votes|, false);
      if approvals >= 2 {
        status := Approved;
        log := log + [Transition(ModerationPanel, Approved, panellist)];
        status := LockedForUse;
        log := log + [Transition(Approved, LockedForUse, panellist)];
      } else if rejections >= 2 {
        status := Rejected;
        log := log + [Transition(ModerationPanel, Rejected, panellist)];
      }
      return None;
    }
  }
}
