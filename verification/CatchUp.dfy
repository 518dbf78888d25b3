/** The two roads by which a document event reaches a member, live fan-out and catch-up, and
    the proof that they show the same thing. */
module CatchUp {
  import opened Wrappers
  import opened Documents
  import opened Permission
  import opened Access
  import opened Sight

  datatype Event = Event(seqNo: nat, kind: string, targetKind: string, targetId: Id, payload: Raw, audience: Raw)

  datatype DocumentView = DocumentView(
    id: Id, seqNo: nat, kind: string, subtype: string, name: string, img: string,
    data: Raw, flags: Raw, ownership: Raw, updatedSeq: nat)

  function ViewOf(view: View, seqNo: nat): DocumentView {
    var doc := view.document;
    DocumentView(doc.id, seqNo, doc.kind, doc.subtype, doc.name, doc.img, doc.data, doc.flags, doc.ownership, doc.updatedSeq)
  }

  // ----- Live -----

  /** Reading permission or, for a write, editing permission, of a member with a known role. */
  function Authorize(store: Store, worldId: Id, userId: Id, doc: Document, write: bool): Outcome<Grant> {
    var members := MembersOf(store, worldId);
    if userId !in members || !members[userId].Valid() then Fail
    else
      var grant := GrantFor(store, Subject(userId, members[userId]), doc);
      if grant.Fail? || (write && !grant.value.CanEdit()) || (!write && !grant.value.CanRead()) then Fail else grant
  }

  // The members live fan-out has a frame for, each with the payload of their own view.
  function LivePayloads(store: Store, worldId: Id, doc: Document, views: map<Id, View>, seqNo: nat): map<Id, DocumentView>
    requires forall userId | userId in views :: CanSee(store, views[userId].subject, worldId, doc).Ok?
  {
    map userId | userId in views && CanSee(store, views[userId].subject, worldId, doc).value
      :: ViewOf(views[userId], seqNo)
  }

  datatype Applied = Applied(store: Store, event: Event, perUser: map<Id, DocumentView>, ack: Option<DocumentView>)

  // Every member's projection and line of sight can be worked out.
  predicate Deliverable(store: Store, policy: Policy, worldId: Id, doc: Document) {
    var members := MembersOf(store, worldId);
    && Projectable(store, policy, doc, members)
    && var views := Projections(store, policy, doc, members);
       forall userId | userId in views :: CanSee(store, views[userId].subject, worldId, doc).Ok?
  }

  // The frames are those of the members who may read the document as it now stands and see it.
  predicate FannedOut(applied: Applied, policy: Policy, worldId: Id, doc: Document) {
    && Deliverable(applied.store, policy, worldId, doc)
    && var views := Projections(applied.store, policy, doc, MembersOf(applied.store, worldId));
       applied.perUser == LivePayloads(applied.store, worldId, doc, views, applied.event.seqNo)
  }

  // How the store rewrites one row: the new store and the row it now holds.
  type RowPatch = (Store, nat) -> Outcome<(Store, Document)>

  ghost predicate PatchesRow(patch: RowPatch, worldId: Id, documentId: Id) {
    forall store, seqNo :: patch(store, seqNo).Ok? ==>
      && GetDocument(patch(store, seqNo).value.0, worldId, documentId) == Some(patch(store, seqNo).value.1)
      && patch(store, seqNo).value.1.worldId == worldId
  }

  method Payloads(views: map<Id, View>, seqNo: nat) returns (perUser: map<Id, DocumentView>)
    ensures perUser == map userId | userId in views :: ViewOf(views[userId], seqNo)
  {
    perUser := map[];
    var pending := views.Keys;
    while pending != {}
      invariant pending <= views.Keys
      invariant perUser == map userId | userId in views && userId !in pending :: ViewOf(views[userId], seqNo)
      decreases pending
    {
      var userId :| userId in pending;
      pending := pending - {userId};
      perUser := perUser[userId := ViewOf(views[userId], seqNo)];
    }
  }

  // Project for every member, then filter by sight.
  method FanOut(store: Store, policy: Policy, worldId: Id, doc: Document, seqNo: nat)
    returns (r: Outcome<map<Id, DocumentView>>)
    requires doc.worldId == worldId
    ensures r.Ok? <==> Deliverable(store, policy, worldId, doc)
    ensures r.Ok? ==> r.value == LivePayloads(store, worldId, doc, Projections(store, policy, doc, MembersOf(store, worldId)), seqNo)
  {
    var projected := ProjectForMembers(store, policy, doc);
    if projected.Fail? {
      return Fail;
    }
    var filtered := Filter(store, worldId, doc, projected.value);
    if filtered.Fail? {
      return Fail;
    }
    var perUser := Payloads(filtered.value, seqNo);
    r := Ok(perUser);
  }

  // ----- Catch-up -----

  /** An audience that is absent, unreadable or empty is everyone. */
  function AudienceAllows(audience: Raw, userId: Id): bool {
    if !audience.Parsed? || !audience.json.List? then true
    else
      var items := audience.json.items;
      if exists i :: 0 <= i < |items| && !IsTextOrNull(items[i]) then true
      else |items| == 0 || exists i :: 0 <= i < |items| && TextOf(items[i]) == userId
  }

  datatype Payload = Stored(raw: Raw) | Projected(view: DocumentView)

  /** What catch-up sends a subject for one event: nothing, the stored payload, or a fresh
      projection of the document the event is about. */
  function ReplayPayload(store: Store, policy: Policy, subject: Subject, worldId: Id, event: Event)
    : Outcome<Option<Payload>>
  {
    if event.targetKind != "document" || event.targetId == "" then Ok(Some(Stored(event.payload)))
    else match GetDocument(store, worldId, event.targetId)
      case None => Ok(None)
      case Some(doc) =>
        match Project(store, policy, subject, doc)
        case Fail => Fail
        case Ok(None) => Ok(None)
        case Ok(Some(view)) =>
          match CanSee(store, subject, worldId, doc)
          case Fail => Fail
          case Ok(inSight) => Ok(if inSight then Some(Projected(ViewOf(view, event.seqNo))) else None)
  }

  // One event as catch-up treats it for a session, audience first.
  function Replay(store: Store, policy: Policy, subject: Subject, worldId: Id, event: Event): Outcome<Option<Payload>> {
    if AudienceAllows(event.audience, subject.userId) then ReplayPayload(store, policy, subject, worldId, event)
    else Ok(None)
  }

  /** While nothing stored has changed since the commit, catch-up never fails for a member with
      a known role, includes the event exactly when live fan-out had a frame for them, and
      carries the same payload. */
  lemma CatchUpEqualsLive(applied: Applied, policy: Policy, worldId: Id, doc: Document, userId: Id)
    requires applied.event.targetKind == "document" && applied.event.targetId != ""
    requires applied.event.audience == Parsed(List([]))
    requires GetDocument(applied.store, worldId, applied.event.targetId) == Some(doc)
    requires FannedOut(applied, policy, worldId, doc)
    requires userId in MembersOf(applied.store, worldId) && MembersOf(applied.store, worldId)[userId].Valid()
    ensures Replay(applied.store, policy, Subject(userId, MembersOf(applied.store, worldId)[userId]), worldId, applied.event)
         == Ok(if userId in applied.perUser then Some(Projected(applied.perUser[userId])) else None)
  {
    var members := MembersOf(applied.store, worldId);
    var views := Projections(applied.store, policy, doc, members);
    var mine := ProjectMember(applied.store, policy, doc, members, userId);
    assert mine.Ok?;
    if mine.value.Some? {
      assert userId in views && views[userId] == mine.value.value;
      assert views[userId].subject == Subject(userId, members[userId]);
    } else {
      assert userId !in views;
    }
  }

  // ----- The intent -----

  // Catch-up on the event shows a member what live fan-out sent them, or nothing if nothing.
  predicate Replayed(applied: Applied, policy: Policy, worldId: Id, userId: Id, role: Role) {
    Replay(applied.store, policy, Subject(userId, role), worldId, applied.event)
    == Ok(if userId in applied.perUser then Some(Projected(applied.perUser[userId])) else None)
  }

  // What the intent needs to go through.
  predicate Applies(store: Store, policy: Policy, worldId: Id, actor: Id, documentId: Id, patch: RowPatch, seqNo: nat) {
    var current := GetDocument(store, worldId, documentId);
    && current.Some? && Authorize(store, worldId, actor, current.value, true).Ok?
    && patch(store, seqNo).Ok?
    && Deliverable(patch(store, seqNo).value.0, policy, worldId, patch(store, seqNo).value.1)
  }

  /** Authorize, append the event, patch, project for every member and filter by sight, all in
      one transaction: a failure anywhere leaves nothing behind. Every member with a known role
      who catches up on the event before anything else changes is shown what was sent live. */
  method ApplyPatch(store: Store, policy: Policy, worldId: Id, actor: Id, documentId: Id,
                    patch: RowPatch, eventKind: string, payload: Raw, seqNo: nat)
    returns (r: Outcome<Applied>)
    requires PatchesRow(patch, worldId, documentId)
    ensures r.Ok? <==> Applies(store, policy, worldId, actor, documentId, patch, seqNo)
    ensures r.Ok? ==>
              && r.value.store == patch(store, seqNo).value.0
              && r.value.event == Event(seqNo, eventKind, "document", documentId, payload, Parsed(List([])))
              && FannedOut(r.value, policy, worldId, patch(store, seqNo).value.1)
    ensures r.Ok? ==>
              var members := MembersOf(r.value.store, worldId);
              documentId != "" ==> forall userId :: userId in members && members[userId].Valid() ==>
                Replayed(r.value, policy, worldId, userId, members[userId])
    ensures r.Ok? ==>
              r.value.ack == (if actor in r.value.perUser then Some(r.value.perUser[actor]) else None)
  {
    var current := GetDocument(store, worldId, documentId);
    if current.None? {
      return Fail;
    }
    if Authorize(store, worldId, actor, current.value, true).Fail? {
      return Fail;
    }
    var event := Event(seqNo, eventKind, "document", documentId, payload, Parsed(List([])));
    var patched := patch(store, seqNo);
    if patched.Fail? {
      return Fail;
    }
    var (after, doc) := patched.value;
    var perUser := FanOut(after, policy, worldId, doc, seqNo);
    if perUser.Fail? {
      return Fail;
    }
    var ack := if actor in perUser.value then Some(perUser.value[actor]) else None;
    var applied := Applied(after, event, perUser.value, ack);
    if documentId != "" {
      var members := MembersOf(after, worldId);
      forall userId | userId in members && members[userId].Valid()
        ensures Replayed(applied, policy, worldId, userId, members[userId])
      {
        CatchUpEqualsLive(applied, policy, worldId, doc, userId);
      }
    }
    r := Ok(applied);
  }
}
