/** What the intents and catch-up promise in the members' own terms: who may edit, what a payload
    carries, and who is shown an event with an audience. */
module CatchUpTheory {
  import opened Wrappers
  import opened Documents
  import opened Permission
  import opened Redaction
  import opened Access
  import opened AccessTheory
  import opened Sight
  import opened CatchUp
  import Hub

  /** Only staff and players who own the document may edit it: not observers, not players with
      less, not strangers. Reading takes any level above none. */
  lemma OnlyOwnersEdit(store: Store, worldId: Id, userId: Id, doc: Document)
    ensures Authorize(store, worldId, userId, doc, true).Ok? <==>
            && userId in MembersOf(store, worldId)
            && var role := MembersOf(store, worldId)[userId];
               var grant := GrantFor(store, Subject(userId, role), doc);
               grant.Ok? && (role == GameMaster || role == Assistant || (role == Player && grant.value.level == 3))
    ensures Authorize(store, worldId, userId, doc, false).Ok? <==>
            && userId in MembersOf(store, worldId)
            && var role := MembersOf(store, worldId)[userId];
               var grant := GrantFor(store, Subject(userId, role), doc);
               !role.Unknown? && grant.Ok? && grant.value.level >= 1
  {
  }

  /** The payload a member is sent live carries the number of the event, the document's own
      identity, kind, name and image, and its columns as redacted for that member; and a member
      has one exactly when they may read the document and see it. */
  lemma PayloadCarries(applied: Applied, policy: Policy, worldId: Id, doc: Document, userId: Id)
    requires FannedOut(applied, policy, worldId, doc) && doc.worldId == worldId
    requires userId in MembersOf(applied.store, worldId)
    ensures var role := MembersOf(applied.store, worldId)[userId];
            var subject := Subject(userId, role);
            var grant := GrantFor(applied.store, subject, doc);
            && (userId in applied.perUser <==>
                  !role.Unknown? && grant.Ok? && grant.value.level >= 1
                  && CanSee(applied.store, subject, worldId, doc) == Ok(true))
            && (userId in applied.perUser ==>
                  var payload, redacted := applied.perUser[userId], RedactDocument(doc, subject, grant.value, policy);
                  && redacted.Ok? && redacted.value.Some?
                  && payload.seqNo == applied.event.seqNo && payload.updatedSeq == doc.updatedSeq
                  && payload.id == doc.id && payload.kind == doc.kind && payload.subtype == doc.subtype
                  && payload.name == doc.name && payload.img == doc.img
                  && payload.data == redacted.value.value.data && payload.flags == redacted.value.value.flags
                  && payload.ownership == redacted.value.value.ownership)
  {
    ReadersGetViews(applied.store, policy, doc, userId);
  }

  // ----- Audiences -----

  // An audience as it is stored with an event.
  function AudienceData(users: seq<Id>): Raw {
    Parsed(List(seq(|users|, i requires 0 <= i < |users| => Text(users[i]))))
  }

  /** A stored audience admits its users, an empty one everyone. */
  lemma AudienceReadsBack(users: seq<Id>, userId: Id)
    ensures AudienceAllows(AudienceData(users), userId) <==> users == [] || userId in users
  {
    var items := AudienceData(users).json.items;
    assert forall i :: 0 <= i < |items| ==> items[i] == Text(users[i]);
    if userId in users {
      var i :| 0 <= i < |users| && users[i] == userId;
      assert TextOf(items[i]) == userId;
    }
  }

  /** An audience that is not a list of texts holds nobody back. */
  lemma UnreadableAudienceIsEveryone(audience: Raw, userId: Id)
    requires !audience.Parsed? || !audience.json.List?
             || exists i :: 0 <= i < |audience.json.items| && !audience.json.items[i].Text? && !audience.json.items[i].Null?
    ensures AudienceAllows(audience, userId)
  {
  }

  /** Live and catch-up agree on the audience: the hub admits a user to a publication exactly when
      catch-up would admit them to the event stored with the same audience. */
  lemma AudiencesAgree(publication: Hub.Publication, userId: Id)
    ensures Hub.Allows(publication, userId) <==> AudienceAllows(AudienceData(publication.audience), userId)
  {
    AudienceReadsBack(publication.audience, userId);
  }

  /** Nobody outside its audience is shown an event on catch-up, and an event that is not about a
      document reaches those inside it with the payload it was stored with. */
  lemma ReplayRespectsAudience(store: Store, policy: Policy, subject: Subject, worldId: Id, event: Event, users: seq<Id>)
    requires event.audience == AudienceData(users)
    ensures users != [] && subject.userId !in users ==> Replay(store, policy, subject, worldId, event) == Ok(None)
    ensures (users == [] || subject.userId in users) && event.targetKind != "document" ==>
              Replay(store, policy, subject, worldId, event) == Ok(Some(Stored(event.payload)))
  {
    AudienceReadsBack(users, subject.userId);
  }

  /** An event about a document that is gone, withheld or out of sight is not shown at all. */
  lemma ReplayWithholds(store: Store, policy: Policy, subject: Subject, worldId: Id, event: Event)
    requires event.targetKind == "document" && event.targetId != ""
    requires var doc := GetDocument(store, worldId, event.targetId);
             || doc.None?
             || (GrantFor(store, subject, doc.value).Ok? && GrantFor(store, subject, doc.value).value.level == 0)
             || (Project(store, policy, subject, doc.value).Ok? && CanSee(store, subject, worldId, doc.value) == Ok(false))
    ensures Replay(store, policy, subject, worldId, event) == Ok(None)
  {
  }
}
