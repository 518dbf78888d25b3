/** Toggling a door, and what it does to what every member is shown. */
module Doors {
  import opened Wrappers
  import opened Documents
  import opened Permission
  import opened Access
  import opened Sight

  predicate IsTrue(fields: map<string, Json>, key: string) {
    key in fields && fields[key] == Bool(true)
  }

  /** The rewritten wall data; a document that is not an object with a true door flag is refused. */
  function ToggleData(data: Raw): Outcome<Raw> {
    match DecodeFields(data)
    case Fail => Fail
    case Ok(fields) =>
      if !IsTrue(fields, "door") then Fail
      else Ok(Parsed(Object(fields["doorOpen" := Bool(!IsTrue(fields, "doorOpen"))])))
  }

  predicate IsOpen(data: Raw) {
    DecodeFields(data).Ok? && IsTrue(DecodeFields(data).value, "doorOpen")
  }

  /** The store after the wall has been written back, stamped with the event that did it. */
  function ToggleDoor(store: Store, worldId: Id, wallId: Id, seqNo: nat, now: int): Outcome<Store> {
    match GetDocument(store, worldId, wallId)
    case None => Fail
    case Some(wall) =>
      match ToggleData(wall.data)
      case Fail => Fail
      case Ok(data) => Ok(PutDocument(store, worldId, wall.(data := data, updatedSeq := seqNo, updatedAt := now)))
  }

  // ----- What a member is shown of a scene -----

  // The redacted tokens of a list, in order, leaving out those withheld.
  function Shown(store: Store, policy: Policy, subject: Subject, tokens: seq<Document>): Outcome<seq<Document>> {
    if tokens == [] then Ok([])
    else
      var first, rest := Project(store, policy, subject, tokens[0]), Shown(store, policy, subject, tokens[1..]);
      if first.Fail? || rest.Fail? then Fail
      else if first.value.None? then rest
      else Ok([first.value.value.document] + rest.value)
  }

  function SceneView(store: Store, policy: Policy, subject: Subject, worldId: Id, sceneId: Id): Outcome<seq<Document>> {
    match VisibleAmong(store, subject, worldId, sceneId, ListDocuments(store, worldId, "token", sceneId))
    case Fail => Fail
    case Ok(visible) => Shown(store, policy, subject, visible)
  }

  function Ids(documents: seq<Document>): (r: seq<Id>)
    ensures |r| == |documents| && forall i :: 0 <= i < |r| ==> r[i] == documents[i].id
  {
    seq(|documents|, i requires 0 <= i < |documents| => documents[i].id)
  }

  /** The frames sent after a toggle: one scene view per member with a known role. */
  method VisibilityFrames(store: Store, policy: Policy, worldId: Id, sceneId: Id)
    returns (r: Outcome<map<Id, seq<Document>>>)
    ensures var members := MembersOf(store, worldId);
            r.Ok? ==>
              && r.value.Keys == (set userId | userId in members && members[userId].Valid())
              && forall userId | userId in r.value ::
                   SceneView(store, policy, Subject(userId, members[userId]), worldId, sceneId) == Ok(r.value[userId])
    ensures r.Fail? ==> exists userId | userId in MembersOf(store, worldId) && MembersOf(store, worldId)[userId].Valid() ::
              SceneView(store, policy, Subject(userId, MembersOf(store, worldId)[userId]), worldId, sceneId).Fail?
  {
    var members := MembersOf(store, worldId);
    var tokens := ListDocuments(store, worldId, "token", sceneId);
    var frames: map<Id, seq<Document>> := map[];
    var pending := members.Keys;
    while pending != {}
      invariant pending <= members.Keys
      invariant frames.Keys == set userId | userId in members && userId !in pending && members[userId].Valid()
      invariant forall userId | userId in frames ::
                  SceneView(store, policy, Subject(userId, members[userId]), worldId, sceneId) == Ok(frames[userId])
      decreases pending
    {
      var userId :| userId in pending;
      pending := pending - {userId};
      if members[userId].Valid() {
        var subject := Subject(userId, members[userId]);
        var visible := VisibleTokens(store, subject, worldId, sceneId, tokens);
        if visible.Fail? {
          return Fail;
        }
        var shown := Redacted(store, policy, subject, visible.value);
        if shown.Fail? {
          return Fail;
        }
        frames := frames[userId := shown.value];
      }
    }
    r := Ok(frames);
  }

  function Joined(done: seq<Document>, rest: Outcome<seq<Document>>): Outcome<seq<Document>> {
    if rest.Ok? then Ok(done + rest.value) else Fail
  }

  lemma JoinedLaws(done: seq<Document>, doc: Document, rest: Outcome<seq<Document>>)
    ensures Joined(done, Joined([doc], rest)) == Joined(done + [doc], rest)
  {
    if rest.Ok? {
      assert done + ([doc] + rest.value) == done + [doc] + rest.value;
    }
  }

  lemma JoinedNothing(rest: Outcome<seq<Document>>)
    ensures Joined([], rest) == rest
  {
    if rest.Ok? {
      assert [] + rest.value == rest.value;
    }
  }

  method Redacted(store: Store, policy: Policy, subject: Subject, tokens: seq<Document>)
    returns (r: Outcome<seq<Document>>)
    ensures r == Shown(store, policy, subject, tokens)
  {
    var shown: seq<Document> := [];
    assert tokens[0..] == tokens;
    JoinedNothing(Shown(store, policy, subject, tokens));
    for i := 0 to |tokens|
      invariant Shown(store, policy, subject, tokens) == Joined(shown, Shown(store, policy, subject, tokens[i..]))
    {
      assert tokens[i..][0] == tokens[i] && tokens[i..][1..] == tokens[i + 1..];
      match Project(store, policy, subject, tokens[i])
      case Fail =>
        return Fail;
      case Ok(None) =>
      case Ok(Some(view)) =>
        JoinedLaws(shown, view.document, Shown(store, policy, subject, tokens[i + 1..]));
        shown := shown + [view.document];
    }
    assert tokens[|tokens|..] == [] && shown + [] == shown;
    r := Ok(shown);
  }
}
