/** Opening a door only shows more, closing it only shows less, and toggling twice restores
    every member's view. */
module DoorsTheory {
  import opened Wrappers
  import opened Documents
  import opened Permission
  import opened Redaction
  import opened Access
  import opened Vision
  import opened Sight
  import opened Doors

  // ----- Relating two versions of a store, document by document -----

  type Relation = (Document, Document) -> bool

  // Two versions of one document that differ at most in data, and read the same as a token.
  predicate Alike(d: Document, e: Document) {
    && e == d.(data := e.data, updatedSeq := e.updatedSeq, updatedAt := e.updatedAt)
    && PointOf(d) == PointOf(e)
    && d.data.Empty? == e.data.Empty? && DecodeFields(d.data).Ok? == DecodeFields(e.data).Ok?
  }

  // The later version stands in the way of nothing the earlier one did not.
  predicate Eases(d: Document, e: Document) {
    Alike(d, e) && (BlockerOf(e.data).None? || BlockerOf(e.data) == BlockerOf(d.data))
  }

  predicate Hinders(d: Document, e: Document) {
    Eases(e, d)
  }

  predicate Matches(d: Document, e: Document) {
    Alike(d, e) && BlockerOf(e.data) == BlockerOf(d.data)
  }

  ghost predicate Faithful(rel: Relation) {
    forall d, e :: rel(d, e) ==> Alike(d, e)
  }

  predicate Pairwise(rel: Relation, ds: seq<Document>, es: seq<Document>) {
    |ds| == |es| && forall i :: 0 <= i < |ds| ==> rel(ds[i], es[i])
  }

  predicate Versions(rel: Relation, s: Store, t: Store) {
    && s.worlds.Keys == t.worlds.Keys
    && forall w | w in s.worlds ::
         && t.worlds[w] == s.worlds[w].(documents := t.worlds[w].documents)
         && Pairwise(rel, s.worlds[w].documents, t.worlds[w].documents)
  }

  lemma Tail(rel: Relation, ds: seq<Document>, es: seq<Document>)
    requires Pairwise(rel, ds, es) && ds != []
    ensures rel(ds[0], es[0]) && Pairwise(rel, ds[1..], es[1..])
  {
    forall i | 0 <= i < |ds| - 1
      ensures rel(ds[1..][i], es[1..][i])
    {
      assert rel(ds[i + 1], es[i + 1]);
    }
  }

  lemma {:induction false} FindVersions(rel: Relation, ds: seq<Document>, es: seq<Document>, id: Id)
    requires Faithful(rel) && Pairwise(rel, ds, es)
    ensures Find(ds, id).Some? == Find(es, id).Some?
    ensures Find(ds, id).Some? ==> rel(Find(ds, id).value, Find(es, id).value)
  {
    if ds != [] {
      Tail(rel, ds, es);
      FindVersions(rel, ds[1..], es[1..], id);
    }
  }

  lemma {:induction false} MatchingVersions(rel: Relation, ds: seq<Document>, es: seq<Document>, kind: string, parentId: Id)
    requires Faithful(rel) && Pairwise(rel, ds, es)
    ensures Pairwise(rel, Matching(ds, kind, parentId), Matching(es, kind, parentId))
  {
    if ds != [] {
      Tail(rel, ds, es);
      MatchingVersions(rel, ds[1..], es[1..], kind, parentId);
      Cons(rel, ds[0], es[0], Matching(ds[1..], kind, parentId), Matching(es[1..], kind, parentId));
    }
  }

  lemma Cons(rel: Relation, d: Document, e: Document, ds: seq<Document>, es: seq<Document>)
    requires rel(d, e) && Pairwise(rel, ds, es)
    ensures Pairwise(rel, [d] + ds, [e] + es)
  {
  }

  lemma ListVersions(rel: Relation, s: Store, t: Store, worldId: Id, kind: string, parentId: Id)
    requires Faithful(rel) && Versions(rel, s, t)
    ensures Pairwise(rel, ListDocuments(s, worldId, kind, parentId), ListDocuments(t, worldId, kind, parentId))
  {
    MatchingVersions(rel, DocumentsOf(s, worldId), DocumentsOf(t, worldId), kind, parentId);
  }

  lemma GrantVersions(rel: Relation, s: Store, t: Store, subject: Subject, d: Document, e: Document)
    requires Faithful(rel) && Versions(rel, s, t) && Alike(d, e)
    ensures GrantFor(s, subject, d) == GrantFor(t, subject, e)
  {
    FindVersions(rel, DocumentsOf(s, d.worldId), DocumentsOf(t, d.worldId), d.folderId);
  }

  lemma {:induction false} ViewpointsVersions(rel: Relation, s: Store, t: Store, subject: Subject,
                                              ds: seq<Document>, es: seq<Document>)
    requires Faithful(rel) && Versions(rel, s, t) && Pairwise(rel, ds, es)
    ensures Viewpoints(s, subject, ds) == Viewpoints(t, subject, es)
  {
    if ds != [] {
      Tail(rel, ds, es);
      GrantVersions(rel, s, t, subject, ds[0], es[0]);
      ViewpointsVersions(rel, s, t, subject, ds[1..], es[1..]);
    }
  }

  // Whether a document is withheld depends on nothing that changed.
  lemma ProjectVersions(rel: Relation, s: Store, t: Store, policy: Policy, subject: Subject, d: Document, e: Document)
    requires Faithful(rel) && Versions(rel, s, t) && Alike(d, e)
    ensures Project(s, policy, subject, d).Ok? == Project(t, policy, subject, e).Ok?
    ensures Project(s, policy, subject, d).Ok? ==>
              Project(s, policy, subject, d).value.Some? == Project(t, policy, subject, e).value.Some?
  {
    GrantVersions(rel, s, t, subject, d, e);
  }

  lemma ProjectKeepsId(s: Store, policy: Policy, subject: Subject, d: Document)
    ensures Project(s, policy, subject, d).Ok? && Project(s, policy, subject, d).value.Some? ==>
              Project(s, policy, subject, d).value.value.document.id == d.id
  {
  }

  // ----- Fewer blockers show more -----

  lemma {:induction false} FewerBlockers(ds: seq<Document>, es: seq<Document>)
    requires Pairwise(Eases, ds, es)
    ensures forall span :: span in Blockers(es) ==> span in Blockers(ds)
  {
    if ds != [] {
      Tail(Eases, ds, es);
      FewerBlockers(ds[1..], es[1..]);
    }
  }

  lemma VisibleWithFewer(from: Point, to: Point, more: seq<Segment>, fewer: seq<Segment>)
    requires forall span :: span in fewer ==> span in more
    ensures Visible(from, to, more) ==> Visible(from, to, fewer)
  {
    forall i | 0 <= i < |fewer| && Visible(from, to, more)
      ensures !Crosses(Segment(from, to), fewer[i])
    {
      assert fewer[i] in more;
    }
  }

  /** Taking blockers away never hides a point from a set of viewpoints. */
  lemma VisibleFromAnyWithFewer(points: seq<Point>, to: Point, more: seq<Segment>, fewer: seq<Segment>)
    requires forall span :: span in fewer ==> span in more
    ensures VisibleFromAny(points, to, more) ==> VisibleFromAny(points, to, fewer)
  {
    forall i | 0 <= i < |points|
      ensures Visible(points[i], to, more) ==> Visible(points[i], to, fewer)
    {
      VisibleWithFewer(points[i], to, more, fewer);
    }
  }

  lemma {:induction false} SeenMembers(tokens: seq<Document>, points: seq<Point>, blockers: seq<Segment>, d: Document)
    ensures d in Seen(tokens, points, blockers) <==>
            d in tokens && PointOf(d).Ok? && VisibleFromAny(points, PointOf(d).value, blockers)
  {
    if tokens != [] {
      SeenMembers(tokens[1..], points, blockers, d);
      assert d in tokens <==> d == tokens[0] || d in tokens[1..];
    }
  }

  // A token among those visible before has its later version among those visible after.
  lemma VisibleAfterEasing(s: Store, t: Store, subject: Subject, worldId: Id, sceneId: Id,
                           ds: seq<Document>, es: seq<Document>, k: nat)
    requires Versions(Eases, s, t) && Pairwise(Eases, ds, es) && k < |ds|
    requires VisibleAmong(s, subject, worldId, sceneId, ds).Ok?
    requires VisibleAmong(t, subject, worldId, sceneId, es).Ok?
    requires ds[k] in VisibleAmong(s, subject, worldId, sceneId, ds).value
    ensures es[k] in VisibleAmong(t, subject, worldId, sceneId, es).value
  {
    ListVersions(Eases, s, t, worldId, "wall", sceneId);
    ListVersions(Eases, s, t, worldId, "token", sceneId);
    FewerBlockers(ListDocuments(s, worldId, "wall", sceneId), ListDocuments(t, worldId, "wall", sceneId));
    ViewpointsVersions(Eases, s, t, subject, ListDocuments(s, worldId, "token", sceneId),
                       ListDocuments(t, worldId, "token", sceneId));
    var more, fewer := SceneBlockers(s, worldId, sceneId), SceneBlockers(t, worldId, sceneId);
    if |fewer| > 0 && !subject.role.IsStaff() && SceneViewpoints(t, subject, worldId, sceneId).value != [] {
      var points := SceneViewpoints(t, subject, worldId, sceneId).value;
      assert fewer[0] in more;
      SeenMembers(ds, points, more, ds[k]);
      SeenMembers(es, points, fewer, es[k]);
      assert Eases(ds[k], es[k]);
      VisibleFromAnyWithFewer(points, PointOf(ds[k]).value, more, fewer);
    }
  }

  // The ids shown of a list, one token at a time.
  lemma ConsIds(s: Store, policy: Policy, subject: Subject, ds: seq<Document>)
    requires ds != []
    ensures var first, rest := Project(s, policy, subject, ds[0]), Shown(s, policy, subject, ds[1..]);
            && Shown(s, policy, subject, ds).Ok? == (first.Ok? && rest.Ok?)
            && (first.Ok? && rest.Ok? ==>
                  Ids(Shown(s, policy, subject, ds).value) == (if first.value.Some? then [ds[0].id] else []) + Ids(rest.value))
  {
    ProjectKeepsId(s, policy, subject, ds[0]);
    var first, rest := Project(s, policy, subject, ds[0]), Shown(s, policy, subject, ds[1..]);
    if first.Ok? && rest.Ok? {
      if first.value.Some? {
        IdsCons(first.value.value.document, rest.value);
      } else {
        assert [] + Ids(rest.value) == Ids(rest.value);
      }
    }
  }

  lemma IdsCons(doc: Document, rest: seq<Document>)
    ensures Ids([doc] + rest) == [doc.id] + Ids(rest)
  {
  }

  predicate ShownAs(s: Store, policy: Policy, subject: Subject, d: Document, id: Id) {
    d.id == id && Project(s, policy, subject, d).Ok? && Project(s, policy, subject, d).value.Some?
  }

  lemma {:induction false} ShownMembers(s: Store, policy: Policy, subject: Subject, tokens: seq<Document>, id: Id)
    requires Shown(s, policy, subject, tokens).Ok?
    ensures id in Ids(Shown(s, policy, subject, tokens).value) <==>
            exists d :: d in tokens && ShownAs(s, policy, subject, d, id)
  {
    if tokens != [] {
      ConsIds(s, policy, subject, tokens);
      ShownMembers(s, policy, subject, tokens[1..], id);
      var head := ShownAs(s, policy, subject, tokens[0], id);
      assert id in Ids(Shown(s, policy, subject, tokens).value) <==>
             head || id in Ids(Shown(s, policy, subject, tokens[1..]).value);
      if head {
        assert tokens[0] in tokens;
      } else if id in Ids(Shown(s, policy, subject, tokens).value) {
        var d :| d in tokens[1..] && ShownAs(s, policy, subject, d, id);
        assert d in tokens;
      }
    }
  }

  lemma VisibleAreGiven(s: Store, subject: Subject, worldId: Id, sceneId: Id, tokens: seq<Document>, d: Document)
    requires VisibleAmong(s, subject, worldId, sceneId, tokens).Ok?
    ensures d in VisibleAmong(s, subject, worldId, sceneId, tokens).value ==> d in tokens
  {
    var points := SceneViewpoints(s, subject, worldId, sceneId);
    if points.Ok? {
      SeenMembers(tokens, points.value, SceneBlockers(s, worldId, sceneId), d);
    }
  }

  lemma EasingShowsMore(s: Store, t: Store, policy: Policy, subject: Subject, worldId: Id, sceneId: Id, id: Id)
    requires Versions(Eases, s, t)
    requires SceneView(s, policy, subject, worldId, sceneId).Ok? && SceneView(t, policy, subject, worldId, sceneId).Ok?
    requires id in Ids(SceneView(s, policy, subject, worldId, sceneId).value)
    ensures id in Ids(SceneView(t, policy, subject, worldId, sceneId).value)
  {
    var ds, es := ListDocuments(s, worldId, "token", sceneId), ListDocuments(t, worldId, "token", sceneId);
    var before := VisibleAmong(s, subject, worldId, sceneId, ds).value;
    var after := VisibleAmong(t, subject, worldId, sceneId, es).value;
    ShownMembers(s, policy, subject, before, id);
    ShownMembers(t, policy, subject, after, id);
    var d :| d in before && ShownAs(s, policy, subject, d, id);
    VisibleAreGiven(s, subject, worldId, sceneId, ds, d);
    var k :| 0 <= k < |ds| && ds[k] == d;
    ListVersions(Eases, s, t, worldId, "token", sceneId);
    VisibleAfterEasing(s, t, subject, worldId, sceneId, ds, es, k);
    assert Eases(ds[k], es[k]);
    ProjectVersions(Eases, s, t, policy, subject, ds[k], es[k]);
    assert ShownAs(t, policy, subject, es[k], id);
  }

  // ----- What a toggle does to the wall and to the store -----

  lemma ToggledIsAlike(wall: Document, data: Raw, seqNo: nat, now: int)
    requires ToggleData(wall.data) == Ok(data)
    ensures Alike(wall, wall.(data := data, updatedSeq := seqNo, updatedAt := now))
  {
  }

  lemma OpeningEases(data: Raw)
    requires ToggleData(data).Ok? && !IsOpen(data)
    ensures BlockerOf(ToggleData(data).value).None?
  {
  }

  lemma ClosingHinders(data: Raw)
    requires ToggleData(data).Ok? && IsOpen(data)
    ensures BlockerOf(data).None?
  {
  }

  lemma {:induction false} ReplaceVersions(rel: Relation, documents: seq<Document>, doc: Document)
    requires forall d :: rel(d, d)
    requires Find(documents, doc.id).Some? && rel(Find(documents, doc.id).value, doc)
    ensures Pairwise(rel, documents, Replace(documents, doc))
  {
    if documents[0].id != doc.id {
      ReplaceVersions(rel, documents[1..], doc);
      Cons(rel, documents[0], documents[0], documents[1..], Replace(documents[1..], doc));
    } else {
      assert Pairwise(rel, documents[1..], documents[1..]);
      Cons(rel, documents[0], doc, documents[1..], documents[1..]);
      assert documents == [documents[0]] + documents[1..];
    }
  }

  lemma WrittenBack(rel: Relation, store: Store, worldId: Id, doc: Document)
    requires forall d :: rel(d, d)
    requires GetDocument(store, worldId, doc.id).Some? && rel(GetDocument(store, worldId, doc.id).value, doc)
    ensures worldId in store.worlds && Versions(rel, store, PutDocument(store, worldId, doc))
  {
    ReplaceVersions(rel, DocumentsOf(store, worldId), doc);
  }

  lemma ToggleVersions(rel: Relation, store: Store, worldId: Id, wallId: Id, seqNo: nat, now: int)
    requires forall d :: rel(d, d)
    requires ToggleDoor(store, worldId, wallId, seqNo, now).Ok?
    requires var wall := GetDocument(store, worldId, wallId).value;
             rel(wall, wall.(data := ToggleData(wall.data).value, updatedSeq := seqNo, updatedAt := now))
    ensures Versions(rel, store, ToggleDoor(store, worldId, wallId, seqNo, now).value)
  {
    FoundById(DocumentsOf(store, worldId), wallId);
    var wall := GetDocument(store, worldId, wallId).value;
    WrittenBack(rel, store, worldId, wall.(data := ToggleData(wall.data).value, updatedSeq := seqNo, updatedAt := now));
  }

  predicate WasOpen(store: Store, worldId: Id, wallId: Id) {
    GetDocument(store, worldId, wallId).Some? && IsOpen(GetDocument(store, worldId, wallId).value.data)
  }

  /** Opening a door never takes a token out of any member's view of any scene. */
  lemma OpeningNeverHides(store: Store, worldId: Id, wallId: Id, seqNo: nat, now: int,
                          policy: Policy, subject: Subject, sceneId: Id, id: Id)
    requires ToggleDoor(store, worldId, wallId, seqNo, now).Ok? && !WasOpen(store, worldId, wallId)
    ensures var before := SceneView(store, policy, subject, worldId, sceneId);
            var after := SceneView(ToggleDoor(store, worldId, wallId, seqNo, now).value, policy, subject, worldId, sceneId);
            before.Ok? && after.Ok? && id in Ids(before.value) ==> id in Ids(after.value)
  {
    var wall := GetDocument(store, worldId, wallId).value;
    ToggledIsAlike(wall, ToggleData(wall.data).value, seqNo, now);
    OpeningEases(wall.data);
    ToggleVersions(Eases, store, worldId, wallId, seqNo, now);
    var wider := ToggleDoor(store, worldId, wallId, seqNo, now).value;
    var before, after := SceneView(store, policy, subject, worldId, sceneId), SceneView(wider, policy, subject, worldId, sceneId);
    if before.Ok? && after.Ok? && id in Ids(before.value) {
      EasingShowsMore(store, wider, policy, subject, worldId, sceneId, id);
    }
  }

  lemma Reversed(s: Store, t: Store)
    requires Versions(Hinders, s, t)
    ensures Versions(Eases, t, s)
  {
    forall w | w in t.worlds
      ensures Pairwise(Eases, t.worlds[w].documents, s.worlds[w].documents)
    {
      var ds, es := s.worlds[w].documents, t.worlds[w].documents;
      forall i | 0 <= i < |es|
        ensures Eases(es[i], ds[i])
      {
        assert Hinders(ds[i], es[i]);
      }
    }
  }

  /** Closing a door never puts a token into any member's view of any scene. */
  lemma ClosingNeverShows(store: Store, worldId: Id, wallId: Id, seqNo: nat, now: int,
                          policy: Policy, subject: Subject, sceneId: Id, id: Id)
    requires ToggleDoor(store, worldId, wallId, seqNo, now).Ok? && WasOpen(store, worldId, wallId)
    ensures var before := SceneView(store, policy, subject, worldId, sceneId);
            var after := SceneView(ToggleDoor(store, worldId, wallId, seqNo, now).value, policy, subject, worldId, sceneId);
            before.Ok? && after.Ok? && id in Ids(after.value) ==> id in Ids(before.value)
  {
    var wall := GetDocument(store, worldId, wallId).value;
    ToggledIsAlike(wall, ToggleData(wall.data).value, seqNo, now);
    ClosingHinders(wall.data);
    ToggleVersions(Hinders, store, worldId, wallId, seqNo, now);
    var closed := ToggleDoor(store, worldId, wallId, seqNo, now).value;
    Reversed(store, closed);
    var before, after := SceneView(store, policy, subject, worldId, sceneId), SceneView(closed, policy, subject, worldId, sceneId);
    if before.Ok? && after.Ok? && id in Ids(after.value) {
      EasingShowsMore(closed, store, policy, subject, worldId, sceneId, id);
    }
  }

  // ----- What a view carries -----

  // The document is a visible token of the list, redacted for the subject.
  predicate RedactedFrom(store: Store, policy: Policy, subject: Subject, token: Document, shown: Document) {
    && GrantFor(store, subject, token).Ok?
    && RedactDocument(token, subject, GrantFor(store, subject, token).value, policy) == Ok(Some(shown))
  }

  lemma {:induction false} ShownIsRedacted(store: Store, policy: Policy, subject: Subject, tokens: seq<Document>, shown: Document)
    requires Shown(store, policy, subject, tokens).Ok? && shown in Shown(store, policy, subject, tokens).value
    ensures exists i :: 0 <= i < |tokens| && RedactedFrom(store, policy, subject, tokens[i], shown)
  {
    var rest := Shown(store, policy, subject, tokens[1..]);
    if shown in rest.value {
      ShownIsRedacted(store, policy, subject, tokens[1..], shown);
      var i :| 0 <= i < |tokens[1..]| && RedactedFrom(store, policy, subject, tokens[1..][i], shown);
      assert tokens[1..][i] == tokens[i + 1];
    } else {
      assert RedactedFrom(store, policy, subject, tokens[0], shown);
    }
  }

  /** A scene view carries nothing but listed tokens of the scene, each redacted for the subject. */
  lemma ViewIsRedacted(store: Store, policy: Policy, subject: Subject, worldId: Id, sceneId: Id, shown: Document)
    requires SceneView(store, policy, subject, worldId, sceneId).Ok?
    requires shown in SceneView(store, policy, subject, worldId, sceneId).value
    ensures exists token :: token in ListDocuments(store, worldId, "token", sceneId)
                            && RedactedFrom(store, policy, subject, token, shown)
  {
    var tokens := ListDocuments(store, worldId, "token", sceneId);
    var visible := VisibleAmong(store, subject, worldId, sceneId, tokens).value;
    ShownIsRedacted(store, policy, subject, visible, shown);
    var i :| 0 <= i < |visible| && RedactedFrom(store, policy, subject, visible[i], shown);
    VisibleAreGiven(store, subject, worldId, sceneId, tokens, visible[i]);
  }

  // ----- What a toggle changes -----

  /** A toggle is refused unless the wall's data is an object whose door flag is true; otherwise it
      turns the open flag over and leaves every other field as it is. */
  lemma ToggleFlipsOneField(data: Raw)
    ensures ToggleData(data).Ok? <==>
            data.Parsed? && data.json.Object? && "door" in data.json.fields && data.json.fields["door"] == Bool(true)
    ensures ToggleData(data).Ok? ==>
              && ToggleData(data).value.Parsed? && ToggleData(data).value.json.Object?
              && var before, after := data.json.fields, ToggleData(data).value.json.fields;
                 && "doorOpen" in after
                 && after["doorOpen"] == Bool(!("doorOpen" in before && before["doorOpen"] == Bool(true)))
                 && after - {"doorOpen"} == before - {"doorOpen"}
  {
  }

  lemma {:induction false} ReplaceLeavesOthers(documents: seq<Document>, doc: Document, id: Id)
    requires id != doc.id
    ensures Find(Replace(documents, doc), id) == Find(documents, id)
  {
    if documents != [] && documents[0].id != doc.id {
      ReplaceLeavesOthers(documents[1..], doc, id);
    }
  }

  /** A toggle touches one document of one world: its data, and the stamp of the event. */
  lemma ToggleTouchesOneDocument(store: Store, worldId: Id, wallId: Id, seqNo: nat, now: int, otherWorld: Id, otherId: Id)
    requires ToggleDoor(store, worldId, wallId, seqNo, now).Ok?
    ensures var after, wall := ToggleDoor(store, worldId, wallId, seqNo, now).value, GetDocument(store, worldId, wallId).value;
            && ToggleData(wall.data).Ok?
            && GetDocument(after, worldId, wallId)
               == Some(wall.(data := ToggleData(wall.data).value, updatedSeq := seqNo, updatedAt := now))
            && (otherWorld != worldId || otherId != wallId ==>
                  GetDocument(after, otherWorld, otherId) == GetDocument(store, otherWorld, otherId))
  {
    var documents := DocumentsOf(store, worldId);
    FoundById(documents, wallId);
    var wall := GetDocument(store, worldId, wallId).value;
    var next := wall.(data := ToggleData(wall.data).value, updatedSeq := seqNo, updatedAt := now);
    FindAfterReplace(documents, next);
    if otherWorld == worldId && otherId != wallId {
      ReplaceLeavesOthers(documents, next, otherId);
    }
  }

  // ----- Toggling twice -----

  // The wall would stop sight if its door were shut and everything else decodes.
  predicate Solid(fields: map<string, Json>) {
    var shut := WallOf(fields["doorOpen" := Bool(false)]);
    shut.Ok? && shut.value.blocksSight
  }

  /** Two toggles leave a wall blocking what it did exactly when its open flag was a boolean,
      null or absent, or the wall would not stop sight even when shut. */
  lemma TwiceRestoresExactly(data: Raw)
    requires ToggleData(data).Ok?
    ensures ToggleData(ToggleData(data).value).Ok?
    ensures var fields := DecodeFields(data).value;
            BlockerOf(ToggleData(ToggleData(data).value).value) == BlockerOf(data) <==>
            BoolField(fields, "doorOpen").Ok? || !Solid(fields)
  {
    var fields := DecodeFields(data).value;
    var twice := DecodeFields(ToggleData(ToggleData(data).value).value).value;
    SameButOpen(fields, twice, "doorOpen");
    SameButOpen(fields, fields["doorOpen" := Bool(false)], "doorOpen");
  }

  // Every wall field but the open flag reads the same.
  lemma SameButOpen(fields: map<string, Json>, other: map<string, Json>, skip: string)
    requires skip in other && fields.Keys + {skip} == other.Keys
    requires forall key | key in fields && key != skip :: other[key] == fields[key]
    ensures forall key :: key != skip ==>
              NumberField(fields, key) == NumberField(other, key) && BoolField(fields, key) == BoolField(other, key)
  {
    forall key: string | key != skip
      ensures NumberField(fields, key) == NumberField(other, key) && BoolField(fields, key) == BoolField(other, key)
    {
      assert key in fields <==> key in fields.Keys + {skip};
    }
  }

  lemma {:induction false} SameBlockers(ds: seq<Document>, es: seq<Document>)
    requires Pairwise(Matches, ds, es)
    ensures Blockers(ds) == Blockers(es)
  {
    if ds != [] {
      Tail(Matches, ds, es);
      SameBlockers(ds[1..], es[1..]);
    }
  }

  lemma {:induction false} SameSeen(ds: seq<Document>, es: seq<Document>, points: seq<Point>, blockers: seq<Segment>)
    requires Pairwise(Matches, ds, es)
    ensures Pairwise(Matches, Seen(ds, points, blockers), Seen(es, points, blockers))
  {
    if ds != [] {
      Tail(Matches, ds, es);
      SameSeen(ds[1..], es[1..], points, blockers);
      Cons(Matches, ds[0], es[0], Seen(ds[1..], points, blockers), Seen(es[1..], points, blockers));
    }
  }

  lemma {:induction false} SameShown(s: Store, t: Store, policy: Policy, subject: Subject, ds: seq<Document>, es: seq<Document>)
    requires Versions(Matches, s, t) && Pairwise(Matches, ds, es)
    ensures Shown(s, policy, subject, ds).Ok? == Shown(t, policy, subject, es).Ok?
    ensures Shown(s, policy, subject, ds).Ok? ==>
              Ids(Shown(s, policy, subject, ds).value) == Ids(Shown(t, policy, subject, es).value)
  {
    if ds != [] {
      Tail(Matches, ds, es);
      ProjectVersions(Matches, s, t, policy, subject, ds[0], es[0]);
      SameShown(s, t, policy, subject, ds[1..], es[1..]);
      ConsIds(s, policy, subject, ds);
      ConsIds(t, policy, subject, es);
    }
  }

  lemma SameView(s: Store, t: Store, policy: Policy, subject: Subject, worldId: Id, sceneId: Id)
    requires Versions(Matches, s, t)
    ensures SceneView(s, policy, subject, worldId, sceneId).Ok? == SceneView(t, policy, subject, worldId, sceneId).Ok?
    ensures SceneView(s, policy, subject, worldId, sceneId).Ok? ==>
              Ids(SceneView(s, policy, subject, worldId, sceneId).value) == Ids(SceneView(t, policy, subject, worldId, sceneId).value)
  {
    ListVersions(Matches, s, t, worldId, "wall", sceneId);
    ListVersions(Matches, s, t, worldId, "token", sceneId);
    var ds, es := ListDocuments(s, worldId, "token", sceneId), ListDocuments(t, worldId, "token", sceneId);
    SameBlockers(ListDocuments(s, worldId, "wall", sceneId), ListDocuments(t, worldId, "wall", sceneId));
    ViewpointsVersions(Matches, s, t, subject, ds, es);
    var points := SceneViewpoints(s, subject, worldId, sceneId);
    if points.Ok? {
      SameSeen(ds, es, points.value, SceneBlockers(s, worldId, sceneId));
    }
    var before, after := VisibleAmong(s, subject, worldId, sceneId, ds), VisibleAmong(t, subject, worldId, sceneId, es);
    if before.Ok? {
      SameShown(s, t, policy, subject, before.value, after.value);
    }
  }

  lemma {:induction false} ReplaceTwice(documents: seq<Document>, first: Document, second: Document)
    requires first.id == second.id
    ensures Replace(Replace(documents, first), second) == Replace(documents, second)
  {
    if documents != [] && documents[0].id != first.id {
      ReplaceTwice(documents[1..], first, second);
    }
  }

  // ----- The view as a whole -----

  // Nothing but the data of documents that are not tokens differs.
  predicate KeepsTokens(d: Document, e: Document) {
    Matches(d, e) && (d.kind == "token" ==> e == d)
  }

  lemma PairwiseMatches(ds: seq<Document>, es: seq<Document>)
    requires Pairwise(KeepsTokens, ds, es)
    ensures Pairwise(Matches, ds, es)
  {
    forall i | 0 <= i < |ds| ensures Matches(ds[i], es[i]) {
      assert KeepsTokens(ds[i], es[i]);
    }
  }

  lemma SameTokens(s: Store, t: Store, worldId: Id, sceneId: Id)
    requires Versions(KeepsTokens, s, t)
    ensures ListDocuments(s, worldId, "token", sceneId) == ListDocuments(t, worldId, "token", sceneId)
  {
    ListVersions(KeepsTokens, s, t, worldId, "token", sceneId);
    var ds, es := ListDocuments(s, worldId, "token", sceneId), ListDocuments(t, worldId, "token", sceneId);
    forall i | 0 <= i < |ds| ensures ds[i] == es[i] {
      assert KeepsTokens(ds[i], es[i]) && Listed(ds[i], "token", sceneId);
    }
  }

  lemma {:induction false} ShownSame(s: Store, t: Store, policy: Policy, subject: Subject, ds: seq<Document>)
    requires Versions(KeepsTokens, s, t)
    ensures Shown(s, policy, subject, ds) == Shown(t, policy, subject, ds)
  {
    if ds != [] {
      GrantVersions(KeepsTokens, s, t, subject, ds[0], ds[0]);
      ShownSame(s, t, policy, subject, ds[1..]);
    }
  }

  lemma SameWholeView(s: Store, t: Store, policy: Policy, subject: Subject, worldId: Id, sceneId: Id)
    requires Versions(KeepsTokens, s, t)
    ensures SceneView(s, policy, subject, worldId, sceneId) == SceneView(t, policy, subject, worldId, sceneId)
  {
    var tokens := ListDocuments(s, worldId, "token", sceneId);
    SameTokens(s, t, worldId, sceneId);
    ListVersions(KeepsTokens, s, t, worldId, "wall", sceneId);
    ListVersions(KeepsTokens, s, t, worldId, "token", sceneId);
    PairwiseMatches(ListDocuments(s, worldId, "wall", sceneId), ListDocuments(t, worldId, "wall", sceneId));
    SameBlockers(ListDocuments(s, worldId, "wall", sceneId), ListDocuments(t, worldId, "wall", sceneId));
    ViewpointsVersions(KeepsTokens, s, t, subject, tokens, tokens);
    var visible := VisibleAmong(s, subject, worldId, sceneId, tokens);
    assert VisibleAmong(t, subject, worldId, sceneId, tokens) == visible;
    if visible.Ok? {
      ShownSame(s, t, policy, subject, visible.value);
    }
  }

  // The open flag decodes, or the wall would not stop sight anyway.
  predicate Restorable(wall: Document) {
    DecodeFields(wall.data).Ok? &&
    (BoolField(DecodeFields(wall.data).value, "doorOpen").Ok? || !Solid(DecodeFields(wall.data).value))
  }

  // Two toggles are one write of a wall that blocks what it did.
  lemma TwiceIsOneWrite(store: Store, worldId: Id, wallId: Id, seqs: (nat, nat), times: (int, int)) returns (second: Document)
    requires ToggleDoor(store, worldId, wallId, seqs.0, times.0).Ok?
    requires Restorable(GetDocument(store, worldId, wallId).value)
    ensures worldId in store.worlds && second.id == wallId && Matches(GetDocument(store, worldId, wallId).value, second)
    ensures ToggleDoor(ToggleDoor(store, worldId, wallId, seqs.0, times.0).value, worldId, wallId, seqs.1, times.1)
         == Ok(PutDocument(store, worldId, second))
  {
    var documents := DocumentsOf(store, worldId);
    FoundById(documents, wallId);
    var wall := GetDocument(store, worldId, wallId).value;
    TwiceRestoresExactly(wall.data);
    var first := wall.(data := ToggleData(wall.data).value, updatedSeq := seqs.0, updatedAt := times.0);
    second := first.(data := ToggleData(first.data).value, updatedSeq := seqs.1, updatedAt := times.1);
    FindAfterReplace(documents, first);
    ReplaceTwice(documents, first, second);
    ToggledIsAlike(wall, first.data, seqs.0, times.0);
    ToggledIsAlike(first, second.data, seqs.1, times.1);
    var once := ToggleDoor(store, worldId, wallId, seqs.0, times.0).value;
    assert PutDocument(once, worldId, second) == PutDocument(store, worldId, second);
  }

  /** Toggling a door twice restores every member's view of every scene: the whole view, names,
      images and data of every token included, when the door is not itself a token; token for
      token and in order in any case. */
  lemma TogglingTwiceRestores(store: Store, worldId: Id, wallId: Id, seqs: (nat, nat), times: (int, int),
                              policy: Policy, subject: Subject, sceneId: Id)
    requires ToggleDoor(store, worldId, wallId, seqs.0, times.0).Ok?
    requires Restorable(GetDocument(store, worldId, wallId).value)
    ensures var once := ToggleDoor(store, worldId, wallId, seqs.0, times.0).value;
            var twice := ToggleDoor(once, worldId, wallId, seqs.1, times.1);
            && twice.Ok?
            && var before := SceneView(store, policy, subject, worldId, sceneId);
               var after := SceneView(twice.value, policy, subject, worldId, sceneId);
               && (GetDocument(store, worldId, wallId).value.kind != "token" ==> after == before)
               && before.Ok? == after.Ok? && (before.Ok? ==> Ids(before.value) == Ids(after.value))
  {
    var second := TwiceIsOneWrite(store, worldId, wallId, seqs, times);
    WrittenBack(Matches, store, worldId, second);
    SameView(store, PutDocument(store, worldId, second), policy, subject, worldId, sceneId);
    if GetDocument(store, worldId, wallId).value.kind != "token" {
      WrittenBack(KeepsTokens, store, worldId, second);
      SameWholeView(store, PutDocument(store, worldId, second), policy, subject, worldId, sceneId);
    }
  }

  /** The failing side: a sight-blocking door whose open flag is a text stops nothing, and stops
      sight after two toggles. */
  lemma TextFlagIsNotRestored(data: Raw)
    requires data == Parsed(Object(map["blocksSight" := Bool(true), "door" := Bool(true), "doorOpen" := Text("no")]))
    ensures BlockerOf(data) == None && ToggleData(data).Ok?
    ensures ToggleData(ToggleData(data).value).Ok? && BlockerOf(ToggleData(ToggleData(data).value).value).Some?
  {
  }
}
