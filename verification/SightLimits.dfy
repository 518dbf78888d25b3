/** A scene on the failing side of the condition under which listing and asking agree. */
module SightLimits {
  import opened Wrappers
  import opened Documents
  import opened Permission
  import opened Access
  import opened Vision
  import opened Sight

  function Plain(id: Id, kind: string, ownership: Raw, data: Raw): Document {
    Document("w", id, kind, "", "scene", "", "", 0, "", data, Empty, ownership, "", "", 0, 0, 0, None)
  }

  const OWNERSHIP := map["u" := Text("owner")]

  // A wall, and two tokens of a player, one of which has no position.
  const WALL := Plain("wall", "wall", Empty, Parsed(Object(map["blocksSight" := Bool(true)])))
  const PLACED := Plain("placed", "token", Parsed(Object(OWNERSHIP)), EMPTY_OBJECT)
  const UNPLACED := Plain("unplaced", "token", Parsed(Object(OWNERSHIP)), Parsed(List([])))
  const SCENE := Store(map["w" := World(Empty, map["u" := Player], [WALL, PLACED, UNPLACED])])
  const PLAYER := Subject("u", Player)

  function OneOf(doc: Document, kind: string, parentId: Id): seq<Document> {
    if Listed(doc, kind, parentId) then [doc] else []
  }

  lemma MatchingStep(doc: Document, rest: seq<Document>, kind: string, parentId: Id)
    ensures Matching([doc] + rest, kind, parentId) == OneOf(doc, kind, parentId) + Matching(rest, kind, parentId)
  {
    assert ([doc] + rest)[1..] == rest;
  }

  lemma MatchingAll(kind: string, parentId: Id)
    ensures Matching(DocumentsOf(SCENE, "w"), kind, parentId)
         == OneOf(WALL, kind, parentId) + (OneOf(PLACED, kind, parentId) + (OneOf(UNPLACED, kind, parentId) + []))
  {
    assert DocumentsOf(SCENE, "w") == [WALL] + ([PLACED] + ([UNPLACED] + []));
    MatchingStep(UNPLACED, [], kind, parentId);
    MatchingStep(PLACED, [UNPLACED] + [], kind, parentId);
    MatchingStep(WALL, [PLACED] + ([UNPLACED] + []), kind, parentId);
  }

  lemma WallsListed()
    ensures ListDocuments(SCENE, "w", "wall", "scene") == [WALL]
  {
    MatchingAll("wall", "scene");
    assert !Listed(PLACED, "wall", "scene") && !Listed(UNPLACED, "wall", "scene");
  }

  lemma TokensListed()
    ensures ListDocuments(SCENE, "w", "token", "scene") == [PLACED, UNPLACED]
  {
    MatchingAll("token", "scene");
    assert !Listed(WALL, "token", "scene");
  }

  lemma OwnershipParses()
    ensures ParseAcl(Parsed(Object(OWNERSHIP))) == Ok(map["u" := LEVEL_OWNER])
  {
    var texts := map key | key in OWNERSHIP :: TextOf(OWNERSHIP[key]);
    assert texts == map["u" := "owner"];
    assert DecodeTexts(Parsed(Object(OWNERSHIP))) == Ok(texts);
    assert (map key | key in texts :: ParseLevel(texts[key]).value) == map["u" := LEVEL_OWNER];
  }

  lemma PlayerOwns(token: Document)
    requires token == PLACED || token == UNPLACED
    ensures GrantFor(SCENE, PLAYER, token).Ok? && GrantFor(SCENE, PLAYER, token).value.level == LEVEL_OWNER
  {
    OwnershipParses();
    assert WorldDefault(SCENE, token) == Ok(LEVEL_NONE);
  }

  lemma OneWall()
    ensures |SceneBlockers(SCENE, "w", "scene")| == 1
  {
    WallsListed();
    assert [WALL][1..] == [];
    assert BlockerOf(WALL.data).Some? && Blockers([]) == [];
    assert Blockers([WALL]) == [BlockerOf(WALL.data).value] + [];
  }

  lemma OneViewpoint()
    ensures SceneViewpoints(SCENE, PLAYER, "w", "scene") == Ok([Point(0.0, 0.0)])
  {
    TokensListed();
    PlayerOwns(PLACED);
    PlayerOwns(UNPLACED);
    assert [PLACED, UNPLACED][1..] == [UNPLACED] && [UNPLACED][1..] == [];
    assert PointOf(PLACED) == Ok(Point(0.0, 0.0)) && PointOf(UNPLACED).Fail?;
    assert Viewpoints(SCENE, PLAYER, []) == Ok([]) && Viewpoints(SCENE, PLAYER, [UNPLACED]) == Ok([]);
    var only := [Point(0.0, 0.0)];
    assert Viewpoints(SCENE, PLAYER, [PLACED, UNPLACED]) == Ok(only + []);
    assert only + [] == only;
  }

  /** A player who owns a token without a position is shown it when asking for it, and does not
      find it in the listing of the scene. */
  lemma ListingCanDisagree()
    ensures UNPLACED in ListDocuments(SCENE, "w", "token", "scene")
    ensures CanSee(SCENE, PLAYER, "w", UNPLACED) == Ok(true)
    ensures var listing := VisibleAmong(SCENE, PLAYER, "w", "scene", [UNPLACED]);
            listing == Ok([]) && SeenOneByOne(SCENE, PLAYER, "w", [UNPLACED]) == [UNPLACED]
  {
    TokensListed();
    OneWall();
    OneViewpoint();
    UnplacedTokenIsUnlisted(SCENE, PLAYER, "w", UNPLACED);
    assert [UNPLACED][1..] == [];
  }
}
