/** Who can see which token: three questions over walls and viewpoints that should be one. */
module Sight {
  import opened Wrappers
  import opened Documents
  import opened Permission
  import opened Access
  import opened Vision

  function PointOf(token: Document): Outcome<Point> {
    match DecodeFields(token.data)
    case Fail => Fail
    case Ok(fields) =>
      var x, y := NumberField(fields, "x"), NumberField(fields, "y");
      if x.Fail? || y.Fail? then Fail else Ok(Point(x.value, y.value))
  }

  datatype Wall = Wall(span: Segment, blocksSight: bool, door: bool, doorOpen: bool)

  function WallOf(fields: map<string, Json>): Outcome<Wall> {
    var x1, y1 := NumberField(fields, "x1"), NumberField(fields, "y1");
    var x2, y2 := NumberField(fields, "x2"), NumberField(fields, "y2");
    var blocks, door, open := BoolField(fields, "blocksSight"), BoolField(fields, "door"), BoolField(fields, "doorOpen");
    if x1.Fail? || y1.Fail? || x2.Fail? || y2.Fail? || blocks.Fail? || door.Fail? || open.Fail? then Fail
    else Ok(Wall(Segment(Point(x1.value, y1.value), Point(x2.value, y2.value)), blocks.value, door.value, open.value))
  }

  predicate Stops(wall: Wall) {
    wall.blocksSight && !(wall.door && wall.doorOpen)
  }

  // The segment a wall document puts in the way; unreadable walls and open doors put none.
  function BlockerOf(data: Raw): Option<Segment> {
    match DecodeFields(data)
    case Fail => None
    case Ok(fields) =>
      var wall := WallOf(fields);
      if wall.Ok? && Stops(wall.value) then Some(wall.value.span) else None
  }

  function Blockers(walls: seq<Document>): seq<Segment> {
    if walls == [] then []
    else
      var rest := Blockers(walls[1..]);
      match BlockerOf(walls[0].data)
      case None => rest
      case Some(span) => [span] + rest
  }

  function SceneBlockers(store: Store, worldId: Id, sceneId: Id): seq<Segment> {
    Blockers(ListDocuments(store, worldId, "wall", sceneId))
  }

  method BlockersOf(store: Store, worldId: Id, sceneId: Id) returns (blockers: seq<Segment>)
    ensures blockers == SceneBlockers(store, worldId, sceneId)
  {
    var walls := ListDocuments(store, worldId, "wall", sceneId);
    blockers := [];
    for i := 0 to |walls|
      invariant blockers + Blockers(walls[i..]) == Blockers(walls)
    {
      assert walls[i..][0] == walls[i] && walls[i..][1..] == walls[i + 1..];
      match BlockerOf(walls[i].data)
      case None =>
      case Some(span) =>
        blockers := blockers + [span];
    }
    assert walls[|walls|..] == [];
  }

  // The points of the tokens a subject owns, in order; one unresolvable grant fails them all.
  function Viewpoints(store: Store, subject: Subject, tokens: seq<Document>): Outcome<seq<Point>> {
    if tokens == [] then Ok([])
    else
      var grant := GrantFor(store, subject, tokens[0]);
      var rest := Viewpoints(store, subject, tokens[1..]);
      if grant.Fail? || rest.Fail? then Fail
      else if grant.value.level >= LEVEL_OWNER && PointOf(tokens[0]).Ok? then Ok([PointOf(tokens[0]).value] + rest.value)
      else rest
  }

  function Before(points: seq<Point>, rest: Outcome<seq<Point>>): Outcome<seq<Point>> {
    if rest.Ok? then Ok(points + rest.value) else Fail
  }

  lemma BeforeLaws(points: seq<Point>, point: Point, rest: Outcome<seq<Point>>)
    ensures Before(points, Before([point], rest)) == Before(points + [point], rest)
    ensures Before([], rest) == rest
  {
    if rest.Ok? {
      assert [] + rest.value == rest.value;
      assert points + ([point] + rest.value) == points + [point] + rest.value;
    }
  }

  function SceneViewpoints(store: Store, subject: Subject, worldId: Id, sceneId: Id): Outcome<seq<Point>> {
    Viewpoints(store, subject, ListDocuments(store, worldId, "token", sceneId))
  }

  method ViewpointsOf(store: Store, subject: Subject, worldId: Id, sceneId: Id) returns (r: Outcome<seq<Point>>)
    ensures r == SceneViewpoints(store, subject, worldId, sceneId)
  {
    var tokens := ListDocuments(store, worldId, "token", sceneId);
    var points: seq<Point> := [];
    assert tokens[0..] == tokens;
    BeforeLaws([], Point(0.0, 0.0), Viewpoints(store, subject, tokens));
    for i := 0 to |tokens|
      invariant Viewpoints(store, subject, tokens) == Before(points, Viewpoints(store, subject, tokens[i..]))
    {
      assert tokens[i..][0] == tokens[i] && tokens[i..][1..] == tokens[i + 1..];
      var grant := GrantFor(store, subject, tokens[i]);
      if grant.Fail? {
        return Fail;
      }
      if grant.value.level >= LEVEL_OWNER {
        var point := PointOf(tokens[i]);
        if point.Ok? {
          BeforeLaws(points, point.value, Viewpoints(store, subject, tokens[i + 1..]));
          points := points + [point.value];
        }
      }
    }
    assert tokens[|tokens|..] == [] && points + [] == points;
    r := Ok(points);
  }

  /** One token, one subject: the shape catch-up asks in. */
  function CanSee(store: Store, subject: Subject, worldId: Id, token: Document): Outcome<bool> {
    if token.kind != "token" || token.parentId == "" || subject.role.IsStaff() then Ok(true)
    else match PointOf(token)
      case Fail => Ok(true)
      case Ok(target) =>
        var blockers := SceneBlockers(store, worldId, token.parentId);
        if |blockers| == 0 then Ok(true)
        else match SceneViewpoints(store, subject, worldId, token.parentId)
          case Fail => Fail
          case Ok(points) => Ok(VisibleFromAny(points, target, blockers))
  }

  /** One token, many recipients: the shape live fan-out asks in. A recipient is kept exactly
      when CanSee holds of them, and the filter fails exactly when CanSee fails of one. */
  method Filter(store: Store, worldId: Id, token: Document, views: map<Id, View>) returns (r: Outcome<map<Id, View>>)
    ensures r.Ok? <==> forall userId | userId in views :: CanSee(store, views[userId].subject, worldId, token).Ok?
    ensures r.Ok? ==>
              r.value == map userId | userId in views && CanSee(store, views[userId].subject, worldId, token).value
                           :: views[userId]
  {
    if token.kind != "token" || token.parentId == "" {
      return Ok(views);
    }
    var target := PointOf(token);
    if target.Fail? {
      return Ok(views);
    }
    var blockers := BlockersOf(store, worldId, token.parentId);
    if |blockers| == 0 {
      return Ok(views);
    }
    var filtered: map<Id, View> := map[];
    var pending := views.Keys;
    while pending != {}
      invariant pending <= views.Keys
      invariant forall userId | userId in views && userId !in pending ::
                  CanSee(store, views[userId].subject, worldId, token).Ok?
      invariant filtered.Keys == set userId | userId in views && userId !in pending
                                              && CanSee(store, views[userId].subject, worldId, token).value
      invariant forall userId | userId in filtered :: filtered[userId] == views[userId]
      decreases pending
    {
      var userId :| userId in pending;
      pending := pending - {userId};
      var view := views[userId];
      if view.subject.role.IsStaff() {
        filtered := filtered[userId := view];
      } else {
        var points := ViewpointsOf(store, view.subject, worldId, token.parentId);
        if points.Fail? {
          return Fail;
        }
        if VisibleFromAny(points.value, target.value, blockers) {
          filtered := filtered[userId := view];
        }
      }
    }
    r := Ok(filtered);
  }

  // The tokens among those given that can be placed and are open to one of the viewpoints.
  function Seen(tokens: seq<Document>, points: seq<Point>, blockers: seq<Segment>): seq<Document> {
    if tokens == [] then []
    else
      var rest := Seen(tokens[1..], points, blockers);
      var target := PointOf(tokens[0]);
      if target.Ok? && VisibleFromAny(points, target.value, blockers) then [tokens[0]] + rest else rest
  }

  function VisibleAmong(store: Store, subject: Subject, worldId: Id, sceneId: Id, tokens: seq<Document>)
    : Outcome<seq<Document>>
  {
    var blockers := SceneBlockers(store, worldId, sceneId);
    if |blockers| == 0 || subject.role.IsStaff() then Ok(tokens)
    else match SceneViewpoints(store, subject, worldId, sceneId)
      case Fail => Fail
      case Ok(points) => if |points| == 0 then Ok(tokens) else Ok(Seen(tokens, points, blockers))
  }

  /** Many tokens, one subject: the shape listings and door updates ask in. */
  method VisibleTokens(store: Store, subject: Subject, worldId: Id, sceneId: Id, tokens: seq<Document>)
    returns (r: Outcome<seq<Document>>)
    ensures r == VisibleAmong(store, subject, worldId, sceneId, tokens)
  {
    var blockers := BlockersOf(store, worldId, sceneId);
    if |blockers| == 0 || subject.role.IsStaff() {
      return Ok(tokens);
    }
    var points := ViewpointsOf(store, subject, worldId, sceneId);
    if points.Fail? {
      return Fail;
    }
    if |points.value| == 0 {
      return Ok(tokens);
    }
    var visible := SelectSeen(tokens, points.value, blockers);
    r := Ok(visible);
  }

  method SelectSeen(tokens: seq<Document>, points: seq<Point>, blockers: seq<Segment>) returns (visible: seq<Document>)
    ensures visible == Seen(tokens, points, blockers)
  {
    visible := [];
    assert tokens[0..] == tokens;
    for i := 0 to |tokens|
      invariant visible + Seen(tokens[i..], points, blockers) == Seen(tokens, points, blockers)
    {
      assert tokens[i..][0] == tokens[i] && tokens[i..][1..] == tokens[i + 1..];
      var target := PointOf(tokens[i]);
      if target.Ok? && VisibleFromAny(points, target.value, blockers) {
        visible := visible + [tokens[i]];
      }
    }
    assert tokens[|tokens|..] == [];
  }

  // ----- One question -----

  predicate TokensOf(tokens: seq<Document>, sceneId: Id) {
    forall i :: 0 <= i < |tokens| ==> tokens[i].kind == "token" && tokens[i].parentId == sceneId
  }

  predicate Readable(tokens: seq<Document>) {
    forall i :: 0 <= i < |tokens| ==> PointOf(tokens[i]).Ok?
  }

  // The tokens of the list for which CanSee holds, in order.
  function SeenOneByOne(store: Store, subject: Subject, worldId: Id, tokens: seq<Document>): seq<Document> {
    if tokens == [] then []
    else
      var rest := SeenOneByOne(store, subject, worldId, tokens[1..]);
      if CanSee(store, subject, worldId, tokens[0]) == Ok(true) then [tokens[0]] + rest else rest
  }

  // The subject's sight of the scene is not restricted at all.
  predicate Unrestricted(store: Store, subject: Subject, worldId: Id, sceneId: Id) {
    || subject.role.IsStaff()
    || |SceneBlockers(store, worldId, sceneId)| == 0
    || SceneViewpoints(store, subject, worldId, sceneId) == Ok([])
  }

  lemma {:induction false} EveryoneSeenOneByOne(store: Store, subject: Subject, worldId: Id, sceneId: Id, tokens: seq<Document>)
    requires TokensOf(tokens, sceneId) && sceneId != "" && Unrestricted(store, subject, worldId, sceneId)
    ensures SeenOneByOne(store, subject, worldId, tokens) == tokens
  {
    if tokens != [] {
      EveryoneSeenOneByOne(store, subject, worldId, sceneId, tokens[1..]);
      assert CanSee(store, subject, worldId, tokens[0]) == Ok(true);
    }
  }

  lemma {:induction false} SeenAgrees(store: Store, subject: Subject, worldId: Id, sceneId: Id, tokens: seq<Document>,
                                      points: seq<Point>, blockers: seq<Segment>)
    requires TokensOf(tokens, sceneId) && sceneId != "" && !subject.role.IsStaff()
    requires blockers == SceneBlockers(store, worldId, sceneId) && |blockers| > 0
    requires SceneViewpoints(store, subject, worldId, sceneId) == Ok(points)
    ensures |Seen(tokens, points, blockers)| <= |SeenOneByOne(store, subject, worldId, tokens)|
    ensures Seen(tokens, points, blockers) == SeenOneByOne(store, subject, worldId, tokens) <==> Readable(tokens)
  {
    if tokens != [] {
      SeenAgrees(store, subject, worldId, sceneId, tokens[1..], points, blockers);
      var rest, restOne := Seen(tokens[1..], points, blockers), SeenOneByOne(store, subject, worldId, tokens[1..]);
      assert CanSee(store, subject, worldId, tokens[0]).Ok?;
      if PointOf(tokens[0]).Ok? {
        assert Readable(tokens) <==> Readable(tokens[1..]) by {
          assert forall i :: 1 <= i < |tokens| ==> tokens[i] == tokens[1..][i - 1];
        }
        if VisibleFromAny(points, PointOf(tokens[0]).value, blockers) {
          assert ([tokens[0]] + rest)[1..] == rest && ([tokens[0]] + restOne)[1..] == restOne;
        }
      }
    }
  }

  /** The listing agrees with CanSee token by token, in order, exactly when every token can be
      placed or the subject's sight is unrestricted: an unreadable token is shown one by one
      and left out of a restricted listing. */
  lemma ListingIsCanSee(store: Store, subject: Subject, worldId: Id, sceneId: Id, tokens: seq<Document>)
    requires TokensOf(tokens, sceneId) && sceneId != ""
    requires VisibleAmong(store, subject, worldId, sceneId, tokens).Ok?
    ensures VisibleAmong(store, subject, worldId, sceneId, tokens) == Ok(SeenOneByOne(store, subject, worldId, tokens))
            <==> Readable(tokens) || Unrestricted(store, subject, worldId, sceneId)
  {
    if Unrestricted(store, subject, worldId, sceneId) {
      EveryoneSeenOneByOne(store, subject, worldId, sceneId, tokens);
    } else {
      SeenAgrees(store, subject, worldId, sceneId, tokens, SceneViewpoints(store, subject, worldId, sceneId).value,
                 SceneBlockers(store, worldId, sceneId));
    }
  }

  /** The failing side: wherever a subject's sight is restricted, a token of the scene that cannot
      be placed is left out of the listing although CanSee shows it. */
  lemma UnplacedTokenIsUnlisted(store: Store, subject: Subject, worldId: Id, token: Document)
    requires token.kind == "token" && token.parentId != "" && PointOf(token).Fail?
    requires !Unrestricted(store, subject, worldId, token.parentId)
    requires SceneViewpoints(store, subject, worldId, token.parentId).Ok?
    ensures CanSee(store, subject, worldId, token) == Ok(true)
    ensures VisibleAmong(store, subject, worldId, token.parentId, [token]) == Ok([])
  {
    var points := SceneViewpoints(store, subject, worldId, token.parentId).value;
    var blockers := SceneBlockers(store, worldId, token.parentId);
    assert |points| > 0;
    assert [token][1..] == [];
    assert Seen([token], points, blockers) == Seen([], points, blockers) == [];
  }
}
