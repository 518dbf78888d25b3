/** What the sight questions mean: how walls and tokens are read, whose eyes count, and when a
    token is seen, in terms of points and segments. */
module SightTheory {
  import opened Wrappers
  import opened Documents
  import opened Permission
  import opened Access
  import opened Vision
  import opened Sight

  // ----- Reading walls and tokens -----

  // What a column says under a key: nothing when it is absent or null.
  function FieldOf(data: Raw, key: string): Json {
    if data.Parsed? && data.json.Object? && key in data.json.fields then data.json.fields[key] else Null
  }

  predicate ReadsAsObject(data: Raw) {
    data.Parsed? && (data.json.Object? || data.json.Null?)
  }

  /** A token can be placed exactly when its data is an object or null whose x and y are numbers
      or missing, and a missing coordinate is zero. */
  lemma PlacedExactly(token: Document)
    ensures var x, y := FieldOf(token.data, "x"), FieldOf(token.data, "y");
            && (PointOf(token).Ok? <==> ReadsAsObject(token.data) && NumberOrMissing(x) && NumberOrMissing(y))
            && (PointOf(token).Ok? ==> PointOf(token).value == Point(AmountOf(x), AmountOf(y)))
  {
  }

  predicate NumberOrMissing(value: Json) {
    value.Number? || value.Null?
  }

  predicate FlagOrMissing(value: Json) {
    value.Bool? || value.Null?
  }

  function AmountOf(value: Json): real {
    if value.Number? then value.amount else 0.0
  }

  // Every field of a wall is of its kind, or missing.
  predicate ReadsAsWall(data: Raw) {
    && ReadsAsObject(data)
    && NumberOrMissing(FieldOf(data, "x1")) && NumberOrMissing(FieldOf(data, "y1"))
    && NumberOrMissing(FieldOf(data, "x2")) && NumberOrMissing(FieldOf(data, "y2"))
    && FlagOrMissing(FieldOf(data, "blocksSight")) && FlagOrMissing(FieldOf(data, "door"))
    && FlagOrMissing(FieldOf(data, "doorOpen"))
  }

  /** A wall stands in the way, from its first point to its second, exactly when it can be read,
      says that it blocks sight, and is not a door that is open; what is missing is zero or false. */
  lemma WallExactly(data: Raw)
    ensures BlockerOf(data)
         == if ReadsAsWall(data) && FieldOf(data, "blocksSight") == Bool(true)
               && !(FieldOf(data, "door") == Bool(true) && FieldOf(data, "doorOpen") == Bool(true))
            then Some(Segment(Point(AmountOf(FieldOf(data, "x1")), AmountOf(FieldOf(data, "y1"))),
                              Point(AmountOf(FieldOf(data, "x2")), AmountOf(FieldOf(data, "y2")))))
            else None
  {
  }

  // ----- Whose eyes count -----

  // A listed token the subject owns, which can be placed at the point.
  predicate LooksFrom(store: Store, subject: Subject, token: Document, point: Point) {
    GrantFor(store, subject, token).Ok? && GrantFor(store, subject, token).value.level == 3 && PointOf(token) == Ok(point)
  }

  /** The viewpoints are the points of the tokens owned, and of no others. */
  lemma {:induction false} ViewpointsAreOwned(store: Store, subject: Subject, tokens: seq<Document>, point: Point)
    requires Viewpoints(store, subject, tokens).Ok?
    ensures point in Viewpoints(store, subject, tokens).value <==>
            exists i :: 0 <= i < |tokens| && LooksFrom(store, subject, tokens[i], point)
  {
    if tokens != [] {
      ViewpointsAreOwned(store, subject, tokens[1..], point);
      var rest := Viewpoints(store, subject, tokens[1..]).value;
      assert forall i :: 0 <= i < |tokens[1..]| ==> tokens[1..][i] == tokens[i + 1];
      if point in rest {
        var i :| 0 <= i < |tokens[1..]| && LooksFrom(store, subject, tokens[1..][i], point);
        assert LooksFrom(store, subject, tokens[i + 1], point);
      }
      if exists i :: 0 <= i < |tokens| && LooksFrom(store, subject, tokens[i], point) {
        var i :| 0 <= i < |tokens| && LooksFrom(store, subject, tokens[i], point);
        assert i > 0 ==> LooksFrom(store, subject, tokens[1..][i - 1], point);
      }
    }
  }

  // ----- When a token is seen -----

  // Walls, viewpoints and the token stand on integer coordinates.
  predicate OnTheGrid(points: seq<Point>, target: Point, blockers: seq<Segment>) {
    && IntegerPoint(target)
    && (forall i :: 0 <= i < |points| ==> IntegerPoint(points[i]))
    && (forall i :: 0 <= i < |blockers| ==> IntegerSegment(blockers[i]))
  }

  // No eyes of one's own, or some of them with a free line of sight.
  ghost predicate InSight(points: seq<Point>, target: Point, blockers: seq<Segment>) {
    points == [] || exists i :: 0 <= i < |points| && Open(points[i], target, blockers)
  }

  /** Staff see every token, and everyone sees what is not a token on a scene or cannot be placed.
      On a grid any other token is seen exactly when the subject owns no placed token there, or
      one of those has a closed line of sight to it that meets no wall that stops sight. */
  lemma CanSeeOnTheGrid(store: Store, subject: Subject, worldId: Id, token: Document)
    ensures token.kind != "token" || token.parentId == "" || subject.role.IsStaff() || PointOf(token).Fail? ==>
              CanSee(store, subject, worldId, token) == Ok(true)
    ensures token.kind == "token" && token.parentId != "" && !subject.role.IsStaff() && PointOf(token).Ok?
            && SceneViewpoints(store, subject, worldId, token.parentId).Ok? ==>
              var points := SceneViewpoints(store, subject, worldId, token.parentId).value;
              var blockers := SceneBlockers(store, worldId, token.parentId);
              OnTheGrid(points, PointOf(token).value, blockers) ==>
                (CanSee(store, subject, worldId, token) == Ok(true) <==> InSight(points, PointOf(token).value, blockers))
  {
    var viewpoints, blockers := SceneViewpoints(store, subject, worldId, token.parentId), SceneBlockers(store, worldId, token.parentId);
    if PointOf(token).Ok? && viewpoints.Ok? && OnTheGrid(viewpoints.value, PointOf(token).value, blockers) {
      VisibleFromAnyOnTheGrid(viewpoints.value, PointOf(token).value, blockers);
      if blockers == [] && viewpoints.value != [] {
        assert Open(viewpoints.value[0], PointOf(token).value, blockers);
      }
    }
  }

  lemma {:induction false} SeenOneByOneMembers(store: Store, subject: Subject, worldId: Id, tokens: seq<Document>, token: Document)
    ensures token in SeenOneByOne(store, subject, worldId, tokens) <==>
            token in tokens && CanSee(store, subject, worldId, token) == Ok(true)
  {
    if tokens != [] {
      SeenOneByOneMembers(store, subject, worldId, tokens[1..], token);
      assert tokens == [tokens[0]] + tokens[1..];
    }
  }

  /** On a grid a restricted listing holds exactly the tokens in sight. */
  lemma ListingOnTheGrid(store: Store, subject: Subject, worldId: Id, sceneId: Id, tokens: seq<Document>, token: Document)
    requires TokensOf(tokens, sceneId) && sceneId != "" && Readable(tokens) && token in tokens && !subject.role.IsStaff()
    requires SceneViewpoints(store, subject, worldId, sceneId).Ok?
    requires OnTheGrid(SceneViewpoints(store, subject, worldId, sceneId).value, PointOf(token).value,
                       SceneBlockers(store, worldId, sceneId))
    ensures VisibleAmong(store, subject, worldId, sceneId, tokens).Ok?
    ensures token in VisibleAmong(store, subject, worldId, sceneId, tokens).value <==>
            InSight(SceneViewpoints(store, subject, worldId, sceneId).value, PointOf(token).value,
                    SceneBlockers(store, worldId, sceneId))
  {
    ListingIsCanSee(store, subject, worldId, sceneId, tokens);
    SeenOneByOneMembers(store, subject, worldId, tokens, token);
    CanSeeOnTheGrid(store, subject, worldId, token);
  }
}
