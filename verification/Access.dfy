/** Resolving grants against the store, and projecting one document for every member. */
module Access {
  import opened Wrappers
  import opened Documents
  import opened Permission
  import opened Redaction

  // The per-kind defaults in the world settings; settings that do not decode give none.
  function DefaultOwnership(settings: Raw): map<string, string> {
    match DecodeFields(settings)
    case Fail => map[]
    case Ok(fields) =>
      if "defaultOwnership" !in fields then map[]
      else match DecodeTexts(Parsed(fields["defaultOwnership"]))
        case Fail => map[]
        case Ok(defaults) => defaults
  }

  function WorldDefault(store: Store, doc: Document): Outcome<Level> {
    if doc.worldId !in store.worlds then Fail
    else
      var defaults := DefaultOwnership(store.worlds[doc.worldId].settings);
      var precise := doc.kind + "/" + doc.subtype;
      if precise in defaults then ParseLevel(defaults[precise])
      else if doc.kind in defaults then ParseLevel(defaults[doc.kind])
      else Ok(LEVEL_NONE)
  }

  // A folder that is not there grants nothing; one that does not parse is an error.
  function FolderAcl(store: Store, doc: Document): Outcome<Acl> {
    if doc.folderId == "" then Ok(map[])
    else match GetDocument(store, doc.worldId, doc.folderId)
      case None => Ok(map[])
      case Some(folder) => ParseAcl(folder.ownership)
  }

  function GrantFor(store: Store, subject: Subject, doc: Document): Outcome<Grant> {
    var document := ParseAcl(doc.ownership);
    var folder := FolderAcl(store, doc);
    var world := WorldDefault(store, doc);
    if document.Fail? || folder.Fail? || world.Fail? then Fail
    else Ok(Effective(subject, Inputs(document.value, folder.value, world.value)))
  }

  datatype View = View(subject: Subject, grant: Grant, document: Document)

  // What one subject is shown of a document: nothing, or a view of the redacted copy.
  function Project(store: Store, policy: Policy, subject: Subject, doc: Document): Outcome<Option<View>> {
    match GrantFor(store, subject, doc)
    case Fail => Fail
    case Ok(grant) =>
      match RedactDocument(doc, subject, grant, policy)
      case Fail => Fail
      case Ok(None) => Ok(None)
      case Ok(Some(visible)) => Ok(Some(View(subject, grant, visible)))
  }

  function MembersOf(store: Store, worldId: Id): map<Id, Role> {
    if worldId in store.worlds then store.worlds[worldId].members else map[]
  }

  // The projection of one member; a member whose stored role is unknown gets nothing.
  function ProjectMember(store: Store, policy: Policy, doc: Document, members: map<Id, Role>, userId: Id)
    : Outcome<Option<View>>
    requires userId in members
  {
    if members[userId].Valid() then Project(store, policy, Subject(userId, members[userId]), doc) else Ok(None)
  }

  predicate Projectable(store: Store, policy: Policy, doc: Document, members: map<Id, Role>) {
    forall userId | userId in members :: ProjectMember(store, policy, doc, members, userId).Ok?
  }

  function Projections(store: Store, policy: Policy, doc: Document, members: map<Id, Role>): map<Id, View>
    requires Projectable(store, policy, doc, members)
  {
    map userId | userId in members && ProjectMember(store, policy, doc, members, userId).value.Some?
      :: ProjectMember(store, policy, doc, members, userId).value.value
  }

  /** One view per member who may read the document; one member who cannot be resolved fails
      the whole projection. */
  method ProjectForMembers(store: Store, policy: Policy, doc: Document) returns (r: Outcome<map<Id, View>>)
    ensures r.Ok? <==> Projectable(store, policy, doc, MembersOf(store, doc.worldId))
    ensures r.Ok? ==> r.value == Projections(store, policy, doc, MembersOf(store, doc.worldId))
  {
    var members := MembersOf(store, doc.worldId);
    var views: map<Id, View> := map[];
    var pending := members.Keys;
    while pending != {}
      invariant pending <= members.Keys
      invariant forall userId | userId in members && userId !in pending ::
                  ProjectMember(store, policy, doc, members, userId).Ok?
      invariant views.Keys == set userId | userId in members && userId !in pending
                                           && ProjectMember(store, policy, doc, members, userId).value.Some?
      invariant forall userId | userId in views ::
                  Ok(Some(views[userId])) == ProjectMember(store, policy, doc, members, userId)
      decreases pending
    {
      var userId :| userId in pending;
      pending := pending - {userId};
      if members[userId].Valid() {
        match Project(store, policy, Subject(userId, members[userId]), doc)
        case Fail =>
          return Fail;
        case Ok(None) =>
        case Ok(Some(view)) =>
          views := views[userId := view];
      }
    }
    r := Ok(views);
  }
}
