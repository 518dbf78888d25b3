/** Grants as they come out of the store: which stored entry decides, and who may edit or read. */
module AccessTheory {
  import opened Wrappers
  import opened Documents
  import opened Permission
  import opened Redaction
  import opened Access

  // World settings with default levels per kind, written out.
  function SettingsData(defaults: Acl): Raw {
    Parsed(Object(map["defaultOwnership" := AclData(defaults).json]))
  }

  lemma DefaultsReadBack(defaults: Acl, key: string)
    ensures var texts := DefaultOwnership(SettingsData(defaults));
            && (key in texts <==> key in defaults)
            && (key in defaults ==> ParseLevel(texts[key]) == Ok(defaults[key]))
  {
    var fields := map k | k in defaults :: Text(LevelName(defaults[k]));
    assert AclData(defaults) == Parsed(Object(fields));
    assert forall k | k in fields :: IsTextOrNull(fields[k]);
    assert DecodeTexts(Parsed(Object(fields))) == Ok(map k | k in fields :: TextOf(fields[k]));
    if key in defaults {
      LevelsByName("", defaults[key]);
    }
  }

  /** The default of a world for a document: that of its kind and subtype, else that of its kind,
      else none. */
  lemma WorldDefaultReads(store: Store, doc: Document, defaults: Acl)
    requires doc.worldId in store.worlds && store.worlds[doc.worldId].settings == SettingsData(defaults)
    ensures WorldDefault(store, doc)
         == Ok(First([Entry(defaults, doc.kind + "/" + doc.subtype), Entry(defaults, doc.kind)]))
  {
    DefaultsReadBack(defaults, doc.kind + "/" + doc.subtype);
    DefaultsReadBack(defaults, doc.kind);
    FirstOfTwo(Entry(defaults, doc.kind + "/" + doc.subtype), Entry(defaults, doc.kind));
  }

  // The first entry there is, or none.
  function First(entries: seq<Option<Level>>): Level {
    if entries == [] then LEVEL_NONE else if entries[0].Some? then entries[0].value else First(entries[1..])
  }

  // What a role makes of a level.
  function Standing(role: Role, level: Level): Level {
    if role == GameMaster || role == Assistant then 3
    else if role == Observer && level > 2 then 2
    else level
  }

  // The ownership of the folder a document is in; none if it is in no folder that is there.
  predicate FolderHas(store: Store, doc: Document, folder: Acl) {
    if doc.folderId == "" || GetDocument(store, doc.worldId, doc.folderId).None? then folder == map[]
    else GetDocument(store, doc.worldId, doc.folderId).value.ownership == AclData(folder)
  }

  /** A subject's level on a stored document: the first there is of the user's entry and the
      default on the document, the same on its folder, and the world's default for its kind and
      subtype or for its kind; staff own it whatever the entries say, observers only observe. */
  lemma StoredEntryDecides(store: Store, subject: Subject, doc: Document, document: Acl, folder: Acl, defaults: Acl)
    requires doc.ownership == AclData(document) && FolderHas(store, doc, folder)
    requires doc.worldId in store.worlds && store.worlds[doc.worldId].settings == SettingsData(defaults)
    ensures var user := subject.userId;
            var entries := [Entry(document, user), Entry(document, "default"), Entry(folder, user), Entry(folder, "default"),
                            Entry(defaults, doc.kind + "/" + doc.subtype), Entry(defaults, doc.kind)];
            && GrantFor(store, subject, doc).Ok? && GrantFor(store, subject, doc).value.role == subject.role
            && GrantFor(store, subject, doc).value.level == Standing(subject.role, First(entries))
  {
    AclReadsBack(document);
    AclReadsBack(folder);
    WorldDefaultReads(store, doc, defaults);
    var world := [Entry(defaults, doc.kind + "/" + doc.subtype), Entry(defaults, doc.kind)];
    FirstOfSix(Entry(document, subject.userId), Entry(document, "default"), Entry(folder, subject.userId),
               Entry(folder, "default"), world[0], world[1]);
    assert FolderAcl(store, doc) == Ok(folder);
    assert GrantFor(store, subject, doc) == Ok(Effective(subject, Inputs(document, folder, First(world))));
  }

  lemma FirstOfTwo(a: Option<Level>, b: Option<Level>)
    ensures First([a, b]) == if a.Some? then a.value else if b.Some? then b.value else LEVEL_NONE
  {
    assert [a, b][1..] == [b] && [b][1..] == [];
    assert First([b]) == if b.Some? then b.value else LEVEL_NONE;
  }

  lemma FirstOfSix(a: Option<Level>, b: Option<Level>, c: Option<Level>, d: Option<Level>, e: Option<Level>, f: Option<Level>)
    ensures First([a, b, c, d, e, f])
         == if a.Some? then a.value else if b.Some? then b.value else if c.Some? then c.value
            else if d.Some? then d.value else First([e, f])
  {
    assert [a, b, c, d, e, f][1..] == [b, c, d, e, f] && [b, c, d, e, f][1..] == [c, d, e, f];
    assert [c, d, e, f][1..] == [d, e, f] && [d, e, f][1..] == [e, f];
    assert First([c, d, e, f]) == if c.Some? then c.value else if d.Some? then d.value else First([e, f]);
  }

  /** A document is projected for a member exactly when their role is known and their level on it
      is above none, and what they get is the redaction for their own grant. */
  lemma ReadersGetViews(store: Store, policy: Policy, doc: Document, userId: Id)
    requires userId in MembersOf(store, doc.worldId) && Projectable(store, policy, doc, MembersOf(store, doc.worldId))
    ensures var members := MembersOf(store, doc.worldId);
            var views, subject := Projections(store, policy, doc, members), Subject(userId, members[userId]);
            && (userId in views <==>
                  !members[userId].Unknown? && GrantFor(store, subject, doc).Ok? && GrantFor(store, subject, doc).value.level >= 1)
            && (userId in views ==>
                  && views[userId].subject == subject
                  && RedactDocument(doc, subject, GrantFor(store, subject, doc).value, policy) == Ok(Some(views[userId].document)))
  {
    var members := MembersOf(store, doc.worldId);
    assert ProjectMember(store, policy, doc, members, userId).Ok?;
  }
}
