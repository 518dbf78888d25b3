/** Ownership levels, field visibilities and the resolution of what one subject is granted. */
module Permission {
  import opened Wrappers
  import opened Documents

  type Level = level: nat | level <= 3

  const LEVEL_NONE: Level := 0
  const LEVEL_LIMITED: Level := 1
  const LEVEL_OBSERVER: Level := 2
  const LEVEL_OWNER: Level := 3

  function ParseLevel(raw: string): Outcome<Level> {
    if raw == "none" || raw == "" then Ok(LEVEL_NONE)
    else if raw == "limited" then Ok(LEVEL_LIMITED)
    else if raw == "observer" then Ok(LEVEL_OBSERVER)
    else if raw == "owner" then Ok(LEVEL_OWNER)
    else Fail
  }

  function LevelName(level: Level): string {
    if level == LEVEL_LIMITED then "limited"
    else if level == LEVEL_OBSERVER then "observer"
    else if level == LEVEL_OWNER then "owner"
    else "none"
  }

  datatype Visibility = Public | ObserverOnly | OwnerOnly | GameMasterOnly

  function Required(visibility: Visibility): Level {
    match visibility
    case ObserverOnly => LEVEL_OBSERVER
    case OwnerOnly => LEVEL_OWNER
    case GameMasterOnly => LEVEL_OWNER
    case Public => LEVEL_LIMITED
  }

  // Which visibility a dotted path has, for a kind and subtype.
  type Policy = (string, string, string) -> Visibility

  datatype Origin = FromRole | Explicit | FromDocument | FromFolder | FromWorld | Nowhere

  datatype Grant = Grant(role: Role, level: Level, origin: Origin)
  {
    predicate CanRead() {
      level > LEVEL_NONE
    }

    predicate CanEdit() {
      role != Observer && level >= LEVEL_OWNER
    }

    predicate Allows(visibility: Visibility) {
      if visibility.GameMasterOnly? then role.IsStaff()
      else role.IsStaff() || level >= Required(visibility)
    }
  }

  type Acl = map<string, Level>

  const DEFAULT_KEY := "default"

  function ParseAcl(raw: Raw): Outcome<Acl> {
    if raw.Empty? then Ok(map[])
    else match DecodeTexts(raw)
      case Fail => Fail
      case Ok(entries) =>
        if forall key | key in entries :: ParseLevel(entries[key]).Ok? then
          Ok(map key | key in entries :: ParseLevel(entries[key]).value)
        else Fail
  }

  /** The four levels by their names, and no other text but the empty one; a name reads back. */
  lemma LevelsByName(raw: string, level: Level)
    ensures ParseLevel(LevelName(level)) == Ok(level)
    ensures ParseLevel("none") == Ok(0) && ParseLevel("limited") == Ok(1) && ParseLevel("observer") == Ok(2)
            && ParseLevel("owner") == Ok(3) && ParseLevel("") == Ok(0)
    ensures ParseLevel(raw).Ok? <==> raw in {"", "none", "limited", "observer", "owner"}
  {
  }

  // An ownership column, written out.
  function AclData(acl: Acl): Raw {
    Parsed(Object(map key | key in acl :: Text(LevelName(acl[key]))))
  }

  /** Every table of levels can be stored and read back. */
  lemma AclReadsBack(acl: Acl)
    ensures ParseAcl(AclData(acl)) == Ok(acl)
  {
    var fields := map key | key in acl :: Text(LevelName(acl[key]));
    assert forall key | key in fields :: IsTextOrNull(fields[key]);
    var texts := map key | key in fields :: TextOf(fields[key]);
    assert DecodeTexts(AclData(acl)) == Ok(texts);
    forall key | key in texts ensures ParseLevel(texts[key]) == Ok(acl[key]) {
      LevelsByName("", acl[key]);
    }
    assert (map key | key in texts :: ParseLevel(texts[key]).value) == acl;
  }

  /** The loop that fills the table; one unknown level fails it. */
  method ReadAcl(raw: Raw) returns (r: Outcome<Acl>)
    ensures r == ParseAcl(raw)
  {
    if raw.Empty? {
      return Ok(map[]);
    }
    var decoded := DecodeTexts(raw);
    if decoded.Fail? {
      return Fail;
    }
    var entries, acl: Acl := decoded.value, map[];
    var pending := entries.Keys;
    while pending != {}
      invariant pending <= entries.Keys && acl.Keys == entries.Keys - pending
      invariant forall key :: key in acl ==> ParseLevel(entries[key]) == Ok(acl[key])
      decreases |pending|
    {
      var key :| key in pending;
      pending := pending - {key};
      var level := ParseLevel(entries[key]);
      if level.Fail? {
        return Fail;
      }
      acl := acl[key := level.value];
    }
    assert forall key | key in entries :: key in acl && ParseLevel(entries[key]).Ok?;
    assert acl == map key | key in entries :: ParseLevel(entries[key]).value;
    r := Ok(acl);
  }

  datatype Subject = Subject(userId: Id, role: Role)

  datatype Inputs = Inputs(document: Acl, folder: Acl, world: Level)

  // The entry that speaks for the subject, before the role has its say.
  function Resolved(userId: Id, inputs: Inputs): (Level, Origin) {
    if userId in inputs.document then (inputs.document[userId], Explicit)
    else if DEFAULT_KEY in inputs.document then (inputs.document[DEFAULT_KEY], FromDocument)
    else if userId in inputs.folder then (inputs.folder[userId], FromFolder)
    else if DEFAULT_KEY in inputs.folder then (inputs.folder[DEFAULT_KEY], FromFolder)
    else if inputs.world > LEVEL_NONE then (inputs.world, FromWorld)
    else (LEVEL_NONE, Nowhere)
  }

  function Effective(subject: Subject, inputs: Inputs): Grant {
    if subject.role.IsStaff() then Grant(subject.role, LEVEL_OWNER, FromRole)
    else
      var (level, origin) := Resolved(subject.userId, inputs);
      var capped: Level := if subject.role == Observer && level > LEVEL_OBSERVER then LEVEL_OBSERVER else level;
      Grant(subject.role, capped, if capped == LEVEL_NONE then Nowhere else origin)
  }

  // Everything that may speak for a subject, the most specific first.
  function Entries(userId: Id, inputs: Inputs): (r: seq<Option<Level>>)
    ensures |r| == 5
  {
    [Entry(inputs.document, userId), Entry(inputs.document, DEFAULT_KEY),
     Entry(inputs.folder, userId), Entry(inputs.folder, DEFAULT_KEY), Some(inputs.world)]
  }

  function Entry(acl: Acl, key: string): Option<Level> {
    if key in acl then Some(acl[key]) else None
  }

  /** Outside the staff the most specific entry decides, whatever the others say, except that an
      observer never gets beyond observing; staff own everything. */
  lemma MostSpecificDecides(subject: Subject, inputs: Inputs, i: nat)
    requires i < 5 && Entries(subject.userId, inputs)[i].Some?
    requires forall j :: 0 <= j < i ==> Entries(subject.userId, inputs)[j].None?
    ensures var grant, entry := Effective(subject, inputs), Entries(subject.userId, inputs)[i].value;
            && (subject.role.IsStaff() ==> grant.level == LEVEL_OWNER)
            && (!subject.role.IsStaff() && subject.role != Observer ==> grant.level == entry)
            && (subject.role == Observer ==>
                  grant.level == (if entry > LEVEL_OBSERVER then LEVEL_OBSERVER else entry) && !grant.CanEdit())
            && (grant.CanRead() <==> subject.role.IsStaff() || entry > LEVEL_NONE)
            && grant.origin == (if subject.role.IsStaff() then FromRole
                                else if entry == LEVEL_NONE then Nowhere
                                else [Explicit, FromDocument, FromFolder, FromFolder, FromWorld][i])
  {
    var entries := Entries(subject.userId, inputs);
    assert i > 0 ==> entries[0].None?;
    assert i > 1 ==> entries[1].None?;
    assert i > 2 ==> entries[2].None?;
    assert i > 3 ==> entries[3].None?;
  }

  // The same entries, none of them lower.
  predicate AclRaised(before: Acl, after: Acl) {
    before.Keys == after.Keys && forall key | key in before :: before[key] <= after[key]
  }

  predicate Raised(before: Inputs, after: Inputs) {
    && AclRaised(before.document, after.document)
    && AclRaised(before.folder, after.folder)
    && before.world <= after.world
  }

  /** Raising existing entries or the world default never lowers anyone's level. */
  lemma EffectiveIsMonotone(subject: Subject, before: Inputs, after: Inputs)
    requires Raised(before, after)
    ensures Effective(subject, before).level <= Effective(subject, after).level
    ensures Effective(subject, before).role == Effective(subject, after).role
  {
    assert subject.userId in before.document <==> subject.userId in after.document;
    assert DEFAULT_KEY in before.document <==> DEFAULT_KEY in after.document;
    assert subject.userId in before.folder <==> subject.userId in after.folder;
    assert DEFAULT_KEY in before.folder <==> DEFAULT_KEY in after.folder;
  }
}
