/** What pruning keeps and what it reports, path by path, and the algebra of pruning. */
module RedactionTheory {
  import opened Wrappers
  import opened Documents
  import opened Permission
  import opened Redaction

  predicate Reaches(value: Json, keys: Path)
    decreases |keys|
  {
    keys == [] || (value.Object? && keys[0] in value.fields && Reaches(value.fields[keys[0]], keys[1..]))
  }

  function At(value: Json, keys: Path): Json
    requires Reaches(value, keys)
    decreases |keys|
  {
    if keys == [] then value else At(value.fields[keys[0]], keys[1..])
  }

  // The policy allows the first i keys of the path, taken together.
  predicate AllowedAt(prefix: string, allowed: string -> bool, keys: Path, i: nat)
    requires i <= |keys|
  {
    allowed(Dotted(prefix, keys[..i]))
  }

  predicate AllowedThrough(prefix: string, allowed: string -> bool, keys: Path, n: nat)
    requires n <= |keys|
  {
    forall i :: 1 <= i <= n ==> AllowedAt(prefix, allowed, keys, i)
  }

  // Descending by the first key shifts every cut of the path by one.
  lemma CutShift(prefix: string, allowed: string -> bool, keys: Path)
    requires keys != []
    ensures AllowedAt(prefix, allowed, keys, 1) == allowed(Extend(prefix, keys[0]))
    ensures forall i :: 1 <= i <= |keys| ==>
              AllowedAt(prefix, allowed, keys, i) == AllowedAt(Extend(prefix, keys[0]), allowed, keys[1..], i - 1)
  {
    forall i | 1 <= i <= |keys|
      ensures AllowedAt(prefix, allowed, keys, i) == AllowedAt(Extend(prefix, keys[0]), allowed, keys[1..], i - 1)
    {
      assert keys[..i][0] == keys[0] && keys[..i][1..] == keys[1..][..i - 1];
    }
    assert keys[1..][..0] == [];
  }

  lemma AllowedShift(prefix: string, allowed: string -> bool, keys: Path, n: nat)
    requires 1 <= n <= |keys|
    ensures AllowedThrough(prefix, allowed, keys, n) <==>
            allowed(Extend(prefix, keys[0])) && AllowedThrough(Extend(prefix, keys[0]), allowed, keys[1..], n - 1)
  {
    CutShift(prefix, allowed, keys);
    var deeper := Extend(prefix, keys[0]);
    if AllowedThrough(prefix, allowed, keys, n) {
      assert AllowedAt(prefix, allowed, keys, 1);
      forall i | 1 <= i <= n - 1
        ensures AllowedAt(deeper, allowed, keys[1..], i)
      {
        assert AllowedAt(prefix, allowed, keys, i + 1);
      }
    }
  }

  /** A path survives pruning exactly when it exists and every key on the way to it is
      allowed; what it leads to is then pruned in turn, so a leaf is unchanged. */
  lemma {:induction false} SurvivesExactly(value: Json, prefix: string, allowed: string -> bool, keys: Path)
    ensures Reaches(PruneValue(value, prefix, allowed), keys) <==>
            Reaches(value, keys) && AllowedThrough(prefix, allowed, keys, |keys|)
    ensures Reaches(PruneValue(value, prefix, allowed), keys) ==>
              At(PruneValue(value, prefix, allowed), keys) == PruneValue(At(value, keys), Dotted(prefix, keys), allowed)
    decreases |keys|
  {
    if keys != [] {
      AllowedShift(prefix, allowed, keys, |keys|);
      if value.Object? && keys[0] in value.fields {
        SurvivesExactly(value.fields[keys[0]], Extend(prefix, keys[0]), allowed, keys[1..]);
      }
    }
  }

  // A cut of an existing path is reported exactly when it is the first one refused.
  lemma {:induction false} ReportedExactly(value: Json, prefix: string, allowed: string -> bool, keys: Path, i: nat)
    requires Reaches(value, keys) && 1 <= i <= |keys|
    ensures IsHidden(value, prefix, allowed, keys[..i]) <==>
            AllowedThrough(prefix, allowed, keys, i - 1) && !AllowedAt(prefix, allowed, keys, i)
    decreases |keys|
  {
    CutShift(prefix, allowed, keys);
    assert keys[..i][0] == keys[0] && keys[..i][1..] == keys[1..][..i - 1];
    if i > 1 {
      AllowedShift(prefix, allowed, keys, i - 1);
      ReportedExactly(value.fields[keys[0]], Extend(prefix, keys[0]), allowed, keys[1..], i - 1);
    }
  }

  // The path lies at or below a reported one, cut after i keys.
  predicate CoveredAt(value: Json, prefix: string, allowed: string -> bool, keys: Path, i: nat) {
    1 <= i <= |keys| && IsHidden(value, prefix, allowed, keys[..i])
  }

  /** Pruning and reporting split every path of an object: it survives, or it lies at or
      below a reported path, never both, and never below two of them. */
  lemma RedactionPartition(value: Json, prefix: string, allowed: string -> bool, keys: Path)
    requires Reaches(value, keys)
    ensures Reaches(PruneValue(value, prefix, allowed), keys) <==>
            !exists i :: CoveredAt(value, prefix, allowed, keys, i)
    ensures forall i, j :: CoveredAt(value, prefix, allowed, keys, i) && CoveredAt(value, prefix, allowed, keys, j)
                           ==> i == j
  {
    SurvivesExactly(value, prefix, allowed, keys);
    forall i | 1 <= i <= |keys|
      ensures CoveredAt(value, prefix, allowed, keys, i) <==>
              AllowedThrough(prefix, allowed, keys, i - 1) && !AllowedAt(prefix, allowed, keys, i)
    {
      ReportedExactly(value, prefix, allowed, keys, i);
    }
    if !AllowedThrough(prefix, allowed, keys, |keys|) {
      var i := FirstRefused(prefix, allowed, keys, |keys|);
      assert CoveredAt(value, prefix, allowed, keys, i);
    }
  }

  lemma {:induction false} FirstRefused(prefix: string, allowed: string -> bool, keys: Path, n: nat)
    returns (i: nat)
    requires n <= |keys| && !AllowedThrough(prefix, allowed, keys, n)
    ensures 1 <= i <= n && AllowedThrough(prefix, allowed, keys, i - 1) && !AllowedAt(prefix, allowed, keys, i)
    decreases n
  {
    if AllowedThrough(prefix, allowed, keys, n - 1) {
      i := n;
    } else {
      i := FirstRefused(prefix, allowed, keys, n - 1);
    }
  }

  // ----- Algebra -----

  function Both(first: string -> bool, second: string -> bool): string -> bool {
    path => first(path) && second(path)
  }

  /** Pruning twice keeps exactly what both allow. */
  lemma {:induction false} PruneCompose(value: Json, prefix: string, first: string -> bool, second: string -> bool)
    ensures PruneValue(PruneValue(value, prefix, first), prefix, second) == PruneValue(value, prefix, Both(first, second))
    decreases value
  {
    if value.Object? {
      forall key | key in value.fields
        ensures PruneValue(PruneValue(value.fields[key], Extend(prefix, key), first), Extend(prefix, key), second)
             == PruneValue(value.fields[key], Extend(prefix, key), Both(first, second))
      {
        PruneCompose(value.fields[key], Extend(prefix, key), first, second);
      }
    }
  }

  // Pruning depends only on which paths are allowed.
  lemma {:induction false} PruneAgree(value: Json, prefix: string, first: string -> bool, second: string -> bool)
    requires forall path :: first(path) == second(path)
    ensures PruneValue(value, prefix, first) == PruneValue(value, prefix, second)
    decreases value
  {
    if value.Object? {
      forall key | key in value.fields
        ensures PruneValue(value.fields[key], Extend(prefix, key), first)
             == PruneValue(value.fields[key], Extend(prefix, key), second)
      {
        PruneAgree(value.fields[key], Extend(prefix, key), first, second);
      }
    }
  }

  lemma PruneCommutes(value: Json, prefix: string, first: string -> bool, second: string -> bool)
    ensures PruneValue(PruneValue(value, prefix, first), prefix, second)
         == PruneValue(PruneValue(value, prefix, second), prefix, first)
  {
    PruneCompose(value, prefix, first, second);
    PruneCompose(value, prefix, second, first);
    PruneAgree(value, prefix, Both(first, second), Both(second, first));
  }

  lemma PruneIdempotent(value: Json, prefix: string, allowed: string -> bool)
    ensures PruneValue(PruneValue(value, prefix, allowed), prefix, allowed) == PruneValue(value, prefix, allowed)
  {
    PruneCompose(value, prefix, allowed, allowed);
    PruneAgree(value, prefix, Both(allowed, allowed), allowed);
  }

  lemma {:induction false} PruneEverythingAllowed(value: Json, prefix: string, allowed: string -> bool)
    requires forall path :: allowed(path)
    ensures PruneValue(value, prefix, allowed) == value
    decreases value
  {
    if value.Object? {
      forall key | key in value.fields
        ensures PruneValue(value.fields[key], Extend(prefix, key), allowed) == value.fields[key]
      {
        PruneEverythingAllowed(value.fields[key], Extend(prefix, key), allowed);
      }
      assert PruneFields(value, prefix, allowed) == value.fields;
    }
  }

  /** Staff see an object payload exactly as stored. */
  lemma StaffSeeEverything(fields: map<string, Json>, kind: string, subtype: string, prefix: string,
                           grant: Grant, policy: Policy)
    requires grant.role.IsStaff()
    ensures RedactPayload(Parsed(Object(fields)), kind, subtype, prefix, grant, policy) == Ok(Parsed(Object(fields)))
  {
    var allowed := AllowedBy(grant, policy, kind, subtype);
    forall path
      ensures allowed(path)
    {
      assert grant.Allows(policy(kind, subtype, path));
    }
    PruneEverythingAllowed(Object(fields), prefix, allowed);
  }

  // A path present in a JSON column.
  predicate Shows(raw: Raw, keys: Path) {
    raw.Parsed? && Reaches(raw.json, keys)
  }

  predicate Decodable(doc: Document) {
    (doc.data.Empty? || DecodeFields(doc.data).Ok?) && (doc.flags.Empty? || DecodeFields(doc.flags).Ok?)
  }

  predicate Sent(outcome: Outcome<Option<Document>>) {
    outcome.Ok? && outcome.value.Some?
  }

  lemma PayloadShowsExactly(raw: Raw, kind: string, subtype: string, prefix: string, grant: Grant, policy: Policy, keys: Path)
    requires keys != [] && RedactPayload(raw, kind, subtype, prefix, grant, policy).Ok?
    ensures Shows(RedactPayload(raw, kind, subtype, prefix, grant, policy).value, keys) <==>
            Shows(raw, keys) && AllowedThrough(prefix, AllowedBy(grant, policy, kind, subtype), keys, |keys|)
  {
    assert !Reaches(Object(map[]), keys);
    if !raw.Empty? {
      SurvivesExactly(Object(DecodeFields(raw).value), prefix, AllowedBy(grant, policy, kind, subtype), keys);
    }
  }

  /** What a sent document shows: below observer no data at all; from there on exactly the stored
      paths whose every key is allowed, flags under a prefix of their own; and to anyone outside
      the staff no ownership entry but their own. */
  lemma SentShowsExactly(doc: Document, subject: Subject, grant: Grant, policy: Policy, keys: Path)
    requires keys != [] && Sent(RedactDocument(doc, subject, grant, policy))
    ensures var sent := RedactDocument(doc, subject, grant, policy).value.value;
            var allowed := AllowedBy(grant, policy, doc.kind, doc.subtype);
            && (Shows(sent.data, keys) <==>
                  grant.level >= LEVEL_OBSERVER && Shows(doc.data, keys) && AllowedThrough("", allowed, keys, |keys|))
            && (Shows(sent.flags, keys) <==>
                  grant.level >= LEVEL_OBSERVER && Shows(doc.flags, keys) && AllowedThrough("flags", allowed, keys, |keys|))
            && (!grant.role.IsStaff() && Shows(sent.ownership, keys) ==> keys == [subject.userId])
  {
    assert !Reaches(Object(map[]), keys);
    if grant.level >= LEVEL_OBSERVER {
      PayloadShowsExactly(doc.data, doc.kind, doc.subtype, "", grant, policy, keys);
      PayloadShowsExactly(doc.flags, doc.kind, doc.subtype, "flags", grant, policy, keys);
    }
    if !grant.role.IsStaff() && Shows(OwnershipFor(subject, grant, doc.ownership), keys) {
      OwnEntryOnly(subject, grant, doc.ownership, keys);
    }
  }

  // ----- By role and level -----

  // Who a visibility is for, once a document is sent with its data.
  predicate Cleared(staff: bool, level: int, visibility: Visibility) {
    staff || match visibility
             case Public => level >= 2
             case ObserverOnly => level >= 2
             case OwnerOnly => level == 3
             case GameMasterOnly => false
  }

  /** A path of a sent document is shown exactly when it is stored, the subject is staff or at
      least an observer, and each key on the way is cleared by its own visibility. */
  lemma PathsShownByLevel(doc: Document, subject: Subject, inputs: Inputs, policy: Policy, keys: Path)
    requires keys != [] && Sent(RedactDocument(doc, subject, Effective(subject, inputs), policy))
    ensures var sent := RedactDocument(doc, subject, Effective(subject, inputs), policy).value.value;
            var staff, level := subject.role.IsStaff(), Effective(subject, inputs).level;
            && (Shows(sent.data, keys) <==>
                  Shows(doc.data, keys) && (staff || level >= 2) && forall i :: 1 <= i <= |keys| ==>
                    Cleared(staff, level, policy(doc.kind, doc.subtype, Dotted("", keys[..i]))))
            && (Shows(sent.flags, keys) <==>
                  Shows(doc.flags, keys) && (staff || level >= 2) && forall i :: 1 <= i <= |keys| ==>
                    Cleared(staff, level, policy(doc.kind, doc.subtype, Dotted("flags", keys[..i]))))
  {
    var grant := Effective(subject, inputs);
    var allowed := AllowedBy(grant, policy, doc.kind, doc.subtype);
    SentShowsExactly(doc, subject, grant, policy, keys);
    if grant.level >= 2 {
      ClearedIsAllowed(subject, inputs, doc, policy, "", keys);
      ClearedIsAllowed(subject, inputs, doc, policy, "flags", keys);
    }
  }

  lemma ClearedIsAllowed(subject: Subject, inputs: Inputs, doc: Document, policy: Policy, prefix: string, keys: Path)
    requires Effective(subject, inputs).level >= 2
    ensures AllowedThrough(prefix, AllowedBy(Effective(subject, inputs), policy, doc.kind, doc.subtype), keys, |keys|) <==>
            forall i :: 1 <= i <= |keys| ==>
              Cleared(subject.role.IsStaff(), Effective(subject, inputs).level,
                      policy(doc.kind, doc.subtype, Dotted(prefix, keys[..i])))
  {
    var grant := Effective(subject, inputs);
    var allowed := AllowedBy(grant, policy, doc.kind, doc.subtype);
    forall i | 1 <= i <= |keys|
      ensures AllowedAt(prefix, allowed, keys, i) <==>
              Cleared(subject.role.IsStaff(), grant.level, policy(doc.kind, doc.subtype, Dotted(prefix, keys[..i])))
    {
    }
  }

  /** A stored top-level field reaches a subject outside the staff from observer on when it is
      public or for observers, as owner only when it is for owners, and never when it is for game
      masters; staff are sent all of them. */
  lemma FieldsShownByLevel(doc: Document, subject: Subject, inputs: Inputs, policy: Policy, key: string)
    requires Sent(RedactDocument(doc, subject, Effective(subject, inputs), policy)) && Shows(doc.data, [key])
    ensures var shown := Shows(RedactDocument(doc, subject, Effective(subject, inputs), policy).value.value.data, [key]);
            var level, visibility := Effective(subject, inputs).level, policy(doc.kind, doc.subtype, key);
            if subject.role == GameMaster || subject.role == Assistant then shown
            else match visibility
                 case Public => shown <==> level >= 2
                 case ObserverOnly => shown <==> level >= 2
                 case OwnerOnly => shown <==> level == 3
                 case GameMasterOnly => !shown
  {
    PathsShownByLevel(doc, subject, inputs, policy, [key]);
    assert [key][..1] == [key] && [key][1..] == [];
    assert Dotted("", [key]) == key;
  }

  // ----- The text of a path -----

  // The keys with a dot between each two.
  function WithDots(keys: Path): string
    requires keys != []
  {
    if |keys| == 1 then keys[0] else keys[0] + "." + WithDots(keys[1..])
  }

  lemma {:induction false} DottedUnder(prefix: string, keys: Path)
    requires prefix != "" && keys != []
    ensures Dotted(prefix, keys) == prefix + "." + WithDots(keys)
    decreases |keys|
  {
    if |keys| > 1 {
      DottedUnder(Extend(prefix, keys[0]), keys[1..]);
      assert Extend(prefix, keys[0]) + "." + WithDots(keys[1..]) == prefix + "." + (keys[0] + "." + WithDots(keys[1..]));
    } else {
      assert keys[1..] == [];
    }
  }

  /** The policy is asked about the keys with dots between, flags under a prefix of their own. */
  lemma PathText(keys: Path)
    requires keys != [] && keys[0] != ""
    ensures Dotted("", keys) == WithDots(keys) && Dotted("flags", keys) == "flags." + WithDots(keys)
  {
    DottedUnder("flags", keys);
    if |keys| > 1 {
      DottedUnder(keys[0], keys[1..]);
    } else {
      assert keys[1..] == [];
    }
  }

  // ----- Ownership -----

  /** The ownership column sent reads back as the stored table for staff, and for anyone else as
      their own entry of it, if they have one. */
  lemma OwnershipSent(subject: Subject, grant: Grant, acl: Acl)
    ensures ParseAcl(OwnershipFor(subject, grant, AclData(acl)))
         == Ok(if grant.role.IsStaff() then acl else map key | key in acl && key == subject.userId :: acl[key])
  {
    AclReadsBack(acl);
    var own := map key | key in acl && key == subject.userId :: acl[key];
    if !grant.role.IsStaff() {
      AclReadsBack(own);
      if subject.userId in acl {
        assert (map key | key in own :: Text(LevelName(own[key])))
            == map[subject.userId := Text(LevelName(acl[subject.userId]))];
      } else {
        assert own == map[];
        assert (map key | key in own :: Text(LevelName(own[key]))) == map[];
      }
    }
  }

  lemma OwnEntryOnly(subject: Subject, grant: Grant, raw: Raw, keys: Path)
    requires keys != [] && !grant.role.IsStaff() && Shows(OwnershipFor(subject, grant, raw), keys)
    ensures keys == [subject.userId]
  {
    assert !Reaches(Object(map[]), keys);
    var entry := Text(LevelName(ParseAcl(raw).value[subject.userId]));
    assert Reaches(entry, keys[1..]);
    assert keys[1..] == [];
    assert keys == [keys[0]] + keys[1..];
  }

  // A path shown before is shown still, an object as an object and a leaf unchanged.
  predicate StillShows(before: Raw, after: Raw, keys: Path)
    requires Shows(before, keys)
  {
    && Shows(after, keys)
    && var was, now := At(before.json, keys), At(after.json, keys);
       was.Object? == now.Object? && (!was.Object? ==> was == now)
  }

  // A higher level of the same role keeps every path of a payload and the leaf it leads to.
  lemma PayloadIsMonotone(raw: Raw, kind: string, subtype: string, prefix: string,
                          low: Grant, high: Grant, policy: Policy, keys: Path)
    requires low.role == high.role && low.level <= high.level
    requires DecodeFields(raw).Ok?
    requires keys != [] && Shows(RedactPayload(raw, kind, subtype, prefix, low, policy).value, keys)
    ensures StillShows(RedactPayload(raw, kind, subtype, prefix, low, policy).value,
                       RedactPayload(raw, kind, subtype, prefix, high, policy).value, keys)
  {
    var value := Object(DecodeFields(raw).value);
    var narrow, wide := AllowedBy(low, policy, kind, subtype), AllowedBy(high, policy, kind, subtype);
    SurvivesExactly(value, prefix, narrow, keys);
    SurvivesExactly(value, prefix, wide, keys);
    forall i | 1 <= i <= |keys|
      ensures AllowedAt(prefix, wide, keys, i)
    {
      assert AllowedAt(prefix, narrow, keys, i);
      AllowsIsMonotone(low, high, policy(kind, subtype, Dotted(prefix, keys[..i])));
    }
  }

  lemma AllowsIsMonotone(low: Grant, high: Grant, visibility: Visibility)
    requires low.role == high.role && low.level <= high.level
    ensures low.Allows(visibility) ==> high.Allows(visibility)
  {
  }

  lemma NonEmptyShows(raw: Raw, kind: string, subtype: string, prefix: string, grant: Grant, policy: Policy, keys: Path)
    requires keys != [] && RedactPayload(raw, kind, subtype, prefix, grant, policy).Ok?
    requires Shows(RedactPayload(raw, kind, subtype, prefix, grant, policy).value, keys)
    ensures DecodeFields(raw).Ok?
  {
    assert !Reaches(Object(map[]), keys);
  }

  /** Raising existing entries or the world default never hides a path from the same subject nor
      changes the leaf it leads to, and a document sent before is still sent exactly when it decodes or stays limited. */
  lemma RaisingNeverHides(doc: Document, subject: Subject, before: Inputs, after: Inputs, policy: Policy)
    requires Raised(before, after)
    requires Sent(RedactDocument(doc, subject, Effective(subject, before), policy))
    ensures var was := RedactDocument(doc, subject, Effective(subject, before), policy);
            var now := RedactDocument(doc, subject, Effective(subject, after), policy);
            && (Sent(now) <==> Decodable(doc) || Effective(subject, after).level == LEVEL_LIMITED)
            && (Sent(now) ==> forall keys :: keys != [] ==>
                  && (Shows(was.value.value.data, keys) ==> StillShows(was.value.value.data, now.value.value.data, keys))
                  && (Shows(was.value.value.flags, keys) ==> StillShows(was.value.value.flags, now.value.value.flags, keys)))
  {
    EffectiveIsMonotone(subject, before, after);
    var low, high := Effective(subject, before), Effective(subject, after);
    var was, now := RedactDocument(doc, subject, low, policy), RedactDocument(doc, subject, high, policy);
    if Sent(now) && low.level > LEVEL_LIMITED {
      forall keys: Path | keys != []
        ensures Shows(was.value.value.data, keys) ==> StillShows(was.value.value.data, now.value.value.data, keys)
        ensures Shows(was.value.value.flags, keys) ==> StillShows(was.value.value.flags, now.value.value.flags, keys)
      {
        if Shows(was.value.value.data, keys) {
          NonEmptyShows(doc.data, doc.kind, doc.subtype, "", low, policy, keys);
          PayloadIsMonotone(doc.data, doc.kind, doc.subtype, "", low, high, policy, keys);
        }
        if Shows(was.value.value.flags, keys) {
          NonEmptyShows(doc.flags, doc.kind, doc.subtype, "flags", low, policy, keys);
          PayloadIsMonotone(doc.flags, doc.kind, doc.subtype, "flags", low, high, policy, keys);
        }
      }
    }
  }

  /** Only existing entries are safe to raise: a new explicit entry takes over from whatever
      decided before, so outside the staff the document can be read, and is not withheld, if and
      only if the entry is above none. */
  lemma NewEntryDecides(doc: Document, subject: Subject, inputs: Inputs, level: Level, policy: Policy)
    requires !subject.role.IsStaff() && subject.userId !in inputs.document
    ensures var added := inputs.(document := inputs.document[subject.userId := level]);
            && (Effective(subject, added).CanRead() <==> level > LEVEL_NONE)
            && (RedactDocument(doc, subject, Effective(subject, added), policy) == Ok(None) <==> level == LEVEL_NONE)
  {
    var added := inputs.(document := inputs.document[subject.userId := level]);
    MostSpecificDecides(subject, added, 0);
  }

  /** So it can hide what the world default was showing. */
  lemma NewEntryCanHide(doc: Document, policy: Policy)
    ensures var subject := Subject("u", Player);
            var open, shut := Inputs(map[], map[], LEVEL_OBSERVER), Inputs(map["u" := LEVEL_NONE], map[], LEVEL_OBSERVER);
            && Effective(subject, open).CanRead()
            && RedactDocument(doc, subject, Effective(subject, shut), policy) == Ok(None)
  {
    NewEntryDecides(doc, Subject("u", Player), Inputs(map[], map[], LEVEL_OBSERVER), LEVEL_NONE, policy);
  }
}
