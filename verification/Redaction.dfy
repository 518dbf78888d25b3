/** Pruning a JSON object down to what one grant allows, and reporting what was pruned.
    A path is a list of keys; the policy sees its dotted text. */
module Redaction {
  import opened Wrappers
  import opened Documents
  import opened Permission

  type Path = seq<string>

  function Extend(prefix: string, key: string): string {
    if prefix != "" then prefix + "." + key else key
  }

  // The text the policy is asked about for the keys below prefix.
  function Dotted(prefix: string, keys: Path): string
    decreases |keys|
  {
    if keys == [] then prefix else Dotted(Extend(prefix, keys[0]), keys[1..])
  }

  // ----- The pruner and its specification -----

  function PruneFields(tree: Json, prefix: string, allowed: string -> bool): map<string, Json>
    requires tree.Object?
    decreases tree, 0
  {
    map key | key in tree.fields && allowed(Extend(prefix, key))
      :: PruneValue(tree.fields[key], Extend(prefix, key), allowed)
  }

  function PruneValue(value: Json, path: string, allowed: string -> bool): Json
    decreases value, 1
  {
    if value.Object? then Object(PruneFields(value, path, allowed)) else value
  }

  /** The loop fills its result key by key, in whatever order the map yields them. */
  method PruneObject(source: map<string, Json>, prefix: string, allowed: string -> bool)
    returns (result: map<string, Json>)
    ensures result == PruneFields(Object(source), prefix, allowed)
    decreases Object(source)
  {
    result := map[];
    var pending := source.Keys;
    while pending != {}
      invariant pending <= source.Keys
      invariant result.Keys == set key | key in source && key !in pending && allowed(Extend(prefix, key))
      invariant forall key | key in result :: result[key] == PruneValue(source[key], Extend(prefix, key), allowed)
      decreases pending
    {
      var key :| key in pending;
      pending := pending - {key};
      var path := Extend(prefix, key);
      if allowed(path) {
        var value := source[key];
        if value.Object? {
          assert value == Object(source).fields[key];
          var nested := PruneObject(value.fields, path, allowed);
          assert value == Object(value.fields);
          result := result[key := Object(nested)];
        } else {
          result := result[key := value];
        }
      }
    }
  }

  // ----- The collector and its specification -----

  // A path reported as hidden: every key above its last is allowed and leads to an object.
  predicate IsHidden(value: Json, prefix: string, allowed: string -> bool, keys: Path)
    decreases |keys|
  {
    && keys != [] && value.Object? && keys[0] in value.fields
    && if allowed(Extend(prefix, keys[0]))
       then IsHidden(value.fields[keys[0]], Extend(prefix, keys[0]), allowed, keys[1..])
       else |keys| == 1
  }

  ghost predicate Distinct(paths: seq<Path>) {
    forall i, j :: 0 <= i < j < |paths| ==> paths[i] != paths[j]
  }

  function Under(key: string, paths: seq<Path>): (r: seq<Path>)
    ensures |r| == |paths| && forall i :: 0 <= i < |r| ==> r[i] == [key] + paths[i]
  {
    seq(|paths|, i requires 0 <= i < |paths| => [key] + paths[i])
  }

  lemma UnderMembers(key: string, paths: seq<Path>, keys: Path)
    ensures keys in Under(key, paths) <==> keys != [] && keys[0] == key && keys[1..] in paths
  {
    if keys != [] && keys[0] == key && keys[1..] in paths {
      var i :| 0 <= i < |paths| && paths[i] == keys[1..];
      assert Under(key, paths)[i] == keys;
    }
    if keys in Under(key, paths) {
      var i :| 0 <= i < |paths| && Under(key, paths)[i] == keys;
      assert keys[1..] == paths[i];
    }
  }

  // What has been reported once the keys in done have been visited.
  ghost predicate Reports(source: Json, prefix: string, allowed: string -> bool, done: set<string>,
                          paths: seq<Path>, texts: seq<string>)
  {
    && (forall keys :: keys in paths <==> IsHidden(source, prefix, allowed, keys) && keys[0] in done)
    && Distinct(paths)
    && |texts| == |paths| && forall i :: 0 <= i < |paths| ==> texts[i] == Dotted(prefix, paths[i])
  }

  // What is to be reported below one key.
  ghost predicate ReportsBelow(source: Json, prefix: string, allowed: string -> bool, key: string,
                               paths: seq<Path>, texts: seq<string>)
  {
    && (forall keys :: keys in paths <==> IsHidden(source, prefix, allowed, [key] + keys))
    && Distinct(paths)
    && |texts| == |paths| && forall i :: 0 <= i < |paths| ==> texts[i] == Dotted(Extend(prefix, key), paths[i])
  }

  lemma AddKey(source: Json, prefix: string, allowed: string -> bool, done: set<string>, key: string,
               paths: seq<Path>, texts: seq<string>, below: seq<Path>, belowTexts: seq<string>)
    requires key !in done && Reports(source, prefix, allowed, done, paths, texts)
    requires ReportsBelow(source, prefix, allowed, key, below, belowTexts)
    ensures Reports(source, prefix, allowed, done + {key}, paths + Under(key, below), texts + belowTexts)
  {
    var added := Under(key, below);
    forall keys: Path
      ensures keys in paths + added <==> IsHidden(source, prefix, allowed, keys) && keys[0] in done + {key}
    {
      UnderMembers(key, below, keys);
      assert keys != [] && keys[0] == key ==> keys == [key] + keys[1..];
    }
    assert forall i :: 0 <= i < |paths| ==> paths[i] in paths;
    UnderDistinct(key, below);
    DistinctUnion(paths, added, done, key);
    forall i | 0 <= i < |below|
      ensures belowTexts[i] == Dotted(prefix, added[i])
    {
      assert added[i][1..] == below[i];
    }
  }

  lemma UnderDistinct(key: string, paths: seq<Path>)
    requires Distinct(paths)
    ensures Distinct(Under(key, paths))
  {
    forall i | 0 <= i < |paths|
      ensures Under(key, paths)[i][1..] == paths[i]
    {
    }
  }

  lemma DistinctUnion(paths: seq<Path>, added: seq<Path>, done: set<string>, key: string)
    requires Distinct(paths) && Distinct(added) && key !in done
    requires forall i :: 0 <= i < |paths| ==> paths[i] != [] && paths[i][0] in done
    requires forall i :: 0 <= i < |added| ==> added[i] != [] && added[i][0] == key
    ensures Distinct(paths + added)
  {
  }

  /** Every hidden path is reported once, and nothing else is; the text reported for a path
      is its dotted form. */
  method CollectHidden(source: map<string, Json>, prefix: string, allowed: string -> bool)
    returns (paths: seq<Path>, texts: seq<string>)
    ensures forall keys :: keys in paths <==> IsHidden(Object(source), prefix, allowed, keys)
    ensures Distinct(paths)
    ensures |texts| == |paths| && forall i :: 0 <= i < |paths| ==> texts[i] == Dotted(prefix, paths[i])
    decreases Object(source)
  {
    paths, texts := [], [];
    var pending := source.Keys;
    while pending != {}
      invariant pending <= source.Keys
      invariant Reports(Object(source), prefix, allowed, source.Keys - pending, paths, texts)
      decreases pending
    {
      var key :| key in pending;
      var path := Extend(prefix, key);
      var value := source[key];
      var below: seq<Path>, belowTexts: seq<string> := [], [];
      if !allowed(path) {
        below, belowTexts := [[]], [path];
      } else if value.Object? {
        assert value == Object(source).fields[key];
        below, belowTexts := CollectHidden(value.fields, path, allowed);
        assert value == Object(value.fields);
      }
      BelowKey(Object(source), prefix, allowed, key, below);
      AddKey(Object(source), prefix, allowed, source.Keys - pending, key, paths, texts, below, belowTexts);
      paths, texts := paths + Under(key, below), texts + belowTexts;
      pending := pending - {key};
      assert source.Keys - pending == source.Keys - (pending + {key}) + {key};
    }
  }

  lemma BelowKey(source: Json, prefix: string, allowed: string -> bool, key: string, paths: seq<Path>)
    requires source.Object? && key in source.fields
    requires forall keys :: keys in paths <==>
                            if allowed(Extend(prefix, key))
                            then IsHidden(source.fields[key], Extend(prefix, key), allowed, keys) else keys == []
    ensures forall keys :: keys in paths <==> IsHidden(source, prefix, allowed, [key] + keys)
  {
    forall keys: Path
      ensures ([key] + keys)[0] == key && ([key] + keys)[1..] == keys
    {
    }
  }

  // ----- Documents -----

  function AllowedBy(grant: Grant, policy: Policy, kind: string, subtype: string): string -> bool {
    path => grant.Allows(policy(kind, subtype, path))
  }

  function RedactPayload(raw: Raw, kind: string, subtype: string, prefix: string, grant: Grant, policy: Policy)
    : Outcome<Raw>
  {
    if raw.Empty? then Ok(EMPTY_OBJECT)
    else match DecodeFields(raw)
      case Fail => Fail
      case Ok(fields) => Ok(Parsed(PruneValue(Object(fields), prefix, AllowedBy(grant, policy, kind, subtype))))
  }

  // Staff keep the whole ownership map; everyone else sees at most their own entry.
  function OwnershipFor(subject: Subject, grant: Grant, raw: Raw): Raw {
    if grant.role.IsStaff() then (if raw.Empty? then EMPTY_OBJECT else raw)
    else match ParseAcl(raw)
      case Fail => EMPTY_OBJECT
      case Ok(acl) =>
        if subject.userId in acl then Parsed(Object(map[subject.userId := Text(LevelName(acl[subject.userId]))]))
        else EMPTY_OBJECT
  }

  /** None is a document withheld altogether. */
  function RedactDocument(doc: Document, subject: Subject, grant: Grant, policy: Policy): Outcome<Option<Document>> {
    if !grant.CanRead() then Ok(None)
    else
      var bare := doc.(data := EMPTY_OBJECT, flags := EMPTY_OBJECT, ownership := OwnershipFor(subject, grant, doc.ownership));
      if grant.level == LEVEL_LIMITED then Ok(Some(bare))
      else
        match RedactPayload(doc.data, doc.kind, doc.subtype, "", grant, policy)
        case Fail => Fail
        case Ok(data) =>
          match RedactPayload(doc.flags, doc.kind, doc.subtype, "flags", grant, policy)
          case Fail => Fail
          case Ok(flags) => Ok(Some(bare.(data := data, flags := flags)))
  }
}
