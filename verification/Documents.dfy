/** The stored world as the realtime code reads it: JSON columns, documents, members and the
    queries over them. Tables are values; a listing is the order the store returns. */
module Documents {
  import opened Wrappers

  datatype Json =
    | Null
    | Bool(flag: bool)
    | Number(amount: real)
    | Text(text: string)
    | List(items: seq<Json>)
    | Object(fields: map<string, Json>)

  // A raw column: nothing at all, bytes that are not JSON, or a JSON value.
  datatype Raw = Empty | Malformed | Parsed(json: Json)

  const EMPTY_OBJECT: Raw := Parsed(Object(map[]))

  /** Decoding into a map of anything: an object gives its fields, null gives no fields,
      everything else is an error. */
  function DecodeFields(raw: Raw): Outcome<map<string, Json>> {
    if raw.Parsed? && raw.json.Object? then Ok(raw.json.fields)
    else if raw.Parsed? && raw.json.Null? then Ok(map[])
    else Fail
  }

  // A struct field holding a number: absent and null leave zero.
  function NumberField(fields: map<string, Json>, key: string): Outcome<real> {
    if key !in fields || fields[key].Null? then Ok(0.0)
    else if fields[key].Number? then Ok(fields[key].amount)
    else Fail
  }

  // A struct field holding a boolean: absent and null leave false.
  function BoolField(fields: map<string, Json>, key: string): Outcome<bool> {
    if key !in fields || fields[key].Null? then Ok(false)
    else if fields[key].Bool? then Ok(fields[key].flag)
    else Fail
  }

  predicate IsTextOrNull(value: Json) {
    value.Text? || value.Null?
  }

  // A map of strings: null elements decode to the empty string.
  function DecodeTexts(raw: Raw): Outcome<map<string, string>> {
    match DecodeFields(raw)
    case Fail => Fail
    case Ok(fields) =>
      if forall key | key in fields :: IsTextOrNull(fields[key]) then
        Ok(map key | key in fields :: TextOf(fields[key]))
      else Fail
  }

  function TextOf(value: Json): string {
    if value.Text? then value.text else ""
  }

  datatype Document = Document(
    worldId: Id, id: Id, kind: string, subtype: string, parentId: Id, folderId: Id,
    name: string, sort: int, img: string,
    data: Raw, flags: Raw, ownership: Raw,
    sourcePack: string, schemaVersion: string,
    createdAt: int, updatedAt: int, updatedSeq: nat, deletedAt: Option<int>)

  datatype Role = GameMaster | Assistant | Player | Observer | Unknown(name: string)
  {
    predicate Valid() {
      !Unknown?
    }

    predicate IsStaff() {
      GameMaster? || Assistant?
    }
  }

  /** One world: its settings, its members by user, and its documents in listing order. */
  datatype World = World(settings: Raw, members: map<Id, Role>, documents: seq<Document>)

  datatype Store = Store(worlds: map<Id, World>)

  function DocumentsOf(store: Store, worldId: Id): seq<Document> {
    if worldId in store.worlds then store.worlds[worldId].documents else []
  }

  function Find(documents: seq<Document>, id: Id): Option<Document> {
    if documents == [] then None
    else if documents[0].id == id then Some(documents[0])
    else Find(documents[1..], id)
  }

  function GetDocument(store: Store, worldId: Id, id: Id): Option<Document> {
    Find(DocumentsOf(store, worldId), id)
  }

  predicate Listed(doc: Document, kind: string, parentId: Id) {
    doc.kind == kind && doc.parentId == parentId && doc.deletedAt.None?
  }

  function Matching(documents: seq<Document>, kind: string, parentId: Id): (r: seq<Document>)
    ensures forall i :: 0 <= i < |r| ==> Listed(r[i], kind, parentId)
  {
    if documents == [] then []
    else if Listed(documents[0], kind, parentId) then [documents[0]] + Matching(documents[1..], kind, parentId)
    else Matching(documents[1..], kind, parentId)
  }

  /** Live documents of one kind under one parent, in listing order, up to the default limit. */
  function ListDocuments(store: Store, worldId: Id, kind: string, parentId: Id): (r: seq<Document>)
    ensures forall i :: 0 <= i < |r| ==> Listed(r[i], kind, parentId)
    ensures |r| <= DEFAULT_LIMIT
  {
    Take(Matching(DocumentsOf(store, worldId), kind, parentId), DEFAULT_LIMIT)
  }

  lemma {:induction false} MatchingMembers(documents: seq<Document>, kind: string, parentId: Id, doc: Document)
    ensures doc in Matching(documents, kind, parentId) <==> doc in documents && Listed(doc, kind, parentId)
  {
    if documents != [] {
      MatchingMembers(documents[1..], kind, parentId, doc);
      assert documents == [documents[0]] + documents[1..];
    }
  }

  /** A listing holds documents of the kind under the parent that are not deleted, at most 1000 of
      them, and all of them unless it holds that many. */
  lemma ListingIsExact(store: Store, worldId: Id, kind: string, parentId: Id, doc: Document)
    ensures var listing := ListDocuments(store, worldId, kind, parentId);
            && |listing| <= 1000
            && (doc in listing ==>
                  doc in DocumentsOf(store, worldId) && doc.kind == kind && doc.parentId == parentId && doc.deletedAt == None)
            && (doc in DocumentsOf(store, worldId) && doc.kind == kind && doc.parentId == parentId && doc.deletedAt == None ==>
                  doc in listing || |listing| == 1000)
  {
    MatchingMembers(DocumentsOf(store, worldId), kind, parentId, doc);
  }

  /** A document is found by its id, and not found only when there is none. */
  lemma {:induction false} FoundById(documents: seq<Document>, id: Id)
    ensures Find(documents, id).Some? ==> Find(documents, id).value in documents && Find(documents, id).value.id == id
    ensures Find(documents, id).None? ==> forall i :: 0 <= i < |documents| ==> documents[i].id != id
  {
    if documents != [] {
      FoundById(documents[1..], id);
      assert documents == [documents[0]] + documents[1..];
    }
  }

  // Writing a document back over the one with its id keeps its place in the listing.
  function Replace(documents: seq<Document>, doc: Document): (r: seq<Document>)
    ensures |r| == |documents|
  {
    if documents == [] then []
    else if documents[0].id == doc.id then [doc] + documents[1..]
    else [documents[0]] + Replace(documents[1..], doc)
  }

  function PutDocument(store: Store, worldId: Id, doc: Document): Store
    requires worldId in store.worlds
  {
    var world := store.worlds[worldId];
    store.(worlds := store.worlds[worldId := world.(documents := Replace(world.documents, doc))])
  }

  lemma {:induction false} FindAfterReplace(documents: seq<Document>, doc: Document)
    requires Find(documents, doc.id).Some?
    ensures Find(Replace(documents, doc), doc.id) == Some(doc)
  {
    if documents[0].id != doc.id {
      FindAfterReplace(documents[1..], doc);
    }
  }
}
