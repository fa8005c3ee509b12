/**
 * The documents the backend keeps in the Forge key-value store.
 * Every resolver reads one whole value, changes it and writes it back.
 */
module Values {
  import opened Wrappers

  /** A JSON value. Numbers are modelled as integers. */
  datatype Json =
    | Null
    | Bool(b: bool)
    | Num(n: int)
    | Str(s: string)
    | Arr(items: seq<Json>)
    | Obj(props: map<string, Json>)

  /** JavaScript truthiness of a JSON value (arrays and objects are always truthy). */
  predicate Truthy(j: Json) {
    match j
    case Null => false
    case Bool(b) => b
    case Num(n) => n != 0
    case Str(s) => s != ""
    case _ => true
  }

  /**
   * A record of a collection: its `id` and its other properties.
   * A property that is `undefined` is absent: storing a document serialises it
   * as JSON, which drops such properties.
   */
  datatype Record = Record(id: string, fields: map<string, Json>)

  /** The value of a property, `None` when it is `undefined`. */
  function Field(r: Record, name: string): (v: Option<Json>)
    ensures v.Some? <==> name in r.fields
    ensures v.Some? ==> v.value == r.fields[name]
  {
    if name in r.fields then Some(r.fields[name]) else None
  }

  /**
   * Object spread `{...fields, k1: v1, k2: v2}`: each property of the patch
   * overrides the old one, and a patch property that is `undefined` ends up
   * absent once the document is stored.
   */
  function Spread(fields: map<string, Json>, patch: map<string, Option<Json>>): (r: map<string, Json>)
    ensures forall k :: k in patch ==> (k in r <==> patch[k].Some?)
    ensures forall k :: k in patch && patch[k].Some? ==> r[k] == patch[k].value
    ensures forall k :: k !in patch ==> (k in r <==> k in fields)
    ensures forall k :: k !in patch && k in fields ==> r[k] == fields[k]
  {
    (map k | k in fields && k !in patch :: fields[k])
      + (map k | k in patch && patch[k].Some? :: patch[k].value)
  }

  /** A fresh record `{id, ...props}` written as an object literal. */
  function NewRecord(id: string, props: map<string, Option<Json>>): (r: Record)
    ensures r.id == id
    ensures forall k :: k in props ==> (k in r.fields <==> props[k].Some?)
    ensures forall k :: k in r.fields ==> k in props && props[k] == Some(r.fields[k])
  {
    Record(id, Spread(map[], props))
  }

  /** One entry of the requirement-issue join table: an issue id and its requirement ids. */
  datatype Link = Link(issueId: string, requirementIds: seq<string>)

  /** A snapshot of the tracked keys, stored compressed. */
  datatype Version = Version(key: string, description: Option<Json>, createdDate: string, data: Blob)

  /**
   * The compressed, base64-encoded snapshot payload. The bytes are not
   * modelled: the blob stands for the JSON object it encodes.
   */
  datatype Blob = Deflated(json: map<string, Value>)

  /** What one storage key holds. */
  datatype Value =
    | List(records: seq<Record>)   // a collection: requirements, types, stages, ...
    | Links(links: seq<Link>)      // the requirement-issue join table
    | Catalog(versions: seq<Version>)  // the snapshot catalog

  /** What a resolver throws. */
  datatype Thrown =
    | Error(message: string)      // `throw new Error(message)`
    | TypeError(message: string)  // a value of the wrong shape was dereferenced

  /** `storage.get(key) || []`: every stored document is truthy, so only absence falls back. */
  function OrEmpty(v: Option<Value>): (r: Value)
    ensures v.Some? ==> r == v.value
    ensures v.None? ==> r == List([])
  {
    if v.Some? then v.value else List([])
  }

  /** The array a resolver works on; anything else fails when it calls an array method. */
  function AsList(v: Value): (r: Result<seq<Record>, Thrown>)
    ensures r.Success? <==> v.List?
    ensures r.Success? ==> r.value == v.records
  {
    if v.List? then Success(v.records) else Failure(TypeError("not an array"))
  }

  /** `(await storage.get(key)) || []` read as an array of records. */
  function ReadList(v: Option<Value>): (r: Result<seq<Record>, Thrown>)
    ensures v.None? ==> r == Success([])
    ensures v.Some? ==> r == AsList(v.value)
  {
    AsList(OrEmpty(v))
  }

  /** `(await storage.get(key)) || {}` read as the join table. */
  function ReadLinks(v: Option<Value>): (r: Result<seq<Link>, Thrown>)
    ensures v.None? ==> r == Success([])
    ensures v.Some? ==> (r.Success? <==> v.value.Links?)
    ensures v.Some? && v.value.Links? ==> r == Success(v.value.links)
  {
    match v
    case None => Success([])
    case Some(Links(t)) => Success(t)
    case Some(_) => Failure(TypeError("not a join table"))
  }

  /** `(await storage.get('versions')) || []` read as the snapshot catalog. */
  function ReadCatalog(v: Option<Value>): (r: Result<seq<Version>, Thrown>)
    ensures v.None? ==> r == Success([])
    ensures v.Some? ==> (r.Success? <==> v.value.Catalog?)
    ensures v.Some? && v.value.Catalog? ==> r == Success(v.value.versions)
  {
    match v
    case None => Success([])
    case Some(Catalog(vs)) => Success(vs)
    case Some(_) => Failure(TypeError("not an array of versions"))
  }
}
