/** The state of the record index and root-pointer store (packages/server/src/db/index.ts)
    as a value, with one function per `Database` operation. The class in
    database.dfy performs these operations in place and is proved against
    these functions; the lemmas here state what the operations promise. */
module Index {
  import opened AdxUris
  import opened TidOrder

  /** A content identifier, kept as its string form (CID parsing and printing are not modelled). */
  type Cid = string

  /** A record value as the blockstore hands it over; its shape is not interpreted here. */
  type Content = seq<bv8>

  datatype Option<T> = None | Some(value: T)

  /** The errors `Database` throws. */
  datatype DbError =
    | MissingDid          // the URI host does not start with "did:"
    | MissingCollection   // the collection segment is empty
    | MissingTid          // the record key segment is empty
    | UnknownCollection   // no plugin is registered for the collection

  datatype Result<T> = Ok(value: T) | Err(error: DbError)

  /** A collection plugin: its key in `Database.records` and the collection it indexes. */
  datatype Plugin = Plugin(name: string, collection: string)

  /** A row of the catalog (`AdxRecord`): the parts of the record's address. */
  datatype CatalogRow = CatalogRow(did: Segment, collection: Segment, tid: Segment) {
    function Uri(): AdxUri {
      AdxUri(did, collection, tid)
    }
  }

  function Row(uri: AdxUri): CatalogRow {
    CatalogRow(uri.host, uri.collection, uri.recordKey)
  }

  /** The three kinds of table: repo roots (DID to root CID), the catalog
      (address string to row) and one table per plugin (address string to
      record), the i-th table belonging to the i-th plugin. */
  datatype DbState = DbState(
    roots: map<string, Cid>,
    catalog: map<string, CatalogRow>,
    tables: seq<map<string, Content>>)

  /** One table per plugin. */
  predicate Shaped(plugins: seq<Plugin>, s: DbState) {
    |s.tables| == |plugins|
  }

  /** The position of the first plugin for `collection` (`findTableForCollection`). */
  function FindTable(plugins: seq<Plugin>, collection: string): (r: Result<nat>)
    ensures r.Ok? ==> r.value < |plugins| && plugins[r.value].collection == collection
    ensures r.Ok? ==> forall j :: 0 <= j < r.value ==> plugins[j].collection != collection
    ensures r.Err? <==> forall j :: 0 <= j < |plugins| ==> plugins[j].collection != collection
    ensures r.Err? ==> r.error == UnknownCollection
    decreases |plugins|
  {
    if |plugins| == 0 then Err(UnknownCollection)
    else if plugins[0].collection == collection then Ok(0)
    else
      match FindTable(plugins[1..], collection)
      case Ok(i) => Ok(i + 1)
      case Err(e) => Err(e)
  }

  /** Every catalog row is stored under its own address. */
  ghost predicate RowsAtOwnAddress(s: DbState) {
    forall u :: u in s.catalog ==> u == s.catalog[u].Uri().ToString()
  }

  /** A catalogued address is in the table of the plugin for its collection. */
  ghost predicate CatalogInTables(plugins: seq<Plugin>, s: DbState)
    requires Shaped(plugins, s)
  {
    forall u :: u in s.catalog ==>
      var t := FindTable(plugins, s.catalog[u].collection);
      t.Ok? && u in s.tables[t.value]
  }

  /** A plugin table holds only catalogued addresses of that plugin's collection. */
  ghost predicate TablesInCatalog(plugins: seq<Plugin>, s: DbState)
    requires Shaped(plugins, s)
  {
    forall i, u :: 0 <= i < |s.tables| && u in s.tables[i] ==>
      u in s.catalog && FindTable(plugins, s.catalog[u].collection) == Ok(i)
  }

  /** The catalog and the plugin tables are kept in lockstep. */
  ghost predicate WellFormed(plugins: seq<Plugin>, s: DbState) {
    && Shaped(plugins, s)
    && RowsAtOwnAddress(s)
    && CatalogInTables(plugins, s)
    && TablesInCatalog(plugins, s)
  }

  /** The empty database: no roots, no catalog rows, every plugin table empty. */
  function Empty(plugins: seq<Plugin>): (s: DbState)
    ensures WellFormed(plugins, s)
    ensures forall did :: GetRepoRoot(s, did) == None
  {
    DbState(map[], map[], seq(|plugins|, _ => map[]))
  }

  // ---------------------------------------------------------------- roots

  /** `getRepoRoot`: the stored root of `did`, or none. */
  function GetRepoRoot(s: DbState, did: string): (r: Option<Cid>)
    ensures r == None <==> did !in s.roots
    ensures r.Some? ==> r.value == s.roots[did]
  {
    if did in s.roots then Some(s.roots[did]) else None
  }

  /** `setRepoRoot`: find the row of `did` or create one, set its root, save.
      The row is keyed by the DID, so an existing row is overwritten. */
  function SetRepoRoot(s: DbState, did: string, root: Cid): (t: DbState)
    ensures GetRepoRoot(t, did) == Some(root)
    ensures forall d :: d != did ==> GetRepoRoot(t, d) == GetRepoRoot(s, d)
    ensures |t.roots| == if did in s.roots then |s.roots| else |s.roots| + 1
    ensures t.catalog == s.catalog && t.tables == s.tables
  {
    s.(roots := s.roots[did := root])
  }

  // ---------------------------------------------------------------- records

  /** The three checks `indexRecord` makes before any write, in order. */
  function Validate(uri: AdxUri): (r: Option<DbError>)
    ensures r == None <==> HasDidPrefix(uri.host) && uri.collection != [] && uri.recordKey != []
    ensures r == Some(MissingDid) <==> !HasDidPrefix(uri.host)
    ensures r == Some(MissingCollection) <==> HasDidPrefix(uri.host) && uri.collection == []
    ensures r == Some(MissingTid) <==> HasDidPrefix(uri.host) && uri.collection != [] && uri.recordKey == []
  {
    if !HasDidPrefix(uri.host) then Some(MissingDid)
    else if |uri.collection| < 1 then Some(MissingCollection)
    else if |uri.recordKey| < 1 then Some(MissingTid)
    else None
  }

  /** `indexRecord`: validate the address, find the plugin, write the plugin
      table, then save the catalog row. Every failure happens before the
      first write. */
  function IndexRecord(plugins: seq<Plugin>, s: DbState, uri: AdxUri, obj: Content): (r: Result<DbState>)
    requires Shaped(plugins, s)
    ensures r.Ok? <==>
      HasDidPrefix(uri.host) && uri.collection != [] && uri.recordKey != []
      && FindTable(plugins, uri.collection).Ok?
    ensures !HasDidPrefix(uri.host) ==> r == Err(MissingDid)
    ensures HasDidPrefix(uri.host) && uri.collection == [] ==> r == Err(MissingCollection)
    ensures HasDidPrefix(uri.host) && uri.collection != [] && uri.recordKey == [] ==> r == Err(MissingTid)
    ensures Validate(uri).None? && FindTable(plugins, uri.collection).Err? ==> r == Err(UnknownCollection)
    ensures r.Ok? ==>
      var t, u, i := r.value, uri.ToString(), FindTable(plugins, uri.collection).value;
      && t.roots == s.roots
      && u in t.catalog && t.catalog[u].did == uri.host
      && t.catalog[u].collection == uri.collection && t.catalog[u].tid == uri.recordKey
      && t.catalog - {u} == s.catalog - {u}
      && Shaped(plugins, t)
      && u in t.tables[i] && t.tables[i][u] == obj
      && t.tables[i] - {u} == s.tables[i] - {u}
      && (forall j :: 0 <= j < |t.tables| && j != i ==> t.tables[j] == s.tables[j])
  {
    match Validate(uri)
    case Some(e) => Err(e)
    case None =>
      match FindTable(plugins, uri.collection)
      case Err(e) => Err(e)
      case Ok(i) =>
        var u := uri.ToString();
        var written := s.(tables := s.tables[i := s.tables[i][u := obj]]);
        Ok(written.(catalog := written.catalog[u := Row(uri)]))
  }

  /** `deleteRecord`: find the plugin, then delete the address from its
      table and from the catalog. The DID is not checked, and an absent
      address is not an error. */
  function DeleteRecord(plugins: seq<Plugin>, s: DbState, uri: AdxUri): (r: Result<DbState>)
    requires Shaped(plugins, s)
    ensures r.Ok? <==> FindTable(plugins, uri.collection).Ok?
    ensures r.Err? ==> r.error == UnknownCollection
    ensures r.Ok? ==>
      var t, u, i := r.value, uri.ToString(), FindTable(plugins, uri.collection).value;
      && t.roots == s.roots
      && u !in t.catalog && t.catalog == s.catalog - {u}
      && Shaped(plugins, t)
      && u !in t.tables[i] && t.tables[i] == s.tables[i] - {u}
      && (forall j :: 0 <= j < |t.tables| && j != i ==> t.tables[j] == s.tables[j])
  {
    match FindTable(plugins, uri.collection)
    case Err(e) => Err(e)
    case Ok(i) =>
      var u := uri.ToString();
      Ok(s.(tables := s.tables[i := s.tables[i] - {u}], catalog := s.catalog - {u}))
  }

  /** `getRecord`: the plugin table's value for the address, or none; an
      unknown collection is an error. */
  function GetRecord(plugins: seq<Plugin>, s: DbState, uri: AdxUri): (r: Result<Option<Content>>)
    requires Shaped(plugins, s)
    ensures r.Err? <==> FindTable(plugins, uri.collection).Err?
    ensures r.Err? ==> r.error == UnknownCollection
  {
    match FindTable(plugins, uri.collection)
    case Err(e) => Err(e)
    case Ok(i) =>
      var u := uri.ToString();
      Ok(if u in s.tables[i] then Some(s.tables[i][u]) else None)
  }

  // ---------------------------------------------------------------- listing

  /** `listCollectionsForDid`: the collection column of every catalog row of
      `did`, one per row (no DISTINCT); rows come back in no particular
      order, so the result maps each row's address to its collection. */
  function ListCollectionsForDid(s: DbState, did: string): (r: map<string, string>)
    ensures forall u :: u in r <==> u in s.catalog && s.catalog[u].did == did
    ensures forall c :: c in r.Values <==>
      exists u :: u in s.catalog && s.catalog[u].did == did && s.catalog[u].collection == c
  {
    var r := map u | u in s.catalog && s.catalog[u].did == did :: s.catalog[u].collection;
    assert forall c :: c in r.Values ==> exists u :: u in r && r[u] == c;
    r
  }

  /** The record keys of the rows the listing query filters in:
      `did`, `collection` and `tid <= from`. */
  function CandidateTids(s: DbState, did: string, collection: string, from: string): (r: set<string>)
    ensures forall t :: t in r <==>
      exists u :: u in s.catalog && s.catalog[u].did == did && s.catalog[u].collection == collection
                   && LexLe(s.catalog[u].tid, from) && s.catalog[u].tid == t
  {
    set u | u in s.catalog && s.catalog[u].did == did && s.catalog[u].collection == collection
                             && LexLe(s.catalog[u].tid, from)
          :: s.catalog[u].tid
  }

  /** The keys the listing query selects: ordered by tid descending and
      limited to `count`. The query builder adds no `LIMIT` clause for a
      limit of 0, so 0 selects every candidate. */
  function SelectedTids(s: DbState, did: string, collection: string, count: nat, from: string): seq<string> {
    var candidates := CandidateTids(s, did, collection, from);
    TopK(candidates, if count == 0 then |candidates| else count)
  }

  /** The `uri` column of the listing query: `count` addresses, or every
      candidate when there are fewer or when `count` is 0. */
  function ListUris(s: DbState, did: string, collection: string, count: nat, from: string): (r: seq<string>)
    ensures var n := |CandidateTids(s, did, collection, from)|;
      |r| == if count == 0 || n < count then n else count
  {
    var tids := SelectedTids(s, did, collection, count, from);
    seq(|tids|, k requires 0 <= k < |tids| => did + "/" + collection + "/" + tids[k])
  }

  /** A plugin's `getMany`: one value per address found in its table, in the
      order asked; absent addresses are skipped. */
  function GetMany(table: map<string, Content>, uris: seq<string>): (r: seq<Content>)
    ensures |r| <= |uris|
    ensures (forall k :: 0 <= k < |uris| ==> uris[k] in table) ==>
      |r| == |uris| && forall k :: 0 <= k < |r| ==> r[k] == table[uris[k]]
    decreases |uris|
  {
    if uris == [] then []
    else (if uris[0] in table then [table[uris[0]]] else []) + GetMany(table, uris[1..])
  }

  /** `listRecordsForCollection`: run the listing query, then fetch the
      values from the collection's plugin, which fails on an unknown
      collection. */
  function ListRecordsForCollection(plugins: seq<Plugin>, s: DbState, did: string, collection: string,
                                    count: nat, from: string := DefaultCursor): (r: Result<seq<Content>>)
    requires Shaped(plugins, s)
    ensures r.Err? <==> FindTable(plugins, collection).Err?
    ensures r.Err? ==> r.error == UnknownCollection
  {
    var uris := ListUris(s, did, collection, count, from);
    match FindTable(plugins, collection)
    case Err(e) => Err(e)
    case Ok(i) => Ok(GetMany(s.tables[i], uris))
  }
}
