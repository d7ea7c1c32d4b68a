/** The `Database` class of packages/server/src/db/index.ts: three kinds of
    table updated in place. Each mutating method is proved to leave the
    tables as the corresponding function of the `Index` module says, and to
    keep the catalog and the plugin tables in lockstep. The read operations
    (`getRepoRoot`, `getRecord`, `listCollectionsForDid`,
    `listRecordsForCollection`, `findTableForCollection`) are the `Index`
    functions applied to `State()`. */
module Db {
  import opened AdxUris
  import opened Index
  import IndexProperties

  class Database {
    /** The plugins in the order `Object.values(this.records)` yields them; fixed at construction. */
    const plugins: seq<Plugin>
    /** `RepoRoot` rows: DID to root CID. */
    var roots: map<string, Cid>
    /** `AdxRecord` rows, keyed by the address string. */
    var catalog: map<string, CatalogRow>
    /** The plugin tables, the i-th for the i-th plugin, keyed by the address string. */
    var tables: seq<map<string, Content>>

    function State(): DbState
      reads this
    {
      DbState(roots, catalog, tables)
    }

    ghost predicate Valid()
      reads this
    {
      WellFormed(plugins, State())
    }

    /** The three plugins `posts`, `likes` and `follows`, each with an empty
        table; the collection names live in the plugin files. */
    constructor (postsCollection: string, likesCollection: string, followsCollection: string)
      ensures plugins == [Plugin("posts", postsCollection), Plugin("likes", likesCollection),
                          Plugin("follows", followsCollection)]
      ensures Valid()
      ensures State() == Empty(plugins)
    {
      plugins := [Plugin("posts", postsCollection), Plugin("likes", likesCollection),
                  Plugin("follows", followsCollection)];
      roots := map[];
      catalog := map[];
      tables := [map[], map[], map[]];
      new;
      assert tables == Empty(plugins).tables;
    }

    /** `setRepoRoot`: find the row of `did` or create it, set its root, save. */
    method SetRepoRoot(did: string, root: Cid)
      requires Valid()
      modifies this
      ensures Valid()
      ensures State() == Index.SetRepoRoot(old(State()), did, root)
    {
      // Whether found or freshly created, the saved row is the one keyed by
      // `did`, and it now holds `root`.
      roots := roots[did := root];
    }

    /** `indexRecord`: three checks, the plugin lookup, then the plugin
        table write followed by the catalog save. */
    method IndexRecord(uri: AdxUri, obj: Content) returns (err: Option<DbError>)
      requires Valid()
      modifies this
      ensures Valid()
      ensures var r := Index.IndexRecord(plugins, old(State()), uri, obj);
        && (r.Ok? ==> err == None && State() == r.value)
        && (r.Err? ==> err == Some(r.error) && State() == old(State()))
    {
      ghost var before := State();
      err := Validate(uri);
      if err.Some? {
        return;
      }
      var found := FindTable(plugins, uri.collection);
      if found.Err? {
        err := Some(found.error);
        return;
      }
      var i, u := found.value, uri.ToString();
      tables := tables[i := tables[i][u := obj]];
      catalog := catalog[u := Row(uri)];
      IndexProperties.IndexRecordKeepsWellFormed(plugins, before, uri, obj);
    }

    /** `deleteRecord`: the plugin lookup, then the delete from the plugin
        table and from the catalog (issued together in the source, and
        independent of each other). */
    method DeleteRecord(uri: AdxUri) returns (err: Option<DbError>)
      requires Valid()
      modifies this
      ensures Valid()
      ensures var r := Index.DeleteRecord(plugins, old(State()), uri);
        && (r.Ok? ==> err == None && State() == r.value)
        && (r.Err? ==> err == Some(r.error) && State() == old(State()))
    {
      ghost var before := State();
      var found := FindTable(plugins, uri.collection);
      if found.Err? {
        err := Some(found.error);
        return;
      }
      var i, u := found.value, uri.ToString();
      tables := tables[i := tables[i] - {u}];
      catalog := catalog - {u};
      err := None;
      IndexProperties.DeleteRecordKeepsWellFormed(plugins, before, uri);
    }
  }
}
