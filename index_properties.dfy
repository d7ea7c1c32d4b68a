/** What the `Database` operations promise, stated over the value model:
    the catalog/plugin lockstep is preserved, indexing is idempotent and
    round-trips through `getRecord`, deleting an absent address changes
    nothing, and the listing is bounded, ordered and skips nothing. */
module IndexProperties {
  import opened AdxUris
  import opened TidOrder
  import opened Index

  /** A successful `indexRecord` keeps the catalog and the plugin tables in lockstep. */
  lemma IndexRecordKeepsWellFormed(plugins: seq<Plugin>, s: DbState, uri: AdxUri, obj: Content)
    requires WellFormed(plugins, s)
    requires IndexRecord(plugins, s, uri, obj).Ok?
    ensures WellFormed(plugins, IndexRecord(plugins, s, uri, obj).value)
  {
    var u := uri.ToString();
    var i := FindTable(plugins, uri.collection).value;
    var t := DbState(s.roots, s.catalog[u := Row(uri)], s.tables[i := s.tables[i][u := obj]]);
    assert IndexRecord(plugins, s, uri, obj).value == t;
    assert RowsAtOwnAddress(t) by {
      assert t.catalog[u].Uri() == uri;
    }
    WriteKeepsCatalogInTables(plugins, s, uri, obj, i);
    WriteKeepsTablesInCatalog(plugins, s, uri, obj, i);
  }

  /** After the two writes of `indexRecord`, every catalogued address is in its collection's table. */
  lemma WriteKeepsCatalogInTables(plugins: seq<Plugin>, s: DbState, uri: AdxUri, obj: Content, i: nat)
    requires WellFormed(plugins, s)
    requires FindTable(plugins, uri.collection) == Ok(i)
    ensures var u := uri.ToString();
      CatalogInTables(plugins, DbState(s.roots, s.catalog[u := Row(uri)], s.tables[i := s.tables[i][u := obj]]))
  {
    var u := uri.ToString();
    var t := DbState(s.roots, s.catalog[u := Row(uri)], s.tables[i := s.tables[i][u := obj]]);
    forall v | v in t.catalog
      ensures var f := FindTable(plugins, t.catalog[v].collection); f.Ok? && v in t.tables[f.value]
    {
      if v != u {
        assert v in s.catalog && t.catalog[v] == s.catalog[v];
      }
    }
  }

  /** After the two writes of `indexRecord`, every table entry is catalogued under its table's collection. */
  lemma WriteKeepsTablesInCatalog(plugins: seq<Plugin>, s: DbState, uri: AdxUri, obj: Content, i: nat)
    requires WellFormed(plugins, s)
    requires FindTable(plugins, uri.collection) == Ok(i)
    ensures var u := uri.ToString();
      TablesInCatalog(plugins, DbState(s.roots, s.catalog[u := Row(uri)], s.tables[i := s.tables[i][u := obj]]))
  {
    var u := uri.ToString();
    var t := DbState(s.roots, s.catalog[u := Row(uri)], s.tables[i := s.tables[i][u := obj]]);
    forall j, v | 0 <= j < |t.tables| && v in t.tables[j]
      ensures v in t.catalog && FindTable(plugins, t.catalog[v].collection) == Ok(j)
    {
      if v != u || j != i {
        assert v in s.tables[j];
      }
      if v == u && j != i {
        // v was already in another plugin's table, so the catalog held it
        // under a row with that plugin's collection; that row has the same
        // address as uri, hence the same collection.
        ToStringInjective(s.catalog[v].Uri(), uri);
      }
    }
  }

  /** A successful `deleteRecord` keeps the catalog and the plugin tables in lockstep. */
  lemma DeleteRecordKeepsWellFormed(plugins: seq<Plugin>, s: DbState, uri: AdxUri)
    requires WellFormed(plugins, s)
    requires DeleteRecord(plugins, s, uri).Ok?
    ensures WellFormed(plugins, DeleteRecord(plugins, s, uri).value)
  {
    var u := uri.ToString();
    var i := FindTable(plugins, uri.collection).value;
    var t := DbState(s.roots, s.catalog - {u}, s.tables[i := s.tables[i] - {u}]);
    assert DeleteRecord(plugins, s, uri).value == t;
    assert RowsAtOwnAddress(t);
    assert CatalogInTables(plugins, t) by {
      forall v | v in t.catalog
        ensures var f := FindTable(plugins, t.catalog[v].collection); f.Ok? && v in t.tables[f.value]
      {
        assert v in s.catalog && v != u;
      }
    }
    assert TablesInCatalog(plugins, t) by {
      forall j, v | 0 <= j < |t.tables| && v in t.tables[j]
        ensures v in t.catalog && FindTable(plugins, t.catalog[v].collection) == Ok(j)
      {
        assert v in s.tables[j];
        assert v in s.catalog && FindTable(plugins, s.catalog[v].collection) == Ok(j);
        assert v != u by {
          // The catalog row of v has v's own address; were it u, it would
          // have uri's collection, and the only table holding it would be
          // the one just cleared.
          if v == u {
            ToStringInjective(s.catalog[v].Uri(), uri);
          }
        }
      }
    }
  }

  /** Indexing the same address with the same value twice is the same as once. */
  lemma IndexRecordIdempotent(plugins: seq<Plugin>, s: DbState, uri: AdxUri, obj: Content)
    requires Shaped(plugins, s)
    requires IndexRecord(plugins, s, uri, obj).Ok?
    ensures IndexRecord(plugins, IndexRecord(plugins, s, uri, obj).value, uri, obj)
         == IndexRecord(plugins, s, uri, obj)
  {
    var t := IndexRecord(plugins, s, uri, obj).value;
    var t2 := IndexRecord(plugins, t, uri, obj).value;
    var u, i := uri.ToString(), FindTable(plugins, uri.collection).value;
    assert t2.catalog == t.catalog;
    assert t2.tables[i] == t.tables[i];
    assert t2.tables == t.tables;
  }

  /** Round trip: after `indexRecord(uri, obj)`, `getRecord(uri)` returns `obj`. */
  lemma IndexThenGetRecord(plugins: seq<Plugin>, s: DbState, uri: AdxUri, obj: Content)
    requires Shaped(plugins, s)
    requires IndexRecord(plugins, s, uri, obj).Ok?
    ensures GetRecord(plugins, IndexRecord(plugins, s, uri, obj).value, uri) == Ok(Some(obj))
  {
  }

  /** After `deleteRecord(uri)`, `getRecord(uri)` finds nothing. */
  lemma DeleteThenGetRecord(plugins: seq<Plugin>, s: DbState, uri: AdxUri)
    requires Shaped(plugins, s)
    requires DeleteRecord(plugins, s, uri).Ok?
    ensures GetRecord(plugins, DeleteRecord(plugins, s, uri).value, uri) == Ok(None)
  {
  }

  /** Deleting an address the catalog does not hold changes nothing. */
  lemma DeleteAbsentIsNoop(plugins: seq<Plugin>, s: DbState, uri: AdxUri)
    requires WellFormed(plugins, s)
    requires uri.ToString() !in s.catalog
    requires FindTable(plugins, uri.collection).Ok?
    ensures DeleteRecord(plugins, s, uri) == Ok(s)
  {
    var t := DeleteRecord(plugins, s, uri).value;
    var u, i := uri.ToString(), FindTable(plugins, uri.collection).value;
    assert u !in s.tables[i];
    assert t.tables[i] == s.tables[i];
    assert t.tables == s.tables;
    assert t.catalog == s.catalog;
  }

  /** Catalog/plugin consistency: `getRecord(uri)` finds a value exactly when
      the catalog holds the address. */
  lemma GetRecordMatchesCatalog(plugins: seq<Plugin>, s: DbState, uri: AdxUri)
    requires WellFormed(plugins, s)
    requires FindTable(plugins, uri.collection).Ok?
    ensures GetRecord(plugins, s, uri).value.Some? <==> uri.ToString() in s.catalog
  {
    var u := uri.ToString();
    if u in s.catalog {
      ToStringInjective(s.catalog[u].Uri(), uri);
    }
  }

  /** After a successful `indexRecord`, listing the collections of the DID
      includes the record's collection. */
  lemma IndexedCollectionIsListed(plugins: seq<Plugin>, s: DbState, uri: AdxUri, obj: Content)
    requires Shaped(plugins, s)
    requires IndexRecord(plugins, s, uri, obj).Ok?
    ensures uri.collection in ListCollectionsForDid(IndexRecord(plugins, s, uri, obj).value, uri.host).Values
  {
    var t := IndexRecord(plugins, s, uri, obj).value;
    var u := uri.ToString();
    assert u in t.catalog && t.catalog[u].did == uri.host && t.catalog[u].collection == uri.collection;
  }

  /** A row the listing query filters in for `did`, `collection` and `from`. */
  ghost predicate Qualifies(s: DbState, u: string, did: string, collection: string, from: string) {
    u in s.catalog && s.catalog[u].did == did && s.catalog[u].collection == collection
    && LexLe(s.catalog[u].tid, from)
  }

  /** The k-th address the listing query returns is a qualifying row with the k-th selected key. */
  lemma ListedRow(plugins: seq<Plugin>, s: DbState, did: string, collection: string, count: nat, from: string, k: nat)
    requires WellFormed(plugins, s)
    requires k < |ListUris(s, did, collection, count, from)|
    ensures var r := ListUris(s, did, collection, count, from);
      Qualifies(s, r[k], did, collection, from)
      && s.catalog[r[k]].tid == SelectedTids(s, did, collection, count, from)[k]
  {
    var tids := SelectedTids(s, did, collection, count, from);
    var t := tids[k];
    assert t in CandidateTids(s, did, collection, from);
    var w :| w in s.catalog && s.catalog[w].did == did && s.catalog[w].collection == collection
             && LexLe(s.catalog[w].tid, from) && s.catalog[w].tid == t;
    assert w == s.catalog[w].Uri().ToString();
  }

  /** A qualifying row the listing query leaves out has a smaller key than
      every row it returns, and the listing is full; so a limit of 0, which
      returns every candidate, leaves nothing out. */
  lemma UnlistedRowIsOlder(plugins: seq<Plugin>, s: DbState, did: string, collection: string, count: nat,
                           from: string, u: string)
    requires WellFormed(plugins, s)
    requires Qualifies(s, u, did, collection, from)
    requires u !in ListUris(s, did, collection, count, from)
    ensures var r := ListUris(s, did, collection, count, from);
      count > 0 && |r| == count
      && forall k :: 0 <= k < |r| ==> LexLt(s.catalog[u].tid, SelectedTids(s, did, collection, count, from)[k])
  {
    var cands := CandidateTids(s, did, collection, from);
    var limit := if count == 0 then |cands| else count;
    var tids := SelectedTids(s, did, collection, count, from);
    var r := ListUris(s, did, collection, count, from);
    var t := s.catalog[u].tid;
    assert t in cands;
    assert u == did + "/" + collection + "/" + t by {
      assert u == s.catalog[u].Uri().ToString();
    }
    assert t !in tids by {
      forall k | 0 <= k < |tids| ensures tids[k] != t {
        assert r[k] == did + "/" + collection + "/" + tids[k];
      }
    }
    TopKFullWhenKeyLeftOut(cands, limit, t);
  }

  /** The listing query selects at most `count` qualifying rows (any number
      when `count` is 0), newest key first with no two keys equal, and skips
      no qualifying row whose key is larger than one it returns; when it
      returns fewer than `count` rows, or `count` is 0, it returns every
      qualifying row. */
  lemma ListUrisSpec(plugins: seq<Plugin>, s: DbState, did: string, collection: string, count: nat, from: string)
    requires WellFormed(plugins, s)
    ensures var r := ListUris(s, did, collection, count, from);
      && (count > 0 ==> |r| <= count)
      && (forall k :: 0 <= k < |r| ==> Qualifies(s, r[k], did, collection, from))
      && (forall k, l :: 0 <= k < l < |r| ==> LexLt(s.catalog[r[l]].tid, s.catalog[r[k]].tid))
      && (forall u :: Qualifies(s, u, did, collection, from) && u !in r ==>
            count > 0 && |r| == count && forall k :: 0 <= k < |r| ==> LexLt(s.catalog[u].tid, s.catalog[r[k]].tid))
  {
    var tids := SelectedTids(s, did, collection, count, from);
    var r := ListUris(s, did, collection, count, from);
    forall k | 0 <= k < |r|
      ensures Qualifies(s, r[k], did, collection, from) && s.catalog[r[k]].tid == tids[k]
    {
      ListedRow(plugins, s, did, collection, count, from, k);
    }
    forall u | Qualifies(s, u, did, collection, from) && u !in r
      ensures count > 0 && |r| == count && forall k :: 0 <= k < |r| ==> LexLt(s.catalog[u].tid, s.catalog[r[k]].tid)
    {
      UnlistedRowIsOlder(plugins, s, did, collection, count, from, u);
    }
  }

  /** Without a cursor, the listing's filter keeps every row of the DID and
      collection whose key is a TID-shaped short key: an omitted cursor lists
      the most recent records. */
  lemma OmittedCursorKeepsEveryRow(s: DbState, did: string, collection: string, u: string)
    requires u in s.catalog && s.catalog[u].did == did && s.catalog[u].collection == collection
    requires ShortKey(s.catalog[u].tid)
    ensures Qualifies(s, u, did, collection, DefaultCursor)
  {
    DefaultCursorBoundsShortKeys(s.catalog[u].tid);
  }

  /** `listRecordsForCollection` returns, for a known collection, one plugin
      value per address of the listing query, in the query's order. */
  lemma ListRecordsReturnsPluginValues(plugins: seq<Plugin>, s: DbState, did: string, collection: string,
                                        count: nat, from: string)
    requires WellFormed(plugins, s)
    requires FindTable(plugins, collection).Ok?
    ensures var uris, i := ListUris(s, did, collection, count, from), FindTable(plugins, collection).value;
      var r := ListRecordsForCollection(plugins, s, did, collection, count, from);
      && r.Ok? && |r.value| == |uris|
      && forall k :: 0 <= k < |uris| ==> uris[k] in s.tables[i] && r.value[k] == s.tables[i][uris[k]]
  {
    var uris := ListUris(s, did, collection, count, from);
    ListUrisSpec(plugins, s, did, collection, count, from);
    forall k | 0 <= k < |uris|
      ensures uris[k] in s.tables[FindTable(plugins, collection).value]
    {
      assert Qualifies(s, uris[k], did, collection, from);
    }
  }
}
