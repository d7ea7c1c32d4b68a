/** What the projection of a diff promises: adds and updates are handled
    alike, deletes load nothing, entries with distinct keys give the same
    state in any order, and after a successful projection every added or
    updated record is indexed, every deleted one is gone and every other
    address is untouched. */
module SyncProperties {
  import opened AdxUris
  import opened Index
  import opened RepoSync
  import IndexProperties

  /** The diff key of a change, `collection/recordKey`. */
  function KeyOf(c: Change): string {
    c.entry.key.ToString()
  }

  /** No two different changes share a key. */
  ghost predicate DistinctKeys(cs: seq<Change>) {
    forall a, b :: a in cs && b in cs && a != b ==> KeyOf(a) != KeyOf(b)
  }

  /** An add and an update of the same entry do the same thing. */
  lemma AddAndUpdateAgree(plugins: seq<Plugin>, blocks: Blockstore, did: Segment, s: DbState, e: DiffEntry)
    requires Shaped(plugins, s)
    ensures ApplyChange(plugins, blocks, did, s, Add(e)) == ApplyChange(plugins, blocks, did, s, Update(e))
  {
  }

  /** A delete does not read the blockstore. */
  lemma DeleteIgnoresBlockstore(plugins: seq<Plugin>, blocks1: Blockstore, blocks2: Blockstore, did: Segment,
                                s: DbState, e: DiffEntry)
    requires Shaped(plugins, s)
    ensures ApplyChange(plugins, blocks1, did, s, Delete(e)) == ApplyChange(plugins, blocks2, did, s, Delete(e))
  {
  }

  /** The error the fold reports is that of the first failing change in list order. */
  lemma {:induction false} FirstErrorReported(plugins: seq<Plugin>, blocks: Blockstore, did: Segment, s: DbState,
                                              cs: seq<Change>)
    requires Shaped(plugins, s)
    ensures var o := ApplyChanges(plugins, blocks, did, s, cs);
      o.error.Some? ==>
        exists k :: 0 <= k < |cs| && o.error == ChangeError(plugins, blocks, did, cs[k])
                    && forall j :: 0 <= j < k ==> ChangeError(plugins, blocks, did, cs[j]).None?
    decreases |cs|
  {
    if cs != [] {
      var rest, c := cs[..|cs| - 1], cs[|cs| - 1];
      assert cs == rest + [c];
      ApplyChangesSnoc(plugins, blocks, did, s, rest, c);
      FirstErrorReported(plugins, blocks, did, s, rest);
      var prev := ApplyChanges(plugins, blocks, did, s, rest);
      if prev.error.Some? {
        var k :| 0 <= k < |rest| && prev.error == ChangeError(plugins, blocks, did, rest[k])
                 && forall j :: 0 <= j < k ==> ChangeError(plugins, blocks, did, rest[j]).None?;
        assert cs[k] == rest[k];
      } else {
        assert forall j :: 0 <= j < |rest| ==> rest[j] in rest;
        assert cs[|cs| - 1] == c;
      }
    }
  }

  /** Projecting a diff keeps the catalog and the plugin tables in lockstep. */
  lemma {:induction false} ApplyChangesKeepsWellFormed(plugins: seq<Plugin>, blocks: Blockstore, did: Segment,
                                                       s: DbState, cs: seq<Change>)
    requires WellFormed(plugins, s)
    ensures WellFormed(plugins, ApplyChanges(plugins, blocks, did, s, cs).state)
    decreases |cs|
  {
    if cs != [] {
      var rest, c := cs[..|cs| - 1], cs[|cs| - 1];
      assert cs == rest + [c];
      StateSnoc(plugins, blocks, did, s, rest, c);
      ApplyChangesKeepsWellFormed(plugins, blocks, did, s, rest);
      var p := ApplyChanges(plugins, blocks, did, s, rest).state;
      var uri := UriOf(did, c);
      if c.Delete? {
        if DeleteRecord(plugins, p, uri).Ok? {
          IndexProperties.DeleteRecordKeepsWellFormed(plugins, p, uri);
        }
      } else if c.entry.cid in blocks && IndexRecord(plugins, p, uri, blocks[c.entry.cid]).Ok? {
        IndexProperties.IndexRecordKeepsWellFormed(plugins, p, uri, blocks[c.entry.cid]);
      }
    }
  }

  // ---------------------------------------------------------------- writes at one address

  /** Put a value at `u`, or remove `u`. */
  function Touch<V>(m: map<string, V>, u: string, w: Option<V>): map<string, V> {
    match w
    case Some(v) => m[u := v]
    case None => m - {u}
  }

  /** The writes of a change: the catalog and the i-th plugin table at one address. */
  function Written(s: DbState, i: nat, u: string, row: Option<CatalogRow>, val: Option<Content>): DbState
    requires i < |s.tables|
  {
    DbState(s.roots, Touch(s.catalog, u, row), s.tables[i := Touch(s.tables[i], u, val)])
  }

  /** A change that succeeds writes its own address and nothing else. */
  lemma ChangeWrites(plugins: seq<Plugin>, blocks: Blockstore, did: Segment, s: DbState, c: Change)
    requires Shaped(plugins, s)
    requires ChangeError(plugins, blocks, did, c).None?
    ensures var uri := UriOf(did, c);
      var i := FindTable(plugins, uri.collection).value;
      ApplyChange(plugins, blocks, did, s, c).state ==
        if c.Delete? then Written(s, i, uri.ToString(), None, None)
        else Written(s, i, uri.ToString(), Some(Row(uri)), Some(blocks[c.entry.cid]))
  {
  }

  lemma TouchCommutes<V>(m: map<string, V>, u: string, a: Option<V>, v: string, b: Option<V>)
    requires u != v
    ensures Touch(Touch(m, u, a), v, b) == Touch(Touch(m, v, b), u, a)
  {
  }

  lemma WrittenCommutes(s: DbState, i: nat, u: string, r1: Option<CatalogRow>, v1: Option<Content>,
                        j: nat, w: string, r2: Option<CatalogRow>, v2: Option<Content>)
    requires i < |s.tables| && j < |s.tables| && u != w
    ensures Written(Written(s, i, u, r1, v1), j, w, r2, v2) == Written(Written(s, j, w, r2, v2), i, u, r1, v1)
  {
    TouchCommutes(s.catalog, u, r1, w, r2);
    if i == j {
      TouchCommutes(s.tables[i], u, v1, w, v2);
    }
  }

  /** Two changes with different keys commute. */
  lemma ChangesCommute(plugins: seq<Plugin>, blocks: Blockstore, did: Segment, s: DbState, x: Change, y: Change)
    requires Shaped(plugins, s)
    requires KeyOf(x) != KeyOf(y)
    ensures var sx := ApplyChange(plugins, blocks, did, s, x).state;
      var sy := ApplyChange(plugins, blocks, did, s, y).state;
      ApplyChange(plugins, blocks, did, sx, y).state == ApplyChange(plugins, blocks, did, sy, x).state
  {
    if ChangeError(plugins, blocks, did, x).None? && ChangeError(plugins, blocks, did, y).None? {
      EntryUriInjective(did, x.entry.key, y.entry.key);
      var sx := ApplyChange(plugins, blocks, did, s, x).state;
      var sy := ApplyChange(plugins, blocks, did, s, y).state;
      ChangeWrites(plugins, blocks, did, s, x);
      ChangeWrites(plugins, blocks, did, s, y);
      ChangeWrites(plugins, blocks, did, sx, y);
      ChangeWrites(plugins, blocks, did, sy, x);
      var ux, uy := UriOf(did, x), UriOf(did, y);
      WrittenCommutes(s, FindTable(plugins, ux.collection).value, ux.ToString(),
                      if x.Delete? then None else Some(Row(ux)),
                      if x.Delete? then None else Some(blocks[x.entry.cid]),
                      FindTable(plugins, uy.collection).value, uy.ToString(),
                      if y.Delete? then None else Some(Row(uy)),
                      if y.Delete? then None else Some(blocks[y.entry.cid]));
    }
  }

  // ---------------------------------------------------------------- order independence

  /** The state after one more change is that change applied to the state so far. */
  lemma StateSnoc(plugins: seq<Plugin>, blocks: Blockstore, did: Segment, s: DbState, cs: seq<Change>, c: Change)
    requires Shaped(plugins, s)
    ensures ApplyChanges(plugins, blocks, did, s, cs + [c]).state
         == ApplyChange(plugins, blocks, did, ApplyChanges(plugins, blocks, did, s, cs).state, c).state
  {
    ApplyChangesSnoc(plugins, blocks, did, s, cs, c);
  }

  /** A change that commutes with everything after it can be applied last instead. */
  lemma {:induction false} MoveToEnd(plugins: seq<Plugin>, blocks: Blockstore, did: Segment, s: DbState,
                                     a: seq<Change>, c: Change, b: seq<Change>)
    requires Shaped(plugins, s)
    requires forall x :: x in b ==> x == c || KeyOf(x) != KeyOf(c)
    ensures ApplyChanges(plugins, blocks, did, s, a + [c] + b).state
         == ApplyChanges(plugins, blocks, did, s, a + b + [c]).state
    decreases |b|
  {
    if b == [] {
      assert a + [c] + b == a + b + [c];
    } else {
      var b', x := b[..|b| - 1], b[|b| - 1];
      assert b == b' + [x];
      assert a + [c] + b == (a + [c] + b') + [x];
      assert a + b == (a + b') + [x];
      var p := ApplyChanges(plugins, blocks, did, s, a + b').state;
      var pc := ApplyChange(plugins, blocks, did, p, c).state;
      var px := ApplyChange(plugins, blocks, did, p, x).state;
      calc {
        ApplyChanges(plugins, blocks, did, s, a + [c] + b).state;
        { StateSnoc(plugins, blocks, did, s, a + [c] + b', x); }
        ApplyChange(plugins, blocks, did, ApplyChanges(plugins, blocks, did, s, a + [c] + b').state, x).state;
        { MoveToEnd(plugins, blocks, did, s, a, c, b'); }
        ApplyChange(plugins, blocks, did, ApplyChanges(plugins, blocks, did, s, a + b' + [c]).state, x).state;
        { StateSnoc(plugins, blocks, did, s, a + b', c); }
        ApplyChange(plugins, blocks, did, pc, x).state;
        { if x != c { ChangesCommute(plugins, blocks, did, p, c, x); } }
        ApplyChange(plugins, blocks, did, px, c).state;
        { StateSnoc(plugins, blocks, did, s, a + b', x); }
        ApplyChange(plugins, blocks, did, ApplyChanges(plugins, blocks, did, s, a + b).state, c).state;
        { StateSnoc(plugins, blocks, did, s, a + b, c); }
        ApplyChanges(plugins, blocks, did, s, a + b + [c]).state;
      }
    }
  }

  /** Splits off the last change of `cs1` and the same change in `cs2`. */
  lemma PickOut(cs1: seq<Change>, cs2: seq<Change>) returns (rest: seq<Change>, c: Change, a: seq<Change>, b: seq<Change>)
    requires multiset(cs1) == multiset(cs2) && cs1 != []
    ensures cs1 == rest + [c] && cs2 == a + [c] + b
    ensures multiset(rest) == multiset(a + b)
    ensures forall x :: x in rest ==> x in cs1
    ensures forall x :: x in b ==> x in cs1
  {
    SameElements(cs1, cs2);
    rest, c := cs1[..|cs1| - 1], cs1[|cs1| - 1];
    assert cs1 == rest + [c];
    assert c in cs2;
    var p :| 0 <= p < |cs2| && cs2[p] == c;
    a, b := cs2[..p], cs2[p + 1..];
    assert cs2 == a + [c] + b;
    assert forall x :: x in b ==> x in cs2;
    CancelOne(rest, c, a, b);
  }

  /** Removing one occurrence of `c` from both sides keeps two multisets equal. */
  lemma CancelOne<T>(rest: seq<T>, c: T, a: seq<T>, b: seq<T>)
    requires multiset(rest + [c]) == multiset(a + [c] + b)
    ensures multiset(rest) == multiset(a + b)
  {
    calc {
      multiset(rest);
      multiset(rest + [c]) - multiset{c};
      multiset(a + [c] + b) - multiset{c};
      { assert multiset(a + [c] + b) == multiset(a + b) + multiset{c}; }
      multiset(a + b);
    }
  }

  /** Entries with distinct keys give the same final state in any order. */
  lemma {:induction false} OrderIndependent(plugins: seq<Plugin>, blocks: Blockstore, did: Segment, s: DbState,
                                            cs1: seq<Change>, cs2: seq<Change>)
    requires Shaped(plugins, s)
    requires multiset(cs1) == multiset(cs2)
    requires DistinctKeys(cs1)
    ensures ApplyChanges(plugins, blocks, did, s, cs1).state == ApplyChanges(plugins, blocks, did, s, cs2).state
    decreases |cs1|
  {
    if cs1 == [] {
      assert |cs2| == |multiset(cs2)| == 0;
    } else {
      var rest, c, a, b := PickOut(cs1, cs2);
      assert DistinctKeys(rest);
      calc {
        ApplyChanges(plugins, blocks, did, s, cs1).state;
        { StateSnoc(plugins, blocks, did, s, rest, c); }
        ApplyChange(plugins, blocks, did, ApplyChanges(plugins, blocks, did, s, rest).state, c).state;
        { OrderIndependent(plugins, blocks, did, s, rest, a + b); }
        ApplyChange(plugins, blocks, did, ApplyChanges(plugins, blocks, did, s, a + b).state, c).state;
        { StateSnoc(plugins, blocks, did, s, a + b, c); }
        ApplyChanges(plugins, blocks, did, s, a + b + [c]).state;
        { MoveToEnd(plugins, blocks, did, s, a, c, b); }
        ApplyChanges(plugins, blocks, did, s, cs2).state;
      }
    }
  }

  /** Whether the projection succeeds does not depend on the order of the changes. */
  lemma SuccessIndependentOfOrder(plugins: seq<Plugin>, blocks: Blockstore, did: Segment, s: DbState,
                                  cs1: seq<Change>, cs2: seq<Change>)
    requires Shaped(plugins, s)
    requires multiset(cs1) == multiset(cs2)
    ensures ApplyChanges(plugins, blocks, did, s, cs1).error.None?
        <==> ApplyChanges(plugins, blocks, did, s, cs2).error.None?
  {
    SameElements(cs1, cs2);
  }

  /** Sequences with the same multiset have the same elements. */
  lemma SameElements(cs1: seq<Change>, cs2: seq<Change>)
    requires multiset(cs1) == multiset(cs2)
    ensures forall x :: x in cs1 <==> x in cs2
  {
    forall x ensures x in cs1 <==> x in cs2 {
      assert x in cs1 <==> x in multiset(cs1);
      assert x in cs2 <==> x in multiset(cs2);
    }
  }

  // ---------------------------------------------------------------- effect of a projection

  /** Two maps agree at `u`. */
  predicate AgreeAt<V(==)>(m1: map<string, V>, m2: map<string, V>, u: string) {
    (u in m1 <==> u in m2) && (u in m1 ==> m1[u] == m2[u])
  }

  /** The catalog and every plugin table hold the same at `u` in both states. */
  predicate Untouched(s: DbState, t: DbState, u: string) {
    && AgreeAt(s.catalog, t.catalog, u)
    && |s.tables| == |t.tables|
    && forall i :: 0 <= i < |s.tables| ==> AgreeAt(s.tables[i], t.tables[i], u)
  }

  /** Changes at other addresses leave `u` as it was. */
  lemma {:induction false} OtherAddressesUntouched(plugins: seq<Plugin>, blocks: Blockstore, did: Segment,
                                                   s: DbState, cs: seq<Change>, u: string)
    requires Shaped(plugins, s)
    requires forall c :: c in cs ==> UriOf(did, c).ToString() != u
    ensures Untouched(s, ApplyChanges(plugins, blocks, did, s, cs).state, u)
    decreases |cs|
  {
    if cs != [] {
      var rest, c := cs[..|cs| - 1], cs[|cs| - 1];
      assert cs == rest + [c];
      OtherAddressesUntouched(plugins, blocks, did, s, rest, u);
      ApplyChangesSnoc(plugins, blocks, did, s, rest, c);
      var p := ApplyChanges(plugins, blocks, did, s, rest).state;
      if ChangeError(plugins, blocks, did, c).None? {
        ChangeWrites(plugins, blocks, did, p, c);
      }
    }
  }

  /** What a change that succeeds leaves at its own address. */
  predicate Holds(plugins: seq<Plugin>, blocks: Blockstore, did: Segment, t: DbState, c: Change)
    requires Shaped(plugins, t)
  {
    var uri := UriOf(did, c);
    var u, f := uri.ToString(), FindTable(plugins, uri.collection);
    && f.Ok?
    && (c.Delete? ==> u !in t.catalog && u !in t.tables[f.value])
    && (!c.Delete? ==> c.entry.cid in blocks && u in t.catalog && t.catalog[u] == Row(uri)
                       && u in t.tables[f.value] && t.tables[f.value][u] == blocks[c.entry.cid])
  }

  /** After a projection in which every change succeeds, each change's own
      address holds what that change wrote. */
  lemma ChangeTakesEffect(plugins: seq<Plugin>, blocks: Blockstore, did: Segment, s: DbState,
                          cs: seq<Change>, c: Change)
    requires Shaped(plugins, s)
    requires DistinctKeys(cs)
    requires ApplyChanges(plugins, blocks, did, s, cs).error.None?
    requires c in cs
    ensures Holds(plugins, blocks, did, ApplyChanges(plugins, blocks, did, s, cs).state, c)
  {
    var p :| 0 <= p < |cs| && cs[p] == c;
    var a, b := cs[..p], cs[p + 1..];
    assert cs == a + [c] + b;
    assert forall x :: x in b ==> x in cs;
    var q := ApplyChanges(plugins, blocks, did, s, a + b).state;
    calc {
      ApplyChanges(plugins, blocks, did, s, cs).state;
      { MoveToEnd(plugins, blocks, did, s, a, c, b); }
      ApplyChanges(plugins, blocks, did, s, a + b + [c]).state;
      { StateSnoc(plugins, blocks, did, s, a + b, c); }
      ApplyChange(plugins, blocks, did, q, c).state;
    }
    ChangeWrites(plugins, blocks, did, q, c);
  }

  lemma ChangesCoverDiff(diff: DataDiff)
    ensures forall e :: e in diff.adds ==> Add(e) in Changes(diff)
    ensures forall e :: e in diff.updates ==> Update(e) in Changes(diff)
    ensures forall e :: e in diff.deletes ==> Delete(e) in Changes(diff)
  {
    var cs := Changes(diff);
    forall e | e in diff.adds ensures Add(e) in cs {
      var k :| 0 <= k < |diff.adds| && diff.adds[k] == e;
      assert cs[k] == Add(e);
    }
    forall e | e in diff.updates ensures Update(e) in cs {
      var k :| 0 <= k < |diff.updates| && diff.updates[k] == e;
      assert cs[|diff.adds| + k] == Update(e);
    }
    forall e | e in diff.deletes ensures Delete(e) in cs {
      var k :| 0 <= k < |diff.deletes| && diff.deletes[k] == e;
      assert cs[|diff.adds| + |diff.updates| + k] == Delete(e);
    }
  }

  /** After a successful `processDiff` whose entries have distinct keys:
      every added or updated record is in the catalog and in its plugin
      table with the content of its block; every deleted record is in
      neither; every address the diff does not mention is untouched. */
  lemma DiffEffect(plugins: seq<Plugin>, blocks: Blockstore, did: Segment, s: DbState, diff: DataDiff)
    requires Shaped(plugins, s)
    requires DistinctKeys(Changes(diff))
    requires ApplyChanges(plugins, blocks, did, s, Changes(diff)).error.None?
    ensures var t := ApplyChanges(plugins, blocks, did, s, Changes(diff)).state;
      && (forall e :: e in diff.adds ==> Holds(plugins, blocks, did, t, Add(e)))
      && (forall e :: e in diff.updates ==> Holds(plugins, blocks, did, t, Update(e)))
      && (forall e :: e in diff.deletes ==> Holds(plugins, blocks, did, t, Delete(e)))
      && (forall u :: (forall c :: c in Changes(diff) ==> UriOf(did, c).ToString() != u) ==> Untouched(s, t, u))
  {
    var cs := Changes(diff);
    ChangesCoverDiff(diff);
    forall c | c in cs ensures Holds(plugins, blocks, did, ApplyChanges(plugins, blocks, did, s, cs).state, c) {
      ChangeTakesEffect(plugins, blocks, did, s, cs, c);
    }
    forall u | (forall c :: c in cs ==> UriOf(did, c).ToString() != u)
      ensures Untouched(s, ApplyChanges(plugins, blocks, did, s, cs).state, u)
    {
      OtherAddressesUntouched(plugins, blocks, did, s, cs, u);
    }
  }
}
