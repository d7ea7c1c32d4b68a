/** The projection of a verified diff into the index (`processDiff`) and
    the order of the steps of the `POST /:did` handler, from
    packages/server/src/routes/v1/data/repo.ts. Loading and verifying the
    repository, the HTTP plumbing and the subscribers are outside the model:
    the diff arrives as three lists, the blockstore as a map from CID to
    content, and the subscribers' answer as a boolean. */
module RepoSync {
  import opened AdxUris
  import opened Index
  import Db

  /** An entry of a diff: the record's path in the repository and the CID of its block. */
  datatype DiffEntry = DiffEntry(key: RecordPath, cid: Cid)

  /** A verified diff: its add, update and delete lists. */
  datatype DataDiff = DataDiff(adds: seq<DiffEntry>, updates: seq<DiffEntry>, deletes: seq<DiffEntry>)

  /** One entry, tagged with the list it came from. */
  datatype Change = Add(entry: DiffEntry) | Update(entry: DiffEntry) | Delete(entry: DiffEntry)

  /** The changes in the order they are handed to `Promise.all`: adds, then updates, then deletes. */
  function Changes(diff: DataDiff): (cs: seq<Change>)
    ensures |cs| == |diff.adds| + |diff.updates| + |diff.deletes|
    ensures forall k :: 0 <= k < |diff.adds| ==> cs[k] == Add(diff.adds[k])
    ensures forall k :: 0 <= k < |diff.updates| ==> cs[|diff.adds| + k] == Update(diff.updates[k])
    ensures forall k :: 0 <= k < |diff.deletes| ==>
      cs[|diff.adds| + |diff.updates| + k] == Delete(diff.deletes[k])
  {
    seq(|diff.adds|, k requires 0 <= k < |diff.adds| => Add(diff.adds[k]))
    + seq(|diff.updates|, k requires 0 <= k < |diff.updates| => Update(diff.updates[k]))
    + seq(|diff.deletes|, k requires 0 <= k < |diff.deletes| => Delete(diff.deletes[k]))
  }

  /** The blockstore, as a function from CID to content; `getUnchecked`
      throws for a CID it does not hold. */
  type Blockstore = map<Cid, Content>

  /** Why a synchronization fails. */
  datatype SyncError =
    | BlockNotFound(cid: Cid)      // the blockstore has no block for the CID
    | IndexFailed(error: DbError)  // `indexRecord` or `deleteRecord` threw
    | NotifyFailed                 // `notifySubscribers` threw

  /** The address `did/key` of a change's record. */
  function UriOf(did: Segment, c: Change): AdxUri {
    EntryUri(did, c.entry.key)
  }

  /** Whether a change fails, and how, decided by the change alone: the
      block load, then the checks of `indexRecord` (adds and updates), or
      the plugin lookup of `deleteRecord` (deletes). */
  function ChangeError(plugins: seq<Plugin>, blocks: Blockstore, did: Segment, c: Change): Option<SyncError>
  {
    var uri := UriOf(did, c);
    if c.Delete? then
      (if FindTable(plugins, uri.collection).Err? then Some(IndexFailed(UnknownCollection)) else None)
    else if c.entry.cid !in blocks then Some(BlockNotFound(c.entry.cid))
    else if Validate(uri).Some? then Some(IndexFailed(Validate(uri).value))
    else if FindTable(plugins, uri.collection).Err? then Some(IndexFailed(UnknownCollection))
    else None
  }

  /** The failure order of one callback: a change fails exactly when it is
      an add or update whose block is missing or whose address fails a
      check, or its collection has no plugin; an add or update reports a
      missing block before any check; a delete fails only on an unknown
      collection. */
  lemma ChangeErrorOrder(plugins: seq<Plugin>, blocks: Blockstore, did: Segment, c: Change)
    ensures var r := ChangeError(plugins, blocks, did, c);
      && (r.None? <==>
            (c.Delete? || (c.entry.cid in blocks && Validate(UriOf(did, c)).None?))
            && FindTable(plugins, UriOf(did, c).collection).Ok?)
      && (c.Delete? ==> r.None? || r == Some(IndexFailed(UnknownCollection)))
      && (!c.Delete? && c.entry.cid !in blocks ==> r == Some(BlockNotFound(c.entry.cid)))
      && (!c.Delete? && c.entry.cid in blocks && Validate(UriOf(did, c)).Some? ==>
            r == Some(IndexFailed(Validate(UriOf(did, c)).value)))
  {
  }

  datatype Outcome = Outcome(state: DbState, error: Option<SyncError>)

  /** What one change's callback does: an add or an update loads the block
      and indexes it at `did/key`; a delete deletes `did/key` without
      loading anything. */
  function ApplyChange(plugins: seq<Plugin>, blocks: Blockstore, did: Segment, s: DbState, c: Change): (o: Outcome)
    requires Shaped(plugins, s)
    ensures Shaped(plugins, o.state) && o.state.roots == s.roots
    ensures o.error == ChangeError(plugins, blocks, did, c)
    ensures o.error.Some? ==> o.state == s
  {
    var uri := UriOf(did, c);
    if c.Delete? then
      match DeleteRecord(plugins, s, uri)
      case Ok(t) => Outcome(t, None)
      case Err(e) => Outcome(s, Some(IndexFailed(e)))
    else if c.entry.cid !in blocks then
      Outcome(s, Some(BlockNotFound(c.entry.cid)))
    else
      match IndexRecord(plugins, s, uri, blocks[c.entry.cid])
      case Ok(t) => Outcome(t, None)
      case Err(e) => Outcome(s, Some(IndexFailed(e)))
  }

  /** `Promise.all` over the changes, as a sequential fold: a failing change
      writes nothing and does not stop the others; the error reported is
      that of the first failing change in list order. */
  function ApplyChanges(plugins: seq<Plugin>, blocks: Blockstore, did: Segment, s: DbState, cs: seq<Change>): (o: Outcome)
    requires Shaped(plugins, s)
    ensures Shaped(plugins, o.state) && o.state.roots == s.roots
    ensures o.error.None? <==> forall c :: c in cs ==> ChangeError(plugins, blocks, did, c).None?
    decreases |cs|
  {
    if cs == [] then Outcome(s, None)
    else
      var prev := ApplyChanges(plugins, blocks, did, s, cs[..|cs| - 1]);
      var last := ApplyChange(plugins, blocks, did, prev.state, cs[|cs| - 1]);
      assert cs == cs[..|cs| - 1] + [cs[|cs| - 1]];
      Outcome(last.state, if prev.error.Some? then prev.error else last.error)
  }

  /** Folding one more change is applying it to the fold so far. */
  lemma ApplyChangesSnoc(plugins: seq<Plugin>, blocks: Blockstore, did: Segment, s: DbState, cs: seq<Change>, c: Change)
    requires Shaped(plugins, s)
    ensures var prev := ApplyChanges(plugins, blocks, did, s, cs);
      var last := ApplyChange(plugins, blocks, did, prev.state, c);
      ApplyChanges(plugins, blocks, did, s, cs + [c])
        == Outcome(last.state, if prev.error.Some? then prev.error else last.error)
  {
    assert (cs + [c])[..|cs|] == cs;
  }

  /** Folding one prefix further is applying the next change to the fold so far. */
  lemma ApplyChangesPrefix(plugins: seq<Plugin>, blocks: Blockstore, did: Segment, s: DbState, cs: seq<Change>, i: nat)
    requires Shaped(plugins, s) && i < |cs|
    ensures var prev := ApplyChanges(plugins, blocks, did, s, cs[..i]);
      var last := ApplyChange(plugins, blocks, did, prev.state, cs[i]);
      ApplyChanges(plugins, blocks, did, s, cs[..i + 1])
        == Outcome(last.state, if prev.error.Some? then prev.error else last.error)
  {
    assert cs[..i + 1] == cs[..i] + [cs[i]];
    ApplyChangesSnoc(plugins, blocks, did, s, cs[..i], cs[i]);
  }

  /** One iteration of the loop in `ProcessChanges`: the outcome over the
      next prefix, from the outcome so far and the next change's outcome. */
  lemma FoldStep(plugins: seq<Plugin>, blocks: Blockstore, did: Segment, s: DbState, cs: seq<Change>, i: nat,
                 before: Outcome, after: Outcome)
    requires Shaped(plugins, s) && i < |cs|
    requires before == ApplyChanges(plugins, blocks, did, s, cs[..i])
    requires after == ApplyChange(plugins, blocks, did, before.state, cs[i])
    ensures Outcome(after.state, if before.error.Some? then before.error else after.error)
         == ApplyChanges(plugins, blocks, did, s, cs[..i + 1])
  {
    ApplyChangesPrefix(plugins, blocks, did, s, cs, i);
  }

  /** The `POST /:did` handler once the diff is verified: project the diff,
      then notify the subscribers, then commit the new root. A failure at
      any step ends the handler, so the root moves only when projection and
      notification both succeeded; projected writes are not rolled back. */
  function Sync(plugins: seq<Plugin>, blocks: Blockstore, did: Segment, newRoot: Cid, diff: DataDiff,
                notified: bool, s: DbState): (o: Outcome)
    requires Shaped(plugins, s)
    ensures var p := ApplyChanges(plugins, blocks, did, s, Changes(diff));
      && (o.error.None? <==> p.error.None? && notified)
      && (p.error.Some? ==> o.error == p.error)
      && (p.error.None? && !notified ==> o.error == Some(NotifyFailed))
      && o.state.catalog == p.state.catalog && o.state.tables == p.state.tables
    ensures o.error.None? ==> GetRepoRoot(o.state, did) == Some(newRoot)
    ensures o.error.Some? ==> o.state.roots == s.roots
    ensures forall d :: d != did ==> GetRepoRoot(o.state, d) == GetRepoRoot(s, d)
  {
    var projected := ApplyChanges(plugins, blocks, did, s, Changes(diff));
    if projected.error.Some? then projected
    else if !notified then Outcome(projected.state, Some(NotifyFailed))
    else Outcome(SetRepoRoot(projected.state, did, newRoot), None)
  }

  /** The callback `processDiff` runs for one change. */
  method ProjectChange(db: Db.Database, blocks: Blockstore, did: Segment, c: Change) returns (failure: Option<SyncError>)
    requires db.Valid()
    modifies db
    ensures db.Valid()
    ensures Outcome(db.State(), failure) == ApplyChange(db.plugins, blocks, did, old(db.State()), c)
  {
    var uri := UriOf(did, c);
    if c.Delete? {
      var e := db.DeleteRecord(uri);
      failure := if e.Some? then Some(IndexFailed(e.value)) else None;
    } else if c.entry.cid !in blocks {
      failure := Some(BlockNotFound(c.entry.cid));
    } else {
      var loaded := blocks[c.entry.cid];
      var e := db.IndexRecord(uri, loaded);
      failure := if e.Some? then Some(IndexFailed(e.value)) else None;
    }
  }

  /** The changes of `processDiff`, each run through its callback in turn. */
  method ProcessChanges(db: Db.Database, blocks: Blockstore, did: Segment, cs: seq<Change>) returns (err: Option<SyncError>)
    requires db.Valid()
    modifies db
    ensures db.Valid()
    ensures Outcome(db.State(), err) == ApplyChanges(db.plugins, blocks, did, old(db.State()), cs)
  {
    ghost var start := db.State();
    err := None;
    var i := 0;
    assert cs[..0] == [];
    while i < |cs|
      invariant 0 <= i <= |cs|
      invariant db.Valid()
      invariant Outcome(db.State(), err) == ApplyChanges(db.plugins, blocks, did, start, cs[..i])
    {
      ghost var before := Outcome(db.State(), err);
      var failure := ProjectChange(db, blocks, did, cs[i]);
      FoldStep(db.plugins, blocks, did, start, cs, i, before, Outcome(db.State(), failure));
      if err.None? {
        err := failure;
      }
      i := i + 1;
    }
    assert cs[..|cs|] == cs;
  }

  /** `processDiff`: every change of the diff applied to the database. */
  method ProcessDiff(db: Db.Database, blocks: Blockstore, did: Segment, diff: DataDiff) returns (err: Option<SyncError>)
    requires db.Valid()
    modifies db
    ensures db.Valid()
    ensures Outcome(db.State(), err) == ApplyChanges(db.plugins, blocks, did, old(db.State()), Changes(diff))
  {
    err := ProcessChanges(db, blocks, did, Changes(diff));
  }

  /** The `POST /:did` handler: `processDiff`, then `notifySubscribers`
      (whose outcome is `notified`), then `setRepoRoot(did, newRoot)`. */
  method PostRepo(db: Db.Database, blocks: Blockstore, did: Segment, newRoot: Cid, diff: DataDiff,
                  notified: bool) returns (err: Option<SyncError>)
    requires db.Valid()
    modifies db
    ensures db.Valid()
    ensures Outcome(db.State(), err) == Sync(db.plugins, blocks, did, newRoot, diff, notified, old(db.State()))
  {
    err := ProcessDiff(db, blocks, did, diff);
    if err.Some? {
      return;
    }
    if !notified {
      err := Some(NotifyFailed);
      return;
    }
    db.SetRepoRoot(did, newRoot);
  }
}
