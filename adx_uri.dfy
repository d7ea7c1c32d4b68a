/** Record addresses. An `AdxUri` names one record as host (the owning DID),
    collection and record key; its string form `host/collection/recordKey` is
    the primary key of the record catalog and of every plugin table.
    Parsing a URI string into its three parts belongs to a library that is not
    part of this model: the model starts from already-split addresses. */
module AdxUris {

  /** A path segment: parsing splits on '/', so no segment contains one. */
  predicate NoSlash(s: string) {
    forall i :: 0 <= i < |s| ==> s[i] != '/'
  }

  type Segment = s: string | NoSlash(s) witness ""

  /** The scheme prefix of a decentralized identifier (W3C DID v1.0, section 3.1). */
  const DidPrefix: string := "did:"

  predicate HasDidPrefix(host: string) {
    |host| >= |DidPrefix| && host[..|DidPrefix|] == DidPrefix
  }

  datatype AdxUri = AdxUri(host: Segment, collection: Segment, recordKey: Segment) {
    function ToString(): string {
      host + "/" + collection + "/" + recordKey
    }
  }

  /** The key of a diff entry: `collection/recordKey` inside the owner's repository. */
  datatype RecordPath = RecordPath(collection: Segment, recordKey: Segment) {
    function ToString(): string {
      collection + "/" + recordKey
    }
  }

  /** The address `did/key` that the projection builds for a diff entry. */
  function EntryUri(did: Segment, key: RecordPath): (u: AdxUri)
    ensures u.ToString() == did + "/" + key.ToString()
    ensures u.host == did
  {
    var u := AdxUri(did, key.collection, key.recordKey);
    assert u.ToString() == did + "/" + (key.collection + "/" + key.recordKey);
    u
  }

  /** A slash-free prefix in front of a '/' is recovered from the joined string. */
  lemma SplitAtFirstSlash(a: Segment, b: string, c: Segment, d: string)
    requires a + "/" + b == c + "/" + d
    ensures a == c && b == d
  {
    var s := a + "/" + b;
    assert s[|a|] == '/' && s[|c|] == '/';
    assert |a| == |c|;
    assert a == s[..|a|];
    assert c == s[..|c|];
    assert b == s[|a| + 1..];
    assert d == s[|c| + 1..];
  }

  /** Distinct addresses have distinct string forms, so keying the tables by
      the string loses nothing. */
  lemma ToStringInjective(u: AdxUri, v: AdxUri)
    requires u.ToString() == v.ToString()
    ensures u == v
  {
    assert u.ToString() == u.host + "/" + (u.collection + "/" + u.recordKey);
    assert v.ToString() == v.host + "/" + (v.collection + "/" + v.recordKey);
    SplitAtFirstSlash(u.host, u.collection + "/" + u.recordKey, v.host, v.collection + "/" + v.recordKey);
    SplitAtFirstSlash(u.collection, u.recordKey, v.collection, v.recordKey);
  }

  /** Within one repository, distinct diff keys give distinct addresses. */
  lemma EntryUriInjective(did: Segment, k1: RecordPath, k2: RecordPath)
    requires k1.ToString() != k2.ToString()
    ensures EntryUri(did, k1).ToString() != EntryUri(did, k2).ToString()
  {
    var p := did + "/";
    assert k1.ToString() == (p + k1.ToString())[|p|..];
    assert k2.ToString() == (p + k2.ToString())[|p|..];
  }
}
