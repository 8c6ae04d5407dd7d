// Paged scans of a replica: the serving side, and the loop that collects the local manifest.
module ReplicaScan {
  import opened Basics
  import opened Ordering
  import opened ReplicaRecords
  import opened ReplicaStore
  import opened ReplicaWorld

  const MAX_MANIFEST_RECORDS := 100_000

  /** Facts about the wire that the replication code takes from elsewhere. */
  datatype Wire = Wire(
    encodedLen: (Text, Replica) -> nat,     // encoded length of one record header
    acceptsHeader: (Text, Replica) -> bool, // whether `metadata_from_wire` accepts the header
    carries: (Text, Replica) -> bool,       // whether `encode_record` and `receive_record` let the whole record through
    maxFrame: nat)                          // MAX_CONTROL_FRAME_SIZE

  function HeaderLen(wire: Wire, m: Records, id: Text): nat
  {
    if id in m then wire.encodedLen(id, Metadata(m[id])) else 0
  }

  function HeaderBytes(wire: Wire, m: Records, ids: seq<Text>): nat
  {
    if ids == [] then 0 else HeaderBytes(wire, m, ids[..|ids| - 1]) + HeaderLen(wire, m, ids[|ids| - 1])
  }

  function Clamp(limit: int): nat
  {
    if limit < 1 then 1 else if limit > PAGE_LIMIT then PAGE_LIMIT else limit
  }

  /**
   * How many headers go out: at least one, more only within half a control frame, and nothing that still fits waits.
   */
  method CutByBytes(wire: Wire, m: Records, ids: seq<Text>) returns (n: nat)
    ensures n <= |ids| && (n == 0 <==> ids == [])
    ensures n > 1 ==> HeaderBytes(wire, m, ids[..n]) <= wire.maxFrame / 2
    ensures n < |ids| ==> HeaderBytes(wire, m, ids[..n + 1]) > wire.maxFrame / 2
  {
    var bytes := 0;
    n := 0;
    while n < |ids|
      invariant n <= |ids|
      invariant bytes == HeaderBytes(wire, m, ids[..n])
      invariant n > 1 ==> bytes <= wire.maxFrame / 2
    {
      assert ids[..n + 1][..n] == ids[..n];
      var len := HeaderLen(wire, m, ids[n]);
      if n > 0 && bytes + len > wire.maxFrame / 2 {
        return;
      }
      bytes := bytes + len;
      n := n + 1;
    }
  }

  /** The record part of `serve_request`'s Scan branch: cut by count in the store, then by bytes. */
  method ServeScan(wire: Wire, m: Records, cursor: Option<Cursor>, limit: int) returns (page: Page)
    ensures Resumable(m, cursor, page)
    ensures |page.ids| <= 100 && (|page.ids| > 1 ==> |page.ids| <= limit)
    // More than one header is sent only within half a control frame ...
    ensures |page.ids| > 1 ==> HeaderBytes(wire, m, page.ids) <= wire.maxFrame / 2
    // ... and nothing that still fits is held back.
    ensures var all := Listing(m, cursor);
            |page.ids| < 100 && (|page.ids| < 1 || |page.ids| < limit) && page.ids != all ==>
              HeaderBytes(wire, m, all[..|page.ids| + 1]) > wire.maxFrame / 2
  {
    hide HeaderBytes, Listing;
    page := ReplicaPage(m, cursor, Clamp(limit));
    var n := CutByBytes(wire, m, page.ids);
    assert page.ids[..|page.ids|] == page.ids;
    if n < |page.ids| {
      ListingIsExact(m, cursor);
      assert Listing(m, cursor)[..n + 1] == page.ids[..n + 1];
      page := Page(page.ids[..n], Some(CursorOf(m, page.ids[n - 1])));
    }
  }

  /** Definitions of the labels a record is a member of. */
  function Definitions(s: Store, id: Text): Tags
    requires id in s.records
  {
    map tag | tag in s.records[id].memberships && tag in s.tags :: s.tags[tag]
  }

  function WithDefinitions(definitions: map<Text, Tags>, s: Store, ids: seq<Text>): map<Text, Tags>
  {
    definitions + map id | id in ids && id in s.records :: Definitions(s, id)
  }

  ghost predicate PartOf(part: Tags, tags: Tags)
  {
    forall tag :: tag in part ==> tag in tags && part[tag] == tags[tag]
  }

  /** There are definitions for every record of the manifest, all taken from `tags`. */
  ghost predicate DefinedBy(definitions: map<Text, Tags>, manifest: Records, tags: Tags)
  {
    && (forall id :: id in manifest <==> id in definitions)
    && (forall id :: id in definitions ==> PartOf(definitions[id], tags))
  }

  ghost predicate NamedDefinitions(names: Names, definitions: map<Text, Tags>)
  {
    forall id :: id in definitions ==> NamedTags(names, definitions[id])
  }

  lemma NamedPage(names: Names, definitions: map<Text, Tags>, s: Store, ids: seq<Text>)
    requires NamedDefinitions(names, definitions) && NamedTags(names, s.tags)
    ensures NamedDefinitions(names, WithDefinitions(definitions, s, ids))
  {
  }

  lemma DefinedPage(definitions: map<Text, Tags>, manifest: Records, s: Store, ids: seq<Text>)
    requires DefinedBy(definitions, manifest, s.tags)
    ensures DefinedBy(WithDefinitions(definitions, s, ids), WithPage(manifest, s.records, ids), s.tags)
  {
  }

  ghost predicate NamedRecords(names: Names, m: Records)
  {
    forall id :: id in m ==> Named(names, id, m[id])
  }

  /** The scan of `m` has recorded everything but what is pending. */
  ghost predicate Passed(manifest: Records, m: Records, pending: set<Text>)
  {
    && (forall id :: id in manifest <==> id in m && id !in pending)
    && (forall id :: id in manifest ==> manifest[id] == Metadata(m[id]))
  }

  /** Manifests carry no payloads. */
  ghost predicate Headers(manifest: Records)
  {
    forall id :: id in manifest ==> manifest[id].payload == None
  }

  /** A manifest after the records of one page. */
  function WithPage(manifest: Records, m: Records, ids: seq<Text>): Records
  {
    manifest + map id | id in ids && id in m :: Metadata(m[id])
  }

  lemma PassedPage(manifest: Records, m: Records, pending: set<Text>, ids: seq<Text>, after: set<Text>)
    requires Passed(manifest, m, pending) && PageOf(pending, ids, after) && pending <= m.Keys
    ensures Passed(WithPage(manifest, m, ids), m, after)
  {
  }

  lemma PassedAll(manifest: Records, m: Records)
    requires Passed(manifest, m, {})
    ensures manifest == MetadataOf(m)
  {
  }

  lemma PageIsCovered(now: Records, manifest: Records, ids: seq<Text>)
    requires RecordsCover(now, manifest)
    ensures RecordsCover(now, WithPage(manifest, now, ids))
  {
  }

  lemma PageIsNamed(names: Names, now: Records, manifest: Records, ids: seq<Text>)
    requires NamedRecords(names, manifest) && WholeRecords(names, now)
    ensures NamedRecords(names, WithPage(manifest, now, ids))
  {
  }

  lemma CoverAfterPage(names: Names, now: Records, manifest: Records, before: Records, ids: seq<Text>)
    requires RecordsCover(before, manifest) && RecordsCover(now, before)
    requires NamedRecords(names, manifest) && WholeRecords(names, now)
    ensures RecordsCover(now, WithPage(manifest, now, ids))
    ensures NamedRecords(names, WithPage(manifest, now, ids))
  {
    hide RecordsCover, NamedRecords, WholeRecords;
    RecordsCoverTransitive(now, before, manifest);
    PageIsCovered(now, manifest, ids);
    PageIsNamed(names, now, manifest, ids);
  }

  /** What is known of a manifest collected between `w` and `v` while `pending` is still to be read. */
  ghost predicate Scanning(names: Names, w: World, v: World, manifest: Records, pending: set<Text>)
  {
    && Evolves(names, w, v)
    && (v.local.revision == w.local.revision ==> Passed(manifest, w.local.records, pending))
    && (Healthy(names, w) ==> RecordsCover(v.local.records, manifest) && NamedRecords(names, manifest))
  }

  lemma ScanningAwait(names: Names, w: World, u: World, v: World, manifest: Records, pending: set<Text>)
    requires Scanning(names, w, u, manifest, pending) && Evolves(names, u, v)
    ensures Scanning(names, w, v, manifest, pending)
  {
    LaterTransitive(w, u, v);
    if Healthy(names, w) {
      RecordsCoverTransitive(v.local.records, u.local.records, manifest);
    }
  }

  lemma ScanningPage(names: Names, w: World, v: World, manifest: Records, pending: set<Text>, ids: seq<Text>,
                     after: set<Text>)
    requires Scanning(names, w, v, manifest, pending)
    requires PageOf(pending, ids, after) && pending <= v.local.records.Keys
    ensures Scanning(names, w, v, WithPage(manifest, v.local.records, ids), after)
  {
    if v.local.revision == w.local.revision {
      PassedPage(manifest, w.local.records, pending, ids, after);
    }
    if Healthy(names, w) {
      CoverAfterPage(names, v.local.records, manifest, v.local.records, ids);
    }
  }

  /**
   * `local_manifest`. If the local revision stood still the manifest is the whole store; if stores only grow, the
   * store covers the manifest at the end even though the pages were read at different moments.
   */
  method LocalManifest(w: World, ghost names: Names)
    returns (v: World, ok: bool, manifest: Records, definitions: map<Text, Tags>)
    requires Coherent(w)
    ensures ok ==> Scanning(names, w, v, manifest, {})
    ensures Evolves(names, w, v)
    ensures Quiet(w) ==> v == w
    ensures Quiet(w) && |w.local.records| <= MAX_MANIFEST_RECORDS ==> ok
    ensures Quiet(w) ==> DefinedBy(definitions, manifest, w.local.tags)
    ensures LabelsNamed(names, v) ==> NamedDefinitions(names, definitions)
    ensures Headers(manifest) && Coherent(v)
  {
    hide Evolves, Healthy, LabelsNamed, Coherent, WithPage, WithDefinitions, DefinedBy, Below, Scanning, Headers,
         Passed, Resumable, PageOf;
    v, ok, manifest, definitions := w, true, map[], map[];
    ScanningNothing(names, w);
    var cursor: Option<Cursor> := None;
    while true
      invariant Scanning(names, w, v, manifest, Below(v.local.records, cursor))
      invariant Quiet(w) ==> v == w
      invariant Quiet(w) ==> DefinedBy(definitions, manifest, w.local.tags)
      invariant Headers(manifest) && Coherent(v) && Evolves(names, w, v)
      invariant LabelsNamed(names, v) ==> NamedDefinitions(names, definitions)
      decreases Left(v), |Below(v.local.records, cursor)|
    {
      var step, fault, _ := Await(v, names);
      ScanningAwait(names, w, v, step, manifest, Below(v.local.records, cursor));
      EvolvesTransitive(names, w, v, step);
      if fault {
        v, ok := step, false;
        return;
      }
      ScanningFenced(names, w, v, step, manifest, cursor);
      EvolvesNamed(names, v, step);
      v := step;
      var page := ReplicaPage(v.local.records, cursor, PAGE_LIMIT);
      ghost var after := if page.next.None? then {} else Below(v.local.records, page.next);
      if page.next.None? {
        LastPage(v.local.records, cursor, page);
      } else {
        ResumeAfter(v.local.records, cursor, page);
      }
      BelowIsStored(v.local.records, cursor);
      ScanningPage(names, w, v, manifest, Below(v.local.records, cursor), page.ids, after);
      HeadersPage(manifest, v.local.records, page.ids);
      if Quiet(w) {
        DefinedPage(definitions, manifest, v.local, page.ids);
      }
      DefinitionsNamed(names, v, definitions, page.ids);
      manifest := WithPage(manifest, v.local.records, page.ids);
      definitions := WithDefinitions(definitions, v.local, page.ids);
      if |manifest| > MAX_MANIFEST_RECORDS {
        ok := false;
        if Quiet(w) {
          ScannedSize(names, w, manifest, after);
        }
        return;
      }
      if page.next.None? {
        return;
      }
      cursor := page.next;
    }
  }

  lemma DefinitionsNamed(names: Names, v: World, definitions: map<Text, Tags>, ids: seq<Text>)
    requires LabelsNamed(names, v) ==> NamedDefinitions(names, definitions)
    ensures LabelsNamed(names, v) ==> NamedDefinitions(names, WithDefinitions(definitions, v.local, ids))
  {
    if LabelsNamed(names, v) {
      NamedPage(names, definitions, v.local, ids);
    }
  }

  lemma ScanningNothing(names: Names, w: World)
    requires Coherent(w)
    ensures Scanning(names, w, w, map[], Below(w.local.records, None)) && Headers(map[])
    ensures Evolves(names, w, w)
    ensures DefinedBy(map[], map[], w.local.tags)
  {
    EvolvesReflexive(names, w);
  }

  lemma HeadersPage(manifest: Records, m: Records, ids: seq<Text>)
    requires Headers(manifest)
    ensures Headers(WithPage(manifest, m, ids))
  {
  }

  lemma BelowIsStored(m: Records, cursor: Option<Cursor>)
    ensures Below(m, cursor) <= m.Keys
  {
  }

  lemma ScannedSize(names: Names, w: World, manifest: Records, pending: set<Text>)
    requires Scanning(names, w, w, manifest, pending)
    ensures |manifest| <= |w.local.records|
  {
    ManifestSize(manifest, w.local.records);
  }

  lemma ScanningFenced(names: Names, w: World, u: World, v: World, manifest: Records, cursor: Option<Cursor>)
    requires Scanning(names, w, v, manifest, Below(u.local.records, cursor)) && Evolves(names, w, u)
             && Evolves(names, u, v)
    ensures Scanning(names, w, v, manifest, Below(v.local.records, cursor))
  {
  }

  lemma ManifestSize(manifest: Records, m: Records)
    requires manifest.Keys <= m.Keys
    ensures |manifest| <= |m|
  {
    SubsetSize(manifest.Keys, m.Keys);
    assert |manifest| == |manifest.Keys| && |m| == |m.Keys|;
  }
}
