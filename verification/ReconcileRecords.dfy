// The record part of one reconciliation pass: receiving what the local replica lacks, then sending what the remote
// replica lacks.
module ReconcileRecords {
  import opened Basics
  import opened Ordering
  import opened ReplicaRecords
  import opened ReplicaStore
  import opened ReplicaWorld
  import opened ReplicaScan
  import opened ReconcileLabels

  function Failure(t: Tally): Tally
  {
    t.(failed := t.failed + 1)
  }

  function Difference(t: Tally): Tally
  {
    t.(differences := t.differences + 1)
  }

  /** `n` records were received, each of them a difference. */
  function Taken(t: Tally, n: nat): Tally
  {
    t.(received := t.received + n, differences := t.differences + n)
  }

  /** `n` records were sent, each of them a difference. */
  function Given(t: Tally, n: nat): Tally
  {
    t.(sent := t.sent + n, differences := t.differences + n)
  }

  predicate CoveredBy(manifest: Records, id: Text, r: Replica)
  {
    id in manifest && Covers(manifest[id], r)
  }

  /** The manifest's entry for `id` is the store's, without payload. */
  ghost predicate Current(manifest: Records, m: Records, id: Text)
  {
    (id in manifest <==> id in m) && (id in manifest ==> manifest[id] == Metadata(m[id]))
  }

  // ---------- One transfer ----------

  /** Where no payload is needed, merging the metadata is merging the record. */
  lemma MetadataSuffices(names: Names, m: Records, manifest: Records, id: Text, r: Replica)
    requires Current(manifest, m, id) && Whole(names, id, r)
    requires !NeedsPayload(Get(manifest, id), Metadata(r))
    ensures MergeInto(m, id, Metadata(r)) == MergeInto(m, id, r)
  {
  }

  /** A covered record merges to nothing. */
  lemma CoveredMerge(m: Records, manifest: Records, id: Text, r: Replica)
    requires Current(manifest, m, id) && CoveredBy(manifest, id, Metadata(r))
    ensures MergeInto(m, id, r) == m
  {
    MergeAbsorbs(m[id], r);
  }

  /** The manifest tells exactly whether the store covers a record. */
  lemma CoveredInStore(m: Records, manifest: Records, id: Text, r: Replica)
    requires Current(manifest, m, id)
    ensures CoveredBy(manifest, id, Metadata(r)) <==> id in m && Covers(m[id], r)
    ensures CoveredBy(manifest, id, Metadata(r)) <==> CoveredBy(manifest, id, r)
    ensures id in m ==> (Covers(m[id], Metadata(r)) <==> Covers(m[id], r))
  {
  }

  lemma NewerOneMore(a: Records, b: Records, done: set<Text>, id: Text)
    requires id in b && id !in done
    ensures |NewerRecords(a, OnlyRecords(b, done + {id}))| ==
              |NewerRecords(a, OnlyRecords(b, done))| + if id in a && Covers(a[id], b[id]) then 0 else 1
  {
    hide Covers;
    var before, after := NewerRecords(a, OnlyRecords(b, done)), NewerRecords(a, OnlyRecords(b, done + {id}));
    assert id !in before;
    assert after == before + if id in a && Covers(a[id], b[id]) then {} else {id};
  }

  /** Stores that grow keep a transfer safe. */
  lemma SafeTransferGrows(now: Records, before: Records, id: Text, r: Replica)
    requires RecordsCover(now, before) && SafeTransfer(Get(before, id), r)
    ensures SafeTransfer(Get(now, id), r)
  {
    if id in before && VersionLe(r.content, before[id].content) {
      VersionTransitive(r.content, before[id].content, now[id].content);
    }
  }

  /**
   * The key to sending metadata alone: a decision taken against an old manifest is safe against the store it is applied
   * to, because that store has grown to cover the manifest.
   */
  lemma StaleDecisionIsSafe(now: Records, manifest: Records, id: Text, r: Replica)
    requires RecordsCover(now, manifest)
    requires !NeedsPayload(Get(manifest, id), r) && r.payload == None
    ensures SafeTransfer(Get(now, id), r)
  {
    if !r.deleted {
      VersionTotal(manifest[id].content, r.content);
      VersionTransitive(r.content, manifest[id].content, now[id].content);
    }
  }

  /**
   * A complete record against the store a manifest was taken of: what is transferred of it merges as the record does,
   * and the manifest tells whether that changes anything.
   */
  lemma TransferMerges(names: Names, m: Records, manifest: Records, id: Text, r: Replica)
    requires Current(manifest, m, id) && Whole(names, id, r)
    ensures var header := Metadata(r);
            && (CoveredBy(manifest, id, header) ==> MergeInto(m, id, r) == m)
            && (!NeedsPayload(Get(manifest, id), header) ==> MergeInto(m, id, header) == MergeInto(m, id, r))
            && (CoveredBy(manifest, id, header) <==> id in m && Covers(m[id], r))
            && (CoveredBy(manifest, id, header) <==> id in m && Covers(m[id], header))
  {
    hide Whole, Covers, MergeInto, NeedsPayload;
    CoveredInStore(m, manifest, id, r);
    if CoveredBy(manifest, id, Metadata(r)) {
      CoveredMerge(m, manifest, id, r);
    }
    if !NeedsPayload(Get(manifest, id), Metadata(r)) {
      MetadataSuffices(names, m, manifest, id, r);
    }
  }

  /** Without writers: a complete record that the wire carries. */
  ghost predicate Receivable(names: Names, wire: Wire, w: World, local: Records, id: Text, header: Replica)
  {
    && Quiet(w) && id in w.remote.records && header == Metadata(w.remote.records[id])
    && Current(local, w.local.records, id) && Whole(names, id, w.remote.records[id])
    && wire.carries(id, w.remote.records[id])
  }

  lemma ReceivableMerges(names: Names, wire: Wire, w: World, local: Records, id: Text, header: Replica)
    requires Receivable(names, wire, w, local, id, header)
    ensures id in w.remote.records && header == Metadata(w.remote.records[id])
    ensures var r, m := w.remote.records[id], w.local.records;
            && (CoveredBy(local, id, header) ==> MergeInto(m, id, r) == m)
            && (!NeedsPayload(Get(local, id), header) ==> MergeInto(m, id, header) == MergeInto(m, id, r))
            && (CoveredBy(local, id, header) <==> id in m && Covers(m[id], r))
            && (CoveredBy(local, id, header) <==> id in m && Covers(m[id], header))
  {
    hide Whole, Covers, MergeInto, NeedsPayload;
    TransferMerges(names, w.local.records, local, id, w.remote.records[id]);
  }

  /** Receives a header that the manifest does not cover: merges it, or fetches the record and merges that. */
  method PullUncovered(wire: Wire, w: World, local: Records, id: Text, header: Replica, ghost names: Names)
    returns (v: World, ok: bool, changed: bool)
    requires Coherent(w) && header.payload == None && !CoveredBy(local, id, header)
    requires Healthy(names, w) ==> Named(names, id, header) && RecordsCover(w.local.records, local)
    ensures Evolves(names, w, v) && Coherent(v)
    ensures Quiet(w) ==> Quiet(v) && v.remote == w.remote
    ensures Receivable(names, wire, w, local, id, header) ==>
              && ok && changed && id in w.remote.records && v.local.tags == w.local.tags
              && v.local.records == MergeInto(w.local.records, id, w.remote.records[id])
  {
    hide Evolves, Coherent, Healthy, LabelsNamed, Named, Whole, Covers, MergeInto, Merge, RecordsCover, NeedsPayload,
         CoveredBy;
    if Receivable(names, wire, w, local, id, header) {
      ReceivableMerges(names, wire, w, local, id, header);
    }
    var u, fault, _ := Await(w, names);
    if fault {
      return u, false, false;
    }
    var incoming := header;
    if NeedsPayload(Get(local, id), header) {
      var x, lost, _ := Await(u, names);
      EvolvesTransitive(names, w, u, x);
      u := x;
      if lost || id !in u.remote.records || !wire.carries(id, u.remote.records[id]) {
        return u, false, false;
      }
      incoming := u.remote.records[id];
    }
    var x, rejected, _ := Await(u, names);
    EvolvesTransitive(names, w, u, x);
    if rejected {
      return x, false, false;
    }
    if Healthy(names, w) {
      PullIsSafe(names, w, u, x, local, id, header, incoming);
    }
    v, changed := StoreLocally(x, id, incoming, names);
    EvolvesThrough(names, w, x, v);
    ok := true;
  }

  /** Receives one scanned header: skip, merge the metadata, or fetch the record and merge that. */
  method PullOne(wire: Wire, w: World, local: Records, id: Text, header: Replica, tally: Tally, ghost names: Names)
    returns (v: World, t: Tally)
    requires Coherent(w) && header.payload == None
    requires Healthy(names, w) ==> Named(names, id, header) && RecordsCover(w.local.records, local)
    ensures Evolves(names, w, v) && Coherent(v) && Counts(tally, t)
    ensures Clean(tally, t) ==> CoveredBy(local, id, header)
    ensures CoveredBy(local, id, header) ==> v == w && t == tally
    ensures Quiet(w) ==> Quiet(v) && v.remote == w.remote
    ensures Receivable(names, wire, w, local, id, header) ==>
              && id in w.remote.records && v.local.tags == w.local.tags
              && t == (if CoveredBy(local, id, header) then tally else Taken(tally, 1))
              && v.local.records == MergeInto(w.local.records, id, w.remote.records[id])
  {
    hide Evolves, Coherent, Healthy, LabelsNamed, Named, Covers, MergeInto, RecordsCover, Receivable, CoveredBy;
    EvolvesReflexive(names, w);
    v, t := w, tally;
    if CoveredBy(local, id, header) {
      if Receivable(names, wire, w, local, id, header) {
        ReceivableMerges(names, wire, w, local, id, header);
      }
      return;
    }
    t := Difference(t);
    var ok, changed;
    v, ok, changed := PullUncovered(wire, w, local, id, header, names);
    if !ok {
      t := Failure(t);
    } else if changed {
      t := t.(received := t.received + 1);
    }
  }

  lemma PullIsSafe(names: Names, w: World, u: World, x: World, local: Records, id: Text, header: Replica,
                   incoming: Replica)
    requires Healthy(names, w) && Evolves(names, w, u) && Evolves(names, u, x) && Evolves(names, w, x)
    requires Named(names, id, header) && RecordsCover(w.local.records, local) && header.payload == None
    requires if NeedsPayload(Get(local, id), header) then id in u.remote.records && incoming == u.remote.records[id]
             else incoming == header
    ensures Named(names, id, incoming) && SafeTransfer(Get(x.local.records, id), incoming)
  {
    if !NeedsPayload(Get(local, id), header) {
      StaleDecisionIsSafe(w.local.records, local, id, header);
      SafeTransferGrows(x.local.records, w.local.records, id, header);
    }
  }

  lemma StillSafe(names: Names, w: World, v: World, id: Text, r: Replica)
    requires Healthy(names, w) && Evolves(names, w, v) && SafeTransfer(Get(w.remote.records, id), r)
    ensures SafeTransfer(Get(v.remote.records, id), r)
  {
    SafeTransferGrows(v.remote.records, w.remote.records, id, r);
  }

  /** The last step merged the record into the remote store, which `changed` unless it was covered there. */
  ghost predicate Stored(v: World, id: Text, r: Replica, changed: bool)
  {
    && |v.history| > 1
    && var before := v.history[|v.history| - 2].remote.records;
    && v.remote.records == MergeInto(before, id, r) && (changed <==> !(id in before && Covers(before[id], r)))
  }

  /** `send_record`: ask whether there is room, deliver the label definitions, then the record. */
  method SendRecord(wire: Wire, w: World, id: Text, outgoing: Replica, includePayload: bool, tags: Tags,
                    ghost names: Names)
    returns (v: World, ok: bool, changed: bool)
    requires Coherent(w)
    requires Healthy(names, w) ==> Named(names, id, outgoing) && SafeTransfer(Get(w.remote.records, id), outgoing)
    requires LabelsNamed(names, w) ==> NamedTags(names, tags)
    ensures Evolves(names, w, v) && Coherent(v)
    ensures ok ==> Stored(v, id, outgoing, changed)
    ensures ok ==> if includePayload then wire.acceptsHeader(id, Metadata(outgoing)) && wire.carries(id, outgoing)
                   else wire.acceptsHeader(id, Metadata(outgoing))
    ensures !ok ==> !changed && (Quiet(w) ==> v.remote.records == w.remote.records)
    ensures Quiet(w) ==> Quiet(v) && v.local == w.local
    ensures Quiet(w) && TagsCover(w.remote.tags, tags) && LabelsPass(tags) && wire.acceptsHeader(id, Metadata(outgoing))
            && (includePayload ==> wire.carries(id, outgoing)) ==>
              && ok && Quiet(v) && v.local == w.local && v.remote.tags == w.remote.tags
              && v.remote.records == MergeInto(w.remote.records, id, outgoing)
              && (changed <==> !(id in w.remote.records && Covers(w.remote.records[id], outgoing)))
  {
    hide Evolves, Healthy, LabelsNamed, Named, MergeInto, TagsCover, MergeTags, SafeTransfer, LabelsPass, Covers;
    EvolvesReflexive(names, w);
    var u, refused := w, false;
    if includePayload {
      var asked, refusal, _ := Await(w, names);
      u, refused := asked, refusal || !wire.acceptsHeader(id, Metadata(outgoing));
    }
    if refused {
      return u, false, false;
    }
    EvolvesNamed(names, w, u);
    var x, delivered, _, _ := SendTags(u, tags, names);
    EvolvesTransitive(names, w, u, x);
    if !delivered {
      return x, false, false;
    }
    var y, lost, _ := Await(x, names);
    EvolvesTransitive(names, w, x, y);
    if lost || !(if includePayload then wire.carries(id, outgoing) else wire.acceptsHeader(id, Metadata(outgoing))) {
      return y, false, false;
    }
    if Healthy(names, w) {
      StillSafe(names, w, y, id, outgoing);
    }
    v, changed := StoreRemotely(y, id, outgoing, names);
    EvolvesThrough(names, w, y, v);
    ok := true;
  }

  /** Without writers: a complete record that the wire carries, and whose labels the peer has. */
  ghost predicate Sendable(names: Names, wire: Wire, w: World, remote: Records, id: Text, header: Replica,
                           definitions: Tags)
  {
    && Quiet(w) && id in w.local.records && header == Metadata(w.local.records[id])
    && Current(remote, w.remote.records, id) && Whole(names, id, w.local.records[id])
    && TagsCover(w.remote.tags, definitions) && TagsCover(w.remote.tags, Definitions(w.local, id))
    && LabelsPass(definitions) && LabelsPass(Definitions(w.local, id))
    && wire.acceptsHeader(id, header) && wire.carries(id, w.local.records[id])
  }

  /** What is sent of it merges as the record does, and the manifest tells whether that changes anything. */
  lemma SendableMerges(names: Names, wire: Wire, w: World, remote: Records, id: Text, header: Replica,
                       definitions: Tags)
    requires Sendable(names, wire, w, remote, id, header, definitions)
    ensures id in w.local.records
    ensures var r, m := w.local.records[id], w.remote.records;
            && header == Metadata(r) && Metadata(header) == header
            && (CoveredBy(remote, id, header) ==> MergeInto(m, id, r) == m)
            && (!NeedsPayload(Get(remote, id), header) ==> MergeInto(m, id, header) == MergeInto(m, id, r))
            && (CoveredBy(remote, id, header) <==> id in m && Covers(m[id], r))
            && (CoveredBy(remote, id, header) <==> id in m && Covers(m[id], header))
  {
    hide Whole, Covers, MergeInto, NeedsPayload, TagsCover, LabelsPass, Definitions;
    TransferMerges(names, w.remote.records, remote, id, w.local.records[id]);
  }

  /** Sends a record that the manifest does not cover: its metadata, or, freshly loaded, the record with its payload. */
  method PushUncovered(wire: Wire, w: World, remote: Records, id: Text, header: Replica, definitions: Tags,
                       ghost names: Names)
    returns (v: World, ok: bool, changed: bool)
    requires Coherent(w) && header.payload == None && !CoveredBy(remote, id, header)
    requires Healthy(names, w) ==> Named(names, id, header) && RecordsCover(w.remote.records, remote)
    requires LabelsNamed(names, w) ==> NamedTags(names, definitions)
    ensures Evolves(names, w, v) && Coherent(v)
    ensures Quiet(w) ==> Quiet(v) && v.local == w.local
    ensures Quiet(w) && id in w.local.records && header == Metadata(w.local.records[id])
            && !wire.acceptsHeader(id, header) ==>
              !ok
    ensures Sendable(names, wire, w, remote, id, header, definitions) ==>
              && ok && changed && id in w.local.records && v.remote.tags == w.remote.tags
              && v.remote.records == MergeInto(w.remote.records, id, w.local.records[id])
  {
    hide Evolves, Coherent, Healthy, LabelsNamed, Named, Whole, Covers, MergeInto, Merge, RecordsCover, NeedsPayload,
         TagsCover, Definitions, SafeTransfer, LabelsPass, NamedTags, CoveredBy;
    if Sendable(names, wire, w, remote, id, header, definitions) {
      SendableMerges(names, wire, w, remote, id, header, definitions);
    }
    if NeedsPayload(Get(remote, id), header) {
      var x, fault, _ := Await(w, names);
      if fault || id !in x.local.records {
        return x, false, false;
      }
      if Healthy(names, x) {
        LoadedIsSafe(names, x, id);
      }
      LoadedIsNamed(names, x, id);
      v, ok, changed := SendRecord(wire, x, id, x.local.records[id], true, Definitions(x.local, id), names);
      EvolvesTransitive(names, w, x, v);
    } else {
      if Healthy(names, w) {
        StaleDecisionIsSafe(w.remote.records, remote, id, header);
      }
      v, ok, changed := SendRecord(wire, w, id, header, false, definitions, names);
    }
  }

  /** Sends one local record: skip, send its metadata, or load it and send it with its payload. */
  method PushOne(wire: Wire, w: World, remote: Records, id: Text, header: Replica, definitions: Tags, tally: Tally,
                 ghost names: Names)
    returns (v: World, t: Tally)
    requires Coherent(w) && header.payload == None
    requires Healthy(names, w) ==> Named(names, id, header) && RecordsCover(w.remote.records, remote)
    requires LabelsNamed(names, w) ==> NamedTags(names, definitions)
    ensures Evolves(names, w, v) && Coherent(v) && Counts(tally, t)
    ensures Clean(tally, t) ==> CoveredBy(remote, id, header)
    ensures CoveredBy(remote, id, header) ==> v == w && t == tally
    ensures Quiet(w) ==> Quiet(v) && v.local == w.local
    ensures Quiet(w) && id in w.local.records && header == Metadata(w.local.records[id])
            && !CoveredBy(remote, id, header) && !wire.acceptsHeader(id, header) ==>
              t.failed > tally.failed
    ensures Sendable(names, wire, w, remote, id, header, definitions) ==>
              && id in w.local.records && v.remote.tags == w.remote.tags
              && t == (if CoveredBy(remote, id, header) then tally else Given(tally, 1))
              && v.remote.records == MergeInto(w.remote.records, id, w.local.records[id])
  {
    hide Evolves, Coherent, Healthy, LabelsNamed, Named, Covers, MergeInto, RecordsCover, Sendable, NamedTags,
         CoveredBy;
    EvolvesReflexive(names, w);
    v, t := w, tally;
    if CoveredBy(remote, id, header) {
      if Sendable(names, wire, w, remote, id, header, definitions) {
        SendableMerges(names, wire, w, remote, id, header, definitions);
      }
      return;
    }
    t := Difference(t);
    var ok, changed;
    v, ok, changed := PushUncovered(wire, w, remote, id, header, definitions, names);
    if !ok {
      t := Failure(t);
    } else if changed {
      t := t.(sent := t.sent + 1);
    }
  }

  lemma LoadedIsNamed(names: Names, x: World, id: Text)
    requires id in x.local.records
    ensures LabelsNamed(names, x) ==> NamedTags(names, Definitions(x.local, id))
  {
  }

  lemma LoadedIsSafe(names: Names, x: World, id: Text)
    requires Healthy(names, x) && id in x.local.records
    ensures Named(names, id, x.local.records[id]) && SafeTransfer(Get(x.remote.records, id), x.local.records[id])
  {
  }

  // ---------- Receiving ----------

  function OnlyRecords(m: Records, ids: set<Text>): Records
  {
    map id | id in m && id in ids :: m[id]
  }

  /**
   * Receiving between `w` and `v` with the local manifest `local`: `remote` is what was scanned, `pending` what the
   * remote store still has to show.
   */
  ghost predicate Pulling(names: Names, w: World, v: World, local: Records, remote: Records, pending: set<Text>,
                          tally: Tally, t: Tally)
  {
    && Evolves(names, w, v) && Counts(tally, t)
    && (t.failed == tally.failed && v.remote.revision == w.remote.revision ==>
          Passed(remote, w.remote.records, pending))
    && (Clean(tally, t) ==> RecordsCover(local, remote))
    && (Healthy(names, w) ==> RecordsCover(v.remote.records, remote) && NamedRecords(names, remote))
  }

  /** Without writers, receiving merges the records scanned so far and touches nothing else. */
  ghost predicate QuietPull(w: World, v: World, local: Records, done: set<Text>, tally: Tally, t: Tally)
  {
    && Quiet(v) && v.remote == w.remote && v.local.tags == w.local.tags
    && t == Taken(tally, |NewerRecords(w.local.records, OnlyRecords(w.remote.records, done))|)
    && v.local.records == MergeRecords(w.local.records, OnlyRecords(w.remote.records, done))
    && (RecordsCover(local, w.remote.records) ==> v == w && t == tally)
  }

  /** The header of one record is handled. */
  lemma PullingOne(names: Names, w: World, u: World, v: World, local: Records, remote: Records, pending: set<Text>,
                   id: Text, header: Replica, tally: Tally, t: Tally, next: Tally)
    requires Pulling(names, w, u, local, remote, pending, tally, t) && Evolves(names, u, v) && Counts(t, next)
    requires Clean(t, next) ==> CoveredBy(local, id, header)
    requires v.remote.revision == w.remote.revision ==>
               id in w.remote.records && id in pending && header == Metadata(w.remote.records[id])
    requires Healthy(names, w) ==>
               Named(names, id, header) && id in u.remote.records && Covers(u.remote.records[id], header)
    ensures Pulling(names, w, v, local, remote[id := header], pending - {id}, tally, next)
  {
    hide Evolves, Healthy, LabelsNamed, Named, Covers;
    EvolvesTransitive(names, w, u, v);
    EvolvesFenced(names, u, v);
    EvolvesFenced(names, w, u);
    if Healthy(names, w) {
      HealthyGrew(names, w, u);
      HealthyGrew(names, u, v);
      CoverOneMore(v.remote.records, u.remote.records, remote, id, header);
    }
  }

  lemma HealthyGrew(names: Names, w: World, v: World)
    requires Healthy(names, w) && Evolves(names, w, v)
    ensures Healthy(names, v) && RecordsCover(v.remote.records, w.remote.records)
            && RecordsCover(v.local.records, w.local.records)
  {
  }

  lemma CoverOneMore(now: Records, before: Records, manifest: Records, id: Text, r: Replica)
    requires RecordsCover(now, before) && RecordsCover(before, manifest) && id in before && Covers(before[id], r)
    ensures RecordsCover(now, manifest[id := r])
  {
    RecordsCoverTransitive(now, before, manifest);
    CoversTransitive(now[id], before[id], r);
  }

  /** A header that does not parse counts as a failure and is not recorded. */
  lemma PullingSkip(names: Names, w: World, v: World, local: Records, remote: Records, pending: set<Text>, id: Text,
                    tally: Tally, t: Tally)
    requires Pulling(names, w, v, local, remote, pending, tally, t)
    ensures Pulling(names, w, v, local, remote, pending - {id}, tally, Failure(t))
  {
  }

  lemma QuietPullOne(w: World, u: World, v: World, local: Records, done: set<Text>, id: Text, tally: Tally, t: Tally,
                     next: Tally)
    requires QuietPull(w, u, local, done, tally, t) && id in w.remote.records && id !in done
    requires Quiet(v) && v.remote == u.remote && v.local.tags == u.local.tags
    requires Current(local, w.local.records, id)
    requires next == if CoveredBy(local, id, Metadata(w.remote.records[id])) then t else Taken(t, 1)
    requires v.local.records == MergeInto(u.local.records, id, w.remote.records[id])
    requires CoveredBy(local, id, Metadata(w.remote.records[id])) ==> v == u
    ensures QuietPull(w, v, local, done + {id}, tally, next)
  {
    hide Covers, MergeInto, NewerRecords, OnlyRecords, MergeRecords;
    CoveredInStore(w.local.records, local, id, w.remote.records[id]);
    NewerOneMore(w.local.records, w.remote.records, done, id);
    MergeOneMore(w.local.records, w.remote.records, done, id);
  }

  lemma MergeOneMore(a: Records, b: Records, done: set<Text>, id: Text)
    requires id in b && id !in done
    ensures MergeInto(MergeRecords(a, OnlyRecords(b, done)), id, b[id]) == MergeRecords(a, OnlyRecords(b, done + {id}))
  {
    hide Merge;
  }

  /** The wire lets every record through, as a header and whole. */
  ghost predicate RecordsPass(wire: Wire, m: Records)
  {
    forall id :: id in m ==> wire.acceptsHeader(id, Metadata(m[id])) && wire.carries(id, m[id])
  }

  /** A reconciliation without writers or failures, and with a remote store within the limits. */
  ghost predicate QuietReceiver(names: Names, wire: Wire, w: World, local: Records)
  {
    && Quiet(w) && local == MetadataOf(w.local.records) && WholeRecords(names, w.remote.records)
    && |w.remote.records| <= MAX_MANIFEST_RECORDS && RecordsPass(wire, w.remote.records)
  }

  /** Headers read at `u` may still be handled at `v`. */
  lemma PullReady(names: Names, w: World, u: World, v: World, local: Records, id: Text)
    requires Evolves(names, w, u) && Evolves(names, u, v) && id in u.remote.records
    requires Healthy(names, w) ==> RecordsCover(w.local.records, local)
    ensures Healthy(names, v) ==> Healthy(names, w)
    ensures Healthy(names, w) ==>
              && Named(names, id, Metadata(u.remote.records[id]))
              && RecordsCover(v.local.records, local)
              && id in v.remote.records && Covers(v.remote.records[id], Metadata(u.remote.records[id]))
  {
    if Healthy(names, w) {
      HealthyGrew(names, w, u);
      HealthyGrew(names, u, v);
      RecordsCoverTransitive(v.local.records, u.local.records, w.local.records);
      RecordsCoverTransitive(v.local.records, w.local.records, local);
    }
  }

  lemma QuietPullReady(names: Names, wire: Wire, w: World, v: World, local: Records, done: set<Text>, tally: Tally,
                       t: Tally, id: Text)
    requires QuietReceiver(names, wire, w, local) && QuietPull(w, v, local, done, tally, t)
             && id in w.remote.records && id !in done
    ensures Current(local, v.local.records, id) && Current(local, w.local.records, id)
    ensures Whole(names, id, w.remote.records[id])
    ensures wire.acceptsHeader(id, Metadata(w.remote.records[id])) && wire.carries(id, w.remote.records[id])
  {
  }

  /** The records of one page are handled in turn. */
  method PullPage(wire: Wire, ghost w: World, u: World, local: Records, scanned: Records, ids: seq<Text>,
                  ghost pending: set<Text>, ghost done: set<Text>, ghost tally: Tally, t0: Tally, ghost names: Names)
    returns (v: World, ok: bool, remote: Records, t: Tally)
    requires Coherent(u) && Pulling(names, w, u, local, scanned, pending, tally, t0)
    requires Unique(ids) && forall id :: id in ids ==> id in pending && id in u.remote.records
    requires Healthy(names, w) ==> RecordsCover(w.local.records, local)
    ensures Evolves(names, w, v) && Evolves(names, u, v) && Coherent(v) && Counts(tally, t)
    ensures Quiet(u) ==> Quiet(v) && v.remote == u.remote
    ensures ok ==> Pulling(names, w, v, local, remote, pending - ElementsOf(ids), tally, t)
    ensures QuietReceiver(names, wire, w, local) && QuietPull(w, u, local, done, tally, t0)
            && ElementsOf(ids) !! done ==>
              ok && QuietPull(w, v, local, done + ElementsOf(ids), tally, t)
  {
    hide Evolves, Healthy, LabelsNamed, Coherent, Named, Covers, Pulling, QuietPull, Passed, RecordsCover,
         QuietReceiver, Whole, Current, Quiet, Counts, CoveredBy, MergeInto;
    v, ok, remote, t := u, true, scanned, t0;
    ghost var quiet :=
      QuietReceiver(names, wire, w, local) && QuietPull(w, u, local, done, tally, t0) && ElementsOf(ids) !! done;
    EvolvesReflexive(names, u);
    PullingEvolves(names, w, u, local, scanned, pending, tally, t0);
    NoneHandledYet(ids, pending, done);
    var i := 0;
    while i < |ids|
      invariant 0 <= i <= |ids|
      invariant Coherent(v) && Evolves(names, u, v) && Evolves(names, w, v)
      invariant Quiet(u) ==> Quiet(v) && v.remote == u.remote
      invariant Pulling(names, w, v, local, remote, pending - ElementsOf(ids[..i]), tally, t)
      invariant quiet ==> QuietPull(w, v, local, done + ElementsOf(ids[..i]), tally, t)
    {
      var id := ids[i];
      var header := Metadata(u.remote.records[id]);
      ghost var handled := ids[..i];
      NextHandled(ids, i, pending, done);
      PullReady(names, w, u, v, local, id);
      if quiet {
        QuietRemote(w, u, local, done, tally, t0);
        QuietRemote(w, v, local, done + ElementsOf(handled), tally, t);
        QuietPullReady(names, wire, w, v, local, done + ElementsOf(handled), tally, t, id);
      }
      if !wire.acceptsHeader(id, header) {
        PullingSkip(names, w, v, local, remote, pending - ElementsOf(handled), id, tally, t);
        t := Failure(t);
      } else {
        var x, next := PullOne(wire, v, local, id, header, t, names);
        EvolvesTransitive(names, w, v, x);
        EvolvesTransitive(names, u, v, x);
        RemoteStoodStill(names, w, u, x);
        PullingOne(names, w, v, x, local, remote, pending - ElementsOf(handled), id, header, tally, t, next);
        if quiet {
          QuietPullOne(w, v, x, local, done + ElementsOf(handled), id, tally, t, next);
        }
        v, t, remote := x, next, remote[id := header];
        PullingEvolves(names, w, v, local, remote, pending - ElementsOf(ids[..i + 1]), tally, t);
        if |remote| > MAX_MANIFEST_RECORDS {
          if quiet {
            QuietSize(names, wire, w, v, local, remote, pending - ElementsOf(ids[..i + 1]),
                      done + ElementsOf(ids[..i + 1]), tally, t);
          }
          ok := false;
          return;
        }
      }
      i := i + 1;
    }
    assert ids[..i] == ids;
    PullingEvolves(names, w, v, local, remote, pending - ElementsOf(ids), tally, t);
  }

  lemma PullingEvolves(names: Names, w: World, v: World, local: Records, remote: Records, pending: set<Text>,
                       tally: Tally, t: Tally)
    requires Pulling(names, w, v, local, remote, pending, tally, t)
    ensures Evolves(names, w, v) && Counts(tally, t)
  {
  }

  lemma NoneHandledYet(ids: seq<Text>, pending: set<Text>, done: set<Text>)
    ensures pending - ElementsOf(ids[..0]) == pending && done + ElementsOf(ids[..0]) == done
  {
  }

  lemma NextHandled(ids: seq<Text>, i: nat, pending: set<Text>, done: set<Text>)
    requires Unique(ids) && i < |ids|
    requires forall id :: id in ids ==> id in pending
    ensures pending - ElementsOf(ids[..i + 1]) == pending - ElementsOf(ids[..i]) - {ids[i]}
    ensures done + ElementsOf(ids[..i + 1]) == done + ElementsOf(ids[..i]) + {ids[i]}
    ensures ids[i] in pending - ElementsOf(ids[..i])
    ensures ElementsOf(ids) !! done ==> ids[i] !in done + ElementsOf(ids[..i])
  {
    assert ids[..i + 1] == ids[..i] + [ids[i]];
    assert ids[i] in ids;
  }

  lemma QuietRemote(w: World, v: World, local: Records, done: set<Text>, tally: Tally, t: Tally)
    requires QuietPull(w, v, local, done, tally, t)
    ensures v.remote == w.remote && Quiet(v) && t.failed == tally.failed
  {
  }

  lemma RemoteStoodStill(names: Names, w: World, u: World, v: World)
    requires Evolves(names, w, u) && Evolves(names, u, v)
    ensures v.remote.revision == w.remote.revision ==> u.remote == w.remote
  {
  }

  lemma QuietSize(names: Names, wire: Wire, w: World, v: World, local: Records, remote: Records, pending: set<Text>,
                  done: set<Text>, tally: Tally, t: Tally)
    requires QuietReceiver(names, wire, w, local) && QuietPull(w, v, local, done, tally, t)
    requires Pulling(names, w, v, local, remote, pending, tally, t)
    ensures |remote| <= MAX_MANIFEST_RECORDS
  {
    ManifestSize(remote, w.remote.records);
  }

  /** One page of the remote store, read at `u`. */
  lemma PageRead(names: Names, w: World, v: World, u: World, local: Records, remote: Records, cursor: Option<Cursor>,
                 page: Page, tally: Tally, t: Tally)
    requires Pulling(names, w, v, local, remote, Below(v.remote.records, cursor), tally, t) && Evolves(names, v, u)
    requires Resumable(u.remote.records, cursor, page)
    ensures Pulling(names, w, u, local, remote, Below(u.remote.records, cursor), tally, t)
    ensures Unique(page.ids)
    ensures forall id :: id in page.ids ==> id in Below(u.remote.records, cursor) && id in u.remote.records
    ensures page.next.None? ==> Below(u.remote.records, cursor) - ElementsOf(page.ids) == {}
    ensures page.next.Some? ==>
              && Below(u.remote.records, cursor) - ElementsOf(page.ids) == Below(u.remote.records, page.next)
              && |Below(u.remote.records, page.next)| < |Below(u.remote.records, cursor)|
              && (cursor.Some? ==> CursorLt(page.next.value, cursor.value))
  {
    ListingIsExact(u.remote.records, cursor);
    if page.next.None? {
      LastPage(u.remote.records, cursor, page);
    } else {
      ResumeAfter(u.remote.records, cursor, page);
    }
    PullingAwait(names, w, v, u, local, remote, Below(v.remote.records, cursor), Below(u.remote.records, cursor), tally,
                 t);
  }

  lemma PullingAwait(names: Names, w: World, u: World, v: World, local: Records, remote: Records, pending: set<Text>,
                     moved: set<Text>, tally: Tally, t: Tally)
    requires Pulling(names, w, u, local, remote, pending, tally, t) && Evolves(names, u, v)
    requires v.remote == u.remote ==> moved == pending
    ensures Pulling(names, w, v, local, remote, moved, tally, t)
  {
    hide Evolves, Healthy, LabelsNamed, Named, Covers, Passed;
    EvolvesTransitive(names, w, u, v);
    EvolvesFenced(names, u, v);
    EvolvesFenced(names, w, u);
    if Healthy(names, w) {
      HealthyGrew(names, w, u);
      HealthyGrew(names, u, v);
      RecordsCoverTransitive(v.remote.records, u.remote.records, remote);
    }
  }

  lemma PullingMoved(names: Names, w: World, u: World, v: World, local: Records, remote: Records,
                     cursor: Option<Cursor>, tally: Tally, t: Tally)
    requires Pulling(names, w, v, local, remote, Below(u.remote.records, cursor), tally, t)
    requires Evolves(names, w, u) && Evolves(names, u, v)
    ensures Pulling(names, w, v, local, remote, Below(v.remote.records, cursor), tally, t)
  {
    RemoteStoodStill(names, w, u, v);
  }

  /**
   * Receiving: scans the remote store page by page and takes over what the local manifest does not cover. `visited`
   * lists the headers in the order they were handled.
   */
  method PullRecords(wire: Wire, w: World, local: Records, tally: Tally, ghost names: Names)
    returns (v: World, ok: bool, remote: Records, visited: seq<Text>, t: Tally)
    requires Coherent(w)
    requires Healthy(names, w) ==> RecordsCover(w.local.records, local)
    ensures Evolves(names, w, v) && Coherent(v) && Counts(tally, t)
    ensures ok ==> Pulling(names, w, v, local, remote, {}, tally, t)
    ensures QuietReceiver(names, wire, w, local) ==>
              && ok && QuietPull(w, v, local, w.remote.records.Keys, tally, t)
              && visited == Listing(w.remote.records, None)
  {
    hide Evolves, Healthy, LabelsNamed, Coherent, Named, Covers, Pulling, QuietPull, Passed, RecordsCover,
         QuietReceiver, Listing, Below;
    v, ok, remote, visited, t := w, true, map[], [], tally;
    EvolvesReflexive(names, w);
    var cursor: Option<Cursor> := None;
    PullingNothing(names, w, local, tally);
    QuietPullNothing(names, wire, w, local, tally);
    while true
      invariant Coherent(v) && Evolves(names, w, v)
      invariant Pulling(names, w, v, local, remote, Below(v.remote.records, cursor), tally, t)
      invariant QuietReceiver(names, wire, w, local) ==>
                  && QuietPull(w, v, local, ElementsOf(visited), tally, t)
                  && Listing(w.remote.records, None) == visited + Listing(w.remote.records, cursor)
      decreases Left(v), |Below(v.remote.records, cursor)|
    {
      var u, fault, _ := Await(v, names);
      EvolvesTransitive(names, w, v, u);
      if fault {
        PullingEvolves(names, w, v, local, remote, Below(v.remote.records, cursor), tally, t);
        if QuietReceiver(names, wire, w, local) {
          QuietRemote(w, v, local, ElementsOf(visited), tally, t);
        }
        return u, false, remote, visited, t;
      }
      var page := ServeScan(wire, u.remote.records, cursor, PAGE_LIMIT);
      PageRead(names, w, v, u, local, remote, cursor, page, tally, t);
      ghost var quiet := QuietReceiver(names, wire, w, local);
      if quiet {
        QuietRemote(w, v, local, ElementsOf(visited), tally, t);
        QuietPageStep(w.remote.records, visited, cursor, page);
      }
      var x, complete, more, next := PullPage(wire, w, u, local, remote, page.ids, Below(u.remote.records, cursor),
                                              ElementsOf(visited), tally, t, names);
      v, remote, visited, t := x, more, visited + page.ids, next;
      LeftShrinks(names, u, v);
      if !complete {
        ok := false;
        return;
      }
      if page.next.None? {
        if quiet {
          AllVisited(w, v, local, visited, tally, t);
        }
        return;
      }
      if cursor.Some? && !CursorLt(page.next.value, cursor.value) {
        ok := false;
        return;
      }
      cursor := page.next;
      PullingMoved(names, w, u, v, local, remote, cursor, tally, t);
      if quiet {
        QuietRemote(w, v, local, ElementsOf(visited), tally, t);
      }
    }
  }

  lemma PullingNothing(names: Names, w: World, local: Records, tally: Tally)
    requires Coherent(w)
    ensures Pulling(names, w, w, local, map[], Below(w.remote.records, None), tally, tally)
  {
    EvolvesReflexive(names, w);
  }

  lemma NothingMerges(a: Records, b: Records)
    ensures MergeRecords(a, OnlyRecords(b, {})) == a && NewerRecords(a, OnlyRecords(b, {})) == {}
  {
    hide Merge, Covers;
    assert OnlyRecords(b, {}) == map[];
  }

  lemma QuietPullNothing(names: Names, wire: Wire, w: World, local: Records, tally: Tally)
    ensures QuietReceiver(names, wire, w, local) ==> QuietPull(w, w, local, ElementsOf([]), tally, tally)
    ensures Listing(w.remote.records, None) == [] + Listing(w.remote.records, None)
  {
    NothingMerges(w.local.records, w.remote.records);
    assert Listing(w.remote.records, None) == [] + Listing(w.remote.records, None);
    hide Listing, MergeRecords, OnlyRecords, NewerRecords, QuietReceiver;
    var none: seq<Text> := [];
    assert ElementsOf(none) == {};
  }

  lemma PrefixIsNew(all: seq<Text>, visited: seq<Text>, rest: seq<Text>, ids: seq<Text>)
    requires Unique(all) && all == visited + rest && ids <= rest
    ensures ElementsOf(ids) !! ElementsOf(visited)
    ensures ElementsOf(visited + ids) == ElementsOf(visited) + ElementsOf(ids)
    ensures all == (visited + ids) + rest[|ids|..]
  {
    forall x | x in ids ensures x !in visited {
      var i :| 0 <= i < |ids| && ids[i] == x;
      assert all[|visited| + i] == x;
      assert forall j :: 0 <= j < |visited| ==> all[j] == visited[j];
    }
    assert rest == ids + rest[|ids|..];
  }

  lemma QuietPageStep(m: Records, visited: seq<Text>, cursor: Option<Cursor>, page: Page)
    requires Listing(m, None) == visited + Listing(m, cursor) && Resumable(m, cursor, page)
    ensures ElementsOf(page.ids) !! ElementsOf(visited)
    ensures ElementsOf(visited + page.ids) == ElementsOf(visited) + ElementsOf(page.ids)
    ensures page.next.None? ==> Listing(m, None) == visited + page.ids
    ensures page.next.Some? ==> Listing(m, None) == (visited + page.ids) + Listing(m, page.next)
  {
    hide Listing, Below, CursorOf, Unique, ElementsOf;
    ListingIsExact(m, None);
    PrefixIsNew(Listing(m, None), visited, Listing(m, cursor), page.ids);
    if page.next.Some? {
      ResumeAfter(m, cursor, page);
    }
  }

  lemma AllVisited(w: World, v: World, local: Records, visited: seq<Text>, tally: Tally, t: Tally)
    requires QuietPull(w, v, local, ElementsOf(visited), tally, t) && visited == Listing(w.remote.records, None)
    ensures QuietPull(w, v, local, w.remote.records.Keys, tally, t)
  {
    ListingIsExact(w.remote.records, None);
    assert ElementsOf(visited) == w.remote.records.Keys;
  }

  lemma LeftShrinks(names: Names, u: World, v: World)
    requires Evolves(names, u, v)
    ensures Left(v) <= Left(u)
  {
  }

  // ---------- Sending ----------

  ghost predicate AllCovered(remote: Records, manifest: Records, ids: set<Text>)
  {
    forall id :: id in ids && id in manifest ==> CoveredBy(remote, id, manifest[id])
  }

  /** Sending between `w` and `v`: `done` are the records of the local manifest already handled. */
  ghost predicate Pushing(names: Names, w: World, v: World, remote: Records, manifest: Records, done: set<Text>,
                          tally: Tally, t: Tally)
  {
    && Evolves(names, w, v) && Counts(tally, t)
    && (Clean(tally, t) ==> AllCovered(remote, manifest, done))
    && (Healthy(names, w) ==> RecordsCover(v.remote.records, remote))
  }

  /** Without writers, sending merges the records handled so far into the remote store and touches nothing else. */
  ghost predicate QuietPush(w: World, v: World, remote: Records, done: set<Text>, tally: Tally, t: Tally)
  {
    && Quiet(v) && v.local == w.local && v.remote.tags == w.remote.tags
    && t == Given(tally, |NewerRecords(w.remote.records, OnlyRecords(w.local.records, done))|)
    && v.remote.records == MergeRecords(w.remote.records, OnlyRecords(w.local.records, done))
    && (RecordsCover(remote, w.local.records) ==> v == w && t == tally)
  }

  ghost predicate QuietSender(names: Names, wire: Wire, w: World, remote: Records, manifest: Records,
                              definitions: map<Text, Tags>)
  {
    && Quiet(w) && manifest == MetadataOf(w.local.records) && remote == MetadataOf(w.remote.records)
    && WholeRecords(names, w.local.records)
    && TagsCover(w.remote.tags, w.local.tags) && DefinedBy(definitions, manifest, w.local.tags)
    && LabelsPass(w.local.tags) && RecordsPass(wire, w.local.records)
  }

  /** Among `ids` there is a record that has to be sent and whose header the peer refuses. */
  ghost predicate Refused(wire: Wire, remote: Records, manifest: Records, ids: set<Text>)
  {
    exists id :: id in ids && RefusedAt(wire, remote, manifest, id)
  }

  ghost predicate RefusedAt(wire: Wire, remote: Records, manifest: Records, id: Text)
  {
    id in manifest && !CoveredBy(remote, id, manifest[id]) && !wire.acceptsHeader(id, manifest[id])
  }

  lemma RefusedOneMore(wire: Wire, remote: Records, manifest: Records, ids: set<Text>, id: Text)
    ensures Refused(wire, remote, manifest, ids + {id}) <==>
              Refused(wire, remote, manifest, ids) || RefusedAt(wire, remote, manifest, id)
    ensures !Refused(wire, remote, manifest, {})
  {
    if Refused(wire, remote, manifest, ids) {
      var other :| other in ids && RefusedAt(wire, remote, manifest, other);
      assert other in ids + {id};
    }
    if RefusedAt(wire, remote, manifest, id) {
      assert id in ids + {id};
    }
  }

  lemma PushingOne(names: Names, w: World, u: World, v: World, remote: Records, manifest: Records, done: set<Text>,
                   id: Text, tally: Tally, t: Tally, next: Tally)
    requires Pushing(names, w, u, remote, manifest, done, tally, t) && Evolves(names, u, v) && Counts(t, next)
    requires id in manifest && (Clean(t, next) ==> CoveredBy(remote, id, manifest[id]))
    ensures Pushing(names, w, v, remote, manifest, done + {id}, tally, next)
  {
    hide Evolves, Healthy, LabelsNamed, Covers;
    EvolvesTransitive(names, w, u, v);
    if Healthy(names, w) {
      HealthyGrew(names, w, u);
      HealthyGrew(names, u, v);
      RecordsCoverTransitive(v.remote.records, u.remote.records, remote);
    }
  }

  lemma PushReady(names: Names, w: World, v: World, remote: Records, manifest: Records, done: set<Text>, id: Text,
                  tally: Tally, t: Tally)
    requires Pushing(names, w, v, remote, manifest, done, tally, t) && id in manifest
    requires Healthy(names, w) ==> NamedRecords(names, manifest)
    ensures Healthy(names, v) ==> Named(names, id, manifest[id]) && RecordsCover(v.remote.records, remote)
  {
  }

  lemma QuietPushReady(names: Names, wire: Wire, w: World, v: World, remote: Records, manifest: Records,
                       definitions: map<Text, Tags>, done: set<Text>, tally: Tally, t: Tally, id: Text)
    requires QuietSender(names, wire, w, remote, manifest, definitions)
    requires QuietPush(w, v, remote, done, tally, t) && id in manifest && id !in done
    ensures id in w.local.records && id in definitions && manifest[id] == Metadata(w.local.records[id])
    ensures v.local == w.local && v.remote.tags == w.remote.tags && Quiet(v)
    ensures Current(remote, v.remote.records, id) && Current(remote, w.remote.records, id)
    ensures Whole(names, id, w.local.records[id])
    ensures TagsCover(w.remote.tags, definitions[id]) && TagsCover(w.remote.tags, Definitions(w.local, id))
    ensures LabelsPass(definitions[id]) && LabelsPass(Definitions(w.local, id))
    ensures wire.acceptsHeader(id, manifest[id]) && wire.carries(id, w.local.records[id])
  {
    hide Merge, AcceptsLabel, Whole;
    assert PartOf(definitions[id], w.local.tags) && PartOf(Definitions(w.local, id), w.local.tags);
  }

  lemma QuietPushOne(w: World, u: World, v: World, remote: Records, done: set<Text>, id: Text, tally: Tally, t: Tally,
                     next: Tally)
    requires QuietPush(w, u, remote, done, tally, t) && id in w.local.records && id !in done
    requires Quiet(v) && v.local == u.local && v.remote.tags == u.remote.tags
    requires Current(remote, w.remote.records, id)
    requires next == if CoveredBy(remote, id, Metadata(w.local.records[id])) then t else Given(t, 1)
    requires v.remote.records == MergeInto(u.remote.records, id, w.local.records[id])
    requires CoveredBy(remote, id, Metadata(w.local.records[id])) ==> v == u
    ensures QuietPush(w, v, remote, done + {id}, tally, next)
  {
    hide Covers, MergeInto, NewerRecords, OnlyRecords, MergeRecords;
    CoveredInStore(w.remote.records, remote, id, w.local.records[id]);
    NewerOneMore(w.remote.records, w.local.records, done, id);
    MergeOneMore(w.remote.records, w.local.records, done, id);
  }

  /** The manifest newest first. */
  method PushOrder(manifest: Records) returns (order: seq<Text>)
    ensures order == Listing(manifest, None) && Unique(order) && ElementsOf(order) == manifest.Keys
  {
    NewestFirstIsTotal(manifest, manifest.Keys);
    ListingIsExact(manifest, None);
    assert Below(manifest, None) == manifest.Keys;
    order := TakeFirst(manifest.Keys, NewestFirst(manifest), |manifest.Keys|);
  }

  /** Sending: newest first, everything of the local manifest that the remote manifest does not cover. */
  method PushRecords(wire: Wire, w: World, remote: Records, manifest: Records, definitions: map<Text, Tags>,
                     tally: Tally, ghost names: Names)
    returns (v: World, t: Tally)
    requires Coherent(w) && Headers(manifest)
    requires Healthy(names, w) ==> NamedRecords(names, manifest) && RecordsCover(w.remote.records, remote)
    requires LabelsNamed(names, w) ==> NamedDefinitions(names, definitions)
    ensures Pushing(names, w, v, remote, manifest, manifest.Keys, tally, t) && Coherent(v)
    ensures QuietSender(names, wire, w, remote, manifest, definitions) ==>
              QuietPush(w, v, remote, w.local.records.Keys, tally, t)
    ensures Quiet(w) && manifest == MetadataOf(w.local.records) && Refused(wire, remote, manifest, manifest.Keys) ==>
              t.failed > tally.failed
  {
    hide Evolves, Healthy, LabelsNamed, Coherent, Named, Covers, Pushing, QuietPush, RecordsCover, QuietSender, Listing,
         NamedRecords, TagsCover, LabelsPass, Whole, Current, Definitions, MergeInto, Refused;
    var order := PushOrder(manifest);
    v, t := w, tally;
    PushingNothing(names, wire, w, remote, manifest, definitions, tally, order);
    RefusedOneMore(wire, remote, manifest, {}, []);
    assert ElementsOf(order[..0]) == {};
    var i := 0;
    while i < |order|
      invariant 0 <= i <= |order|
      invariant Coherent(v) && Pushing(names, w, v, remote, manifest, ElementsOf(order[..i]), tally, t)
      invariant QuietSender(names, wire, w, remote, manifest, definitions) ==>
                  QuietPush(w, v, remote, ElementsOf(order[..i]), tally, t)
      invariant Quiet(w) ==> Quiet(v) && v.local == w.local
      invariant Quiet(w) && manifest == MetadataOf(w.local.records)
                && Refused(wire, remote, manifest, ElementsOf(order[..i])) ==>
                  t.failed > tally.failed
    {
      var id := order[i];
      ghost var done := ElementsOf(order[..i]);
      NextPushed(order, i);
      RefusedOneMore(wire, remote, manifest, done, id);
      PushReady(names, w, v, remote, manifest, done, id, tally, t);
      ghost var quiet := QuietSender(names, wire, w, remote, manifest, definitions);
      if quiet {
        QuietPushReady(names, wire, w, v, remote, manifest, definitions, done, tally, t, id);
      }
      var own := if id in definitions then definitions[id] else map[];
      OwnAreNamed(names, w, v, remote, manifest, done, definitions, id, tally, t);
      var x, next := PushOne(wire, v, remote, id, manifest[id], own, t, names);
      PushingOne(names, w, v, x, remote, manifest, done, id, tally, t, next);
      PushingCounts(names, w, v, remote, manifest, done, tally, t);
      if quiet {
        QuietPushOne(w, v, x, remote, done, id, tally, t, next);
      }
      v, t := x, next;
      i := i + 1;
    }
    assert order[..i] == order;
    SenderManifest(names, wire, w, remote, manifest, definitions);
  }

  lemma OwnAreNamed(names: Names, w: World, v: World, remote: Records, manifest: Records, done: set<Text>,
                    definitions: map<Text, Tags>, id: Text, tally: Tally, t: Tally)
    requires Pushing(names, w, v, remote, manifest, done, tally, t)
    requires LabelsNamed(names, w) ==> NamedDefinitions(names, definitions)
    ensures LabelsNamed(names, v) ==> NamedTags(names, if id in definitions then definitions[id] else map[])
  {
    hide Healthy, LabelsNamed;
  }

  lemma PushingCounts(names: Names, w: World, v: World, remote: Records, manifest: Records, done: set<Text>,
                      tally: Tally, t: Tally)
    requires Pushing(names, w, v, remote, manifest, done, tally, t)
    ensures Counts(tally, t)
  {
  }

  lemma PushingNothing(names: Names, wire: Wire, w: World, remote: Records, manifest: Records,
                       definitions: map<Text, Tags>, tally: Tally, order: seq<Text>)
    requires Coherent(w) && (Healthy(names, w) ==> RecordsCover(w.remote.records, remote))
    ensures Pushing(names, w, w, remote, manifest, ElementsOf(order[..0]), tally, tally)
    ensures QuietSender(names, wire, w, remote, manifest, definitions) ==>
              QuietPush(w, w, remote, ElementsOf(order[..0]), tally, tally)
  {
    EvolvesReflexive(names, w);
    assert ElementsOf(order[..0]) == {};
    NothingMerges(w.remote.records, w.local.records);
  }

  lemma NextPushed(order: seq<Text>, i: nat)
    requires Unique(order) && i < |order|
    ensures ElementsOf(order[..i + 1]) == ElementsOf(order[..i]) + {order[i]}
    ensures order[i] !in ElementsOf(order[..i]) && order[i] in ElementsOf(order)
  {
    assert order[..i + 1] == order[..i] + [order[i]];
  }

  lemma SenderManifest(names: Names, wire: Wire, w: World, remote: Records, manifest: Records,
                       definitions: map<Text, Tags>)
    ensures QuietSender(names, wire, w, remote, manifest, definitions) ==> manifest.Keys == w.local.records.Keys
  {
  }
}
