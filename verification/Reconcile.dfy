// Bidirectional anti-entropy between two clipboard replicas: one pass, and the loop that reports convergence.
module Reconcile {
  import opened Basics
  import opened Ordering
  import opened ReplicaRecords
  import opened ReplicaStore
  import opened ReplicaWorld
  import opened ReplicaScan
  import opened ReconcileLabels
  import opened ReconcileRecords

  const MAX_PASSES := 3

  /** The replicas hold the same records version for version, and so they do the labels that a scan can list. */
  ghost predicate Agree(local: Store, remote: Store)
  {
    && SameRecordVersions(local.records, remote.records)
    && TagsCover(Usable(remote.tags), local.tags) && TagsCover(local.tags, Usable(remote.tags))
  }

  /**
   * The replicas hold the same labels, version for version, exactly when the remote one has none with an empty
   * identifier.
   */
  lemma AgreeOnLabels(local: Store, remote: Store)
    requires Agree(local, remote)
    ensures TagsCover(remote.tags, local.tags)
    ensures TagsCover(local.tags, remote.tags) <==> [] !in remote.tags
  {
    if [] in remote.tags {
      assert [] !in Usable(remote.tags) && [] !in local.tags;
    } else {
      assert Usable(remote.tags) == remote.tags;
    }
  }

  // ---------- One pass ----------

  ghost predicate StoodStill(w: World, v: World)
  {
    v.local.revision == w.local.revision && v.remote.revision == w.remote.revision
  }

  lemma StoodStillBetween(names: Names, w: World, u: World, v: World)
    requires Evolves(names, w, u) && Evolves(names, u, v)
    ensures StoodStill(w, v) ==> StoodStill(w, u) && StoodStill(u, v) && u.local == w.local && u.remote == w.remote
  {
  }

  lemma MergeRecordsWhole(names: Names, a: Records, b: Records)
    requires WholeRecords(names, a) && WholeRecords(names, b)
    ensures WholeRecords(names, MergeRecords(a, b))
  {
    forall id | id in a && id in b ensures Whole(names, id, Merge(a[id], b[id])) {
      MergeKeepsWhole(names, id, a[id], b[id]);
    }
  }

  /** Sending the merge back gives the other side the same merge. */
  lemma MergeBack(names: Names, a: Records, b: Records)
    requires WholeRecords(names, a) && WholeRecords(names, b)
    ensures MergeRecords(b, MergeRecords(a, b)) == MergeRecords(a, b)
  {
    var j := MergeRecords(a, b);
    var k := MergeRecords(b, j);
    MergeRecordsWhole(names, a, b);
    MergeRecordsWhole(names, b, j);
    MergeRecordsCoversBoth(a, b);
    MergeRecordsCoversBoth(b, j);
    assert RecordsCover(j, j) by {
      forall id | id in j ensures Covers(j[id], j[id]) {
      }
    }
    MergeRecordsIsLeast(b, j, j);
    MutualRecordsCover(j, k);
    WholeSameVersionsEqualRecords(names, j, k);
  }

  // ---------- Labels ----------

  /** Without writers, with labels within the limit of which all that are exchanged pass the wire. */
  ghost predicate QuietTags(w: World)
  {
    && Quiet(w) && LabelsPass(w.local.tags) && LabelsPass(Usable(w.remote.tags))
    && |w.local.tags.Keys + w.remote.tags.Keys| <= MAX_REMOTE_LABELS
  }

  ghost predicate MutualTags(w: World)
  {
    TagsCover(w.local.tags, Usable(w.remote.tags)) && TagsCover(Usable(w.remote.tags), w.local.tags)
  }

  /** Each side's labels are the merge of the other's, as far as the scan lists them, into its own. */
  ghost predicate MergedTags(w: World, v: World)
  {
    && v.local.tags == MergeTags(w.local.tags, Usable(w.remote.tags))
    && v.remote.tags == MergeTags(w.remote.tags, w.local.tags)
  }

  /** The label counters of a pass: the labels that either side lacked or had at an older version. */
  ghost function LabelTally(t: Tally, w: World): Tally
  {
    var received, sent :=
      |MissingTags(w.local.tags, Usable(w.remote.tags))|, |MissingTags(w.remote.tags, w.local.tags)|;
    t.(tagsReceived := t.tagsReceived + received, tagsSent := t.tagsSent + sent,
       differences := t.differences + received + sent)
  }

  /** The record counters of a pass: the records that either side did not cover, and the live ones of the merge. */
  ghost function RecordTally(t: Tally, w: World): Tally
  {
    var received, sent :=
      |NewerRecords(w.local.records, w.remote.records)|, |NewerRecords(w.remote.records, w.local.records)|;
    t.(received := t.received + received, sent := t.sent + sent, differences := t.differences + received + sent,
       total := LiveRecords(MergeRecords(w.local.records, w.remote.records)))
  }

  ghost predicate TagsSynced(w: World, v: World, tally: Tally, t: Tally)
  {
    && Quiet(v) && t == LabelTally(tally, w)
    && v.local.records == w.local.records && v.remote.records == w.remote.records
    && MergedTags(w, v)
    && (MutualTags(w) ==> Clean(tally, t) && v.local == w.local && v.remote == w.remote)
  }

  lemma NoEmptyLabelPasses(tags: Tags)
    requires LabelsPass(tags)
    ensures [] !in tags
  {
  }

  lemma TagsFit(w: World)
    requires QuietTags(w)
    ensures QuietLabels(w) && [] !in w.local.tags
  {
    hide AcceptsLabel;
    SubsetSize(w.remote.tags.Keys, w.local.tags.Keys + w.remote.tags.Keys);
    assert |w.remote.tags| == |w.remote.tags.Keys|;
    NoEmptyLabelPasses(w.local.tags);
  }

  /** After the exchange the labels are still fit for it, and at the same versions. */
  lemma MergedTagsAgree(w: World, v: World)
    requires QuietTags(w) && MergedTags(w, v) && Quiet(v)
    ensures QuietTags(v) && MutualTags(v)
  {
    hide MergeTags, LabelsPass, TagsCover, Usable, NewerTags, OnlyTags;
    TagsFit(w);
    QuietTagsAgree(w.local.tags, w.remote.tags);
    MergePasses(w.local.tags, w.remote.tags);
  }

  lemma MergePasses(local: Tags, remote: Tags)
    requires LabelsPass(local) && LabelsPass(Usable(remote))
    ensures LabelsPass(MergeTags(local, Usable(remote))) && LabelsPass(Usable(MergeTags(remote, local)))
    ensures MergeTags(local, Usable(remote)).Keys + MergeTags(remote, local).Keys == local.Keys + remote.Keys
  {
    hide LabelsPass, VersionLt;
    PassesFromEither(local, Usable(remote), MergeTags(local, Usable(remote)));
    PassesFromEither(local, Usable(remote), Usable(MergeTags(remote, local)));
  }

  lemma PassesFromEither(a: Tags, b: Tags, m: Tags)
    requires LabelsPass(a) && LabelsPass(b)
    requires forall id :: id in m ==> (id in a && m[id] == a[id]) || (id in b && m[id] == b[id])
    ensures LabelsPass(m)
  {
    hide AcceptsLabel;
  }

  lemma QuietTagsSynced(names: Names, w: World, u: World, v: World, seen: Tags, tally: Tally, mid: Tally, t: Tally)
    requires QuietTags(w) && PullingTags(names, w, u, seen, {}, tally, mid) && QuietPullTags(w, u, seen, tally, mid)
    requires QuietSendTags(u, v, OnlyTags(u.local.tags, NewerTags(seen, u.local.tags)))
    requires t == SentTally(mid, u.remote.tags, OnlyTags(u.local.tags, NewerTags(seen, u.local.tags)))
    requires TagsCover(seen, u.local.tags) ==> Clean(mid, t) && v.remote == u.remote
    ensures TagsSynced(w, v, tally, t)
  {
    hide MergeTags, TagsCover, NewerTags, MissingTags, OnlyTags, Evolves, Usable, LabelsPass;
    NewerTagsAreMissing(w.local.tags, Usable(w.remote.tags));
    TagsFit(w);
    SentAreMissing(w.local.tags, w.remote.tags);
    SeenAll(seen, w.remote.tags);
    QuietTagsAgree(w.local.tags, w.remote.tags);
  }

  lemma SeenAll(seen: Tags, m: Tags)
    requires TagsPassed(seen, m, {})
    ensures seen == Usable(m)
  {
  }

  /** What was received still passes the wire. */
  lemma ReceivedPasses(w: World, u: World, seen: Tags, tally: Tally, mid: Tally)
    requires QuietTags(w) && TagsPassed(seen, w.remote.tags, {}) && QuietPullTags(w, u, seen, tally, mid)
    ensures Quiet(u) && LabelsPass(u.local.tags)
  {
    hide AcceptsLabel;
    SeenAll(seen, w.remote.tags);
  }

  /** The label part of a pass. */
  method SyncTags(w: World, tally: Tally, ghost names: Names) returns (v: World, ok: bool, t: Tally)
    requires Coherent(w)
    ensures Evolves(names, w, v) && Coherent(v) && Counts(tally, t)
    ensures ok && Clean(tally, t) && StoodStill(w, v) ==>
              TagsCover(Usable(w.remote.tags), w.local.tags) && TagsCover(w.local.tags, Usable(w.remote.tags))
    ensures QuietTags(w) ==> ok && TagsSynced(w, v, tally, t)
  {
    hide Evolves, Coherent, QuietPullTags, QuietSendTags, TagsCover, NewerTags, OnlyTags, TagsSynced, QuietTags,
         PullingTags, QuietLabels, LabelsPass, TagsPassed;
    if QuietTags(w) {
      TagsFit(w);
    }
    var u, seen, visited, mid;
    u, ok, seen, visited, mid := PullTags(w, tally, names);
    EvolvesFenced(names, w, u);
    if !ok {
      return u, false, mid;
    }
    if QuietTags(w) {
      QuietAfterPull(names, w, u, seen, tally, mid);
      ReceivedPasses(w, u, seen, tally, mid);
    }
    v, ok, t := PushTags(u, seen, mid, names);
    EvolvesTransitive(names, w, u, v);
    if ok && Clean(tally, t) && StoodStill(w, v) {
      StoodStillBetween(names, w, u, v);
      CleanTagsAgree(names, w, u, seen, tally, mid);
    }
    if QuietTags(w) {
      QuietTagsSynced(names, w, u, v, seen, tally, mid, t);
    }
  }

  lemma QuietAfterPull(names: Names, w: World, u: World, seen: Tags, tally: Tally, mid: Tally)
    requires PullingTags(names, w, u, seen, {}, tally, mid) && QuietPullTags(w, u, seen, tally, mid)
    ensures TagsPassed(seen, w.remote.tags, {})
  {
  }

  lemma CleanTagsAgree(names: Names, w: World, u: World, seen: Tags, tally: Tally, mid: Tally)
    requires PullingTags(names, w, u, seen, {}, tally, mid) && Clean(tally, mid) && StoodStill(w, u)
    requires TagsCover(seen, w.local.tags)
    ensures TagsCover(Usable(w.remote.tags), w.local.tags) && TagsCover(w.local.tags, Usable(w.remote.tags))
  {
    SeenAll(seen, w.remote.tags);
  }

  // ---------- Records ----------

  /** Without writers, with complete records within the limit, and with remote ones that all pass the wire. */
  ghost predicate QuietPullable(names: Names, wire: Wire, w: World)
  {
    && Quiet(w) && WholeRecords(names, w.local.records) && WholeRecords(names, w.remote.records)
    && |MergeRecords(w.local.records, w.remote.records)| <= MAX_MANIFEST_RECORDS
    && RecordsPass(wire, w.remote.records)
  }

  ghost predicate QuietRecords(names: Names, wire: Wire, w: World)
  {
    QuietPullable(names, wire, w) && RecordsPass(wire, MergeRecords(w.local.records, w.remote.records))
  }

  /** The merge has a record that the peer lacks and whose header it refuses. */
  ghost predicate MergeRefused(wire: Wire, w: World)
  {
    var merged := MetadataOf(MergeRecords(w.local.records, w.remote.records));
    Refused(wire, MetadataOf(w.remote.records), merged, merged.Keys)
  }

  ghost predicate MutualRecords(w: World)
  {
    RecordsCover(w.local.records, w.remote.records) && RecordsCover(w.remote.records, w.local.records)
  }

  ghost predicate RecordsSynced(w: World, v: World, tally: Tally, t: Tally)
  {
    && Quiet(v) && t == RecordTally(tally, w)
    && v.local.tags == w.local.tags && v.remote.tags == w.remote.tags
    && v.local.records == MergeRecords(w.local.records, w.remote.records)
    && v.remote.records == v.local.records
    && (MutualRecords(w) ==> Clean(tally, t) && v.local == w.local && v.remote == w.remote)
  }

  lemma RecordsFit(names: Names, wire: Wire, w: World)
    requires QuietPullable(names, wire, w)
    ensures Quiet(w) && |w.local.records| <= MAX_MANIFEST_RECORDS && |w.remote.records| <= MAX_MANIFEST_RECORDS
  {
    var merged := MergeRecords(w.local.records, w.remote.records);
    ManifestSize(w.local.records, merged);
    ManifestSize(w.remote.records, merged);
  }

  lemma MergeAllRecords(a: Records, b: Records)
    ensures MergeRecords(a, OnlyRecords(b, b.Keys)) == MergeRecords(a, b)
  {
    assert OnlyRecords(b, b.Keys) == b;
  }

  lemma NewerOfAll(a: Records, b: Records)
    ensures NewerRecords(a, OnlyRecords(b, b.Keys)) == NewerRecords(a, b)
  {
    assert OnlyRecords(b, b.Keys) == b;
  }

  /** A side lacks of the merge what it lacks of the other side. */
  lemma NewerOfMerge(a: Records, b: Records)
    ensures NewerRecords(b, MergeRecords(a, b)) == NewerRecords(b, a)
  {
    hide Covers, Merge;
    forall id | id in a && id in b ensures Covers(b[id], Merge(a[id], b[id])) <==> Covers(b[id], a[id]) {
      CoversItself(b[id]);
      MergeCoversBoth(a[id], b[id]);
      if Covers(b[id], a[id]) {
        MergeIsLeast(a[id], b[id], b[id]);
      }
      if Covers(b[id], Merge(a[id], b[id])) {
        CoversTransitive(b[id], Merge(a[id], b[id]), a[id]);
      }
    }
    forall id | id in b ensures Covers(b[id], b[id]) {
      CoversItself(b[id]);
    }
  }

  lemma CoversItself(r: Replica)
    ensures Covers(r, r)
  {
  }

  lemma MetadataCovers(a: Records, b: Records)
    requires RecordsCover(a, b)
    ensures RecordsCover(MetadataOf(a), b)
  {
  }

  /** Receiving from a quiescent peer leaves the local store at the merge. */
  lemma QuietReceived(names: Names, wire: Wire, w: World, v: World, local: Records, tally: Tally, t: Tally)
    requires QuietPullable(names, wire, w) && local == MetadataOf(w.local.records)
    requires QuietPull(w, v, local, w.remote.records.Keys, tally, t)
    ensures Quiet(v) && v.remote == w.remote && v.local.tags == w.local.tags
    ensures t == Taken(tally, |NewerRecords(w.local.records, w.remote.records)|)
    ensures v.local.records == MergeRecords(w.local.records, w.remote.records)
    ensures WholeRecords(names, v.local.records) && |v.local.records| <= MAX_MANIFEST_RECORDS
    ensures QuietRecords(names, wire, w) ==> RecordsPass(wire, v.local.records)
    ensures MutualRecords(w) ==> v == w && t == tally
  {
    hide WholeRecords, MergeRecords, OnlyRecords, NewerRecords, RecordsCover, RecordsPass, MetadataOf;
    MergeAllRecords(w.local.records, w.remote.records);
    NewerOfAll(w.local.records, w.remote.records);
    MergeRecordsWhole(names, w.local.records, w.remote.records);
    if MutualRecords(w) {
      MetadataCovers(w.local.records, w.remote.records);
    }
  }

  lemma QuietRecordsAreWhole(names: Names, wire: Wire, w: World)
    requires QuietRecords(names, wire, w)
    ensures WholeRecords(names, w.local.records) && WholeRecords(names, w.remote.records)
  {
  }

  /** Sending to a quiescent peer brings it to the same merge. */
  lemma QuietSent(names: Names, wire: Wire, w: World, u: World, v: World, remote: Records, tally: Tally, mid: Tally,
                  t: Tally)
    requires QuietRecords(names, wire, w)
    requires u.remote == w.remote && u.local.tags == w.local.tags
    requires u.local.records == MergeRecords(w.local.records, w.remote.records)
    requires mid == Taken(tally, |NewerRecords(w.local.records, w.remote.records)|)
                    .(total := LiveRecords(MetadataOf(u.local.records)))
    requires MutualRecords(w) ==> u.local == w.local && Clean(tally, mid)
    requires remote == MetadataOf(u.remote.records) && QuietPush(u, v, remote, u.local.records.Keys, mid, t)
    ensures RecordsSynced(w, v, tally, t)
  {
    hide MergeRecords, OnlyRecords, NewerRecords, RecordsCover, MetadataOf, QuietRecords, LiveRecords;
    QuietRecordsAreWhole(names, wire, w);
    MergeAllRecords(u.remote.records, u.local.records);
    NewerOfAll(u.remote.records, u.local.records);
    NewerOfMerge(w.local.records, w.remote.records);
    LiveHeaders(u.local.records);
    MergeBack(names, w.local.records, w.remote.records);
    if MutualRecords(w) {
      MetadataCovers(w.remote.records, w.local.records);
    }
  }

  function LiveRecords(manifest: Records): nat
  {
    |set id | id in manifest && !manifest[id].deleted|
  }

  lemma LiveHeaders(m: Records)
    ensures LiveRecords(MetadataOf(m)) == LiveRecords(m)
  {
    var headers := MetadataOf(m);
    assert (set id | id in headers && !headers[id].deleted) == set id | id in m && !m[id].deleted;
  }

  lemma ReadyToReceive(names: Names, wire: Wire, w: World, a: World, local: Records)
    requires Scanning(names, w, a, local, {})
    ensures Evolves(names, w, a)
    ensures Healthy(names, a) ==> RecordsCover(a.local.records, local)
    ensures QuietPullable(names, wire, w) && a == w ==>
              local == MetadataOf(w.local.records) && QuietReceiver(names, wire, w, local)
  {
    if QuietPullable(names, wire, w) && a == w {
      PassedAll(local, w.local.records);
      RecordsFit(names, wire, w);
    }
  }

  lemma ReadyToSend(names: Names, a: World, b: World, c: World, local: Records, remote: Records, manifest: Records,
                    tally: Tally, mid: Tally)
    requires Pulling(names, a, b, local, remote, {}, tally, mid) && Scanning(names, b, c, manifest, {})
    ensures Healthy(names, c) ==> NamedRecords(names, manifest) && RecordsCover(c.remote.records, remote)
  {
    if Healthy(names, c) {
      RecordsCoverTransitive(c.remote.records, b.remote.records, remote);
    }
  }

  lemma QuietReadyToSend(names: Names, wire: Wire, a: World, b: World, local: Records, remote: Records,
                         manifest: Records, definitions: map<Text, Tags>, tally: Tally, mid: Tally)
    requires Pulling(names, a, b, local, remote, {}, tally, mid) && Scanning(names, b, b, manifest, {})
    requires Quiet(b) && b.remote == a.remote && mid.failed == tally.failed && WholeRecords(names, b.local.records)
    requires TagsCover(b.remote.tags, b.local.tags) && DefinedBy(definitions, manifest, b.local.tags)
    requires LabelsPass(b.local.tags) && RecordsPass(wire, b.local.records)
    ensures remote == MetadataOf(b.remote.records)
    ensures QuietSender(names, wire, b, remote, manifest, definitions)
  {
    PassedAll(remote, a.remote.records);
    PassedAll(manifest, b.local.records);
  }

  /** What the two sides are compared by is what they hold. */
  lemma QuietManifests(names: Names, a: World, b: World, local: Records, remote: Records, manifest: Records,
                       tally: Tally, mid: Tally)
    requires Pulling(names, a, b, local, remote, {}, tally, mid) && Scanning(names, b, b, manifest, {})
    requires b.remote == a.remote && mid.failed == tally.failed
    ensures remote == MetadataOf(b.remote.records) && manifest == MetadataOf(b.local.records)
  {
    PassedAll(remote, a.remote.records);
    PassedAll(manifest, b.local.records);
  }

  lemma PushingGives(names: Names, c: World, v: World, remote: Records, manifest: Records, tally: Tally, t: Tally)
    requires Pushing(names, c, v, remote, manifest, manifest.Keys, tally, t)
    ensures Evolves(names, c, v) && Counts(tally, t)
  {
  }

  /** A pass between unmoved fences that found nothing has compared the whole of both stores. */
  lemma CleanRecordsAgree(names: Names, w: World, a: World, b: World, c: World, v: World, local: Records,
                          remote: Records, manifest: Records, tally: Tally, mid: Tally, counted: Tally, t: Tally)
    requires Scanning(names, w, a, local, {}) && Pulling(names, a, b, local, remote, {}, tally, mid)
    requires Scanning(names, b, c, manifest, {}) && Pushing(names, c, v, remote, manifest, manifest.Keys, counted, t)
    requires Clean(mid, counted) && Clean(tally, t) && StoodStill(w, v)
    ensures SameRecordVersions(w.local.records, w.remote.records)
  {
    hide Healthy, LabelsNamed, Covers, SameVersions, Coherent;
    StoodStillBetween(names, w, a, b);
    StoodStillBetween(names, b, c, v);
    var l, r := w.local.records, w.remote.records;
    assert Passed(local, l, {}) && Passed(remote, r, {}) && Passed(manifest, l, {});
    MetadataComparison(l, r, local, remote, manifest);
  }

  lemma MetadataComparison(l: Records, r: Records, local: Records, remote: Records, manifest: Records)
    requires Passed(local, l, {}) && Passed(remote, r, {}) && Passed(manifest, l, {})
    requires RecordsCover(local, remote) && AllCovered(remote, manifest, manifest.Keys)
    ensures SameRecordVersions(l, r)
  {
    forall id | id in r ensures id in l && Covers(l[id], r[id]) {
      assert id in remote;
      assert Covers(local[id], remote[id]);
    }
    forall id | id in l ensures id in r && Covers(r[id], l[id]) {
      assert id in manifest;
      assert CoveredBy(remote, id, manifest[id]);
    }
    MutualRecordsCover(l, r);
  }

  /** The record part of a pass. */
  method SyncRecords(wire: Wire, w: World, tally: Tally, ghost names: Names) returns (v: World, ok: bool, t: Tally)
    requires Coherent(w)
    ensures Evolves(names, w, v) && Coherent(v) && Counts(tally, t)
    ensures ok && Clean(tally, t) && StoodStill(w, v) ==> SameRecordVersions(w.local.records, w.remote.records)
    ensures QuietRecords(names, wire, w) && TagsCover(w.remote.tags, w.local.tags) && LabelsPass(w.local.tags) ==>
              ok && RecordsSynced(w, v, tally, t)
    ensures QuietPullable(names, wire, w) && MergeRefused(wire, w) ==> !ok || t.failed > tally.failed
  {
    hide Evolves, Coherent, Healthy, LabelsNamed, Scanning, Pulling, Pushing, QuietPull, QuietPush, QuietReceiver,
         QuietSender, QuietPullable, RecordsSynced, TagsCover, RecordsCover, NamedRecords, DefinedBy,
         SameRecordVersions, WholeRecords, MutualRecords, StoodStill, LabelsPass, RecordsPass, Refused, MergeRecords,
         MetadataOf;
    ghost var pullable := QuietPullable(names, wire, w);
    ghost var quiet :=
      QuietRecords(names, wire, w) && TagsCover(w.remote.tags, w.local.tags) && LabelsPass(w.local.tags);
    t := tally;
    if pullable {
      RecordsFit(names, wire, w);
    }
    var a, local, definitions;
    a, ok, local, definitions := LocalManifest(w, names);
    if !ok {
      return a, false, t;
    }
    ReadyToReceive(names, wire, w, a, local);
    var b, remote, visited, mid;
    b, ok, remote, visited, mid := PullRecords(wire, a, local, t, names);
    EvolvesTransitive(names, w, a, b);
    if !ok {
      return b, false, mid;
    }
    if pullable {
      QuietReceived(names, wire, w, b, local, tally, mid);
    }
    var c, manifest;
    c, ok, manifest, definitions := LocalManifest(b, names);
    EvolvesTransitive(names, w, b, c);
    if !ok {
      return c, false, mid;
    }
    ReadyToSend(names, a, b, c, local, remote, manifest, tally, mid);
    if pullable {
      QuietManifests(names, a, b, local, remote, manifest, tally, mid);
    }
    if quiet {
      QuietReadyToSend(names, wire, a, b, local, remote, manifest, definitions, tally, mid);
    }
    t := mid.(total := LiveRecords(manifest));
    ghost var counted := t;
    v, t := PushRecords(wire, c, remote, manifest, definitions, t, names);
    PushingGives(names, c, v, remote, manifest, counted, t);
    EvolvesTransitive(names, w, c, v);
    ok := true;
    if Clean(tally, t) && StoodStill(w, v) {
      CleanRecordsAgree(names, w, a, b, c, v, local, remote, manifest, tally, mid, counted, t);
    }
    if quiet {
      QuietSent(names, wire, w, b, v, remote, tally, counted, t);
    }
  }

  // ---------- One pass ----------

  /** Two quiescent replicas within the protocol's limits, every header of which the wire accepts. */
  ghost predicate QuietPair(names: Names, wire: Wire, w: World)
  {
    QuietTags(w) && QuietRecords(names, wire, w)
  }

  /** Two quiescent replicas whose merge has a record that the peer refuses. */
  ghost predicate StuckPair(names: Names, wire: Wire, w: World)
  {
    QuietTags(w) && QuietPullable(names, wire, w) && MergeRefused(wire, w)
  }

  ghost predicate Mutual(w: World)
  {
    MutualTags(w) && MutualRecords(w)
  }

  /** Both replicas are at the merge of what they were. */
  ghost predicate Merged(w: World, v: World)
  {
    && v.local.records == MergeRecords(w.local.records, w.remote.records)
    && v.remote.records == v.local.records
    && MergedTags(w, v)
  }

  /** Merged replicas cover what both had before, and nothing less does: they are the least such replicas. */
  lemma MergedIsLeast(w: World, v: World, other: Store)
    requires Merged(w, v)
    ensures RecordsCover(v.local.records, w.local.records) && RecordsCover(v.local.records, w.remote.records)
    ensures TagsCover(v.local.tags, w.local.tags) && TagsCover(v.local.tags, Usable(w.remote.tags))
    ensures TagsCover(v.remote.tags, w.local.tags) && TagsCover(v.remote.tags, w.remote.tags)
    ensures RecordsCover(other.records, w.local.records) && RecordsCover(other.records, w.remote.records) ==>
              RecordsCover(other.records, v.local.records)
    ensures TagsCover(other.tags, w.local.tags) && TagsCover(other.tags, Usable(w.remote.tags)) ==>
              TagsCover(other.tags, v.local.tags)
    ensures TagsCover(other.tags, w.local.tags) && TagsCover(other.tags, w.remote.tags) ==>
              TagsCover(other.tags, v.remote.tags)
  {
    hide RecordsCover, TagsCover, MergeRecords, MergeTags, Usable;
    MergeRecordsCoversBoth(w.local.records, w.remote.records);
    MergeTagsCoversBoth(w.local.tags, Usable(w.remote.tags));
    MergeTagsCoversBoth(w.remote.tags, w.local.tags);
    if RecordsCover(other.records, w.local.records) && RecordsCover(other.records, w.remote.records) {
      MergeRecordsIsLeast(w.local.records, w.remote.records, other.records);
    }
    MergeTagsIsLeast(w.local.tags, Usable(w.remote.tags), other.tags);
    MergeTagsIsLeast(w.remote.tags, w.local.tags, other.tags);
  }

  /** Merged dictionaries are one, contents included, if and only if no version stood for two labels. */
  lemma MergedLabelsAreOne(w: World, v: World)
    requires MergedTags(w, v) && [] !in w.local.tags
    ensures v.local.tags == Usable(v.remote.tags) <==> OneLabelPerVersion(w.local.tags, w.remote.tags)
  {
    hide MergeTags, TagsCover, Usable, OneLabelPerVersion;
    QuietTagsAgree(w.local.tags, w.remote.tags);
  }

  lemma QuietPairIsOne(names: Names, wire: Wire, w: World, v: World)
    requires QuietPair(names, wire, w) && Merged(w, v)
    ensures v.local.tags == Usable(v.remote.tags) <==> OneLabelPerVersion(w.local.tags, w.remote.tags)
  {
    TagsFit(w);
    MergedLabelsAreOne(w, v);
  }

  /** `reconcile_once`. */
  method ReconcileOnce(wire: Wire, w: World, tally: Tally, ghost names: Names) returns (v: World, ok: bool, t: Tally)
    requires Coherent(w)
    ensures Evolves(names, w, v) && Coherent(v) && Counts(tally, t)
    // A pass that found nothing while neither fence moved has seen two agreeing replicas.
    ensures ok && Clean(tally, t) && StoodStill(w, v) ==> Agree(w.local, w.remote)
    // A pass over replicas whose merge the peer refuses fails.
    ensures StuckPair(names, wire, w) ==> !ok || t.failed > tally.failed
    // A pass over a quiescent pair leaves both sides at the merge, and finds nothing once they are there.
    ensures QuietPair(names, wire, w) ==> ok && Quiet(v) && Merged(w, v)
    ensures QuietPair(names, wire, w) ==> t == RecordTally(LabelTally(tally, w), w)
    ensures QuietPair(names, wire, w) ==>
              (v.local.tags == Usable(v.remote.tags) <==> OneLabelPerVersion(w.local.tags, w.remote.tags))
    ensures QuietPair(names, wire, w) && Mutual(w) ==> Clean(tally, t) && v.local == w.local && v.remote == w.remote
  {
    hide Evolves, Coherent, TagsCover, SameRecordVersions, TagsSynced, RecordsSynced, QuietTags, QuietRecords,
         StoodStill, MutualTags, MutualRecords, Merged, QuietPullable, MergeRefused;
    var a, fault, collectionDifferences := Await(w, names);
    QuietPairIsQuiet(names, wire, w);
    if fault {
      return a, false, tally;
    }
    var counted := tally.(differences := tally.differences + collectionDifferences);
    var b, mid;
    b, ok, mid := SyncTags(a, counted, names);
    EvolvesTransitive(names, w, a, b);
    if !ok {
      return b, false, mid;
    }
    if QuietPair(names, wire, w) {
      QuietTagsThenRecords(names, wire, w, b, counted, mid);
    }
    if StuckPair(names, wire, w) {
      StuckAfterTags(names, wire, w, b, counted, mid);
    }
    v, ok, t := SyncRecords(wire, b, mid, names);
    EvolvesTransitive(names, w, b, v);
    if ok && Clean(tally, t) && StoodStill(w, v) {
      StoodStillBetween(names, w, b, v);
      StoodStillBetween(names, w, a, b);
    }
    if QuietPair(names, wire, w) {
      QuietPassMerges(w, b, v, tally, mid, t);
      QuietPairIsOne(names, wire, w, v);
    }
  }

  lemma QuietPairIsQuiet(names: Names, wire: Wire, w: World)
    ensures QuietPair(names, wire, w) || StuckPair(names, wire, w) ==> Quiet(w)
  {
  }

  lemma StuckAfterTags(names: Names, wire: Wire, w: World, b: World, tally: Tally, mid: Tally)
    requires StuckPair(names, wire, w) && TagsSynced(w, b, tally, mid)
    ensures QuietPullable(names, wire, b) && MergeRefused(wire, b)
  {
    hide MergeRecords, WholeRecords, RecordsPass, Refused;
  }

  lemma QuietTagsThenRecords(names: Names, wire: Wire, w: World, b: World, tally: Tally, mid: Tally)
    requires QuietPair(names, wire, w) && TagsSynced(w, b, tally, mid)
    ensures QuietRecords(names, wire, b) && TagsCover(b.remote.tags, b.local.tags) && LabelsPass(b.local.tags)
  {
    hide AcceptsLabel, Whole, RecordsPass, MergeRecords;
    MergedTagsAgree(w, b);
  }

  lemma QuietPassMerges(w: World, b: World, v: World, tally: Tally, mid: Tally, t: Tally)
    requires TagsSynced(w, b, tally, mid) && RecordsSynced(b, v, mid, t)
    ensures Quiet(v) && t == RecordTally(LabelTally(tally, w), w) && Merged(w, v)
    ensures Mutual(w) ==> Clean(tally, t) && v.local == w.local && v.remote == w.remote
  {
    hide TagsCover, RecordsCover, MergeTags;
  }

  /** Between replicas that cover each other a pass counts nothing but the live records. */
  lemma MutualCountsNothing(w: World, t: Tally)
    requires Mutual(w)
    ensures RecordTally(LabelTally(t, w), w) ==
              t.(total := LiveRecords(MergeRecords(w.local.records, w.remote.records)))
  {
    hide RecordsCover, TagsCover, NewerRecords, NewerTags, MissingTags, Usable, MergeRecords;
    NoNewerRecordsIsCover(w.local.records, w.remote.records);
    NoNewerRecordsIsCover(w.remote.records, w.local.records);
    NewerTagsAreMissing(w.local.tags, Usable(w.remote.tags));
    NewerTagsAreMissing(w.remote.tags, w.local.tags);
    NoNewerTagsIsCover(w.local.tags, Usable(w.remote.tags));
    NoNewerTagsIsCover(w.remote.tags, w.local.tags);
    UsableCovers(w.remote.tags, w.local.tags);
  }

  lemma UsableCovers(m: Tags, other: Tags)
    requires TagsCover(Usable(m), other)
    ensures TagsCover(m, other)
  {
  }

  /** After one pass the pair is quiescent still, and mutual. */
  lemma MergedIsMutual(names: Names, wire: Wire, w: World, v: World)
    requires QuietPair(names, wire, w) && Merged(w, v) && Quiet(v)
    ensures QuietPair(names, wire, v) && Mutual(v)
    ensures MergeRecords(v.local.records, v.remote.records) == MergeRecords(w.local.records, w.remote.records)
  {
    var j := v.local.records;
    MergeRecordsWhole(names, w.local.records, w.remote.records);
    MergeSelf(j);
    MergedTagsAgree(w, v);
  }

  lemma MergeSelf(m: Records)
    ensures MergeRecords(m, m) == m && RecordsCover(m, m)
  {
    forall id | id in m ensures Merge(m[id], m[id]) == m[id] {
      MergeAbsorbs(m[id], m[id]);
    }
  }

  // ---------- The loop ----------

  /** Some moment between `w` and `v` at which the replicas agreed, with the revisions that were reported. */
  ghost predicate AgreedAt(w: World, v: World, t: Tally, i: nat)
  {
    && |w.history| <= i + 1 && i < |v.history|
    && v.history[i].local.revision == t.localRevision && v.history[i].remote.revision == t.remoteRevision
    && Agree(v.history[i].local, v.history[i].remote)
  }

  ghost predicate Agreed(w: World, v: World, t: Tally)
  {
    exists i: nat :: AgreedAt(w, v, t, i)
  }

  /** The fences around a clean pass meet at the moment the pass began. */
  lemma FencesMeet(names: Names, w: World, a: World, b: World, c: World, d: World, e: World, t: Tally)
    requires Evolves(names, w, a) && Evolves(names, a, b) && Evolves(names, b, c) && Evolves(names, c, d)
             && Evolves(names, d, e)
    requires a.local.revision == d.local.revision && b.remote.revision == e.remote.revision
    requires t.localRevision == d.local.revision && t.remoteRevision == e.remote.revision
    requires StoodStill(b, c) ==> Agree(b.local, b.remote)
    ensures Agreed(w, e, t)
  {
    hide Healthy, LabelsNamed, Agree;
    LaterTransitive(w, a, b);
    LaterTransitive(b, c, d);
    LaterTransitive(b, d, e);
    assert StoodStill(b, c);
    var i := |b.history| - 1;
    assert e.history[i] == b.history[i] == Moment(b.local, b.remote);
    assert AgreedAt(w, e, t, i);
  }

  /**
   * Full agreement, at one and the same moment: where versions name values and writers only add, the records were
   * equal, payloads included; where versions name labels, so were the labels that a scan lists.
   */
  lemma AgreedIsEqual(names: Names, w: World, v: World, t: Tally)
    requires Agreed(w, v, t)
    ensures exists i: nat ::
              && AgreedAt(w, v, t, i)
              && (Healthy(names, v) ==> v.history[i].local.records == v.history[i].remote.records)
              && (LabelsNamed(names, v) ==> v.history[i].local.tags == Usable(v.history[i].remote.tags))
  {
    var i: nat :| AgreedAt(w, v, t, i);
    var m := v.history[i];
    if Healthy(names, v) {
      assert WholeMoment(names, m);
      WholeSameVersionsEqualRecords(names, m.local.records, m.remote.records);
    }
    if LabelsNamed(names, v) {
      assert NamedMoment(names, m);
      NamedHasOneLabel(names, m.local.tags, Usable(m.remote.tags));
      SameVersionsSameTags(m.local.tags, Usable(m.remote.tags));
    }
  }

  const NOTHING_COUNTED := Tally(0, 0, 0, 0, 0, 0, 0, false, 0, 0)

  /** `reconcile`: at most three passes, success only from a clean pass between unmoved fences. */
  method Reconcile(wire: Wire, w: World, ghost names: Names) returns (v: World, t: Tally)
    requires Coherent(w)
    ensures Evolves(names, w, v)
    // Fence soundness, under every interleaving.
    ensures t.converged ==> t.failed == 0 && Agreed(w, v, t)
    // Convergence of a quiescent pair to the merge of the two replicas.
    ensures QuietPair(names, wire, w) ==> t.converged && Merged(w, v)
    // Afterwards the listed labels are equal, contents included, unless a version stood for two labels.
    ensures QuietPair(names, wire, w) ==>
              (v.local.tags == Usable(v.remote.tags) <==> OneLabelPerVersion(w.local.tags, w.remote.tags))
    // And the report says exactly what either side lacked of the other.
    ensures QuietPair(names, wire, w) ==>
              && t.received == |NewerRecords(w.local.records, w.remote.records)|
              && t.sent == |NewerRecords(w.remote.records, w.local.records)|
              && t.tagsReceived == |MissingTags(w.local.tags, Usable(w.remote.tags))|
              && t.tagsSent == |MissingTags(w.remote.tags, w.local.tags)|
              && t.total == |set id | id in v.local.records && !v.local.records[id].deleted|
    // Without writers a merge that the peer refuses is never reached.
    ensures StuckPair(names, wire, w) ==> !t.converged
  {
    hide Evolves, Coherent, Agree, Merged, Mutual, QuietPair, StoodStill, Agreed, StuckPair, NewerRecords, MissingTags,
         Usable, OneLabelPerVersion, MergeRecords, LiveRecords;
    v, t := w, NOTHING_COUNTED;
    EvolvesReflexive(names, w);
    QuietPairIsQuiet(names, wire, w);
    var pass := 0;
    while pass < MAX_PASSES
      invariant 0 <= pass <= MAX_PASSES
      invariant Evolves(names, w, v) && Coherent(v)
      invariant t.failed == 0 && !t.converged
      invariant QuietPair(names, wire, w) ==> Quiet(v) && pass < 2
      invariant pass == 0 ==> t == NOTHING_COUNTED
      invariant QuietPair(names, wire, w) && pass == 0 ==> v == w
      invariant StuckPair(names, wire, w) ==> pass == 0 && v == w
      invariant QuietPair(names, wire, w) && pass == 1 ==>
                  Merged(w, v) && t == RecordTally(LabelTally(NOTHING_COUNTED, w), w)
    {
      var a, fault, _ := Await(v, names);
      EvolvesTransitive(names, w, v, a);
      if fault {
        return a, Failure(t);
      }
      var localBefore := a.local.revision;
      var b, lost, _ := Await(a, names);
      EvolvesTransitive(names, w, a, b);
      if lost {
        return b, Failure(t);
      }
      var remoteBefore := b.remote.revision;
      if QuietPair(names, wire, w) && pass == 1 {
        MergedIsMutual(names, wire, w, v);
        MutualCountsNothing(v, t);
      }
      var c, ok, next := ReconcileOnce(wire, b, t, names);
      EvolvesTransitive(names, w, b, c);
      if !ok {
        return c, Failure(next);
      }
      if next.failed > 0 {
        return c, next;
      }
      var d, missing, _ := Await(c, names);
      EvolvesTransitive(names, w, c, d);
      if missing {
        return d, Failure(next);
      }
      var e, gone, _ := Await(d, names);
      EvolvesTransitive(names, w, d, e);
      if gone {
        return e, Failure(next);
      }
      if t.differences == next.differences && localBefore == d.local.revision && remoteBefore == e.remote.revision {
        t := next.(converged := true, localRevision := d.local.revision, remoteRevision := e.remote.revision);
        FencesMeet(names, w, a, b, c, d, e, t);
        if QuietPair(names, wire, w) && pass == 1 {
          MergedStays(w, v, e);
        }
        if QuietPair(names, wire, w) {
          QuietPairIsOne(names, wire, w, e);
          MergedTotal(w, e);
        }
        return e, t;
      }
      v, t := e, next;
      pass := pass + 1;
    }
  }

  /**
   * A remote label with an empty identifier, which only the remote store itself can have made, is not paged: the pair
   * converges without it.
   */
  method EmptyLabelStaysBehind() returns (v: World, t: Tally)
    ensures t.converged && [] in v.remote.tags && [] !in v.local.tags
  {
    var tag := Tag(Version(1, "a"), "a", "#000", false);
    var local, remote := Store(map[], map[], 0), Store(map[], map[[] := tag], 0);
    var w := World(local, remote, [], 0, [Moment(local, remote)]);
    var wire := Wire((id, r) => 0, (id, r) => true, (id, r) => true, 0);
    ghost var names := Names((id, x) => false, (id, x) => [], (id, x) => false, (id, l, x) => false,
                            (id, x) => Tag(x, "a", "#000", false));
    assert Usable(remote.tags) == map[];
    assert QuietPair(names, wire, w);
    v, t := Reconcile(wire, w, names);
    assert MergedTags(w, v);
  }

  lemma MergedTotal(w: World, v: World)
    requires Merged(w, v)
    ensures LiveRecords(MergeRecords(w.local.records, w.remote.records)) ==
              |set id | id in v.local.records && !v.local.records[id].deleted|
  {
  }

  lemma MergedStays(w: World, v: World, e: World)
    requires Merged(w, v) && e.local == v.local && e.remote == v.remote
    ensures Merged(w, e)
  {
  }
}
