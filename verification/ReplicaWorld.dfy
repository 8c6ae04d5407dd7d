// Two replicas and everyone who writes to them while a reconciliation runs.
module ReplicaWorld {
  import opened Ordering
  import opened ReplicaRecords
  import opened ReplicaStore

  /** What the other users of one store do while the reconciliation waits. */
  datatype Write =
    | Keep
    | Touch                                     // a change outside records and labels moves the revision
    | Extend(records: Records, tags: Tags)      // merging writes: copies, edits, tombstones, label changes
    | Replace(records: Records, tags: Tags)     // anything else, including dropping records

  /** One suspension point: both stores may change, the awaited operation may fail. */
  datatype Turn = Turn(local: Write, remote: Write, fault: bool, collectionDifferences: nat)

  datatype Moment = Moment(local: Store, remote: Store)

  /**
   * Both stores, the turns everybody else takes, how many of them were taken, and every moment so far. The script is
   * arbitrary, so a statement about all worlds is a statement about all interleavings.
   */
  datatype World = World(local: Store, remote: Store, script: seq<Turn>, taken: nat, history: seq<Moment>)

  /** Turns still to come. */
  function Left(w: World): nat
  {
    if w.taken < |w.script| then |w.script| - w.taken else 0
  }

  /** Nobody else writes any more and nothing fails. */
  predicate Quiet(w: World)
  {
    Left(w) == 0
  }

  function Written(s: Store, write: Write): Store
  {
    match write
    case Keep => s
    case Touch => Store(s.records, s.tags, s.revision + 1)
    case Extend(records, tags) => Update(s, MergeRecords(s.records, records), MergeTags(s.tags, tags))
    case Replace(records, tags) => Store(records, tags, s.revision + 1)
  }

  function Advance(w: World, local: Store, remote: Store, taken: nat): World
  {
    World(local, remote, w.script, taken, w.history + [Moment(local, remote)])
  }

  /** The revision fence: it never moves back, and while it stands still so does the store. */
  ghost predicate Fenced(a: Store, b: Store)
  {
    a.revision <= b.revision && (a.revision == b.revision ==> a == b)
  }

  ghost predicate Coherent(w: World)
  {
    && w.history != []
    && w.history[|w.history| - 1] == Moment(w.local, w.remote)
    && forall i, j :: 0 <= i <= j < |w.history| ==>
         Fenced(w.history[i].local, w.history[j].local) && Fenced(w.history[i].remote, w.history[j].remote)
  }

  /** `v` continues `w`. */
  ghost predicate Later(w: World, v: World)
  {
    && Coherent(w) && Coherent(v)
    && w.history <= v.history
    && Fenced(w.local, v.local) && Fenced(w.remote, v.remote)
    && v.script == w.script && w.taken <= v.taken
  }

  // ---------- Stores that only grow ----------

  ghost predicate BenignWrite(names: Names, write: Write)
  {
    !write.Replace? && (write.Extend? ==> WholeRecords(names, write.records))
  }

  ghost predicate Benign(names: Names, script: seq<Turn>)
  {
    forall i :: 0 <= i < |script| ==> BenignWrite(names, script[i].local) && BenignWrite(names, script[i].remote)
  }

  ghost predicate WholeMoment(names: Names, m: Moment)
  {
    WholeRecords(names, m.local.records) && WholeRecords(names, m.remote.records)
  }

  /** Writers only add, and at every moment every live record on either side has had its payload. */
  ghost predicate Healthy(names: Names, w: World)
  {
    && Benign(names, w.script)
    && WholeMoment(names, Moment(w.local, w.remote))
    && forall i :: 0 <= i < |w.history| ==> WholeMoment(names, w.history[i])
  }

  ghost predicate NamedWrite(names: Names, write: Write)
  {
    write.Extend? || write.Replace? ==> NamedTags(names, write.tags)
  }

  ghost predicate NamedMoment(names: Names, m: Moment)
  {
    NamedTags(names, m.local.tags) && NamedTags(names, m.remote.tags)
  }

  /** At every moment, and in whatever is written, a label version stands for one label. */
  ghost predicate LabelsNamed(names: Names, w: World)
  {
    && (forall i :: 0 <= i < |w.script| ==>
          NamedWrite(names, w.script[i].local) && NamedWrite(names, w.script[i].remote))
    && NamedMoment(names, Moment(w.local, w.remote))
    && forall i :: 0 <= i < |w.history| ==> NamedMoment(names, w.history[i])
  }

  ghost predicate Grew(w: World, v: World)
  {
    RecordsCover(v.local.records, w.local.records) && RecordsCover(v.remote.records, w.remote.records)
  }

  /** What every step and every sequence of steps of the reconciliation guarantees about the stores. */
  ghost predicate Evolves(names: Names, w: World, v: World)
  {
    && Later(w, v)
    && (Healthy(names, w) <==> Healthy(names, v))
    && (Healthy(names, w) ==> Grew(w, v))
    && (LabelsNamed(names, w) <==> LabelsNamed(names, v))
  }

  // ---------- Steps ----------

  lemma LaterReflexive(w: World)
    requires Coherent(w)
    ensures Later(w, w) && Grew(w, w)
  {
  }

  lemma LaterTransitive(u: World, v: World, w: World)
    requires Later(u, v) && Later(v, w)
    ensures Later(u, w)
    ensures Grew(u, v) && Grew(v, w) ==> Grew(u, w)
  {
    if Grew(u, v) && Grew(v, w) {
      RecordsCoverTransitive(w.local.records, v.local.records, u.local.records);
      RecordsCoverTransitive(w.remote.records, v.remote.records, u.remote.records);
    }
  }

  lemma EvolvesReflexive(names: Names, w: World)
    requires Coherent(w)
    ensures Evolves(names, w, w)
  {
    LaterReflexive(w);
  }

  lemma EvolvesFenced(names: Names, w: World, v: World)
    requires Evolves(names, w, v)
    ensures Coherent(v) && Fenced(w.local, v.local) && Fenced(w.remote, v.remote)
  {
  }

  lemma EvolvesNamed(names: Names, w: World, v: World)
    requires Evolves(names, w, v)
    ensures LabelsNamed(names, w) <==> LabelsNamed(names, v)
  {
  }

  lemma EvolvesTransitive(names: Names, u: World, v: World, w: World)
    requires Evolves(names, u, v) && Evolves(names, v, w)
    ensures Evolves(names, u, w)
  {
    LaterTransitive(u, v, w);
  }

  /** The last step only has to keep a healthy beginning healthy. */
  lemma EvolvesThrough(names: Names, u: World, v: World, w: World)
    requires Evolves(names, u, v) && Later(v, w)
    requires Healthy(names, u) ==> Evolves(names, v, w)
    requires LabelsNamed(names, v) <==> LabelsNamed(names, w)
    ensures Evolves(names, u, w)
  {
    LaterTransitive(u, v, w);
    if Healthy(names, w) {
      HealthyBefore(names, u, w);
    }
  }

  lemma AdvanceIsLater(w: World, local: Store, remote: Store, taken: nat)
    requires Coherent(w) && Fenced(w.local, local) && Fenced(w.remote, remote) && w.taken <= taken
    ensures Later(w, Advance(w, local, remote, taken))
  {
    var h := w.history + [Moment(local, remote)];
    forall i, j | 0 <= i <= j < |h| ensures Fenced(h[i].local, h[j].local) && Fenced(h[i].remote, h[j].remote) {
      if j == |w.history| && i < j {
        assert Fenced(w.history[i].local, w.history[|w.history| - 1].local);
        assert Fenced(w.history[i].remote, w.history[|w.history| - 1].remote);
      }
    }
  }

  lemma AdvanceIsHealthy(names: Names, w: World, local: Store, remote: Store, taken: nat)
    requires Healthy(names, w)
    requires WholeRecords(names, local.records) && WholeRecords(names, remote.records)
    ensures Healthy(names, Advance(w, local, remote, taken))
  {
  }

  /** A healthy end had a healthy beginning. */
  lemma HealthyBefore(names: Names, w: World, v: World)
    requires Later(w, v) && Healthy(names, v)
    ensures Healthy(names, w)
  {
    assert v.history[|w.history| - 1] == w.history[|w.history| - 1];
    assert forall i :: 0 <= i < |w.history| ==> w.history[i] == v.history[i];
  }

  /** Labels stay named as long as what is stored is, and what is named now always was. */
  lemma AdvanceKeepsNames(names: Names, w: World, local: Store, remote: Store, taken: nat)
    requires Later(w, Advance(w, local, remote, taken))
    requires LabelsNamed(names, w) ==> NamedTags(names, local.tags) && NamedTags(names, remote.tags)
    ensures LabelsNamed(names, w) <==> LabelsNamed(names, Advance(w, local, remote, taken))
  {
    var v := Advance(w, local, remote, taken);
    assert forall i :: 0 <= i < |w.history| ==> w.history[i] == v.history[i];
    assert w.history[|w.history| - 1] == Moment(w.local, w.remote);
  }

  lemma WrittenIsFenced(s: Store, write: Write)
    ensures Fenced(s, Written(s, write))
  {
  }

  lemma WrittenGrows(names: Names, s: Store, write: Write)
    requires WholeRecords(names, s.records) && BenignWrite(names, write)
    ensures WholeRecords(names, Written(s, write).records)
    ensures RecordsCover(Written(s, write).records, s.records)
  {
    if write.Extend? {
      MergeRecordsCoversBoth(s.records, write.records);
      forall id | id in s.records && id in write.records
        ensures Whole(names, id, Merge(s.records[id], write.records[id]))
      {
        MergeKeepsWhole(names, id, s.records[id], write.records[id]);
      }
    }
  }

  lemma WrittenKeepsNames(names: Names, s: Store, write: Write)
    requires NamedTags(names, s.tags) && NamedWrite(names, write)
    ensures NamedTags(names, Written(s, write).tags)
  {
    if write.Extend? {
      MergeTagsNamed(names, s.tags, write.tags);
    }
  }

  /** A suspension point of the reconciliation: one turn of everybody else. */
  method Await(w: World, ghost names: Names) returns (v: World, fault: bool, collectionDifferences: nat)
    requires Coherent(w)
    ensures Evolves(names, w, v) && Coherent(v)
    ensures !Quiet(w) ==> Left(v) < Left(w)
    ensures Quiet(w) ==> v == w && !fault && collectionDifferences == 0
  {
    if Quiet(w) {
      LaterReflexive(w);
      return w, false, 0;
    }
    var turn := w.script[w.taken];
    var local, remote := Written(w.local, turn.local), Written(w.remote, turn.remote);
    v := Advance(w, local, remote, w.taken + 1);
    fault, collectionDifferences := turn.fault, turn.collectionDifferences;
    WrittenIsFenced(w.local, turn.local);
    WrittenIsFenced(w.remote, turn.remote);
    AdvanceIsLater(w, local, remote, w.taken + 1);
    if LabelsNamed(names, w) {
      WrittenKeepsNames(names, w.local, turn.local);
      WrittenKeepsNames(names, w.remote, turn.remote);
    }
    AdvanceKeepsNames(names, w, local, remote, w.taken + 1);
    if Healthy(names, w) {
      WrittenGrows(names, w.local, turn.local);
      WrittenGrows(names, w.remote, turn.remote);
      AdvanceIsHealthy(names, w, local, remote, w.taken + 1);
    }
    if Healthy(names, v) {
      HealthyBefore(names, w, v);
    }
  }

  /** `apply_replica_record` on the local store. */
  method StoreLocally(w: World, id: Text, r: Replica, ghost names: Names) returns (v: World, changed: bool)
    requires Coherent(w)
    ensures Later(w, v) && Fenced(w.local, v.local) && Fenced(w.remote, v.remote) && Left(v) == Left(w)
    ensures v.local.records == w.local.records ==> v.local == w.local
    ensures v.local.records == MergeInto(w.local.records, id, r) && v.local.tags == w.local.tags && v.remote == w.remote
    ensures changed <==> !(id in w.local.records && Covers(w.local.records[id], r))
    ensures (Healthy(names, w) ==> Named(names, id, r) && SafeTransfer(Get(w.local.records, id), r)) ==>
              Evolves(names, w, v)
    ensures Coherent(v) && (LabelsNamed(names, w) <==> LabelsNamed(names, v))
  {
    var local := ApplyRecord(w.local, id, r);
    changed := local.records != w.local.records;
    v := Advance(w, local, w.remote, w.taken);
    AdvanceIsLater(w, local, w.remote, w.taken);
    AdvanceKeepsNames(names, w, local, w.remote, w.taken);
    MergeIntoCovers(w.local.records, id, r);
    if id in w.local.records {
      MergeAbsorbs(w.local.records[id], r);
    }
    assert local.records[id] == MergeInto(w.local.records, id, r)[id];
    if Healthy(names, w) && Named(names, id, r) && SafeTransfer(Get(w.local.records, id), r) {
      MergeIntoKeepsWhole(names, w.local.records, id, r);
      AdvanceIsHealthy(names, w, local, w.remote, w.taken);
    }
    if Healthy(names, v) {
      HealthyBefore(names, w, v);
    }
  }

  /** `apply_replica_record` on the remote store. */
  method StoreRemotely(w: World, id: Text, r: Replica, ghost names: Names) returns (v: World, changed: bool)
    requires Coherent(w)
    ensures Later(w, v) && Fenced(w.local, v.local) && Fenced(w.remote, v.remote) && Left(v) == Left(w)
    ensures v.remote.records == w.remote.records ==> v.remote == w.remote
    ensures v.remote.records == MergeInto(w.remote.records, id, r) && v.remote.tags == w.remote.tags
            && v.local == w.local
    ensures changed <==> !(id in w.remote.records && Covers(w.remote.records[id], r))
    ensures v.history == w.history + [Moment(v.local, v.remote)]
    ensures (Healthy(names, w) ==> Named(names, id, r) && SafeTransfer(Get(w.remote.records, id), r)) ==>
              Evolves(names, w, v)
    ensures Coherent(v) && (LabelsNamed(names, w) <==> LabelsNamed(names, v))
  {
    var remote := ApplyRecord(w.remote, id, r);
    changed := remote.records != w.remote.records;
    v := Advance(w, w.local, remote, w.taken);
    AdvanceIsLater(w, w.local, remote, w.taken);
    AdvanceKeepsNames(names, w, w.local, remote, w.taken);
    MergeIntoCovers(w.remote.records, id, r);
    if id in w.remote.records {
      MergeAbsorbs(w.remote.records[id], r);
    }
    assert remote.records[id] == MergeInto(w.remote.records, id, r)[id];
    if Healthy(names, w) && Named(names, id, r) && SafeTransfer(Get(w.remote.records, id), r) {
      MergeIntoKeepsWhole(names, w.remote.records, id, r);
      AdvanceIsHealthy(names, w, w.local, remote, w.taken);
    }
    if Healthy(names, v) {
      HealthyBefore(names, w, v);
    }
  }

  /** `apply_replica_labels` on the local store; `changed` counts the labels that moved. */
  method StoreTagsLocally(w: World, tags: Tags, ghost names: Names) returns (v: World, changed: nat)
    requires Coherent(w) && (LabelsNamed(names, w) ==> NamedTags(names, tags))
    ensures Later(w, v) && Fenced(w.local, v.local) && Fenced(w.remote, v.remote) && Left(v) == Left(w)
    ensures v.local.tags == MergeTags(w.local.tags, tags) && v.local.records == w.local.records && v.remote == w.remote
    ensures v.local.tags == w.local.tags ==> v.local == w.local
    ensures changed == |NewerTags(w.local.tags, tags)| && (changed == 0 <==> TagsCover(w.local.tags, tags))
    ensures Evolves(names, w, v) && Coherent(v)
  {
    var local := ApplyTags(w.local, tags);
    changed := |NewerTags(w.local.tags, tags)|;
    NoNewerTagsIsCover(w.local.tags, tags);
    v := Advance(w, local, w.remote, w.taken);
    AdvanceIsLater(w, local, w.remote, w.taken);
    if LabelsNamed(names, w) {
      MergeTagsNamed(names, w.local.tags, tags);
    }
    AdvanceKeepsNames(names, w, local, w.remote, w.taken);
    if Healthy(names, w) {
      AdvanceIsHealthy(names, w, local, w.remote, w.taken);
    }
    if Healthy(names, v) {
      HealthyBefore(names, w, v);
    }
  }

  /** `apply_replica_labels` on the remote store. */
  method StoreTagsRemotely(w: World, tags: Tags, ghost names: Names) returns (v: World, changed: nat)
    requires Coherent(w) && (LabelsNamed(names, w) ==> NamedTags(names, tags))
    ensures Later(w, v) && Fenced(w.local, v.local) && Fenced(w.remote, v.remote) && Left(v) == Left(w)
    ensures v.remote.tags == MergeTags(w.remote.tags, tags) && v.remote.records == w.remote.records
            && v.local == w.local
    ensures v.remote.tags == w.remote.tags ==> v.remote == w.remote
    ensures changed == |NewerTags(w.remote.tags, tags)| && (changed == 0 <==> TagsCover(w.remote.tags, tags))
    ensures Evolves(names, w, v) && Coherent(v)
  {
    var remote := ApplyTags(w.remote, tags);
    changed := |NewerTags(w.remote.tags, tags)|;
    NoNewerTagsIsCover(w.remote.tags, tags);
    v := Advance(w, w.local, remote, w.taken);
    AdvanceIsLater(w, w.local, remote, w.taken);
    if LabelsNamed(names, w) {
      MergeTagsNamed(names, w.remote.tags, tags);
    }
    AdvanceKeepsNames(names, w, w.local, remote, w.taken);
    if Healthy(names, w) {
      AdvanceIsHealthy(names, w, w.local, remote, w.taken);
    }
    if Healthy(names, v) {
      HealthyBefore(names, w, v);
    }
  }
}
