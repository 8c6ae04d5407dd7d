// Records of the replication protocol as they travel: what the wire makes of them, and convergence over that wire.
module Delivery {
  import opened Basics
  import opened Ordering
  import opened WireRules
  import opened ReplicaStore
  import opened ReplicaWorld
  import opened Reconcile
  import R = ReplicaRecords
  import Scan = ReplicaScan
  import Labels = ReconcileLabels
  import Transfers = ReconcileRecords
  import W = ReplicaWire

  const MAX_MEMBERSHIPS := 4096

  /** What a content version of a record is, beside the payload's bytes: the same on every device. */
  datatype Content = Content(
    kind: W.Kind, change: W.Change, width: nat, height: nat, preview: string, sourceApp: Option<string>,
    sourceDevice: string, sourceDeviceName: string, payload: W.Payload)

  type Catalogue = (Text, Version) -> Content

  // ---------- Records and what they stand for ----------

  ghost function Memberships(m: map<Text, R.Membership>): seq<W.Membership>
  {
    MembershipsOf(m, Sorted(m.Keys, ById))
  }

  function MembershipsOf(m: map<Text, R.Membership>, ids: seq<Text>): seq<W.Membership>
  {
    seq(|ids|, i requires 0 <= i < |ids| => MembershipOf(m, ids[i]))
  }

  function MembershipOf(m: map<Text, R.Membership>, id: Text): W.Membership
  {
    if id in m then W.Membership(id, m[id].attached, m[id].version.revision, m[id].version.device)
    else W.Membership(id, false, 0, [])
  }

  /** The stored record that goes out for `r`. */
  ghost function Outgoing(contents: Catalogue, id: Text, r: R.Replica): W.Replica
  {
    var c := contents(id, r.content);
    W.Replica(
      W.Meta(id, c.width, c.height, c.preview, c.sourceApp, c.sourceDevice, c.sourceDeviceName, r.capturedAt,
             r.content.revision, r.content.device, r.favored, r.favorite.revision, r.favorite.device, r.deleted, false,
             r.firstCapturedAt, r.copyCount, r.lastUsedAt),
      c.kind, c.change, if r.payload.Some? then c.payload else W.NO_PAYLOAD, [], Memberships(r.memberships), 0)
  }

  /** The parts of a record's payload, if it has the payload its kind calls for. */
  ghost function BodyOf(x: W.Replica): Option<R.Body>
  {
    if x.meta.deleted || W.PartsOf(x) == None then None else Some(W.BytesOf(W.PartsOf(x).value))
  }

  /** What a stored or received record stands for in the protocol. */
  ghost function Standing(x: W.Replica): R.Replica
  {
    R.Replica(
      Version(x.meta.revision, x.meta.device),
      x.meta.deleted,
      BodyOf(x),
      Version(x.meta.favoriteRevision, x.meta.favoriteDevice),
      x.meta.favorite,
      x.meta.capturedAt,
      x.meta.firstCapturedAt,
      x.meta.copyCount,
      x.meta.lastUsedAt,
      MembershipMap(x.memberships))
  }

  ghost function MembershipMap(ms: seq<W.Membership>): map<Text, R.Membership>
  {
    map i | 0 <= i < |ms| && Last(ms, i) ::
      ms[i].labelId := R.Membership(Version(ms[i].revision, ms[i].device), ms[i].attached)
  }

  /** No later membership is of the same label. */
  ghost predicate Last(ms: seq<W.Membership>, i: nat)
    requires i < |ms|
  {
    forall j :: i < j < |ms| ==> ms[j].labelId != ms[i].labelId
  }

  /** `ms` lists the memberships, each label once. */
  ghost predicate Lists(ms: seq<W.Membership>, m: map<Text, R.Membership>)
  {
    && |ms| == |m|
    && (forall i :: 0 <= i < |ms| ==> ms[i].labelId in m && ms[i] == MembershipOf(m, ms[i].labelId))
    && (forall i, j :: 0 <= i < j < |ms| ==> ms[i].labelId != ms[j].labelId)
    && (forall id :: id in m ==> exists i :: 0 <= i < |ms| && ms[i].labelId == id)
  }

  lemma ListedByIds(m: map<Text, R.Membership>, ids: seq<Text>)
    requires |ids| == |m| && (forall i :: 0 <= i < |ids| ==> ids[i] in m) && (forall id :: id in m ==> id in ids)
    requires forall i, j :: 0 <= i < j < |ids| ==> ids[i] != ids[j]
    ensures Lists(MembershipsOf(m, ids), m)
  {
    var ms := MembershipsOf(m, ids);
    assert forall i :: 0 <= i < |ms| ==> ms[i].labelId == ids[i];
    forall id | id in m ensures exists i :: 0 <= i < |ms| && ms[i].labelId == id {
      var i :| 0 <= i < |ids| && ids[i] == id;
      assert ms[i].labelId == id;
    }
  }

  lemma Enumerated(ids: seq<Text>, s: set<Text>)
    requires Enumerates(ids, s, ById)
    ensures (forall i :: 0 <= i < |ids| ==> ids[i] in s) && (forall id :: id in s ==> id in ids)
    ensures forall i, j :: 0 <= i < j < |ids| ==> ids[i] != ids[j]
  {
    hide ById;
    assert forall i :: 0 <= i < |ids| ==> ids[i] in ids;
  }

  lemma MembershipsAreListed(m: map<Text, R.Membership>)
    ensures Lists(Memberships(m), m)
  {
    hide StrictTotalOn, ById, Sorted, Enumerates, Lists, MembershipsOf;
    var ids := Sorted(m.Keys, ById);
    ByIdIsTotal(m.Keys);
    SortedEnumerates(m.Keys, ById);
    Enumerated(ids, m.Keys);
    assert |m| == |m.Keys|;
    ListedByIds(m, ids);
  }

  lemma MapAt(ms: seq<W.Membership>, i: nat)
    requires i < |ms| && Last(ms, i)
    ensures ms[i].labelId in MembershipMap(ms)
    ensures MembershipMap(ms)[ms[i].labelId] == R.Membership(Version(ms[i].revision, ms[i].device), ms[i].attached)
  {
  }

  lemma MapFrom(ms: seq<W.Membership>, id: Text)
    requires id in MembershipMap(ms)
    ensures exists i :: 0 <= i < |ms| && ms[i].labelId == id
  {
  }

  /** Listing memberships and reading the list back. */
  lemma MembershipsTrip(m: map<Text, R.Membership>)
    ensures MembershipMap(Memberships(m)) == m
  {
    hide Memberships, MembershipMap;
    MembershipsAreListed(m);
    var ms := Memberships(m);
    forall id | id in m ensures id in MembershipMap(ms) && MembershipMap(ms)[id] == m[id] {
      var i :| 0 <= i < |ms| && ms[i].labelId == id;
      MapAt(ms, i);
    }
    forall id | id in MembershipMap(ms) ensures id in m {
      MapFrom(ms, id);
    }
  }

  /** The record holds the payload its content version stands for, if it is one that holds a payload. */
  ghost predicate Catalogued(contents: Catalogue, id: Text, r: R.Replica)
  {
    r.payload == if r.deleted || r.payload == None then None else BodyOf(Outgoing(contents, id, r))
  }

  /** A record that goes out stands for the record of the protocol it was made from. */
  lemma OutgoingStands(contents: Catalogue, id: Text, r: R.Replica)
    requires Catalogued(contents, id, r)
    ensures Standing(Outgoing(contents, id, r)) == r
  {
    hide Memberships, MembershipMap;
    MembershipsTrip(r.memberships);
  }

  /** What arrives stands for the same record, although labels, syntax and unused payloads do not travel. */
  lemma NormalisedStands(host: W.Host, x: W.Replica)
    requires W.Transferable(x)
    ensures Standing(W.Normalised(host, x)) == Standing(x)
  {
    hide MembershipMap;
    W.PartsTransfer(x);
    var y := W.Normalised(host, x);
    if !x.meta.deleted {
      assert W.Transferable(y);
      W.PartsTransfer(y);
      assert W.PayloadBytes(y) == W.PayloadBytes(x);
    }
  }

  /** A header stands for the record without its payload. */
  lemma HeaderStands(x: W.Replica, now: int, later: int)
    requires W.Acceptable(W.MetadataToWire(x), now, later)
    ensures Standing(W.Unwired(W.MetadataToWire(x))) == R.Metadata(Standing(x))
  {
  }

  // ---------- What the wire carries ----------

  ghost predicate Goes(contents: Catalogue, id: Text, r: R.Replica, now: int, later: int)
  {
    W.Deliverable(Outgoing(contents, id, r), now, later)
  }

  /**
   * A deliverable record, encoded, sent in chunks and received, arrives as a record that stands for the same one, and
   * takes exactly the frames that were sent.
   */
  lemma ArrivesAsItself(host: W.Host, contents: Catalogue, id: Text, r: R.Replica, rest: seq<Bytes>, now: int,
                        later: int)
    requires Catalogued(contents, id, r) && W.Typed(host, Outgoing(contents, id, r))
    requires Goes(contents, id, r, now, later)
    ensures var encoded := W.EncodeRecord(host, Outgoing(contents, id, r));
            && encoded.Some?
            && var sent := W.AllChunks(encoded.value.1, host.chunk);
            && var got := W.Receive(host, encoded.value.0, sent + rest, now, later);
            && got.Some? && got.value.1 == |sent| && got.value.0.meta.syncId == id && Standing(got.value.0) == r
  {
    hide Memberships, Standing, W.Receive, W.AllChunks, W.MetaOk, W.MembershipsOk, W.PartsOf;
    var x := Outgoing(contents, id, r);
    W.RoundTrip(host, x, rest, now, later);
    OutgoingStands(contents, id, r);
    NormalisedStands(host, x);
  }

  /** What a content version stands for has the bytes the protocol knows it by. */
  ghost predicate Describes(contents: Catalogue, names: R.Names)
  {
    forall id, r ::
      var body := BodyOf(Outgoing(contents, id, r));
      r.payload.Some? && body.Some? ==> names.body(id, r.content) == body.value
  }

  lemma WholeIsCatalogued(contents: Catalogue, names: R.Names, id: Text, r: R.Replica, now: int, later: int)
    requires Describes(contents, names) && R.Whole(names, id, r) && Goes(contents, id, r, now, later)
    ensures Catalogued(contents, id, r)
  {
    hide Memberships, W.MetaOk, W.MembershipsOk;
    var x := Outgoing(contents, id, r);
    W.PartsTransfer(x);
    assert !r.deleted ==> BodyOf(x).Some?;
  }

  /** What the wire carries of a complete record arrives as that record, with its payload. */
  lemma WholeArrives(host: W.Host, contents: Catalogue, names: R.Names, id: Text, r: R.Replica, rest: seq<Bytes>,
                     now: int, later: int)
    requires Describes(contents, names) && R.Whole(names, id, r) && W.Typed(host, Outgoing(contents, id, r))
    requires Goes(contents, id, r, now, later)
    ensures var encoded := W.EncodeRecord(host, Outgoing(contents, id, r));
            && encoded.Some?
            && var sent := W.AllChunks(encoded.value.1, host.chunk);
            && var got := W.Receive(host, encoded.value.0, sent + rest, now, later);
            && got.Some? && got.value.1 == |sent| && got.value.0.meta.syncId == id && Standing(got.value.0) == r
  {
    hide Outgoing, Standing, W.Receive, W.AllChunks, Describes, R.Whole, Goes;
    WholeIsCatalogued(contents, names, id, r, now, later);
    ArrivesAsItself(host, contents, id, r, rest, now, later);
  }

  /** A header arrives exactly if its metadata is valid, and stands for the record without its payload. */
  lemma HeaderArrives(host: W.Host, contents: Catalogue, id: Text, r: R.Replica, frames: seq<Bytes>, now: int,
                      later: int)
    requires Catalogued(contents, id, r)
    ensures var header := W.MetadataToWire(Outgoing(contents, id, r));
            var got := W.Receive(host, header, frames, now, later);
            && (got.Some? <==> W.Acceptable(header, now, later))
            && (got.Some? ==> got.value.1 == 0 && Standing(got.value.0) == R.Metadata(r))
  {
    hide Memberships, Standing, W.Receive, W.Acceptable;
    var x := Outgoing(contents, id, r);
    W.MetadataOnlyTrip(host, x, frames, now, later);
    OutgoingStands(contents, id, r);
    if W.Acceptable(W.MetadataToWire(x), now, later) {
      HeaderStands(x, now, later);
      W.MetadataTrip(x, now, later);
    }
  }

  /** What is deliverable stays so. */
  lemma GoesLater(contents: Catalogue, id: Text, r: R.Replica, now: int, later: int, now': int, later': int)
    requires Goes(contents, id, r, now, later) && now <= now' && later <= later'
    ensures Goes(contents, id, r, now', later')
  {
    hide Memberships, W.MembershipsOk, W.Transferable;
  }

  /** A record that goes is accepted as a header too. */
  lemma HeaderGoes(contents: Catalogue, id: Text, r: R.Replica, now: int, later: int)
    requires Goes(contents, id, r, now, later)
    ensures W.Acceptable(W.MetadataToWire(Outgoing(contents, id, R.Metadata(r))), now, later)
  {
    hide Memberships, W.MembershipsOk, W.MetaOk, W.Acceptable;
    W.MetadataTrip(Outgoing(contents, id, R.Metadata(r)), now, later);
  }

  // ---------- Merges of what the wire carries ----------

  lemma MembershipsGo(m: map<Text, R.Membership>)
    ensures W.MembershipsOk(Memberships(m)) <==> forall id :: id in m ==> W.MembershipOk(MembershipOf(m, id))
    ensures |Memberships(m)| == |m|
  {
    hide Memberships, W.MembershipOk;
    MembershipsAreListed(m);
    var ms := Memberships(m);
    if W.MembershipsOk(ms) {
      forall id | id in m ensures W.MembershipOk(MembershipOf(m, id)) {
        var i :| 0 <= i < |ms| && ms[i].labelId == id;
        assert W.MembershipOk(ms[i]);
      }
    }
  }

  lemma MergedMembershipsGo(a: map<Text, R.Membership>, b: map<Text, R.Membership>)
    requires W.MembershipsOk(Memberships(a)) && W.MembershipsOk(Memberships(b))
    ensures W.MembershipsOk(Memberships(R.MergeMemberships(a, b)))
  {
    hide Memberships, W.MembershipOk, W.MembershipsOk;
    MembershipsGo(a);
    MembershipsGo(b);
    var m := R.MergeMemberships(a, b);
    MembershipsGo(m);
    forall id | id in m ensures W.MembershipOk(MembershipOf(m, id)) {
      assert id in a && m[id] == a[id] ==> MembershipOf(m, id) == MembershipOf(a, id);
      assert id in b && m[id] == b[id] ==> MembershipOf(m, id) == MembershipOf(b, id);
    }
  }

  lemma MergedMetaGoes(contents: Catalogue, id: Text, a: R.Replica, b: R.Replica, now: int, later: int)
    requires W.MetaOk(Outgoing(contents, id, a).meta, now, later)
    requires W.MetaOk(Outgoing(contents, id, b).meta, now, later)
    ensures W.MetaOk(Outgoing(contents, id, R.Merge(a, b)).meta, now, later)
  {
    hide Memberships, R.MergeMemberships, VersionLt, IsVersion, IsIdentifier, IsHex;
  }

  /** The payload of a merge is that of the side its content comes from. */
  lemma MergedPayloadGoes(contents: Catalogue, id: Text, a: R.Replica, b: R.Replica)
    ensures var x, y, z := Outgoing(contents, id, a), Outgoing(contents, id, b), Outgoing(contents, id, R.Merge(a, b));
            || (z.meta.deleted == x.meta.deleted && z.kind == x.kind && z.change == x.change && z.payload == x.payload)
            || (z.meta.deleted == y.meta.deleted && z.kind == y.kind && z.change == y.change && z.payload == y.payload)
  {
    hide Memberships, R.MergeMemberships, VersionLt;
  }

  /** The merge of two deliverable records is deliverable if and only if it does not name too many labels. */
  lemma MergeGoes(contents: Catalogue, id: Text, a: R.Replica, b: R.Replica, now: int, later: int)
    requires Goes(contents, id, a, now, later) && Goes(contents, id, b, now, later)
    ensures Goes(contents, id, R.Merge(a, b), now, later) <==>
              |R.MergeMemberships(a.memberships, b.memberships)| <= MAX_MEMBERSHIPS
  {
    hide Memberships, R.MergeMemberships, VersionLt, W.MetaOk, W.MembershipsOk;
    MergedMetaGoes(contents, id, a, b, now, later);
    MergedPayloadGoes(contents, id, a, b);
    MergedMembershipsGo(a.memberships, b.memberships);
    MembershipsGo(R.Merge(a, b).memberships);
  }

  // ---------- Convergence ----------

  /** The wire of the replication protocol is the one records are encoded, sent and received on. */
  ghost predicate IsWire(wire: Scan.Wire, contents: Catalogue, now: int, later: int)
  {
    forall id, r ::
      && (wire.acceptsHeader(id, r) <==> W.Acceptable(W.MetadataToWire(Outgoing(contents, id, r)), now, later))
      && (wire.carries(id, r) <==> Goes(contents, id, r, now, later))
  }

  ghost predicate AllGo(contents: Catalogue, m: Records, now: int, later: int)
  {
    forall id :: id in m ==> Goes(contents, id, m[id], now, later)
  }

  /** Where both replicas have a record, together they do not name too many labels. */
  ghost predicate FewLabels(a: Records, b: Records)
  {
    forall id :: id in a && id in b ==> |R.MergeMemberships(a[id].memberships, b[id].memberships)| <= MAX_MEMBERSHIPS
  }

  lemma RecordsGo(wire: Scan.Wire, contents: Catalogue, now: int, later: int, m: Records)
    requires IsWire(wire, contents, now, later)
    ensures Transfers.RecordsPass(wire, m) <==> AllGo(contents, m, now, later)
  {
    hide Goes, W.Acceptable;
    if AllGo(contents, m, now, later) {
      forall id | id in m ensures wire.acceptsHeader(id, R.Metadata(m[id])) && wire.carries(id, m[id]) {
        HeaderGoes(contents, id, m[id], now, later);
      }
    }
  }

  /** The merge of two deliverable replicas is deliverable if and only if no record names too many labels. */
  lemma MergedRecordsGo(contents: Catalogue, now: int, later: int, a: Records, b: Records)
    requires AllGo(contents, a, now, later) && AllGo(contents, b, now, later)
    ensures AllGo(contents, MergeRecords(a, b), now, later) <==> FewLabels(a, b)
  {
    hide Goes, R.Merge, R.MergeMemberships;
    var m := MergeRecords(a, b);
    forall id | id in m
      ensures Goes(contents, id, m[id], now, later) <==>
                (id in a && id in b ==> |R.MergeMemberships(a[id].memberships, b[id].memberships)| <= MAX_MEMBERSHIPS)
    {
      if id in a && id in b {
        MergeGoes(contents, id, a[id], b[id], now, later);
      }
    }
  }

  /** A record that names too many labels is refused as a header, and no deliverable record covers it. */
  lemma TooManyLabels(contents: Catalogue, id: Text, r: R.Replica, m: Records, now: int, later: int)
    requires |r.memberships| > MAX_MEMBERSHIPS && AllGo(contents, m, now, later)
    ensures !W.Acceptable(W.MetadataToWire(Outgoing(contents, id, R.Metadata(r))), now, later)
    ensures !Transfers.CoveredBy(MetadataOf(m), id, R.Metadata(r))
  {
    hide Memberships, W.MembershipsOk, W.MetaOk;
    MembershipsGo(r.memberships);
    if id in m {
      assert Goes(contents, id, m[id], now, later);
      MembershipsGo(m[id].memberships);
      CoverNamesMore(R.Metadata(m[id]), R.Metadata(r));
    }
  }

  lemma CoverNamesMore(a: R.Replica, b: R.Replica)
    ensures R.Covers(a, b) ==> |b.memberships| <= |a.memberships|
  {
    if R.Covers(a, b) {
      assert b.memberships.Keys <= a.memberships.Keys;
      SubsetSize(b.memberships.Keys, a.memberships.Keys);
      assert |b.memberships| == |b.memberships.Keys| && |a.memberships| == |a.memberships.Keys|;
    }
  }

  lemma StuckWithTooMany(wire: Scan.Wire, contents: Catalogue, now: int, later: int, w: World)
    requires IsWire(wire, contents, now, later) && AllGo(contents, w.remote.records, now, later)
    requires !FewLabels(w.local.records, w.remote.records)
    ensures MergeRefused(wire, w)
  {
    hide AllGo, Goes, W.Acceptable, R.MergeMemberships, Transfers.CoveredBy;
    var a, b := w.local.records, w.remote.records;
    var id :| id in a && id in b && |R.MergeMemberships(a[id].memberships, b[id].memberships)| > MAX_MEMBERSHIPS;
    var r := MergeRecords(a, b)[id];
    TooManyLabels(contents, id, r, b, now, later);
    assert MetadataOf(MergeRecords(a, b))[id] == R.Metadata(r);
    assert Transfers.RefusedAt(wire, MetadataOf(b), MetadataOf(MergeRecords(a, b)), id);
  }

  /**
   * Over the wire the records really travel on, two quiescent replicas of deliverable records converge, to the merge,
   * if and only if no two of their records together name more labels than a record may.
   */
  method ConvergeOverWire(wire: Scan.Wire, w: World, ghost contents: Catalogue, ghost now: int, ghost later: int,
                          ghost names: R.Names)
    returns (v: World, t: Labels.Tally)
    requires Coherent(w) && IsWire(wire, contents, now, later) && QuietTags(w)
    requires WholeRecords(names, w.local.records) && WholeRecords(names, w.remote.records)
    requires AllGo(contents, w.local.records, now, later) && AllGo(contents, w.remote.records, now, later)
    requires |MergeRecords(w.local.records, w.remote.records)| <= Scan.MAX_MANIFEST_RECORDS
    ensures t.converged <==> FewLabels(w.local.records, w.remote.records)
    ensures t.converged ==> t.failed == 0 && Merged(w, v)
    ensures t.converged ==>
              (v.local.tags == Usable(v.remote.tags) <==> OneLabelPerVersion(w.local.tags, w.remote.tags))
  {
    hide IsWire, AllGo, WholeRecords, MergeRecords, Transfers.RecordsPass, Merged, Agreed, MergeRefused, FewLabels,
         OneLabelPerVersion, Usable;
    MergedRecordsGo(contents, now, later, w.local.records, w.remote.records);
    RecordsGo(wire, contents, now, later, w.remote.records);
    RecordsGo(wire, contents, now, later, MergeRecords(w.local.records, w.remote.records));
    if !FewLabels(w.local.records, w.remote.records) {
      StuckWithTooMany(wire, contents, now, later, w);
    }
    v, t := Reconcile.Reconcile(wire, w, names);
  }

  // ---------- Two records that together name too many labels ----------

  const NAME_BASE := 94

  function Name(i: nat): Text
    requires i < NAME_BASE * NAME_BASE
  {
    [(33 + i / NAME_BASE) as char, (33 + i % NAME_BASE) as char]
  }

  function FirstNames(n: nat): set<Text>
    requires n <= NAME_BASE * NAME_BASE
  {
    if n == 0 then {} else FirstNames(n - 1) + {Name(n - 1)}
  }

  /** Memberships of the first `n` labels. */
  function Labelled(n: nat): map<Text, R.Membership>
    requires n <= NAME_BASE * NAME_BASE
  {
    map id | id in FirstNames(n) :: R.Membership(Version(1, "a"), true)
  }

  lemma NamesDiffer(i: nat, j: nat)
    requires i < j < NAME_BASE * NAME_BASE
    ensures Name(i) != Name(j)
  {
    assert i / NAME_BASE != j / NAME_BASE || i % NAME_BASE != j % NAME_BASE;
    assert Name(i)[0] != Name(j)[0] || Name(i)[1] != Name(j)[1];
  }

  lemma {:induction false} FirstNamesAre(n: nat, k: nat)
    requires n <= k < NAME_BASE * NAME_BASE
    ensures Name(k) !in FirstNames(n)
  {
    hide Name;
    if n > 0 {
      FirstNamesAre(n - 1, k);
      NamesDiffer(n - 1, k);
    }
  }

  lemma {:induction false} LabelledSize(n: nat)
    requires n <= NAME_BASE * NAME_BASE
    ensures |FirstNames(n)| == n == |Labelled(n)|
  {
    hide Name;
    if n > 0 {
      LabelledSize(n - 1);
      FirstNamesAre(n - 1, n - 1);
    }
    assert |Labelled(n)| == |Labelled(n).Keys| && Labelled(n).Keys == FirstNames(n);
  }

  lemma NameIsIdentifier(i: nat)
    requires i < NAME_BASE * NAME_BASE
    ensures IsIdentifier(Name(i))
  {
    var name := Name(i);
    assert !IsWhitespace(name[0]);
    assert name[1..] == [name[1]] && [name[1]][1..] == [];
    assert Utf8Len([name[1]]) == CharBytes(name[1]) + Utf8Len([]);
    assert Utf8Len(name) == CharBytes(name[0]) + Utf8Len([name[1]]);
  }

  lemma {:induction false} LabelledAreIdentifiers(n: nat)
    requires n <= NAME_BASE * NAME_BASE
    ensures forall id :: id in FirstNames(n) ==> IsIdentifier(id)
  {
    hide IsIdentifier, Name;
    if n > 0 {
      LabelledAreIdentifiers(n - 1);
      NameIsIdentifier(n - 1);
    }
  }

  function Plain(): Catalogue
  {
    (id, v) => Content(W.TextKind, W.Copy, 0, 0, "", None, "a", "", W.NO_PAYLOAD)
  }

  /** A tombstone with these memberships. */
  function Tombstone(memberships: map<Text, R.Membership>): R.Replica
  {
    R.Replica(Version(1, "a"), true, None, Version(1, "a"), false, 1, 1, 1, None, memberships)
  }

  function Zeroes(): Text
  {
    seq(64, i => '0')
  }

  lemma SingleLetter()
    ensures IsIdentifier("a") && IsVersion(1, "a") && Utf8Len("") == 0
  {
    assert !IsWhitespace("a"[0]) && "a"[1..] == [];
  }

  lemma TombstoneGoes(memberships: map<Text, R.Membership>)
    requires |memberships| <= MAX_MEMBERSHIPS
    requires forall id :: id in memberships ==>
               IsIdentifier(id) && memberships[id].version == Version(1, "a")
    ensures Goes(Plain(), Zeroes(), Tombstone(memberships), 0, 0)
  {
    hide Memberships, IsIdentifier;
    SingleLetter();
    MembershipsGo(memberships);
  }

  /** Memberships of one label more. */
  function OneMoreLabel(): map<Text, R.Membership>
  {
    map[Name(MAX_MEMBERSHIPS) := R.Membership(Version(1, "a"), true)]
  }

  /** One of two deliverable records names as many labels as it may, the other one more: their merge does not go. */
  lemma TogetherTooMany()
    ensures var a, b := Tombstone(Labelled(MAX_MEMBERSHIPS)), Tombstone(OneMoreLabel());
            && Goes(Plain(), Zeroes(), a, 0, 0) && Goes(Plain(), Zeroes(), b, 0, 0)
            && !Goes(Plain(), Zeroes(), R.Merge(a, b), 0, 0) && !FewLabels(map[Zeroes() := a], map[Zeroes() := b])
  {
    hide Goes, IsIdentifier, FirstNames, Name, R.Merge, R.MergeMemberships, FewLabels;
    var many, one := Labelled(MAX_MEMBERSHIPS), OneMoreLabel();
    LabelledSize(MAX_MEMBERSHIPS);
    LabelledAdds();
    LabelledAreIdentifiers(MAX_MEMBERSHIPS);
    NameIsIdentifier(MAX_MEMBERSHIPS);
    TombstoneGoes(many);
    TombstoneGoes(one);
    MergeGoes(Plain(), Zeroes(), Tombstone(many), Tombstone(one), 0, 0);
    NotFew(Zeroes(), Tombstone(many), Tombstone(one));
  }

  lemma NotFew(id: Text, a: R.Replica, b: R.Replica)
    ensures FewLabels(map[id := a], map[id := b]) <==>
              |R.MergeMemberships(a.memberships, b.memberships)| <= MAX_MEMBERSHIPS
  {
    hide R.MergeMemberships;
    var l, r := map[id := a], map[id := b];
    assert id in l && id in r && l[id] == a && r[id] == b;
  }

  lemma LabelledAdds()
    ensures |R.MergeMemberships(Labelled(MAX_MEMBERSHIPS), OneMoreLabel())| == MAX_MEMBERSHIPS + 1
    ensures |OneMoreLabel()| == 1
  {
    hide FirstNames, Name;
    var many, merged := Labelled(MAX_MEMBERSHIPS), R.MergeMemberships(Labelled(MAX_MEMBERSHIPS), OneMoreLabel());
    LabelledSize(MAX_MEMBERSHIPS);
    FirstNamesAre(MAX_MEMBERSHIPS, MAX_MEMBERSHIPS);
    assert OneMoreLabel().Keys == {Name(MAX_MEMBERSHIPS)};
    assert merged.Keys == many.Keys + {Name(MAX_MEMBERSHIPS)};
    assert |merged| == |merged.Keys| && |many| == |many.Keys|;
  }
}
