// Clipboard replica records, the `covers` order the protocol decides by, and the merge of two records.
module ReplicaRecords {
  import opened Basics
  import opened Ordering

  /** A record's payload, as the parts it is sent in. */
  type Body = seq<Bytes>

  datatype Membership = Membership(version: Version, attached: bool)

  /** A label; a deleted one stays as a tombstone. */
  datatype Tag = Tag(version: Version, name: Text, color: Text, deleted: bool)

  /**
   * One clipboard record. `payload` is absent from metadata-only copies and from tombstones. The memberships
   * are keyed by label because a list naming a label twice is rejected on the wire.
   */
  datatype Replica = Replica(
    content: Version,
    deleted: bool,
    payload: Option<Body>,
    favorite: Version,
    favored: bool,
    capturedAt: int,
    firstCapturedAt: int,
    copyCount: nat,
    lastUsedAt: Option<int>,
    memberships: map<Text, Membership>)

  /** The order of optional times: an absent time is the smallest. */
  predicate OptionLe(a: Option<int>, b: Option<int>)
  {
    a.None? || (b.Some? && a.value <= b.value)
  }

  predicate Covers(current: Replica, incoming: Replica)
  {
    && VersionLe(incoming.content, current.content)
    && VersionLe(incoming.favorite, current.favorite)
    && incoming.capturedAt <= current.capturedAt
    && current.firstCapturedAt <= incoming.firstCapturedAt
    && incoming.copyCount <= current.copyCount
    && OptionLe(incoming.lastUsedAt, current.lastUsedAt)
    && forall tag :: tag in incoming.memberships ==>
         && tag in current.memberships
         && VersionLe(incoming.memberships[tag].version, current.memberships[tag].version)
  }

  /** Whether sending `incoming` to a replica last seen at `current` must carry the payload. */
  predicate NeedsPayload(current: Option<Replica>, incoming: Replica)
  {
    !incoming.deleted && (current.None? || VersionLt(current.value.content, incoming.content))
  }

  function Metadata(r: Replica): Replica
  {
    r.(payload := None)
  }

  function MergeMembership(current: Membership, incoming: Membership): Membership
  {
    if VersionLt(current.version, incoming.version) then incoming else current
  }

  function MergeMemberships(current: map<Text, Membership>, incoming: map<Text, Membership>): map<Text, Membership>
  {
    map tag | tag in current.Keys + incoming.Keys ::
      if tag !in incoming then current[tag]
      else if tag !in current then incoming[tag]
      else MergeMembership(current[tag], incoming[tag])
  }

  /** The store's merge: every component moves to the newer of the two, the payload with its content version. */
  function Merge(current: Replica, incoming: Replica): Replica
  {
    var content := if VersionLt(current.content, incoming.content) then incoming else current;
    var favorite := if VersionLt(current.favorite, incoming.favorite) then incoming else current;
    Replica(
      content.content,
      content.deleted,
      content.payload,
      favorite.favorite,
      favorite.favored,
      if current.capturedAt < incoming.capturedAt then incoming.capturedAt else current.capturedAt,
      if incoming.firstCapturedAt < current.firstCapturedAt then incoming.firstCapturedAt else current.firstCapturedAt,
      if current.copyCount < incoming.copyCount then incoming.copyCount else current.copyCount,
      if OptionLe(incoming.lastUsedAt, current.lastUsedAt) then current.lastUsedAt else incoming.lastUsedAt,
      MergeMemberships(current.memberships, incoming.memberships))
  }

  /** The two records carry the same version in every component. */
  ghost predicate SameVersions(a: Replica, b: Replica)
  {
    && a.content == b.content && a.favorite == b.favorite
    && a.capturedAt == b.capturedAt && a.firstCapturedAt == b.firstCapturedAt
    && a.copyCount == b.copyCount && a.lastUsedAt == b.lastUsedAt
    && a.memberships.Keys == b.memberships.Keys
    && forall tag :: tag in a.memberships ==> a.memberships[tag].version == b.memberships[tag].version
  }

  // ---------- `Covers` is a partial order on version vectors ----------

  lemma CoversTransitive(a: Replica, b: Replica, c: Replica)
    requires Covers(a, b) && Covers(b, c)
    ensures Covers(a, c)
  {
    VersionTransitive(c.content, b.content, a.content);
    VersionTransitive(c.favorite, b.favorite, a.favorite);
    forall tag | tag in c.memberships
      ensures tag in a.memberships
      ensures VersionLe(c.memberships[tag].version, a.memberships[tag].version)
    {
      VersionTransitive(c.memberships[tag].version, b.memberships[tag].version, a.memberships[tag].version);
    }
  }

  lemma MutualCoverIsSameVersions(a: Replica, b: Replica)
    ensures Covers(a, b) && Covers(b, a) <==> SameVersions(a, b)
  {
    VersionTotal(a.content, b.content);
    VersionTotal(a.favorite, b.favorite);
    if Covers(a, b) && Covers(b, a) {
      forall tag | tag in a.memberships
        ensures tag in b.memberships && a.memberships[tag].version == b.memberships[tag].version
      {
        VersionTotal(a.memberships[tag].version, b.memberships[tag].version);
      }
    }
  }

  // ---------- `Merge` is the least upper bound ----------

  /** The later revision decides, and between equal revisions the later device; times and counts are the extremes. */
  lemma MergeTakesLater(a: Replica, b: Replica, tag: Text)
    ensures var m := Merge(a, b);
            && (a.content.revision < b.content.revision ==>
                  m.content == b.content && m.deleted == b.deleted && m.payload == b.payload)
            && (a.content.revision > b.content.revision ==>
                  m.content == a.content && m.deleted == a.deleted && m.payload == a.payload)
            && (a.content.revision == b.content.revision ==>
                  if TextLt(a.content.device, b.content.device) then
                    m.content == b.content && m.deleted == b.deleted && m.payload == b.payload
                  else
                    m.content == a.content && m.deleted == a.deleted && m.payload == a.payload)
            && (a.favorite.revision < b.favorite.revision ==> m.favorite == b.favorite && m.favored == b.favored)
            && (a.favorite.revision > b.favorite.revision ==> m.favorite == a.favorite && m.favored == a.favored)
            && (m.capturedAt == a.capturedAt >= b.capturedAt || m.capturedAt == b.capturedAt >= a.capturedAt)
            && (|| m.firstCapturedAt == a.firstCapturedAt <= b.firstCapturedAt
                || m.firstCapturedAt == b.firstCapturedAt <= a.firstCapturedAt)
            && (m.copyCount == a.copyCount >= b.copyCount || m.copyCount == b.copyCount >= a.copyCount)
            && (a.lastUsedAt == None ==> m.lastUsedAt == b.lastUsedAt)
            && (b.lastUsedAt == None ==> m.lastUsedAt == a.lastUsedAt)
            && (a.lastUsedAt.Some? && b.lastUsedAt.Some? ==>
                  m.lastUsedAt == if a.lastUsedAt.value < b.lastUsedAt.value then b.lastUsedAt else a.lastUsedAt)
            && (tag in m.memberships <==> tag in a.memberships || tag in b.memberships)
            && (tag in a.memberships && tag !in b.memberships ==> m.memberships[tag] == a.memberships[tag])
            && (tag in b.memberships && tag !in a.memberships ==> m.memberships[tag] == b.memberships[tag])
            && (tag in a.memberships && tag in b.memberships ==>
                  var x, y := a.memberships[tag].version, b.memberships[tag].version;
                  && (x.revision < y.revision ==> m.memberships[tag] == b.memberships[tag])
                  && (x.revision > y.revision ==> m.memberships[tag] == a.memberships[tag]))
  {
  }

  /** A payload travels exactly when the metadata alone would not do. */
  lemma PayloadIffNeeded(current: Option<Replica>, incoming: Replica)
    ensures NeedsPayload(current, incoming) <==> !SafeTransfer(current, Metadata(incoming))
  {
    if current.Some? {
      VersionTotal(current.value.content, incoming.content);
    }
  }

  lemma MergeCoversBoth(a: Replica, b: Replica)
    ensures Covers(Merge(a, b), a) && Covers(Merge(a, b), b)
  {
    VersionTotal(a.content, b.content);
    VersionTotal(a.favorite, b.favorite);
    forall tag | tag in a.memberships && tag in b.memberships
      ensures VersionLe(a.memberships[tag].version, MergeMembership(a.memberships[tag], b.memberships[tag]).version)
      ensures VersionLe(b.memberships[tag].version, MergeMembership(a.memberships[tag], b.memberships[tag]).version)
    {
      VersionTotal(a.memberships[tag].version, b.memberships[tag].version);
    }
  }

  lemma MergeIsLeast(a: Replica, b: Replica, upper: Replica)
    requires Covers(upper, a) && Covers(upper, b)
    ensures Covers(upper, Merge(a, b))
  {
  }

  /** Merging changes nothing exactly when the current record already covers the incoming one. */
  lemma MergeAbsorbs(a: Replica, b: Replica)
    ensures Covers(a, b) <==> Merge(a, b) == a
  {
    if Covers(a, b) {
      VersionTotal(a.content, b.content);
      VersionTotal(b.content, a.content);
      VersionTotal(a.favorite, b.favorite);
      VersionTotal(b.favorite, a.favorite);
      forall tag | tag in b.memberships
        ensures MergeMembership(a.memberships[tag], b.memberships[tag]) == a.memberships[tag]
      {
        VersionTotal(a.memberships[tag].version, b.memberships[tag].version);
        VersionTotal(b.memberships[tag].version, a.memberships[tag].version);
      }
      assert MergeMemberships(a.memberships, b.memberships) == a.memberships;
    }
    MergeCoversBoth(a, b);
  }

  // ---------- A version names one value ----------

  /** What each version stands for, the same on every device. */
  datatype Names = Names(
    deleted: (Text, Version) -> bool,
    body: (Text, Version) -> Body,
    favored: (Text, Version) -> bool,
    attached: (Text, Text, Version) -> bool,
    tag: (Text, Version) -> Tag)

  ghost predicate Named(names: Names, id: Text, r: Replica)
  {
    && r.deleted == names.deleted(id, r.content)
    && (r.payload.Some? ==> r.payload.value == names.body(id, r.content))
    && r.favored == names.favored(id, r.favorite)
    && forall tag :: tag in r.memberships ==>
         r.memberships[tag].attached == names.attached(id, tag, r.memberships[tag].version)
  }

  /** A stored record: consistently named, holding its payload exactly when it is not a tombstone. */
  ghost predicate Whole(names: Names, id: Text, r: Replica)
  {
    Named(names, id, r) && (r.payload.Some? <==> !r.deleted)
  }

  lemma WholeSameVersionsEqual(names: Names, id: Text, a: Replica, b: Replica)
    requires Whole(names, id, a) && Whole(names, id, b) && SameVersions(a, b)
    ensures a == b
  {
    assert a.memberships == b.memberships;
  }

  /**
   * A transfer that is complete, is a tombstone, or reaches a record at least as new keeps the record whole: this is
   * what a metadata-only transfer must be.
   */
  ghost predicate SafeTransfer(current: Option<Replica>, incoming: Replica)
  {
    || (incoming.payload.Some? <==> !incoming.deleted)
    || (current.Some? && VersionLe(incoming.content, current.value.content))
  }

  lemma MergeKeepsWhole(names: Names, id: Text, current: Replica, incoming: Replica)
    requires Whole(names, id, current) && Named(names, id, incoming)
    ensures SafeTransfer(Some(current), incoming) ==> Whole(names, id, Merge(current, incoming))
    ensures !SafeTransfer(Some(current), incoming) ==> !Whole(names, id, Merge(current, incoming))
  {
    VersionTotal(current.content, incoming.content);
    VersionTotal(incoming.content, current.content);
  }
}
