// The clipboard store behind one replica, as the replication protocol uses it: merging writes, a revision that
// moves with every change, and paged scans.
module ReplicaStore {
  import opened Basics
  import opened Ordering
  import opened ReplicaRecords

  const PAGE_LIMIT := 100

  type Records = map<Text, Replica>
  type Tags = map<Text, Tag>

  datatype Store = Store(records: Records, tags: Tags, revision: nat)

  // ---------- Records ----------

  ghost predicate RecordsCover(a: Records, b: Records)
  {
    forall id :: id in b ==> id in a && Covers(a[id], b[id])
  }

  ghost predicate SameRecordVersions(a: Records, b: Records)
  {
    a.Keys == b.Keys && forall id :: id in a ==> SameVersions(a[id], b[id])
  }

  ghost predicate WholeRecords(names: Names, m: Records)
  {
    forall id :: id in m ==> Whole(names, id, m[id])
  }

  function Get(m: Records, id: Text): Option<Replica>
  {
    if id in m then Some(m[id]) else None
  }

  function MergeInto(m: Records, id: Text, r: Replica): Records
  {
    m[id := if id in m then Merge(m[id], r) else r]
  }

  function MergeRecords(a: Records, b: Records): Records
  {
    map id | id in a.Keys + b.Keys ::
      if id !in b then a[id] else if id !in a then b[id] else Merge(a[id], b[id])
  }

  /** The records of `b` that merging them into `a` would change. */
  ghost function NewerRecords(a: Records, b: Records): set<Text>
  {
    set id | id in b && !(id in a && Covers(a[id], b[id]))
  }

  lemma NoNewerRecordsIsCover(a: Records, b: Records)
    ensures |NewerRecords(a, b)| == 0 <==> RecordsCover(a, b)
  {
    if |NewerRecords(a, b)| == 0 {
      forall id | id in b ensures id in a && Covers(a[id], b[id]) {
        assert id !in NewerRecords(a, b);
      }
    }
    if RecordsCover(a, b) {
      assert NewerRecords(a, b) == {};
    }
  }

  function MetadataOf(m: Records): Records
  {
    map id | id in m :: Metadata(m[id])
  }

  lemma RecordsCoverTransitive(a: Records, b: Records, c: Records)
    requires RecordsCover(a, b) && RecordsCover(b, c)
    ensures RecordsCover(a, c)
  {
    forall id | id in c ensures id in a && Covers(a[id], c[id]) {
      CoversTransitive(a[id], b[id], c[id]);
    }
  }

  lemma MergeIntoCovers(m: Records, id: Text, r: Replica)
    ensures RecordsCover(MergeInto(m, id, r), m)
    ensures Covers(MergeInto(m, id, r)[id], r)
  {
    if id in m {
      MergeCoversBoth(m[id], r);
    }
  }

  lemma MergeRecordsCoversBoth(a: Records, b: Records)
    ensures RecordsCover(MergeRecords(a, b), a) && RecordsCover(MergeRecords(a, b), b)
  {
    forall id | id in a && id in b
      ensures Covers(Merge(a[id], b[id]), a[id]) && Covers(Merge(a[id], b[id]), b[id])
    {
      MergeCoversBoth(a[id], b[id]);
    }
  }

  lemma MergeRecordsIsLeast(a: Records, b: Records, upper: Records)
    requires RecordsCover(upper, a) && RecordsCover(upper, b)
    ensures RecordsCover(upper, MergeRecords(a, b))
  {
    forall id | id in a && id in b ensures Covers(upper[id], Merge(a[id], b[id])) {
      MergeIsLeast(a[id], b[id], upper[id]);
    }
  }

  lemma MutualRecordsCover(a: Records, b: Records)
    ensures RecordsCover(a, b) && RecordsCover(b, a) <==> SameRecordVersions(a, b)
  {
    if RecordsCover(a, b) && RecordsCover(b, a) {
      forall id | id in a ensures SameVersions(a[id], b[id]) {
        MutualCoverIsSameVersions(a[id], b[id]);
      }
    }
    if SameRecordVersions(a, b) {
      forall id | id in a ensures Covers(a[id], b[id]) && Covers(b[id], a[id]) {
        MutualCoverIsSameVersions(a[id], b[id]);
      }
    }
  }

  /** Where versions name values, replicas holding the same versions are equal. */
  lemma WholeSameVersionsEqualRecords(names: Names, a: Records, b: Records)
    requires WholeRecords(names, a) && WholeRecords(names, b) && SameRecordVersions(a, b)
    ensures a == b
  {
    forall id | id in a ensures a[id] == b[id] {
      WholeSameVersionsEqual(names, id, a[id], b[id]);
    }
  }

  lemma MergeIntoKeepsWhole(names: Names, m: Records, id: Text, r: Replica)
    requires WholeRecords(names, m) && Named(names, id, r) && SafeTransfer(Get(m, id), r)
    ensures WholeRecords(names, MergeInto(m, id, r))
  {
    if id in m {
      MergeKeepsWhole(names, id, m[id], r);
    }
  }

  // ---------- Labels ----------

  /** Every label of `b` is in `a` with a version at least as new. */
  ghost predicate TagsCover(a: Tags, b: Tags)
  {
    forall id :: id in b ==> id in a && VersionLe(b[id].version, a[id].version)
  }

  predicate TagNewer(m: Tags, id: Text, tag: Tag)
  {
    id !in m || VersionLt(m[id].version, tag.version)
  }

  function MergeTags(a: Tags, b: Tags): Tags
  {
    map id | id in a.Keys + b.Keys ::
      if id !in b then a[id] else if TagNewer(a, id, b[id]) then b[id] else a[id]
  }

  /** The labels of `b` that merging them into `a` would change. */
  function NewerTags(a: Tags, b: Tags): set<Text>
  {
    set id | id in b && TagNewer(a, id, b[id])
  }

  /** The labels of `b` that `a` lacks or has at an older version. */
  ghost function MissingTags(a: Tags, b: Tags): set<Text>
  {
    set id | id in b && !(id in a && VersionLe(b[id].version, a[id].version))
  }

  lemma NewerTagsAreMissing(a: Tags, b: Tags)
    ensures NewerTags(a, b) == MissingTags(a, b)
  {
    forall id | id in a && id in b
      ensures TagNewer(a, id, b[id]) <==> !VersionLe(b[id].version, a[id].version)
    {
      VersionTotal(a[id].version, b[id].version);
    }
  }

  lemma NoNewerTagsIsCover(a: Tags, b: Tags)
    ensures |NewerTags(a, b)| == 0 <==> TagsCover(a, b)
    ensures TagsCover(a, b) ==> MergeTags(a, b) == a
  {
    forall id | id in a && id in b
      ensures TagNewer(a, id, b[id]) <==> !VersionLe(b[id].version, a[id].version)
    {
      VersionTotal(a[id].version, b[id].version);
    }
    if |NewerTags(a, b)| == 0 {
      forall id | id in b ensures id in a && VersionLe(b[id].version, a[id].version) {
        assert id !in NewerTags(a, b);
      }
    }
    if TagsCover(a, b) {
      assert NewerTags(a, b) == {};
    }
  }

  lemma MergeTagsCoversBoth(a: Tags, b: Tags)
    ensures TagsCover(MergeTags(a, b), a) && TagsCover(MergeTags(a, b), b)
  {
    forall id | id in a && id in b
      ensures VersionLe(a[id].version, MergeTags(a, b)[id].version)
              && VersionLe(b[id].version, MergeTags(a, b)[id].version)
    {
      VersionTotal(a[id].version, b[id].version);
    }
  }

  lemma MergeTagsIsLeast(a: Tags, b: Tags, upper: Tags)
    ensures TagsCover(upper, a) && TagsCover(upper, b) ==> TagsCover(upper, MergeTags(a, b))
  {
  }

  /** Every label is the one its version names: name, colour and deletion. */
  ghost predicate NamedTags(names: Names, m: Tags)
  {
    forall id :: id in m ==> m[id] == names.tag(id, m[id].version)
  }

  /** No version stands for one label here and for another there. */
  ghost predicate OneLabelPerVersion(a: Tags, b: Tags)
  {
    forall id :: id in a && id in b && a[id].version == b[id].version ==> a[id] == b[id]
  }

  lemma NamedHasOneLabel(names: Names, a: Tags, b: Tags)
    requires NamedTags(names, a) && NamedTags(names, b)
    ensures OneLabelPerVersion(a, b)
  {
  }

  /** A merged label is one of the two, whole: the one of the later revision, then of the later device. */
  lemma MergedTagIsWhole(a: Tags, b: Tags, id: Text)
    ensures id in MergeTags(a, b) <==> id in a || id in b
    ensures id in a && id !in b ==> MergeTags(a, b)[id] == a[id]
    ensures id in b && id !in a ==> MergeTags(a, b)[id] == b[id]
    ensures id in a && id in b ==>
              var x, y := a[id].version, b[id].version;
              && (x.revision < y.revision ==> MergeTags(a, b)[id] == b[id])
              && (x.revision > y.revision ==> MergeTags(a, b)[id] == a[id])
              && (x.revision == y.revision && TextLt(x.device, y.device) ==> MergeTags(a, b)[id] == b[id])
              && (x.revision == y.revision && TextLt(y.device, x.device) ==> MergeTags(a, b)[id] == a[id])
              && (x == y ==> MergeTags(a, b)[id] == a[id])
  {
    if id in a && id in b {
      VersionTotal(a[id].version, b[id].version);
    }
  }

  lemma MergeTagsNamed(names: Names, a: Tags, b: Tags)
    requires NamedTags(names, a) && NamedTags(names, b)
    ensures NamedTags(names, MergeTags(a, b))
  {
  }

  /** Dictionaries of the same versions are the same dictionary, contents included, if a version is one label. */
  lemma SameVersionsSameTags(a: Tags, b: Tags)
    requires TagsCover(a, b) && TagsCover(b, a)
    ensures a == b <==> OneLabelPerVersion(a, b)
  {
    assert a.Keys == b.Keys;
    forall id | id in a ensures a[id].version == b[id].version {
      VersionTotal(a[id].version, b[id].version);
    }
  }

  /** The labels a scan can list: the scan starts strictly after the empty identifier. */
  function Usable(m: Tags): Tags
  {
    m - {[]}
  }

  // ---------- Writes ----------

  /** The revision moves exactly when the contents do. */
  function Update(s: Store, records: Records, tags: Tags): (t: Store)
    ensures s.revision <= t.revision
    ensures t.revision == s.revision ==> t == s
  {
    if records == s.records && tags == s.tags then s else Store(records, tags, s.revision + 1)
  }

  function ApplyRecord(s: Store, id: Text, r: Replica): Store
  {
    Update(s, MergeInto(s.records, id, r), s.tags)
  }

  function ApplyTags(s: Store, incoming: Tags): Store
  {
    Update(s, s.records, MergeTags(s.tags, incoming))
  }

  // ---------- Pages ----------

  lemma DistinctSplit(q: seq<Text>, k: nat)
    requires Unique(q) && k <= |q|
    ensures forall x :: x in q[k..] <==> x in q && x !in q[..k]
  {
    assert q == q[..k] + q[k..];
  }

  function CursorOf(m: Records, id: Text): Cursor
  {
    if id in m then Cursor(m[id].capturedAt, id) else Cursor(0, id)
  }

  predicate Newer(m: Records, a: Text, b: Text)
  {
    CursorLt(CursorOf(m, b), CursorOf(m, a))
  }

  function NewestFirst(m: Records): (Text, Text) -> bool
  {
    (a: Text, b: Text) => Newer(m, a, b)
  }

  lemma NewestFirstIsTotal(m: Records, ids: set<Text>)
    ensures StrictTotalOn(NewestFirst(m), ids)
  {
    var before := NewestFirst(m);
    forall x, y ensures before(x, y) ==> x != y && !before(y, x) {
      CursorTotal(CursorOf(m, x), CursorOf(m, y));
      CursorTotal(CursorOf(m, y), CursorOf(m, x));
    }
    forall x, y ensures before(x, y) || x == y || before(y, x) {
      CursorTotal(CursorOf(m, x), CursorOf(m, y));
    }
    forall x, y, z ensures before(x, y) && before(y, z) ==> before(x, z) {
      if before(x, y) && before(y, z) {
        CursorTransitive(CursorOf(m, z), CursorOf(m, y), CursorOf(m, x));
      }
    }
  }

  predicate IsBelow(m: Records, id: Text, cursor: Option<Cursor>)
  {
    cursor.None? || CursorLt(CursorOf(m, id), cursor.value)
  }

  function Below(m: Records, cursor: Option<Cursor>): set<Text>
  {
    set id | id in m && IsBelow(m, id, cursor)
  }

  /** The identifiers strictly below the cursor, newest first. */
  ghost function Listing(m: Records, cursor: Option<Cursor>): seq<Text>
  {
    Sorted(Below(m, cursor), NewestFirst(m))
  }

  lemma ListingIsExact(m: Records, cursor: Option<Cursor>)
    ensures forall id :: id in Listing(m, cursor) <==> id in Below(m, cursor)
    ensures |Listing(m, cursor)| == |Below(m, cursor)|
    ensures Unique(Listing(m, cursor))
  {
    NewestFirstIsTotal(m, Below(m, cursor));
    SortedEnumerates(Below(m, cursor), NewestFirst(m));
    var q := Listing(m, cursor);
    forall i, j | 0 <= i < j < |q| ensures q[i] != q[j] {
      assert NewestFirst(m)(q[i], q[j]) && q[i] in q && q[j] in q;
    }
  }

  lemma ListingIsNewestFirst(m: Records, cursor: Option<Cursor>)
    ensures var q := Listing(m, cursor);
            forall i, j :: 0 <= i < j < |q| ==>
              && q[i] in m && q[j] in m
              && (|| m[q[i]].capturedAt > m[q[j]].capturedAt
                  || (m[q[i]].capturedAt == m[q[j]].capturedAt && TextLt(q[j], q[i])))
  {
    NewestFirstIsTotal(m, Below(m, cursor));
    SortedEnumerates(Below(m, cursor), NewestFirst(m));
    var q := Listing(m, cursor);
    assert forall i :: 0 <= i < |q| ==> q[i] in q;
    assert forall i, j :: 0 <= i < j < |q| ==> NewestFirst(m)(q[i], q[j]);
  }

  /** Resuming below the k-th record lists exactly the records after it. */
  lemma ListingResume(m: Records, cursor: Option<Cursor>, k: nat)
    requires k < |Listing(m, cursor)|
    ensures Listing(m, Some(CursorOf(m, Listing(m, cursor)[k]))) == Listing(m, cursor)[k + 1..]
  {
    var ids := Below(m, cursor);
    var at := Listing(m, cursor)[k];
    ListingIsExact(m, cursor);
    assert at in Listing(m, cursor);
    var rest := Below(m, Some(CursorOf(m, at)));
    forall x ensures x in rest <==> x in ids && NewestFirst(m)(at, x) {
      if x in rest && cursor.Some? {
        CursorTransitive(CursorOf(m, x), CursorOf(m, at), cursor.value);
      }
    }
    NewestFirstIsTotal(m, ids);
    SortedResume(ids, NewestFirst(m), k, rest);
  }

  datatype Page = Page(ids: seq<Text>, next: Option<Cursor>)

  /**
   * A page that a scan can be resumed after: a prefix of what is left, with a cursor exactly when something is left
   * over.
   */
  ghost predicate Resumable(m: Records, cursor: Option<Cursor>, page: Page)
  {
    && page.ids <= Listing(m, cursor)
    && (page.next.None? <==> page.ids == Listing(m, cursor))
    && (page.next.Some? ==> page.ids != [] && page.next.value == CursorOf(m, page.ids[|page.ids| - 1]))
  }

  /** `replica_page`: the first `limit` records below the cursor, and where to go on if there are more. */
  method ReplicaPage(m: Records, cursor: Option<Cursor>, limit: nat) returns (page: Page)
    requires 0 < limit
    ensures Resumable(m, cursor, page)
    ensures |page.ids| == if |Listing(m, cursor)| <= limit then |Listing(m, cursor)| else limit
  {
    ListingIsExact(m, cursor);
    NewestFirstIsTotal(m, Below(m, cursor));
    var ids := TakeFirst(Below(m, cursor), NewestFirst(m), limit);
    page := Page(ids, if |Below(m, cursor)| <= limit then None else Some(CursorOf(m, ids[|ids| - 1])));
  }

  /** The page's identifiers are pending before and exactly they are gone after. */
  ghost predicate PageOf(before: set<Text>, ids: seq<Text>, after: set<Text>)
  {
    && (forall id :: id in ids ==> id in before)
    && (forall id :: id in after <==> id in before && id !in ids)
  }

  lemma LastPage(m: Records, cursor: Option<Cursor>, page: Page)
    requires Resumable(m, cursor, page) && page.next.None?
    ensures PageOf(Below(m, cursor), page.ids, {})
  {
    ListingIsExact(m, cursor);
  }

  /** After a resumable page the records still to come are the listing below its cursor. */
  lemma ResumeAfter(m: Records, cursor: Option<Cursor>, page: Page)
    requires Resumable(m, cursor, page) && page.next.Some?
    ensures Listing(m, page.next) == Listing(m, cursor)[|page.ids|..]
    ensures |Below(m, page.next)| < |Below(m, cursor)|
    ensures cursor.Some? ==> CursorLt(page.next.value, cursor.value)
    ensures PageOf(Below(m, cursor), page.ids, Below(m, page.next))
  {
    var all := Listing(m, cursor);
    var k := |page.ids|;
    assert page.ids == all[..k] && page.ids[k - 1] == all[k - 1];
    ListingIsExact(m, cursor);
    ListingIsExact(m, page.next);
    ListingResume(m, cursor, k - 1);
    DistinctSplit(all, k);
    assert all[k - 1] in all;
  }

  predicate ById(a: Text, b: Text)
  {
    TextLt(a, b)
  }

  lemma ByIdIsTotal(ids: set<Text>)
    ensures StrictTotalOn(ById, ids)
  {
    forall x, y ensures ById(x, y) ==> x != y && !ById(y, x) {
      if ById(x, y) { TextAsymmetric(x, y); }
    }
    forall x, y ensures ById(x, y) || x == y || ById(y, x) {
      TextTrichotomy(x, y);
    }
    forall x, y, z ensures ById(x, y) && ById(y, z) ==> ById(x, z) {
      if ById(x, y) && ById(y, z) { TextTransitive(x, y, z); }
    }
  }

  function TagsAfter(m: Tags, cursor: Text): set<Text>
  {
    set id | id in m && ById(cursor, id)
  }

  /** The label identifiers after the cursor, in order. */
  ghost function TagListing(m: Tags, cursor: Text): seq<Text>
  {
    Sorted(TagsAfter(m, cursor), ById)
  }

  lemma TagListingIsExact(m: Tags, cursor: Text)
    ensures forall id :: id in TagListing(m, cursor) <==> id in TagsAfter(m, cursor)
    ensures |TagListing(m, cursor)| == |TagsAfter(m, cursor)|
    ensures Unique(TagListing(m, cursor))
  {
    ByIdIsTotal(TagsAfter(m, cursor));
    SortedEnumerates(TagsAfter(m, cursor), ById);
    var q := TagListing(m, cursor);
    forall i, j | 0 <= i < j < |q| ensures q[i] != q[j] {
      assert ById(q[i], q[j]) && q[i] in q && q[j] in q;
    }
  }

  lemma TagListingResume(m: Tags, cursor: Text, k: nat)
    requires k < |TagListing(m, cursor)|
    ensures TagListing(m, TagListing(m, cursor)[k]) == TagListing(m, cursor)[k + 1..]
  {
    var ids := TagsAfter(m, cursor);
    var at := TagListing(m, cursor)[k];
    TagListingIsExact(m, cursor);
    assert at in TagListing(m, cursor);
    var rest := TagsAfter(m, at);
    forall x ensures x in rest <==> x in ids && ById(at, x) {
      if x in rest {
        TextTransitive(cursor, at, x);
      }
    }
    ByIdIsTotal(ids);
    SortedResume(ids, ById, k, rest);
  }

  datatype TagPage = TagPage(ids: seq<Text>, next: Option<Text>)

  ghost predicate TagsResumable(m: Tags, cursor: Text, page: TagPage)
  {
    && page.ids <= TagListing(m, cursor)
    && (page.next.None? <==> page.ids == TagListing(m, cursor))
    && (page.next.Some? ==> page.ids != [] && page.next.value == page.ids[|page.ids| - 1])
  }

  /** The ScanLabels branch: sort, keep what is after the cursor, cut at a hundred. */
  method ServeTags(m: Tags, cursor: Text) returns (page: TagPage)
    ensures TagsResumable(m, cursor, page)
    ensures |page.ids| == if |TagListing(m, cursor)| <= PAGE_LIMIT then |TagListing(m, cursor)| else PAGE_LIMIT
  {
    TagListingIsExact(m, cursor);
    ByIdIsTotal(TagsAfter(m, cursor));
    var ids := TakeFirst(TagsAfter(m, cursor), ById, PAGE_LIMIT);
    page := TagPage(ids, if |TagsAfter(m, cursor)| <= PAGE_LIMIT then None else Some(ids[|ids| - 1]));
  }

  lemma LastTagPage(m: Tags, cursor: Text, page: TagPage)
    requires TagsResumable(m, cursor, page) && page.next.None?
    ensures PageOf(TagsAfter(m, cursor), page.ids, {})
  {
    TagListingIsExact(m, cursor);
  }

  lemma TagsResumeAfter(m: Tags, cursor: Text, page: TagPage)
    requires TagsResumable(m, cursor, page) && page.next.Some?
    ensures TagListing(m, page.next.value) == TagListing(m, cursor)[|page.ids|..]
    ensures |TagsAfter(m, page.next.value)| < |TagsAfter(m, cursor)|
    ensures ById(cursor, page.next.value)
    ensures PageOf(TagsAfter(m, cursor), page.ids, TagsAfter(m, page.next.value))
  {
    var all := TagListing(m, cursor);
    var k := |page.ids|;
    assert page.ids == all[..k] && page.ids[k - 1] == all[k - 1];
    TagListingIsExact(m, cursor);
    TagListingIsExact(m, page.next.value);
    TagListingResume(m, cursor, k - 1);
    DistinctSplit(all, k);
    assert all[k - 1] in all;
  }
}
