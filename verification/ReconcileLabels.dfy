// The label dictionary part of one reconciliation pass.
module ReconcileLabels {
  import opened Basics
  import opened Ordering
  import opened ReplicaRecords
  import opened ReplicaStore
  import opened ReplicaWorld
  import opened WireRules

  const MAX_REMOTE_LABELS := 10_000

  /** Counters of a reconciliation. */
  datatype Tally = Tally(
    received: nat,
    sent: nat,
    tagsReceived: nat,
    tagsSent: nat,
    failed: nat,
    total: nat,
    differences: nat,
    converged: bool,
    localRevision: nat,
    remoteRevision: nat)

  ghost predicate Counts(a: Tally, b: Tally)
  {
    a.differences <= b.differences && a.failed <= b.failed && a.converged == b.converged
  }

  /** No difference and no failure was recorded. */
  ghost predicate Clean(a: Tally, b: Tally)
  {
    a.differences == b.differences && a.failed == b.failed
  }

  function OnlyTags(m: Tags, ids: set<Text>): Tags
  {
    map id | id in m && id in ids :: m[id]
  }

  /** What `label_from_wire` accepts. */
  predicate AcceptsLabel(id: Text, tag: Tag)
  {
    && IsIdentifier(id) && HasText(tag.name) && Utf8Len(tag.name) <= 128 && IsColor(tag.color)
    && IsVersion(tag.version.revision, tag.version.device)
  }

  /** The ordinary label, with printable identifiers and a printable name: it passes within these limits. */
  lemma PlainLabelPasses(id: Text, tag: Tag)
    requires Printable(id) && Printable(tag.name) && Printable(tag.version.device)
    ensures AcceptsLabel(id, tag) <==>
              && NotBlank(id) && |id| <= 128 && NotBlank(tag.name) && |tag.name| <= 128
              && NotBlank(tag.version.device) && |tag.version.device| <= 128
              && 1 <= tag.version.revision < 0x8000_0000_0000_0000
              && (|tag.color| == 4 || |tag.color| == 7 || |tag.color| == 9) && tag.color[0] == '#'
              && forall i :: 1 <= i < |tag.color| ==>
                   || '0' <= tag.color[i] <= '9' || 'a' <= tag.color[i] <= 'f' || 'A' <= tag.color[i] <= 'F'
  {
    hide IsIdentifier, Utf8Len, IsColor, HasText;
    PrintableText(id);
    PrintableText(tag.name);
    PrintableText(tag.version.device);
    ColorIsHex(tag.color);
  }

  predicate LabelsPass(tags: Tags)
  {
    forall id :: id in tags ==> AcceptsLabel(id, tags[id])
  }

  // ---------- Receiving ----------

  /** The label scan of `m` has recorded everything but what is pending; the empty identifier is never listed. */
  ghost predicate TagsPassed(seen: Tags, m: Tags, pending: set<Text>)
  {
    && (forall id :: id in seen <==> id in Usable(m) && id !in pending)
    && (forall id :: id in seen ==> seen[id] == m[id])
  }

  lemma TagsPassedPage(seen: Tags, m: Tags, pending: set<Text>, ids: seq<Text>, after: set<Text>)
    requires TagsPassed(seen, m, pending) && PageOf(pending, ids, after)
    requires forall id :: id in pending ==> id in m && id != []
    ensures TagsPassed(seen + OnlyTags(m, ElementsOf(ids)), m, after)
  {
  }

  ghost predicate PullingTags(names: Names, w: World, v: World, seen: Tags, pending: set<Text>, tally: Tally, t: Tally)
  {
    && Evolves(names, w, v) && Counts(tally, t)
    && (v.remote.revision == w.remote.revision ==> TagsPassed(seen, w.remote.tags, pending))
    && (Clean(tally, t) && v.local.revision == w.local.revision ==> TagsCover(w.local.tags, seen))
  }

  /** Without writers, receiving merges what was seen and touches nothing else. */
  ghost predicate QuietPullTags(w: World, v: World, seen: Tags, tally: Tally, t: Tally)
  {
    && Quiet(v) && v.remote == w.remote && v.local.records == w.local.records
    && v.local.tags == MergeTags(w.local.tags, seen)
    && t == Received(tally, |NewerTags(w.local.tags, seen)|)
    && (TagsCover(w.local.tags, seen) ==> v.local == w.local && t == tally)
  }

  lemma MergeTagsTwice(a: Tags, seen: Tags, more: Tags)
    requires forall id :: id in more ==> id !in seen
    ensures MergeTags(MergeTags(a, seen), more) == MergeTags(a, seen + more)
  {
    hide VersionLt;
    var twice, both := MergeTags(MergeTags(a, seen), more), MergeTags(a, seen + more);
    assert twice.Keys == both.Keys;
    forall id | id in both ensures twice[id] == both[id] {
      MergedTwiceAt(a, seen, more, id);
    }
  }

  /** What two merges of different labels change is what one merge of them all changes. */
  lemma NewerTagsAdd(a: Tags, seen: Tags, more: Tags)
    requires forall id :: id in more ==> id !in seen
    ensures |NewerTags(a, seen + more)| == |NewerTags(a, seen)| + |NewerTags(MergeTags(a, seen), more)|
  {
    hide VersionLt;
    var first, second := NewerTags(a, seen), NewerTags(MergeTags(a, seen), more);
    assert NewerTags(a, seen + more) == first + second && first !! second;
  }

  lemma MergedTwiceAt(a: Tags, seen: Tags, more: Tags, id: Text)
    requires id in more ==> id !in seen
    requires id in MergeTags(MergeTags(a, seen), more) && id in MergeTags(a, seen + more)
    ensures MergeTags(MergeTags(a, seen), more)[id] == MergeTags(a, seen + more)[id]
  {
    hide VersionLt;
  }

  lemma PullingTagsStep(names: Names, w: World, u: World, v: World, seen: Tags, page: Tags, pending: set<Text>,
                        after: set<Text>, tally: Tally, t: Tally, changed: nat)
    requires PullingTags(names, w, u, seen, pending, tally, t) && Evolves(names, u, v) && v.remote == u.remote
    requires u.remote.revision == w.remote.revision ==> TagsPassed(seen + page, w.remote.tags, after)
    requires changed == 0 <==> TagsCover(u.local.tags, page)
    ensures PullingTags(names, w, v, seen + page, after, tally, Received(t, changed))
  {
    EvolvesTransitive(names, w, u, v);
    hide Healthy, LabelsNamed, Coherent, Grew, TagsPassed;
    if Clean(tally, Received(t, changed)) && v.local.revision == w.local.revision {
      assert u.local == w.local;
      assert TagsCover(w.local.tags, seen) && TagsCover(w.local.tags, page);
    }
  }

  lemma QuietPullTagsStep(w: World, u: World, v: World, seen: Tags, page: Tags, tally: Tally, t: Tally, changed: nat)
    requires QuietPullTags(w, u, seen, tally, t)
    requires Left(v) == Left(u) && v.remote == u.remote && v.local.records == u.local.records
    requires v.local.tags == MergeTags(u.local.tags, page) && Fenced(u.local, v.local)
    requires v.local.tags == u.local.tags ==> v.local == u.local
    requires changed == |NewerTags(u.local.tags, page)|
    requires forall id :: id in page ==> id !in seen
    ensures QuietPullTags(w, v, seen + page, tally, Received(t, changed))
  {
    hide MergeTags, NewerTags;
    MergeTagsTwice(w.local.tags, seen, page);
    NewerTagsAdd(w.local.tags, seen, page);
    NoNewerTagsIsCover(w.local.tags, seen + page);
    if TagsCover(w.local.tags, seen + page) {
      NoNewerTagsIsCover(w.local.tags, page);
    }
  }

  function Received(t: Tally, changed: nat): Tally
  {
    t.(tagsReceived := t.tagsReceived + changed, differences := t.differences + changed)
  }

  /** Reading one page of the dictionary: what remains pending after it. */
  lemma TagPageStep(w: World, u: World, seen: Tags, cursor: Text, page: TagPage) returns (after: set<Text>)
    requires Later(w, u) && TagsResumable(u.remote.tags, cursor, page)
    requires u.remote.revision == w.remote.revision ==>
               TagsPassed(seen, w.remote.tags, TagsAfter(w.remote.tags, cursor))
    ensures after == if page.next.None? then {} else TagsAfter(u.remote.tags, page.next.value)
    ensures page.next.Some? ==> ById(cursor, page.next.value) && |after| < |TagsAfter(u.remote.tags, cursor)|
    ensures u.remote.revision == w.remote.revision ==>
              && TagsPassed(seen + OnlyTags(w.remote.tags, ElementsOf(page.ids)), w.remote.tags, after)
              && forall id :: id in page.ids ==> id !in seen
  {
    var pending := TagsAfter(u.remote.tags, cursor);
    if page.next.None? {
      after := {};
      LastTagPage(u.remote.tags, cursor, page);
    } else {
      after := TagsAfter(u.remote.tags, page.next.value);
      TagsResumeAfter(u.remote.tags, cursor, page);
    }
    hide Coherent, TagListing, TagsResumable;
    if u.remote.revision == w.remote.revision {
      TagsPassedPage(seen, w.remote.tags, pending, page.ids, after);
    }
  }

  lemma PullingTagsAwait(names: Names, w: World, u: World, v: World, seen: Tags, pending: set<Text>, moved: set<Text>,
                         tally: Tally, t: Tally)
    requires PullingTags(names, w, u, seen, pending, tally, t) && Evolves(names, u, v)
    requires v.remote.revision == w.remote.revision ==> moved == pending
    ensures PullingTags(names, w, v, seen, moved, tally, t)
  {
    EvolvesTransitive(names, w, u, v);
    hide Healthy, LabelsNamed, Coherent, Grew, TagsPassed, TagsCover;
  }

  lemma PullingTagsMoved(names: Names, w: World, v: World, seen: Tags, pending: set<Text>, moved: set<Text>,
                         tally: Tally, t: Tally)
    requires PullingTags(names, w, v, seen, pending, tally, t)
    requires v.remote.revision == w.remote.revision ==> moved == pending
    ensures PullingTags(names, w, v, seen, moved, tally, t)
  {
  }

  lemma SeenSize(seen: Tags, m: Tags, pending: set<Text>)
    requires TagsPassed(seen, m, pending)
    ensures |seen| <= |m|
  {
    assert m.Keys == seen.Keys + (m.Keys - seen.Keys);
    assert |seen| == |seen.Keys| && |m| == |m.Keys|;
  }

  /** One round of the receiving loop: scan a page at `u`, apply it at `x`, giving `v`. */
  lemma PullTagsRound(names: Names, w: World, v0: World, u: World, x: World, v: World, seen: Tags, cursor: Text,
                      page: TagPage, tally: Tally, t: Tally, changed: nat)
    requires PullingTags(names, w, v0, seen, TagsAfter(v0.remote.tags, cursor), tally, t)
    requires Evolves(names, v0, u) && Evolves(names, u, x) && Evolves(names, x, v)
    requires TagsResumable(u.remote.tags, cursor, page)
    requires v.remote == x.remote
    requires changed == 0 <==> TagsCover(x.local.tags, OnlyTags(u.remote.tags, ElementsOf(page.ids)))
    ensures var more := seen + OnlyTags(u.remote.tags, ElementsOf(page.ids));
            if page.next.None? then
              PullingTags(names, w, v, more, {}, tally, Received(t, changed))
            else
              PullingTags(names, w, v, more, TagsAfter(v.remote.tags, page.next.value), tally, Received(t, changed))
    ensures page.next.Some? ==> ById(cursor, page.next.value)
    ensures page.next.Some? ==> |TagsAfter(u.remote.tags, page.next.value)| < |TagsAfter(u.remote.tags, cursor)|
    ensures u.remote == w.remote ==> forall id :: id in page.ids ==> id !in seen
  {
    hide Healthy, LabelsNamed, Coherent, Grew, TagsCover, TagsPassed, TagsAfter, TagListing, TagsResumable;
    var pending := TagsAfter(u.remote.tags, cursor);
    PullingTagsAwait(names, w, v0, u, seen, TagsAfter(v0.remote.tags, cursor), pending, tally, t);
    var after := TagPageStep(w, u, seen, cursor, page);
    PullingTagsAwait(names, w, u, x, seen, pending, pending, tally, t);
    var tags := OnlyTags(u.remote.tags, ElementsOf(page.ids));
    PullingTagsStep(names, w, x, v, seen, tags, pending, after, tally, t, changed);
    if page.next.Some? {
      PullingTagsMoved(names, w, v, seen + tags, after, TagsAfter(v.remote.tags, page.next.value), tally,
                       Received(t, changed));
    }
  }

  /** Without writers, with labels within the limit that all pass the wire. */
  ghost predicate QuietLabels(w: World)
  {
    Quiet(w) && |w.remote.tags| <= MAX_REMOTE_LABELS && LabelsPass(Usable(w.remote.tags))
  }

  /** One page of an unmoved dictionary continues the listing. */
  lemma TagPageVisited(m: Tags, visited: seq<Text>, cursor: Text, page: TagPage)
    requires TagListing(m, []) == visited + TagListing(m, cursor) && TagsResumable(m, cursor, page)
    ensures page.next.None? ==> TagListing(m, []) == visited + page.ids
    ensures page.next.Some? ==> TagListing(m, []) == (visited + page.ids) + TagListing(m, page.next.value)
  {
    hide TagListing, TagsAfter;
    if page.next.Some? {
      TagsResumeAfter(m, cursor, page);
      assert TagListing(m, cursor) == page.ids + TagListing(m, cursor)[|page.ids|..];
    }
  }

  lemma PagePasses(m: Tags, cursor: Text, page: TagPage)
    requires LabelsPass(Usable(m)) && TagsResumable(m, cursor, page)
    ensures LabelsPass(OnlyTags(m, ElementsOf(page.ids)))
  {
    TagListingIsExact(m, cursor);
    forall id | id in page.ids ensures id in Usable(m) {
      assert id in TagListing(m, cursor);
    }
  }

  /**
   * The label part of a pass, receiving: page by page into the local dictionary; `visited` lists the labels in turn.
   */
  method PullTags(w: World, tally: Tally, ghost names: Names)
    returns (v: World, ok: bool, seen: Tags, visited: seq<Text>, t: Tally)
    requires Coherent(w)
    ensures Evolves(names, w, v) && Counts(tally, t)
    ensures ok ==> PullingTags(names, w, v, seen, {}, tally, t)
    ensures QuietLabels(w) ==> ok && QuietPullTags(w, v, seen, tally, t) && visited == TagListing(w.remote.tags, [])
  {
    hide Evolves, Healthy, LabelsNamed, Coherent, Grew, MergeTags, TagsCover, TagsPassed, TagsAfter, TagListing,
         TagsResumable, Later, LabelsPass, PullingTags, OnlyTags, ElementsOf, NewerTags, NamedTags;
    v, ok, seen, visited, t := w, true, map[], [], tally;
    var cursor: Text := [];
    NothingPulled(w, tally);
    PullingTagsNothing(names, w, tally);
    while true
      invariant Coherent(v) && Evolves(names, w, v)
      invariant PullingTags(names, w, v, seen, TagsAfter(v.remote.tags, cursor), tally, t)
      invariant QuietLabels(w) ==> QuietPullTags(w, v, seen, tally, t)
                                         && TagListing(w.remote.tags, []) == visited + TagListing(w.remote.tags, cursor)
      decreases Left(v), |TagsAfter(v.remote.tags, cursor)|
    {
      PullingTagsCounts(names, w, v, seen, TagsAfter(v.remote.tags, cursor), tally, t);
      var u, fault, _ := Await(v, names);
      EvolvesTransitive(names, w, v, u);
      if fault {
        return u, false, seen, visited, t;
      }
      var page := ServeTags(u.remote.tags, cursor);
      var tags := OnlyTags(u.remote.tags, ElementsOf(page.ids));
      if QuietLabels(w) {
        PagePasses(u.remote.tags, cursor, page);
        TagPageVisited(u.remote.tags, visited, cursor, page);
      }
      if !LabelsPass(tags) {
        return u, false, seen, visited, t;
      }
      var x, late, _ := Await(u, names);
      EvolvesTransitive(names, w, u, x);
      if late {
        return x, false, seen, visited, t;
      }
      ListedAreNamed(names, u, x, ElementsOf(page.ids));
      var y, changed := StoreTagsLocally(x, tags, names);
      EvolvesTransitive(names, w, x, y);
      PullTagsRound(names, w, v, u, x, y, seen, cursor, page, tally, t, changed);
      if QuietLabels(w) {
        PageIsNew(u.remote.tags, page, seen);
        QuietPullTagsStep(w, x, y, seen, tags, tally, t, changed);
      }
      v, seen, visited, t := y, seen + tags, visited + page.ids, Received(t, changed);
      if page.next.None? {
        PullingTagsCounts(names, w, v, seen, {}, tally, t);
        return;
      }
      PullingTagsCounts(names, w, v, seen, TagsAfter(v.remote.tags, page.next.value), tally, t);
      if !ById(cursor, page.next.value) || |seen| > MAX_REMOTE_LABELS {
        if QuietLabels(w) {
          PullingTagsSize(names, w, v, seen, TagsAfter(v.remote.tags, page.next.value), tally, t);
        }
        ok := false;
        return;
      }
      cursor := page.next.value;
    }
  }

  /** What a page lists of a named dictionary is named, and is so later. */
  lemma ListedAreNamed(names: Names, u: World, x: World, ids: set<Text>)
    requires Evolves(names, u, x)
    ensures LabelsNamed(names, x) ==>
              NamedTags(names, OnlyTags(u.remote.tags, ids)) && NamedTags(names, OnlyTags(u.local.tags, ids))
  {
    hide Healthy;
  }

  lemma NothingPulled(w: World, tally: Tally)
    ensures Quiet(w) ==> QuietPullTags(w, w, map[], tally, tally)
    ensures TagListing(w.remote.tags, []) == [] + TagListing(w.remote.tags, [])
  {
    MergeNoTags(w.local.tags);
    assert NewerTags(w.local.tags, map[]) == {};
  }

  lemma PullingTagsNothing(names: Names, w: World, tally: Tally)
    requires Coherent(w)
    ensures Evolves(names, w, w)
    ensures PullingTags(names, w, w, map[], TagsAfter(w.remote.tags, []), tally, tally)
  {
    EvolvesReflexive(names, w);
  }

  lemma PullingTagsCounts(names: Names, w: World, v: World, seen: Tags, pending: set<Text>, tally: Tally, t: Tally)
    requires PullingTags(names, w, v, seen, pending, tally, t)
    ensures Counts(tally, t)
  {
  }

  lemma PullingTagsSize(names: Names, w: World, v: World, seen: Tags, pending: set<Text>, tally: Tally, t: Tally)
    requires PullingTags(names, w, v, seen, pending, tally, t) && v.remote == w.remote
    ensures |seen| <= |w.remote.tags|
  {
    SeenSize(seen, w.remote.tags, pending);
  }

  lemma PageIsNew(m: Tags, page: TagPage, seen: Tags)
    requires forall id :: id in page.ids ==> id !in seen
    ensures forall id :: id in OnlyTags(m, ElementsOf(page.ids)) ==> id !in seen
  {
  }

  // ---------- Sending ----------

  /** Without writers, sending merges the labels into the remote dictionary and touches nothing else. */
  ghost predicate QuietSendTags(w: World, v: World, tags: Tags)
  {
    && Quiet(v) && v.local == w.local && v.remote.records == w.remote.records
    && v.remote.tags == MergeTags(w.remote.tags, tags)
    && (TagsCover(w.remote.tags, tags) ==> v.remote == w.remote)
  }

  function Chunk(order: seq<Text>, i: nat): seq<Text>
    requires i <= |order|
  {
    order[i..if i + PAGE_LIMIT < |order| then i + PAGE_LIMIT else |order|]
  }

  lemma ChunkTags(tags: Tags, order: seq<Text>, i: nat)
    requires Unique(order) && i < |order|
    ensures var done, more := OnlyTags(tags, ElementsOf(order[..i])), OnlyTags(tags, ElementsOf(Chunk(order, i)));
            && (forall id :: id in more ==> id !in done)
            && done + more == OnlyTags(tags, ElementsOf(order[..i + |Chunk(order, i)|]))
  {
    var next := i + |Chunk(order, i)|;
    assert order[..next] == order[..i] + Chunk(order, i);
    assert Unique(order[..next]);
    DistinctSplit(order[..next], i);
    assert order[..next][i..] == Chunk(order, i) && order[..next][..i] == order[..i];
  }

  lemma NoChunkYet(tags: Tags, order: seq<Text>)
    ensures OnlyTags(tags, ElementsOf(order[..0])) == map[] && LabelsPass(map[])
  {
  }

  lemma ChunkPasses(tags: Tags, done: Tags, ids: set<Text>)
    ensures LabelsPass(tags) ==> LabelsPass(OnlyTags(tags, ids))
    ensures LabelsPass(done) && LabelsPass(OnlyTags(tags, ids)) ==> LabelsPass(done + OnlyTags(tags, ids))
  {
  }

  lemma PartIsNamed(names: Names, tags: Tags, ids: set<Text>)
    ensures NamedTags(names, tags) ==> NamedTags(names, OnlyTags(tags, ids))
  {
  }

  lemma QuietSendChunk(w: World, u: World, v: World, done: Tags, more: Tags)
    requires QuietSendTags(w, u, done)
    requires Left(v) == Left(u) && v.local == u.local && v.remote.records == u.remote.records
    requires v.remote.tags == MergeTags(u.remote.tags, more)
    requires v.remote.tags == u.remote.tags ==> v.remote == u.remote
    requires forall id :: id in more ==> id !in done
    ensures QuietSendTags(w, v, done + more)
  {
    MergeTagsTwice(w.remote.tags, done, more);
    if TagsCover(w.remote.tags, done + more) {
      NoNewerTagsIsCover(w.remote.tags, more);
    }
  }

  /** The labels in the order they are sent. */
  method SendOrder(tags: Tags) returns (order: seq<Text>)
    ensures Unique(order) && |order| == |tags|
    ensures OnlyTags(tags, ElementsOf(order)) == tags
  {
    ByIdIsTotal(tags.Keys);
    order := TakeFirst(tags.Keys, ById, |tags.Keys|);
    SortedEnumerates(tags.Keys, ById);
    assert Unique(order) by {
      forall i, j | 0 <= i < j < |order| ensures order[i] != order[j] {
        assert ById(order[i], order[j]) && order[i] in order && order[j] in order;
      }
    }
    assert |tags| == |tags.Keys|;
  }

  /** Sends labels in chunks; the peer refuses a chunk with a label it does not accept. */
  method SendTags(w: World, tags: Tags, ghost names: Names)
    returns (v: World, ok: bool, sent: nat, changed: nat)
    requires Coherent(w) && (LabelsNamed(names, w) ==> NamedTags(names, tags))
    ensures Evolves(names, w, v) && Coherent(v)
    ensures ok ==> sent == |tags| && LabelsPass(tags)
    ensures Quiet(w) && LabelsPass(tags) ==>
              ok && QuietSendTags(w, v, tags) && changed == |NewerTags(w.remote.tags, tags)|
    ensures Quiet(w) ==> Quiet(v) && v.local == w.local && v.remote.records == w.remote.records
  {
    hide Healthy, LabelsNamed, Coherent, Grew, MergeTags, Later, Unique, TagsCover, ElementsOf, OnlyTags, LabelsPass;
    EvolvesReflexive(names, w);
    MergeNoTags(w.remote.tags);
    var order := SendOrder(tags);
    v, ok, sent, changed := w, true, 0, 0;
    NoChunkYet(tags, order);
    while sent < |order|
      invariant sent <= |order|
      invariant Evolves(names, w, v) && Coherent(v)
      invariant LabelsPass(OnlyTags(tags, ElementsOf(order[..sent])))
      invariant Quiet(w) ==> Quiet(v) && v.local == w.local && v.remote.records == w.remote.records
      invariant Quiet(w) && LabelsPass(tags) ==>
                  && QuietSendTags(w, v, OnlyTags(tags, ElementsOf(order[..sent])))
                  && changed == |NewerTags(w.remote.tags, OnlyTags(tags, ElementsOf(order[..sent])))|
    {
      var u, fault, _ := Await(v, names);
      EvolvesTransitive(names, w, v, u);
      if fault {
        return u, false, sent, changed;
      }
      var chunk := OnlyTags(tags, ElementsOf(Chunk(order, sent)));
      ChunkTags(tags, order, sent);
      ChunkPasses(tags, OnlyTags(tags, ElementsOf(order[..sent])), ElementsOf(Chunk(order, sent)));
      if !LabelsPass(chunk) {
        return u, false, sent, changed;
      }
      PartIsNamed(names, tags, ElementsOf(Chunk(order, sent)));
      var more;
      v, more := StoreTagsRemotely(u, chunk, names);
      EvolvesTransitive(names, w, u, v);
      if Quiet(w) && LabelsPass(tags) {
        QuietSendChunk(w, u, v, OnlyTags(tags, ElementsOf(order[..sent])), chunk);
        NewerTagsAdd(w.remote.tags, OnlyTags(tags, ElementsOf(order[..sent])), chunk);
      }
      sent, changed := sent + |Chunk(order, sent)|, changed + more;
    }
    assert order[..sent] == order;
  }

  /** Every label sent is a difference, and those that changed the peer's dictionary count as sent. */
  function SentTally(t: Tally, remote: Tags, tags: Tags): Tally
  {
    t.(tagsSent := t.tagsSent + |NewerTags(remote, tags)|, differences := t.differences + |tags|)
  }

  /** The label part of a pass, sending: local labels that the scan did not find at least as new. */
  method PushTags(w: World, seen: Tags, tally: Tally, ghost names: Names)
    returns (v: World, ok: bool, t: Tally)
    requires Coherent(w)
    ensures Evolves(names, w, v) && Coherent(v) && Counts(tally, t)
    ensures ok && Clean(tally, t) && v.local.revision == w.local.revision ==> TagsCover(seen, w.local.tags)
    ensures Quiet(w) && LabelsPass(w.local.tags) ==>
              && ok && QuietSendTags(w, v, OnlyTags(w.local.tags, NewerTags(seen, w.local.tags)))
              && t == SentTally(tally, w.remote.tags, OnlyTags(w.local.tags, NewerTags(seen, w.local.tags)))
              && (TagsCover(seen, w.local.tags) ==> Clean(tally, t) && v.remote == w.remote)
  {
    hide Evolves, Coherent, MergeTags, TagsCover, NewerTags, OnlyTags, LabelsPass;
    var u, fault, _ := Await(w, names);
    EvolvesFenced(names, w, u);
    t := tally;
    if fault {
      return u, false, t;
    }
    var tags := OnlyTags(u.local.tags, NewerTags(seen, u.local.tags));
    NothingNewer(seen, u.local.tags, w.remote.tags);
    ChunkPasses(u.local.tags, tags, NewerTags(seen, u.local.tags));
    EvolvesReflexive(names, u);
    ListedAreNamed(names, u, u, NewerTags(seen, u.local.tags));
    var sent, changed;
    v, ok, sent, changed := SendTags(u, tags, names);
    t := t.(tagsSent := t.tagsSent + changed, differences := t.differences + sent);
    EvolvesTransitive(names, w, u, v);
    EvolvesFenced(names, u, v);
  }

  lemma NothingNewer(seen: Tags, local: Tags, remote: Tags)
    ensures var tags := OnlyTags(local, NewerTags(seen, local));
            && (|tags| == 0 <==> TagsCover(seen, local))
            && (|tags| == 0 ==> TagsCover(remote, tags))
  {
    NoNewerTagsIsCover(seen, local);
    var tags := OnlyTags(local, NewerTags(seen, local));
    assert tags.Keys == NewerTags(seen, local);
    assert |tags| == |tags.Keys|;
  }

  lemma MergeNoTags(m: Tags)
    ensures MergeTags(m, map[]) == m
  {
  }

  /** What is sent after receiving everything a scan of `remote` lists. */
  function SentTags(local: Tags, remote: Tags): Tags
  {
    var merged := MergeTags(local, Usable(remote));
    OnlyTags(merged, NewerTags(Usable(remote), merged))
  }

  /** A label is sent exactly when the local side had it newer, and as it was there. */
  lemma SentOne(local: Tags, remote: Tags, id: Text)
    requires [] !in local
    ensures id in SentTags(local, remote) <==> id in local && TagNewer(remote, id, local[id])
    ensures id in SentTags(local, remote) ==> id in local && SentTags(local, remote)[id] == local[id]
  {
    if id in local && id in remote {
      VersionTotal(local[id].version, remote[id].version);
      VersionTotal(remote[id].version, local[id].version);
    }
    if id in remote {
      VersionTotal(remote[id].version, remote[id].version);
    }
  }

  /** What is sent is what the remote dictionary lacks of the local one, and all of it is news there. */
  lemma SentAreMissing(local: Tags, remote: Tags)
    requires [] !in local
    ensures |SentTags(local, remote)| == |NewerTags(remote, SentTags(local, remote))| == |MissingTags(remote, local)|
  {
    hide SentTags, VersionLt, MissingTags;
    var sent := SentTags(local, remote);
    forall id ensures id in sent <==> id in local && TagNewer(remote, id, local[id]) {
      SentOne(local, remote, id);
    }
    forall id | id in sent ensures sent[id] == local[id] {
      SentOne(local, remote, id);
    }
    assert sent.Keys == NewerTags(remote, local) == NewerTags(remote, sent);
    assert |sent| == |sent.Keys|;
    NewerTagsAreMissing(remote, local);
  }

  lemma SentMerges(local: Tags, remote: Tags)
    requires [] !in local
    ensures MergeTags(remote, SentTags(local, remote)) == MergeTags(remote, local)
  {
    hide SentTags, VersionLt;
    var sent := SentTags(local, remote);
    forall id ensures id in sent <==> id in local && TagNewer(remote, id, local[id]) {
      SentOne(local, remote, id);
    }
    forall id | id in sent ensures sent[id] == local[id] {
      SentOne(local, remote, id);
    }
  }

  lemma MergesAgree(local: Tags, remote: Tags)
    requires [] !in local
    ensures var merged, back := MergeTags(local, Usable(remote)), Usable(MergeTags(remote, local));
            TagsCover(back, merged) && TagsCover(merged, back)
  {
    var merged, back := MergeTags(local, Usable(remote)), Usable(MergeTags(remote, local));
    assert merged.Keys == back.Keys;
    forall id | id in merged ensures merged[id].version == back[id].version {
      MergeEitherWay(local, remote, id);
    }
    hide MergeTags, Usable;
    forall id | id in merged ensures VersionLe(merged[id].version, back[id].version) {
      VersionTotal(merged[id].version, back[id].version);
    }
  }

  /** Merging either way keeps apart exactly the labels that share a version. */
  lemma MergesAreOne(local: Tags, remote: Tags)
    requires [] !in local
    ensures OneLabelPerVersion(MergeTags(local, Usable(remote)), Usable(MergeTags(remote, local))) <==>
            OneLabelPerVersion(local, remote)
  {
    var merged, back := MergeTags(local, Usable(remote)), Usable(MergeTags(remote, local));
    forall id | id in local && id in remote
      ensures TagNewer(local, id, remote[id]) <==> !VersionLe(remote[id].version, local[id].version)
      ensures TagNewer(remote, id, local[id]) <==> !VersionLe(local[id].version, remote[id].version)
    {
      VersionTotal(local[id].version, remote[id].version);
      VersionTotal(remote[id].version, local[id].version);
    }
    if OneLabelPerVersion(merged, back) {
      forall id | id in local && id in remote && local[id].version == remote[id].version
        ensures local[id] == remote[id]
      {
        assert id in merged && id in back && merged[id] == local[id] && back[id] == remote[id];
      }
    }
  }

  lemma MergeEitherWay(local: Tags, remote: Tags, id: Text)
    requires id != [] && id in local.Keys + remote.Keys
    ensures MergeTags(local, Usable(remote))[id].version == MergeTags(remote, local)[id].version
  {
    if id in local && id in remote {
      VersionTotal(local[id].version, remote[id].version);
      VersionTotal(remote[id].version, local[id].version);
    }
  }

  /**
   * Receiving and then sending, without writers: the local labels become the merge of what the scan can list into them,
   * the remote labels the merge of the local ones into them, and the listable ones are at the same versions.
   */
  lemma QuietTagsAgree(local: Tags, remote: Tags)
    requires [] !in local
    ensures var merged := MergeTags(local, Usable(remote));
            var sent := MergeTags(remote, OnlyTags(merged, NewerTags(Usable(remote), merged)));
            && sent == MergeTags(remote, local)
            && TagsCover(Usable(sent), merged) && TagsCover(merged, Usable(sent))
            && (merged == Usable(sent) <==> OneLabelPerVersion(local, remote))
  {
    hide MergeTags, TagsCover, Usable, NewerTags, OnlyTags, OneLabelPerVersion;
    SentMerges(local, remote);
    MergesAgree(local, remote);
    MergesAreOne(local, remote);
    SameVersionsSameTags(MergeTags(local, Usable(remote)), Usable(MergeTags(remote, local)));
  }
}
