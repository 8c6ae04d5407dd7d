// Clipboard records on the wire: metadata with its validation, payload parts in chunks, and what arrives of a record.
module ReplicaWire {
  import opened Basics
  import opened WireRules

  const TEXT_LIMIT := 1024 * 1024
  const RICH_LIMIT := 16 * 1024 * 1024
  const IMAGE_LIMIT := 20 * 1024 * 1024
  const CLOCK_SLACK := 300_000 // milliseconds
  const I32_MAX := 0x7FFF_FFFF

  /** The host: SHA-256, UTF-8 validity, text syntax detection, and the largest chunk of a payload frame. */
  datatype Host = Host(digest: Bytes -> Bytes, utf8: Bytes -> bool, detect: Bytes -> nat, chunk: nat)

  datatype Kind = TextKind | HtmlKind | ImageKind | FilesKind

  datatype Change = Copy | Edit | Favorite | Delete | Snapshot | Label

  datatype Membership = Membership(labelId: string, attached: bool, revision: nat, device: string)

  /** The fields that travel as they are. */
  datatype Meta = Meta(
    syncId: string, width: nat, height: nat, preview: string, sourceApp: Option<string>, sourceDevice: string,
    sourceDeviceName: string, capturedAt: int, revision: nat, device: string, favorite: bool, favoriteRevision: nat,
    favoriteDevice: string, deleted: bool, live: bool, firstCapturedAt: int, copyCount: nat, lastUsedAt: Option<int>)

  datatype Payload = Payload(text: Option<Bytes>, html: Option<Bytes>, rtf: Option<Bytes>, image: Option<Bytes>)

  const NO_PAYLOAD := Payload(None, None, None, None)

  datatype Replica = Replica(
    meta: Meta, kind: Kind, change: Change, payload: Payload, labels: seq<string>, memberships: seq<Membership>,
    syntax: nat)

  datatype BlobRef = BlobRef(blobId: Bytes, size: nat, sha256: Bytes, media: string)

  /** A record as sent; `kind` and `change` are numbers, `payload` tells whether an inline payload is present. */
  datatype Wire = Wire(
    hasMetadata: bool, meta: Meta, kind: int, change: int, labels: seq<string>, memberships: seq<Membership>,
    payload: bool, parts: seq<BlobRef>,
    metadataOnly: bool)

  // ---------- Validation ----------

  /** The metadata a receiver accepts; `now` and `later` are its two clock readings. */
  predicate MetaOk(m: Meta, now: int, later: int)
  {
    && |m.syncId| == 64 && (forall i :: 0 <= i < |m.syncId| ==> IsHex(m.syncId[i]))
    && IsVersion(m.revision, m.device) && IsVersion(m.favoriteRevision, m.favoriteDevice)
    && IsIdentifier(m.sourceDevice) && Utf8Len(m.sourceDeviceName) <= 128 && Utf8Len(m.preview) <= 2048
    && (m.sourceApp.Some? ==> Utf8Len(m.sourceApp.value) <= 256)
    && 0 < m.firstCapturedAt <= m.capturedAt <= Later(now)
    && (m.lastUsedAt.Some? ==> 0 < m.lastUsedAt.value <= Later(later))
    && 0 < m.copyCount <= I32_MAX
  }

  function Later(now: int): int
  {
    if now + CLOCK_SLACK > I64_MAX then I64_MAX else now + CLOCK_SLACK
  }

  predicate MembershipOk(m: Membership)
  {
    IsIdentifier(m.labelId) && IsVersion(m.revision, m.device)
  }

  /** Valid memberships of distinct labels. */
  predicate MembershipsOk(ms: seq<Membership>)
  {
    && (forall i :: 0 <= i < |ms| ==> MembershipOk(ms[i]))
    && (forall i, j :: 0 <= i < j < |ms| ==> ms[i].labelId != ms[j].labelId)
  }

  function KindNumber(k: Kind): int
  {
    match k case TextKind => 1 case HtmlKind => 2 case ImageKind => 3 case FilesKind => 4
  }

  function KindOf(n: int): Option<Kind>
  {
    if n == 1 then Some(TextKind) else if n == 2 then Some(HtmlKind) else if n == 3 then Some(ImageKind) else None
  }

  function ChangeNumber(c: Change): int
  {
    match c case Copy => 1 case Edit => 2 case Favorite => 3 case Delete => 4 case Snapshot => 5 case Label => 6
  }

  function ChangeOf(n: int): Option<Change>
  {
    if n == 1 then Some(Copy) else if n == 2 then Some(Edit) else if n == 3 then Some(Favorite)
    else if n == 4 then Some(Delete) else if n == 5 then Some(Snapshot) else if n == 6 then Some(Label)
    else None
  }

  predicate LiveOk(live: bool, change: Change, deleted: bool)
  {
    live ==> change == Copy && !deleted
  }

  // ---------- Metadata ----------

  function MetadataToWire(x: Replica): Wire
  {
    Wire(true, x.meta, KindNumber(x.kind), ChangeNumber(x.change), [], x.memberships, false, [], true)
  }

  predicate Acceptable(w: Wire, now: int, later: int)
  {
    && w.hasMetadata && MetaOk(w.meta, now, later) && w.labels == [] && !w.payload && |w.memberships| <= 4096
       && MembershipsOk(w.memberships)
    && KindOf(w.kind).Some? && ChangeOf(w.change).Some? && LiveOk(w.meta.live, ChangeOf(w.change).value, w.meta.deleted)
  }

  function Unwired(w: Wire): Replica
    requires KindOf(w.kind).Some? && ChangeOf(w.change).Some?
  {
    Replica(w.meta, KindOf(w.kind).value, ChangeOf(w.change).value, NO_PAYLOAD, [], w.memberships, 0)
  }

  /** Reads metadata, refusing a label mentioned twice by the set of labels seen so far. */
  method MetadataFromWire(w: Wire, now: int, later: int) returns (r: Option<Replica>)
    ensures r.Some? <==> Acceptable(w, now, later)
    ensures r.Some? ==> r.value == Unwired(w)
    ensures r.Some? ==>
              && (w.kind == 1 <==> r.value.kind == TextKind) && (w.kind == 2 <==> r.value.kind == HtmlKind)
              && (w.kind == 3 <==> r.value.kind == ImageKind)
              && (w.change == 1 <==> r.value.change == Copy) && (w.change == 2 <==> r.value.change == Edit)
              && (w.change == 3 <==> r.value.change == Favorite) && (w.change == 4 <==> r.value.change == Delete)
              && (w.change == 5 <==> r.value.change == Snapshot) && (w.change == 6 <==> r.value.change == Label)
  {
    hide MetaOk, MembershipOk;
    if !w.hasMetadata || !MetaOk(w.meta, now, later) || w.labels != [] || w.payload || |w.memberships| > 4096 {
      return None;
    }
    var ids := {};
    var memberships := [];
    for i := 0 to |w.memberships|
      invariant memberships == w.memberships[..i] && MembershipsOk(w.memberships[..i])
      invariant forall id :: id in ids <==> exists j :: 0 <= j < i && w.memberships[j].labelId == id
    {
      var m := w.memberships[i];
      if !MembershipOk(m) || m.labelId in ids {
        return None;
      }
      ids := ids + {m.labelId};
      memberships := memberships + [m];
    }
    assert w.memberships[..|w.memberships|] == w.memberships;
    var kind, change := KindOf(w.kind), ChangeOf(w.change);
    if kind == None || change == None || !LiveOk(w.meta.live, change.value, w.meta.deleted) {
      return None;
    }
    return Some(Replica(w.meta, kind.value, change.value, NO_PAYLOAD, [], memberships, 0));
  }

  /** Metadata survives the trip exactly when the receiver's rules accept it and it is not about files. */
  lemma MetadataTrip(x: Replica, now: int, later: int)
    ensures Acceptable(MetadataToWire(x), now, later) <==>
              && MetaOk(x.meta, now, later) && |x.memberships| <= 4096 && MembershipsOk(x.memberships)
              && LiveOk(x.meta.live, x.change, x.meta.deleted) && x.kind != FilesKind
    ensures Acceptable(MetadataToWire(x), now, later) ==>
              Unwired(MetadataToWire(x)) == x.(payload := NO_PAYLOAD, labels := [], syntax := 0)
  {
    hide MetaOk, MembershipsOk;
  }

  /** What a receiver accepts, spelled out. */
  lemma AcceptableMeans(w: Wire, now: int, later: int)
    ensures Acceptable(w, now, later) <==>
              && w.hasMetadata && w.labels == [] && !w.payload
              && 1 <= w.kind <= 3 && 1 <= w.change <= 6 && (w.meta.live ==> w.change == 1 && !w.meta.deleted)
              && Digits(w.meta.syncId)
              && 1 <= w.meta.revision < 0x8000_0000_0000_0000 && IsIdentifier(w.meta.device)
              && 1 <= w.meta.favoriteRevision < 0x8000_0000_0000_0000 && IsIdentifier(w.meta.favoriteDevice)
              && IsIdentifier(w.meta.sourceDevice) && Utf8Len(w.meta.sourceDeviceName) <= 128
              && Utf8Len(w.meta.preview) <= 2048
              && (w.meta.sourceApp == None || Utf8Len(w.meta.sourceApp.value) <= 256)
              && 1 <= w.meta.firstCapturedAt <= w.meta.capturedAt <= now + 300_000
              && w.meta.capturedAt < 0x8000_0000_0000_0000
              && (w.meta.lastUsedAt == None || 1 <= w.meta.lastUsedAt.value <= later + 300_000)
              && (w.meta.lastUsedAt == None || w.meta.lastUsedAt.value < 0x8000_0000_0000_0000)
              && 1 <= w.meta.copyCount < 0x8000_0000
              && |w.memberships| <= 4096
              && (forall i :: 0 <= i < |w.memberships| ==>
                    && IsIdentifier(w.memberships[i].labelId) && IsIdentifier(w.memberships[i].device)
                    && 1 <= w.memberships[i].revision < 0x8000_0000_0000_0000)
              && (forall i, j :: 0 <= i < j < |w.memberships| ==> w.memberships[i].labelId != w.memberships[j].labelId)
  {
    hide IsIdentifier, Utf8Len;
  }

  /** Sixty-four hexadecimal digits. */
  predicate Digits(s: string)
  {
    && |s| == 64
    && forall i :: 0 <= i < 64 ==> '0' <= s[i] <= '9' || 'a' <= s[i] <= 'f' || 'A' <= s[i] <= 'F'
  }

  // ---------- Payload parts ----------

  datatype Part = Part(bytes: Bytes, media: string)

  function Limit(media: string): nat
  {
    if media == "text/plain" then TEXT_LIMIT else if media == "image/png" then IMAGE_LIMIT else RICH_LIMIT
  }

  /** The parts a record is sent in, unless a payload is missing or the record is about files. */
  function PartsOf(x: Replica): Option<seq<Part>>
  {
    if x.meta.deleted then Some([])
    else
      match x.kind
      case TextKind => if x.payload.text.Some? then Some([Part(x.payload.text.value, "text/plain")]) else None
      case HtmlKind =>
        if x.payload.html == None then None
        else
          var plain := if x.payload.text.Some? then x.payload.text.value else [];
          Some([Part(plain, "text/plain"), Part(x.payload.html.value, "text/html")]
               + if x.payload.rtf.Some? then [Part(x.payload.rtf.value, "text/rtf")] else [])
      case ImageKind => if x.payload.image.Some? then Some([Part(x.payload.image.value, "image/png")]) else None
      case FilesKind => None
  }

  predicate WithinLimits(parts: seq<Part>)
  {
    forall i :: 0 <= i < |parts| ==> |parts[i].bytes| <= Limit(parts[i].media)
  }

  function RefTo(host: Host, part: Part): BlobRef
  {
    var digest := host.digest(part.bytes);
    BlobRef(digest, |part.bytes|, digest, part.media)
  }

  function RefsTo(host: Host, parts: seq<Part>): seq<BlobRef>
  {
    seq(|parts|, i requires 0 <= i < |parts| => RefTo(host, parts[i]))
  }

  function BytesOf(parts: seq<Part>): seq<Bytes>
  {
    seq(|parts|, i requires 0 <= i < |parts| => parts[i].bytes)
  }

  /** The payload its kind calls for is there and within the limits; a tombstone needs none, and files never go. */
  predicate Transferable(x: Replica)
  {
    x.meta.deleted ||
    match x.kind
    case TextKind => x.payload.text.Some? && |x.payload.text.value| <= TEXT_LIMIT
    case HtmlKind =>
      && |PlainText(x.payload)| <= TEXT_LIMIT && x.payload.html.Some? && |x.payload.html.value| <= RICH_LIMIT
      && (x.payload.rtf.Some? ==> |x.payload.rtf.value| <= RICH_LIMIT)
    case ImageKind => x.payload.image.Some? && |x.payload.image.value| <= IMAGE_LIMIT
    case FilesKind => false
  }

  /** The payload bytes that follow a record, in order. */
  function PayloadBytes(x: Replica): seq<Bytes>
    requires Transferable(x)
  {
    if x.meta.deleted then []
    else
      match x.kind
      case TextKind => [x.payload.text.value]
      case HtmlKind =>
        [PlainText(x.payload), x.payload.html.value] + if x.payload.rtf.Some? then [x.payload.rtf.value] else []
      case ImageKind => [x.payload.image.value]
  }

  function PlainText(p: Payload): Bytes
  {
    if p.text.Some? then p.text.value else []
  }

  lemma PartsTransfer(x: Replica)
    ensures PartsOf(x).Some? && WithinLimits(PartsOf(x).value) <==> Transferable(x)
    ensures Transferable(x) ==> BytesOf(PartsOf(x).value) == PayloadBytes(x)
  {
    if PartsOf(x).Some? && !x.meta.deleted {
      var parts := PartsOf(x).value;
      assert WithinLimits(parts) ==> |parts[0].bytes| <= Limit(parts[0].media);
      if x.kind == HtmlKind {
        assert WithinLimits(parts) ==> |parts[1].bytes| <= Limit(parts[1].media);
        assert WithinLimits(parts) && |parts| == 3 ==> |parts[2].bytes| <= Limit(parts[2].media);
      }
    }
  }

  /** The record to send and the payload parts that follow it, each described by its size, digest and media type. */
  function EncodeRecord(host: Host, x: Replica): (r: Option<(Wire, seq<Bytes>)>)
    ensures r.Some? <==> Transferable(x)
    ensures r.Some? ==>
              var (w, parts) := r.value;
              && parts == PayloadBytes(x) && |w.parts| == |parts| == |Expected(x.kind, x.meta.deleted, |parts|)|
              && (forall i :: 0 <= i < |parts| ==>
                    && w.parts[i].media == Expected(x.kind, x.meta.deleted, |parts|)[i]
                    && w.parts[i].size == |parts[i]| <= Limit(w.parts[i].media)
                    && w.parts[i].sha256 == w.parts[i].blobId == host.digest(parts[i]))
              && w.hasMetadata && w.kind == KindNumber(x.kind) && w.change == ChangeNumber(x.change)
              && w.meta == x.meta && w.memberships == x.memberships && w.labels == [] && !w.metadataOnly && !w.payload
  {
    PartsTransfer(x);
    if PartsOf(x) == None || !WithinLimits(PartsOf(x).value) then None
    else
      var parts := PartsOf(x).value;
      Some((MetadataToWire(x).(metadataOnly := false, parts := RefsTo(host, parts)), BytesOf(parts)))
  }

  // ---------- Chunks ----------

  function Chunks(part: Bytes, size: nat): seq<Bytes>
    requires size > 0
    decreases |part|
  {
    if part == [] then [] else [part[..Min(size, |part|)]] + Chunks(part[Min(size, |part|)..], size)
  }

  function AllChunks(parts: seq<Bytes>, size: nat): seq<Bytes>
    requires size > 0
  {
    if parts == [] then [] else Chunks(parts[0], size) + AllChunks(parts[1..], size)
  }

  /** Sends every part in chunks. */
  method SendParts(parts: seq<Bytes>, size: nat) returns (frames: seq<Bytes>)
    requires size > 0
    ensures frames == AllChunks(parts, size)
    ensures forall i :: 0 <= i < |frames| ==> 0 < |frames[i]| <= size
  {
    frames := [];
    for i := 0 to |parts|
      invariant frames + AllChunks(parts[i..], size) == AllChunks(parts, size)
      invariant forall k :: 0 <= k < |frames| ==> 0 < |frames[k]| <= size
    {
      ghost var before := frames;
      var rest := parts[i];
      assert parts[i..][1..] == parts[i + 1..];
      assert AllChunks(parts[i..], size) == Chunks(rest, size) + AllChunks(parts[i + 1..], size);
      while rest != []
        invariant frames + Chunks(rest, size) == before + Chunks(parts[i], size)
        invariant forall k :: 0 <= k < |frames| ==> 0 < |frames[k]| <= size
        decreases |rest|
      {
        var n := Min(size, |rest|);
        assert frames + ([rest[..n]] + Chunks(rest[n..], size)) == (frames + [rest[..n]]) + Chunks(rest[n..], size);
        frames := frames + [rest[..n]];
        rest := rest[n..];
      }
      assert frames == before + Chunks(parts[i], size);
      assert frames + AllChunks(parts[i + 1..], size) ==
               before + (Chunks(parts[i], size) + AllChunks(parts[i + 1..], size));
    }
  }

  /** Reads frames until `need` bytes arrived: the bytes and how many frames they took. */
  function Read(frames: seq<Bytes>, need: nat, size: nat): Option<(Bytes, nat)>
    decreases need
  {
    if need == 0 then Some(([], 0))
    else if frames == [] || frames[0] == [] || |frames[0]| > need || |frames[0]| > size then None
    else
      var more := Read(frames[1..], need - |frames[0]|, size);
      if more == None then None else Some((frames[0] + more.value.0, more.value.1 + 1))
  }

  function Joined(frames: seq<Bytes>): Bytes
  {
    if frames == [] then [] else frames[0] + Joined(frames[1..])
  }

  /** What was read is exactly the frames it took, in full. */
  lemma {:induction false} ReadIsSound(frames: seq<Bytes>, need: nat, size: nat)
    ensures var r := Read(frames, need, size);
            r.Some? ==> r.value.1 <= |frames| && |r.value.0| == need && r.value.0 == Joined(frames[..r.value.1])
    decreases need
  {
    if need > 0 && Read(frames, need, size).Some? {
      ReadIsSound(frames[1..], need - |frames[0]|, size);
      var n := Read(frames, need, size).value.1;
      assert frames[..n][1..] == frames[1..][..n - 1];
    }
  }

  lemma ReadFirst(frame: Bytes, more: seq<Bytes>, need: nat, size: nat)
    requires 0 < |frame| <= need && |frame| <= size
    ensures var others := Read(more, need - |frame|, size);
            Read([frame] + more, need, size) ==
              if others == None then None else Some((frame + others.value.0, others.value.1 + 1))
  {
    assert ([frame] + more)[1..] == more;
  }

  /** Chunking and reading are inverse, whatever follows. */
  lemma {:induction false} ReadOfChunks(part: Bytes, rest: seq<Bytes>, size: nat)
    requires size > 0
    ensures Read(Chunks(part, size) + rest, |part|, size) == Some((part, |Chunks(part, size)|))
    decreases |part|
  {
    hide Read, Chunks;
    FirstChunk(part, size);
    if part == [] {
      NothingNeeded(Chunks(part, size) + rest, size);
    } else {
      var n := Min(size, |part|);
      var more := Chunks(part[n..], size);
      ReadOfChunks(part[n..], rest, size);
      assert ([part[..n]] + more) + rest == [part[..n]] + (more + rest);
      ReadFirst(part[..n], more + rest, |part|, size);
      assert part[..n] + part[n..] == part;
    }
  }

  lemma NothingNeeded(frames: seq<Bytes>, size: nat)
    ensures Read(frames, 0, size) == Some(([], 0))
  {
  }

  lemma FirstChunk(part: Bytes, size: nat)
    requires size > 0
    ensures Chunks(part, size) ==
              if part == [] then [] else [part[..Min(size, |part|)]] + Chunks(part[Min(size, |part|)..], size)
  {
  }

  // ---------- Receiving ----------

  /** The media types of the parts a receiver expects. */
  function Expected(kind: Kind, deleted: bool, count: nat): seq<string>
  {
    if deleted then []
    else
      match kind
      case TextKind => ["text/plain"]
      case HtmlKind => ["text/plain", "text/html"] + if count == 3 then ["text/rtf"] else []
      case ImageKind => ["image/png"]
      case FilesKind => []
  }

  predicate RefOk(ref: BlobRef, media: string)
  {
    ref.media == media && ref.size <= Limit(media) && |ref.sha256| == 32 && ref.blobId == ref.sha256
  }

  /** Bytes a receiver takes for a described part. */
  predicate GenuinePart(host: Host, ref: BlobRef, media: string, bytes: Bytes)
  {
    host.digest(bytes) == ref.sha256 && (media == "image/png" || host.utf8(bytes))
  }

  function ReceiveParts(host: Host, refs: seq<BlobRef>, media: seq<string>, frames: seq<Bytes>)
    : Option<(seq<Bytes>, nat)>
    requires |refs| == |media|
    decreases |refs|
  {
    if refs == [] then Some(([], 0))
    else if !RefOk(refs[0], media[0]) then None
    else
      var first := Read(frames, refs[0].size, host.chunk);
      if first == None || !GenuinePart(host, refs[0], media[0], first.value.0) || first.value.1 > |frames| then None
      else
        var more := ReceiveParts(host, refs[1..], media[1..], frames[first.value.1..]);
        if more == None then None else Some(([first.value.0] + more.value.0, first.value.1 + more.value.1))
  }

  function Put(p: Payload, media: string, bytes: Bytes): Payload
  {
    if media == "image/png" then p.(image := Some(bytes))
    else if media == "text/plain" then p.(text := Some(bytes))
    else if media == "text/html" then p.(html := Some(bytes))
    else p.(rtf := Some(bytes))
  }

  function Assembled(p: Payload, media: seq<string>, parts: seq<Bytes>): Payload
    requires |media| == |parts|
    decreases |parts|
  {
    if parts == [] then p else Assembled(Put(p, media[0], parts[0]), media[1..], parts[1..])
  }

  /** What a receiver makes of a record and the frames after it, and how many of those it takes. */
  function Receive(host: Host, w: Wire, frames: seq<Bytes>, now: int, later: int): Option<(Replica, nat)>
  {
    if !Acceptable(w, now, later) then None
    else
      var x := Unwired(w);
      if w.metadataOnly then if w.parts != [] || x.meta.live then None else Some((x, 0))
      else
        var media := Expected(x.kind, x.meta.deleted, |w.parts|);
        if |w.parts| != |media| then None
        else
          var r := ReceiveParts(host, w.parts, media, frames);
          if r == None || |r.value.0| != |media| then None
          else
            var payload := Assembled(NO_PAYLOAD, media, r.value.0);
            if x.kind == TextKind && PlainText(payload) == [] && !x.meta.deleted then None
            else Some((x.(payload := payload, syntax := host.detect(PlainText(payload))), r.value.1))
  }

  /** Every accepted part has the announced size and digest. */
  lemma {:induction false} PartsAreGenuine(host: Host, refs: seq<BlobRef>, media: seq<string>, frames: seq<Bytes>)
    requires |refs| == |media|
    ensures var r := ReceiveParts(host, refs, media, frames);
            r.Some? ==>
              && |r.value.0| == |refs| && r.value.1 <= |frames|
              && forall i :: 0 <= i < |refs| ==>
                   && refs[i].media == media[i] && refs[i].blobId == refs[i].sha256 == host.digest(r.value.0[i])
                   && |refs[i].sha256| == 32 && |r.value.0[i]| == refs[i].size <= 20 * 1024 * 1024
                   && (media[i] != "image/png" ==> refs[i].size <= 16 * 1024 * 1024 && host.utf8(r.value.0[i]))
                   && (media[i] == "text/plain" ==> refs[i].size <= 1024 * 1024)
    decreases |refs|
  {
    if refs != [] && ReceiveParts(host, refs, media, frames).Some? {
      ReadIsSound(frames, refs[0].size, host.chunk);
      var first := Read(frames, refs[0].size, host.chunk);
      PartsAreGenuine(host, refs[1..], media[1..], frames[first.value.1..]);
    }
  }

  ghost function Behind(bytes: Bytes, used: nat, more: Option<(Bytes, nat)>): Option<(Bytes, nat)>
  {
    if more == None then None else Some((bytes + more.value.0, used + more.value.1))
  }

  /** One frame more: refused, or read in front of the rest. */
  lemma ReadOneMore(frames: seq<Bytes>, bytes: Bytes, pos: nat, need: nat, size: nat)
    requires pos < |frames| && 0 < need
    ensures var chunk := frames[pos];
            Behind(bytes, pos, Read(frames[pos..], need, size)) ==
              if chunk == [] || |chunk| > need || |chunk| > size then None
              else Behind(bytes + chunk, pos + 1, Read(frames[pos + 1..], need - |chunk|, size))
  {
    var chunk := frames[pos];
    assert frames[pos..] == [chunk] + frames[pos + 1..];
    if 0 < |chunk| <= need && |chunk| <= size {
      ReadFirst(chunk, frames[pos + 1..], need, size);
      var more := Read(frames[pos + 1..], need - |chunk|, size);
      if more.Some? {
        assert bytes + (chunk + more.value.0) == (bytes + chunk) + more.value.0;
      }
    }
  }

  lemma ReadNothing(frames: seq<Bytes>, bytes: Bytes, pos: nat, need: nat, size: nat)
    requires pos <= |frames|
    ensures Behind([], 0, Read(frames, need, size)) == Read(frames, need, size) && frames[0..] == frames
    ensures Behind(bytes, pos, Read(frames[pos..], 0, size)) == Some((bytes, pos))
    ensures pos == |frames| && 0 < need ==> Read(frames[pos..], need, size) == None
  {
    assert bytes + [] == bytes;
    var whole := Read(frames, need, size);
    assert whole.Some? ==> [] + whole.value.0 == whole.value.0;
  }

  /** Reads one part's frames. */
  method ReadPart(frames: seq<Bytes>, need: nat, size: nat) returns (r: Option<(Bytes, nat)>)
    ensures r == Read(frames, need, size)
  {
    hide Read;
    var bytes, pos := [], 0;
    ReadNothing(frames, bytes, pos, need, size);
    while |bytes| < need
      invariant |bytes| <= need && pos <= |frames|
      invariant Read(frames, need, size) == Behind(bytes, pos, Read(frames[pos..], need - |bytes|, size))
      decreases need - |bytes|
    {
      ReadNothing(frames, bytes, pos, need - |bytes|, size);
      if pos == |frames| || |frames[pos]| > size {
        if pos < |frames| {
          ReadOneMore(frames, bytes, pos, need - |bytes|, size);
        }
        return None;
      }
      var chunk := frames[pos];
      ReadOneMore(frames, bytes, pos, need - |bytes|, size);
      if chunk == [] || |chunk| > need - |bytes| {
        return None;
      }
      bytes := bytes + chunk;
      pos := pos + 1;
    }
    ReadNothing(frames, bytes, pos, need, size);
    return Some((bytes, pos));
  }

  ghost function Prefixed(parts: seq<Bytes>, used: nat, more: Option<(seq<Bytes>, nat)>): Option<(seq<Bytes>, nat)>
  {
    if more == None then None else Some((parts + more.value.0, used + more.value.1))
  }

  lemma ReceiveOneMore(host: Host, refs: seq<BlobRef>, media: seq<string>, frames: seq<Bytes>, parts: seq<Bytes>,
                       pos: nat, i: nat)
    requires |refs| == |media| && i < |refs| && pos <= |frames|
    ensures var first := Read(frames[pos..], refs[i].size, host.chunk);
            && (first.Some? ==> pos + first.value.1 <= |frames|)
            && Prefixed(parts, pos, ReceiveParts(host, refs[i..], media[i..], frames[pos..])) ==
               if !RefOk(refs[i], media[i]) || first == None
                  || !GenuinePart(host, refs[i], media[i], first.value.0) then None
               else Prefixed(parts + [first.value.0], pos + first.value.1,
                             ReceiveParts(host, refs[i + 1..], media[i + 1..], frames[pos + first.value.1..]))
  {
    hide RefOk, GenuinePart, Read;
    ReadIsSound(frames[pos..], refs[i].size, host.chunk);
    var first := Read(frames[pos..], refs[i].size, host.chunk);
    assert refs[i..][1..] == refs[i + 1..] && media[i..][1..] == media[i + 1..];
    if first.Some? {
      assert frames[pos..][first.value.1..] == frames[pos + first.value.1..];
      var more := ReceiveParts(host, refs[i + 1..], media[i + 1..], frames[pos + first.value.1..]);
      if more.Some? {
        assert parts + ([first.value.0] + more.value.0) == (parts + [first.value.0]) + more.value.0;
      }
    }
  }

  lemma AssembleOneMore(p: Payload, media: seq<string>, parts: seq<Bytes>, bytes: Bytes)
    requires |parts| < |media|
    ensures Assembled(p, media[..|parts| + 1], parts + [bytes]) ==
              Put(Assembled(p, media[..|parts|], parts), media[|parts|], bytes)
    decreases |parts|
  {
    if parts != [] {
      AssembleOneMore(Put(p, media[0], parts[0]), media[1..], parts[1..], bytes);
      assert media[..|parts| + 1][1..] == media[1..][..|parts|] && media[..|parts|][1..] == media[1..][..|parts| - 1];
      assert (parts + [bytes])[1..] == parts[1..] + [bytes];
    } else {
      assert media[..1][1..] == [] && (parts + [bytes])[1..] == [];
    }
  }

  /** Receives a record: metadata, then each described part from the frames that follow. */
  method ReceiveRecord(host: Host, w: Wire, frames: seq<Bytes>, now: int, later: int)
    returns (r: Option<(Replica, nat)>)
    ensures r == Receive(host, w, frames, now, later)
  {
    hide Acceptable, MetaOk, RefOk, GenuinePart, ReceiveParts, Read, Assembled;
    var received := MetadataFromWire(w, now, later);
    if received == None {
      return None;
    }
    var x := received.value;
    if w.metadataOnly {
      if w.parts != [] || x.meta.live {
        return None;
      }
      return Some((x, 0));
    }
    var media := Expected(x.kind, x.meta.deleted, |w.parts|);
    if |w.parts| != |media| {
      return None;
    }
    var payload, pos: nat := NO_PAYLOAD, 0;
    ghost var parts: seq<Bytes> := [];
    ReceiveAll(host, w.parts, media, frames);
    for i := 0 to |w.parts|
      invariant pos <= |frames| && |parts| == i && payload == Assembled(NO_PAYLOAD, media[..i], parts)
      invariant ReceiveParts(host, w.parts, media, frames) ==
                Prefixed(parts, pos, ReceiveParts(host, w.parts[i..], media[i..], frames[pos..]))
    {
      ReceiveOneMore(host, w.parts, media, frames, parts, pos, i);
      if !RefOk(w.parts[i], media[i]) {
        return None;
      }
      var part := ReadPart(frames[pos..], w.parts[i].size, host.chunk);
      if part == None || !GenuinePart(host, w.parts[i], media[i], part.value.0) {
        return None;
      }
      AssembleOneMore(NO_PAYLOAD, media, parts, part.value.0);
      payload := Put(payload, media[i], part.value.0);
      parts := parts + [part.value.0];
      pos := pos + part.value.1;
    }
    ReceiveNone(host, w.parts, media, frames, pos);
    assert parts + [] == parts && media[..|media|] == media;
    if x.kind == TextKind && PlainText(payload) == [] && !x.meta.deleted {
      return None;
    }
    return Some((x.(payload := payload, syntax := host.detect(PlainText(payload))), pos));
  }

  lemma ReceiveAll(host: Host, refs: seq<BlobRef>, media: seq<string>, frames: seq<Bytes>)
    requires |refs| == |media|
    ensures ReceiveParts(host, refs, media, frames) ==
              Prefixed([], 0, ReceiveParts(host, refs[0..], media[0..], frames[0..]))
    ensures Assembled(NO_PAYLOAD, media[..0], []) == NO_PAYLOAD
  {
    assert refs[0..] == refs && media[0..] == media && frames[0..] == frames;
    var r := ReceiveParts(host, refs, media, frames);
    assert r.Some? ==> [] + r.value.0 == r.value.0;
  }

  lemma ReceiveNone(host: Host, refs: seq<BlobRef>, media: seq<string>, frames: seq<Bytes>, pos: nat)
    requires |refs| == |media| && pos <= |frames|
    ensures ReceiveParts(host, refs[|refs|..], media[|refs|..], frames[pos..]) == Some(([], 0))
  {
  }

  // ---------- The round trip ----------

  /** The texts of a record are valid UTF-8, as its string type demands, and the host's digests have 32 bytes. */
  ghost predicate Typed(host: Host, x: Replica)
  {
    && host.chunk > 0 && host.utf8([]) && (forall b :: |host.digest(b)| == 32)
    && (x.payload.text.Some? ==> host.utf8(x.payload.text.value))
    && (x.payload.html.Some? ==> host.utf8(x.payload.html.value))
    && (x.payload.rtf.Some? ==> host.utf8(x.payload.rtf.value))
  }

  /** The records that arrive. */
  predicate Deliverable(x: Replica, now: int, later: int)
  {
    && MetaOk(x.meta, now, later) && |x.memberships| <= 4096 && MembershipsOk(x.memberships)
    && LiveOk(x.meta.live, x.change, x.meta.deleted) && x.kind != FilesKind
    && Transferable(x)
    && (x.kind == TextKind && !x.meta.deleted ==> x.payload.text != Some([]))
  }

  /** The ordinary record, text in printable characters without memberships: it arrives within these limits. */
  lemma PlainRecordArrives(x: Replica, now: int, later: int)
    requires x.kind == TextKind && !x.meta.deleted && !x.meta.live && x.memberships == [] && x.meta.sourceApp == None
    requires Printable(x.meta.device) && Printable(x.meta.favoriteDevice) && Printable(x.meta.sourceDevice)
             && Printable(x.meta.sourceDeviceName) && Printable(x.meta.preview)
    ensures Deliverable(x, now, later) <==>
              && Digits(x.meta.syncId)
              && 1 <= x.meta.revision < 0x8000_0000_0000_0000 && NotBlank(x.meta.device) && |x.meta.device| <= 128
              && 1 <= x.meta.favoriteRevision < 0x8000_0000_0000_0000 && NotBlank(x.meta.favoriteDevice)
              && |x.meta.favoriteDevice| <= 128 && NotBlank(x.meta.sourceDevice) && |x.meta.sourceDevice| <= 128
              && |x.meta.sourceDeviceName| <= 128 && |x.meta.preview| <= 2048
              && 1 <= x.meta.firstCapturedAt <= x.meta.capturedAt <= now + 300_000
              && x.meta.capturedAt < 0x8000_0000_0000_0000
              && (x.meta.lastUsedAt == None || 1 <= x.meta.lastUsedAt.value <= later + 300_000)
              && (x.meta.lastUsedAt == None || x.meta.lastUsedAt.value < 0x8000_0000_0000_0000)
              && 1 <= x.meta.copyCount < 0x8000_0000
              && x.payload.text.Some? && 1 <= |x.payload.text.value| <= 1_048_576
  {
    hide IsIdentifier, Utf8Len, MetaOk;
    PrintableText(x.meta.device);
    PrintableText(x.meta.favoriteDevice);
    PrintableText(x.meta.sourceDevice);
    PrintableText(x.meta.sourceDeviceName);
    PrintableText(x.meta.preview);
    AcceptableMeans(MetadataToWire(x), now, later);
    MetadataTrip(x, now, later);
  }

  /** What arrives: the payload of the record's own kind, no labels, and a freshly detected syntax. */
  function Normalised(host: Host, x: Replica): Replica
  {
    var payload :=
      if x.meta.deleted then NO_PAYLOAD
      else
        match x.kind
        case TextKind => NO_PAYLOAD.(text := x.payload.text)
        case HtmlKind => x.payload.(text := Some(PlainText(x.payload)), image := None)
        case ImageKind => NO_PAYLOAD.(image := x.payload.image)
        case FilesKind => NO_PAYLOAD;
    x.(payload := payload, labels := [], syntax := host.detect(PlainText(payload)))
  }

  function MediaOf(parts: seq<Part>): seq<string>
  {
    seq(|parts|, i requires 0 <= i < |parts| => parts[i].media)
  }

  ghost predicate Sendable(host: Host, parts: seq<Part>)
  {
    && WithinLimits(parts)
    && forall i :: 0 <= i < |parts| ==> parts[i].media == "image/png" || host.utf8(parts[i].bytes)
  }

  lemma PartIsDescribed(host: Host, part: Part)
    requires |host.digest(part.bytes)| == 32 && |part.bytes| <= Limit(part.media)
    requires part.media == "image/png" || host.utf8(part.bytes)
    ensures RefTo(host, part).size == |part.bytes| && RefOk(RefTo(host, part), part.media)
    ensures GenuinePart(host, RefTo(host, part), part.media, part.bytes)
  {
  }

  /** A first part that reads back leaves the rest of the frames to the other parts. */
  lemma {:induction false} FirstArrives(host: Host, refs: seq<BlobRef>, media: seq<string>, bytes: Bytes,
                                        chunks: seq<Bytes>, more: seq<Bytes>)
    requires |refs| == |media| && refs != [] && RefOk(refs[0], media[0])
    requires Read(chunks + more, refs[0].size, host.chunk) == Some((bytes, |chunks|))
    requires GenuinePart(host, refs[0], media[0], bytes)
    ensures var others := ReceiveParts(host, refs[1..], media[1..], more);
            ReceiveParts(host, refs, media, chunks + more) ==
              if others == None then None else Some(([bytes] + others.value.0, |chunks| + others.value.1))
  {
    hide Read, RefOk, GenuinePart;
    assert (chunks + more)[|chunks|..] == more;
  }

  lemma TailOfParts(host: Host, parts: seq<Part>)
    requires parts != []
    ensures RefsTo(host, parts)[1..] == RefsTo(host, parts[1..]) && MediaOf(parts)[1..] == MediaOf(parts[1..])
    ensures BytesOf(parts) == [parts[0].bytes] + BytesOf(parts[1..])
  {
  }

  /** Parts that are described, chunked and sent are received as they were, and no frame more is taken. */
  lemma {:induction false} PartsArrive(host: Host, parts: seq<Part>, rest: seq<Bytes>)
    requires host.chunk > 0 && (forall b :: |host.digest(b)| == 32) && Sendable(host, parts)
    ensures var sent := AllChunks(BytesOf(parts), host.chunk);
            ReceiveParts(host, RefsTo(host, parts), MediaOf(parts), sent + rest) == Some((BytesOf(parts), |sent|))
    decreases |parts|
  {
    hide Read, Chunks, RefOk, GenuinePart, RefTo;
    if parts != [] {
      hide ReceiveParts;
      PartsArrive(host, parts[1..], rest);
      PartIsDescribed(host, parts[0]);
      TailOfParts(host, parts);
      var bytes, chunk := BytesOf(parts[1..]), host.chunk;
      var first, more := Chunks(parts[0].bytes, chunk), AllChunks(bytes, chunk);
      assert ([parts[0].bytes] + bytes)[1..] == bytes;
      assert (first + more) + rest == first + (more + rest);
      ReadOfChunks(parts[0].bytes, more + rest, chunk);
      FirstArrives(host, RefsTo(host, parts), MediaOf(parts), parts[0].bytes, first, more + rest);
    }
  }

  /** A record's parts have the expected media types and assemble to the normalised payload. */
  lemma PartsFit(host: Host, x: Replica)
    requires PartsOf(x).Some?
    ensures var parts := PartsOf(x).value;
            && MediaOf(parts) == Expected(x.kind, x.meta.deleted, |parts|)
            && Assembled(NO_PAYLOAD, MediaOf(parts), BytesOf(parts)) == Normalised(host, x).payload
  {
    var parts := PartsOf(x).value;
    assert MediaOf(parts) == Expected(x.kind, x.meta.deleted, |parts|);
    assert MediaOf(parts)[|parts|..] == [] && BytesOf(parts)[|parts|..] == [];
    if |parts| == 1 {
      assert BytesOf(parts) == [parts[0].bytes];
      AssembleOne(NO_PAYLOAD, parts[0].media, parts[0].bytes);
    } else if |parts| > 1 {
      AssembleRich(parts);
    }
  }

  lemma AssembleOne(p: Payload, media: string, bytes: Bytes)
    ensures Assembled(p, [media], [bytes]) == Put(p, media, bytes)
  {
    assert [media][1..] == [] && [bytes][1..] == [];
  }

  lemma AssembleRich(parts: seq<Part>)
    requires 2 <= |parts| <= 3 && parts[0].media == "text/plain" && parts[1].media == "text/html"
    requires |parts| == 3 ==> parts[2].media == "text/rtf"
    ensures Assembled(NO_PAYLOAD, MediaOf(parts), BytesOf(parts)) ==
              Payload(Some(parts[0].bytes), Some(parts[1].bytes),
                      if |parts| == 3 then Some(parts[2].bytes) else None, None)
  {
    var media, bytes := MediaOf(parts), BytesOf(parts);
    var p1 := Put(NO_PAYLOAD, media[0], bytes[0]);
    var p2 := Put(p1, media[1], bytes[1]);
    assert Assembled(NO_PAYLOAD, media, bytes) == Assembled(p1, media[1..], bytes[1..]);
    assert Assembled(p1, media[1..], bytes[1..]) == Assembled(p2, media[1..][1..], bytes[1..][1..]);
    if |parts| == 3 {
      assert media[1..][1..] == [media[2]] && bytes[1..][1..] == [bytes[2]];
      AssembleOne(p2, media[2], bytes[2]);
    } else {
      assert media[1..][1..] == [] && bytes[1..][1..] == [];
    }
  }

  lemma TypedPartsAreSendable(host: Host, x: Replica)
    requires Typed(host, x) && PartsOf(x).Some? && WithinLimits(PartsOf(x).value)
    ensures Sendable(host, PartsOf(x).value)
  {
  }

  /**
   * Encoding, chunking and receiving: a record within the limits arrives, normalised and with its payload intact,
   * exactly when it is deliverable, and the receiver takes exactly the frames that were sent.
   */
  lemma RoundTrip(host: Host, x: Replica, rest: seq<Bytes>, now: int, later: int)
    requires Typed(host, x) && EncodeRecord(host, x).Some?
    ensures var (w, parts) := EncodeRecord(host, x).value;
            var sent := AllChunks(parts, host.chunk);
            Receive(host, w, sent + rest, now, later) ==
              if Deliverable(x, now, later) then Some((Normalised(host, x), |sent|)) else None
  {
    hide MetaOk, MembershipsOk, AllChunks, ReceiveParts, Assembled, PartsOf, WithinLimits;
    PartsTransfer(x);
    var parts := PartsOf(x).value;
    TypedPartsAreSendable(host, x);
    PartsArrive(host, parts, rest);
    PartsFit(host, x);
    MetadataTrip(x, now, later);
    TextPart(host, x);
  }

  /** The plain text of a received text record is the one sent. */
  lemma TextPart(host: Host, x: Replica)
    requires PartsOf(x).Some?
    ensures x.kind == TextKind && !x.meta.deleted ==>
              (PlainText(Normalised(host, x).payload) == [] <==> x.payload.text == Some([]))
  {
  }

  /** No other bytes have the digest of one of these parts. */
  ghost predicate NoSecondPreimage(host: Host, parts: seq<Part>)
  {
    forall i, b :: 0 <= i < |parts| && host.digest(b) == host.digest(parts[i].bytes) ==> b == parts[i].bytes
  }

  /** Whatever frames follow a record, the only thing a receiver can accept is that record. */
  lemma OnlyTheOriginalArrives(host: Host, x: Replica, frames: seq<Bytes>, now: int, later: int)
    requires EncodeRecord(host, x).Some? && NoSecondPreimage(host, PartsOf(x).value)
    ensures var r := Receive(host, EncodeRecord(host, x).value.0, frames, now, later);
            r.Some? ==> r.value.0 == Normalised(host, x)
  {
    hide MetaOk, MembershipsOk, ReceiveParts, Assembled, PartsOf, WithinLimits, NoSecondPreimage;
    var parts := PartsOf(x).value;
    PartsFit(host, x);
    MetadataTrip(x, now, later);
    SamePartsOnly(host, parts, MediaOf(parts), frames);
  }

  lemma SamePartsOnly(host: Host, parts: seq<Part>, media: seq<string>, frames: seq<Bytes>)
    requires |media| == |parts| && NoSecondPreimage(host, parts)
    ensures var r := ReceiveParts(host, RefsTo(host, parts), media, frames); r.Some? ==> r.value.0 == BytesOf(parts)
  {
    hide ReceiveParts, RefOk;
    PartsAreGenuine(host, RefsTo(host, parts), media, frames);
    var r := ReceiveParts(host, RefsTo(host, parts), media, frames);
    if r.Some? {
      forall i | 0 <= i < |parts| ensures r.value.0[i] == BytesOf(parts)[i] {
        assert RefsTo(host, parts)[i].sha256 == host.digest(r.value.0[i]);
      }
    }
  }

  /** Metadata alone arrives without payload, exactly when it is valid and not live. */
  lemma MetadataOnlyTrip(host: Host, x: Replica, frames: seq<Bytes>, now: int, later: int)
    ensures Receive(host, MetadataToWire(x), frames, now, later) ==
              if Acceptable(MetadataToWire(x), now, later) && !x.meta.live
              then Some((x.(payload := NO_PAYLOAD, labels := [], syntax := 0), 0))
              else None
  {
    hide MetaOk, MembershipsOk;
    MetadataTrip(x, now, later);
  }

  /** One record's whole way: `left` is what remains of the stream behind it. */
  method Transfer(host: Host, x: Replica, behind: seq<Bytes>, now: int, later: int)
    returns (arrived: Option<Replica>, left: seq<Bytes>)
    requires Typed(host, x)
    ensures arrived == if Deliverable(x, now, later) then Some(Normalised(host, x)) else None
    ensures arrived.Some? ==> left == behind
  {
    hide MetaOk, MembershipsOk, AllChunks, PartsOf, WithinLimits, Receive;
    var encoded := EncodeRecord(host, x);
    if encoded == None {
      return None, behind;
    }
    var sent := SendParts(encoded.value.1, host.chunk);
    RoundTrip(host, x, behind, now, later);
    var r := ReceiveRecord(host, encoded.value.0, sent + behind, now, later);
    if r == None {
      return None, behind;
    }
    left := (sent + behind)[r.value.1..];
    assert left == behind;
    arrived := Some(r.value.0);
  }
}
