// Input sessions: one controlling lease at a time, ordered and rate-limited frames, cumulative motion,
// and reference-counted keys and buttons.
module InputSession {
  import opened Basics
  import opened InputControls

  const INPUT_LEASE_TIMEOUT := 5_000 // milliseconds
  const RATE_WINDOW := 1_000 // milliseconds
  const MAX_RELIABLE_FRAMES_PER_SECOND := 240
  const MAX_POINTER_DELTA := 8192 * 256
  const MAX_SCROLL_DELTA := 2048 * 256
  const I64_MIN := -0x8000_0000_0000_0000
  const I64_MAX := 0x7FFF_FFFF_FFFF_FFFF

  datatype Refusal =
    | AlreadyControlled(device: string, epoch: nat)
    | NotActive
    | Mismatch
    | LeaseExpired
    | OutOfOrder
    | ClockBackwards
    | RateLimited
    | TotalOverflow
    | DeltaTooLarge

  datatype Outcome<+T> = Ok(value: T) | Refused(refusal: Refusal)

  /** Pointer and scroll positions, in 1/256 units, or their changes. */
  datatype Motion = Motion(pointerX: int, pointerY: int, scrollX: int, scrollY: int)

  datatype Session = Session(
    device: string, lastActivity: nat, sequence: nat, elapsedUs: nat, frames: seq<nat>, totals: Motion, held: Held,
    routed: bool)

  type Sessions = map<Lease, Session>

  // ---------- Reliable frames ----------

  /** The frame times that are still inside the window at `now`. */
  function Recent(frames: seq<nat>, now: nat): seq<nat>
  {
    if frames != [] && frames[0] + RATE_WINDOW <= now then Recent(frames[1..], now) else frames
  }

  /** How a session answers a frame; a rate-limited frame still forgets the frames that left the window. */
  function AcceptFrame(s: Session, device: string, sequence: nat, elapsedUs: nat, checkedAt: nat, now: nat)
    : (Session, Option<Refusal>)
  {
    if s.device != device then (s, Some(Mismatch))
    else if s.lastActivity + INPUT_LEASE_TIMEOUT <= checkedAt then (s, Some(LeaseExpired))
    else if sequence != SatAdd(s.sequence, 1) then (s, Some(OutOfOrder))
    else if elapsedUs < s.elapsedUs then (s, Some(ClockBackwards))
    else
      var frames := Recent(s.frames, now);
      if |frames| >= MAX_RELIABLE_FRAMES_PER_SECOND then (s.(frames := frames), Some(RateLimited))
      else (s.(frames := frames + [now], sequence := sequence, elapsedUs := elapsedUs, lastActivity := now), None)
  }

  ghost predicate Ascending(times: seq<nat>)
  {
    forall i, j :: 0 <= i <= j < |times| ==> times[i] <= times[j]
  }

  /** Any frame comes at least a window after those 240 or more before it. */
  ghost predicate Spaced(times: seq<nat>)
  {
    forall i, j :: 0 <= i && i + MAX_RELIABLE_FRAMES_PER_SECOND <= j < |times| ==> times[i] + RATE_WINDOW <= times[j]
  }

  /** `times` are the moments of all frames the session accepted so far. */
  ghost predicate Recorded(s: Session, times: seq<nat>, clock: nat)
  {
    && s.sequence == Min(|times|, U64_MAX)
    && Ascending(times) && Spaced(times) && (times != [] ==> times[|times| - 1] <= clock)
    && |s.frames| <= |times| && s.frames == times[|times| - |s.frames|..]
    && (|s.frames| < |times| ==> times[|times| - |s.frames| - 1] + RATE_WINDOW <= clock)
  }

  lemma {:induction false} RecentIsSuffix(frames: seq<nat>, now: nat)
    requires Ascending(frames)
    ensures |Recent(frames, now)| <= |frames| && Recent(frames, now) == frames[|frames| - |Recent(frames, now)|..]
    ensures forall i :: 0 <= i < |frames| - |Recent(frames, now)| ==> frames[i] + RATE_WINDOW <= now
    ensures forall i :: |frames| - |Recent(frames, now)| <= i < |frames| ==> now < frames[i] + RATE_WINDOW
  {
    if frames != [] && frames[0] + RATE_WINDOW <= now {
      RecentIsSuffix(frames[1..], now);
      var n := |Recent(frames, now)|;
      assert frames[1..][|frames| - 1 - n..] == frames[|frames| - n..];
      forall i | 0 <= i < |frames| - n ensures frames[i] + RATE_WINDOW <= now {
        if i > 0 {
          assert frames[i] == frames[1..][i - 1];
        }
      }
      forall i | |frames| - n <= i < |frames| ensures now < frames[i] + RATE_WINDOW {
        assert frames[i] == frames[1..][i - 1];
      }
    } else {
      assert frames[0..] == frames;
    }
  }

  /** Forgetting old frames loses nothing that counts: what stays is exactly the accepted frames inside the window. */
  lemma RecentOfRecorded(s: Session, times: seq<nat>, clock: nat, now: nat)
    requires Recorded(s, times, clock) && clock <= now
    ensures Recorded(s.(frames := Recent(s.frames, now)), times, now) && |Recent(s.frames, now)| <= |times|
    ensures s.sequence == Min(|times|, U64_MAX)
    ensures forall i :: 0 <= i < |times| ==> (now < times[i] + RATE_WINDOW <==> i >= |times| - |Recent(s.frames, now)|)
  {
    hide Recent, Spaced, Ascending;
    InWindow(times, |s.frames|, clock, now);
    var m := |Recent(s.frames, now)|;
    if m < |times| {
      assert !(now < times[|times| - m - 1] + RATE_WINDOW);
    }
  }

  lemma InWindow(times: seq<nat>, n: nat, clock: nat, now: nat)
    requires Ascending(times) && n <= |times| && clock <= now
    requires n < |times| ==> times[|times| - n - 1] + RATE_WINDOW <= clock
    ensures var recent := Recent(times[|times| - n..], now);
            && |recent| <= n && recent == times[|times| - |recent|..]
            && forall i :: 0 <= i < |times| ==> (now < times[i] + RATE_WINDOW <==> i >= |times| - |recent|)
  {
    hide Recent;
    var frames := times[|times| - n..];
    var m := |Recent(frames, now)|;
    SuffixAscends(times, n);
    RecentIsSuffix(frames, now);
    SuffixOfSuffix(times, n, m);
    forall i | 0 <= i < |times| ensures now < times[i] + RATE_WINDOW <==> i >= |times| - m {
      if i >= |times| - n {
        assert times[i] == frames[i - (|times| - n)];
      } else {
        assert times[i] <= times[|times| - n - 1];
      }
    }
  }

  lemma SuffixAscends(times: seq<nat>, n: nat)
    requires Ascending(times) && n <= |times|
    ensures Ascending(times[|times| - n..])
  {
  }

  lemma SuffixOfSuffix(times: seq<nat>, n: nat, m: nat)
    requires m <= n <= |times|
    ensures times[|times| - n..][n - m..] == times[|times| - m..]
  {
  }

  /**
   * A frame that is in order, in time and from the owner is refused exactly when 240 accepted frames lie within the
   * last second; an accepted one is the next in sequence and keeps the spacing.
   */
  lemma FramesAreOrderedAndSpaced(s: Session, times: seq<nat>, clock: nat, device: string, sequence: nat,
                                  elapsedUs: nat, checkedAt: nat, now: nat)
    requires Recorded(s, times, clock) && clock <= checkedAt <= now
    ensures var (s', refusal) := AcceptFrame(s, device, sequence, elapsedUs, checkedAt, now);
            && (refusal == None ==> Recorded(s', times + [now], now) && sequence == Min(|times| + 1, U64_MAX))
            && (refusal != None ==> Recorded(s', times, now))
            && (refusal == Some(RateLimited) ==>
                  |times| >= 240 && now < times[|times| - 240] + RATE_WINDOW)
            && (refusal == None && |times| >= 240 ==> times[|times| - 240] + RATE_WINDOW <= now)
  {
    hide Recorded, Recent;
    RecentOfRecorded(s, times, clock, now);
    var frames := Recent(s.frames, now);
    var (s', refusal) := AcceptFrame(s, device, sequence, elapsedUs, checkedAt, now);
    if refusal == None {
      AcceptKeepsRecorded(s.(frames := frames), times, now, s');
    } else if refusal != Some(RateLimited) {
      RecordedLater(s, times, clock, now);
    }
  }

  /** The frames accepted within the second before `now`. */
  ghost function WithinSecond(times: seq<nat>, now: nat): set<nat>
  {
    set i: nat | i < |times| && now < times[i] + 1_000
  }

  lemma {:induction false} RangeSize(range: set<nat>, low: nat, high: nat)
    requires low <= high && forall i: nat :: i in range <==> low <= i < high
    ensures |range| == high - low
    decreases high
  {
    if low < high {
      RangeSize(range - {high - 1}, low, high - 1);
    } else {
      assert range == {};
    }
  }

  /** The deque has as many frames as were accepted within the last second. */
  lemma RecentCounts(s: Session, times: seq<nat>, clock: nat, now: nat)
    requires Recorded(s, times, clock) && clock <= now
    ensures |Recent(s.frames, now)| == |WithinSecond(times, now)|
  {
    hide Recorded, Recent;
    RecentOfRecorded(s, times, clock, now);
    RangeSize(WithinSecond(times, now), |times| - |Recent(s.frames, now)|, |times|);
  }

  /**
   * A frame is accepted if and only if it comes from the owner, within five seconds of the last activity, under the
   * next number, with a client clock that does not go back, and after fewer than 240 frames in the last second; the
   * first of these that fails is the reason it is refused.
   */
  lemma FramesAreJudged(s: Session, times: seq<nat>, clock: nat, device: string, sequence: nat, elapsedUs: nat,
                        checkedAt: nat, now: nat)
    requires Recorded(s, times, clock) && clock <= checkedAt <= now
    ensures var (s', refusal) := AcceptFrame(s, device, sequence, elapsedUs, checkedAt, now);
            && refusal == (if s.device != device then Some(Mismatch)
                           else if s.lastActivity + 5_000 <= checkedAt then Some(LeaseExpired)
                           else if sequence != Min(|times| + 1, U64_MAX) then Some(OutOfOrder)
                           else if elapsedUs < s.elapsedUs then Some(ClockBackwards)
                           else if |WithinSecond(times, now)| >= 240 then Some(RateLimited)
                           else None)
            && s' == s.(frames := s'.frames, sequence := s'.sequence, elapsedUs := s'.elapsedUs,
                        lastActivity := s'.lastActivity)
            && s'.lastActivity == (if refusal == None then now else s.lastActivity)
            && s'.elapsedUs == (if refusal == None then elapsedUs else s.elapsedUs)
  {
    hide Recent, WithinSecond;
    RecentCounts(s, times, clock, now);
  }

  lemma RecordedLater(s: Session, times: seq<nat>, clock: nat, now: nat)
    requires Recorded(s, times, clock) && clock <= now
    ensures Recorded(s, times, now)
  {
  }

  lemma AcceptKeepsRecorded(s: Session, times: seq<nat>, now: nat, s': Session)
    requires Recorded(s, times, now) && |s.frames| < MAX_RELIABLE_FRAMES_PER_SECOND
    requires s'.frames == s.frames + [now] && s'.sequence == SatAdd(s.sequence, 1)
    ensures Recorded(s', times + [now], now)
  {
    AppendSpaced(times, now, |s.frames|);
    AppendSuffix(times, s.frames, now);
    hide Ascending, Spaced;
    var n := |s.frames|;
    if n < |times| {
      assert (times + [now])[|times| - n - 1] == times[|times| - n - 1];
    }
  }

  lemma AppendSuffix(times: seq<nat>, frames: seq<nat>, now: nat)
    requires |frames| <= |times| && frames == times[|times| - |frames|..]
    ensures frames + [now] == (times + [now])[|times| - |frames|..]
  {
  }

  lemma AppendSpaced(times: seq<nat>, now: nat, n: nat)
    requires Ascending(times) && Spaced(times) && (times != [] ==> times[|times| - 1] <= now)
             && n < MAX_RELIABLE_FRAMES_PER_SECOND
    requires n < |times| ==> times[|times| - n - 1] + RATE_WINDOW <= now
    ensures Ascending(times + [now]) && Spaced(times + [now])
  {
    var all := times + [now];
    forall i, j | 0 <= i && i + MAX_RELIABLE_FRAMES_PER_SECOND <= j < |all| ensures all[i] + RATE_WINDOW <= all[j] {
      if j == |times| {
        assert times[i] <= times[|times| - n - 1];
      }
    }
  }

  /** `stamps` are the client's clock readings in all frames the session accepted so far. */
  ghost predicate Stamped(s: Session, stamps: seq<nat>)
  {
    Ascending(stamps) && (stamps != [] ==> stamps[|stamps| - 1] == s.elapsedUs)
  }

  lemma FramesAreStamped(s: Session, stamps: seq<nat>, device: string, sequence: nat, elapsedUs: nat, checkedAt: nat,
                         now: nat)
    requires Stamped(s, stamps)
    ensures var (s', refusal) := AcceptFrame(s, device, sequence, elapsedUs, checkedAt, now);
            Stamped(s', if refusal == None then stamps + [elapsedUs] else stamps)
  {
  }

  // ---------- Motion ----------

  function Abs(x: int): nat
  {
    if x < 0 then -x else x
  }

  function Plus(a: Motion, b: Motion): Motion
  {
    Motion(a.pointerX + b.pointerX, a.pointerY + b.pointerY, a.scrollX + b.scrollX, a.scrollY + b.scrollY)
  }

  function Minus(a: Motion, b: Motion): Motion
  {
    Motion(a.pointerX - b.pointerX, a.pointerY - b.pointerY, a.scrollX - b.scrollX, a.scrollY - b.scrollY)
  }

  /** Every component fits a signed 64-bit integer. */
  predicate InRange(m: Motion)
  {
    && I64_MIN <= m.pointerX <= I64_MAX && I64_MIN <= m.pointerY <= I64_MAX
    && I64_MIN <= m.scrollX <= I64_MAX && I64_MIN <= m.scrollY <= I64_MAX
  }

  /** A change within the protocol's limits. */
  predicate Deliverable(delta: Motion)
  {
    && Abs(delta.pointerX) <= MAX_POINTER_DELTA && Abs(delta.pointerY) <= MAX_POINTER_DELTA
    && Abs(delta.scrollX) <= MAX_SCROLL_DELTA && Abs(delta.scrollY) <= MAX_SCROLL_DELTA
  }

  function Pow2(e: nat): nat
  {
    if e == 0 then 1 else 2 * Pow2(e - 1)
  }

  /** A finite binary32 value: a 24-bit significand over a power of two. */
  ghost predicate IsFloat32(x: real)
  {
    exists m: int, e: nat :: Float32Form(x, m, e)
  }

  predicate Float32Form(x: real, m: int, e: nat)
  {
    Abs(m) < 0x100_0000 && e <= 149 && x * (Pow2(e) as real) == m as real
  }

  /** A deliverable change and its 256th part convert to binary32 without rounding. */
  lemma DeltaIsExactInFloat32(delta: Motion)
    requires Deliverable(delta)
    ensures IsFloat32(delta.pointerX as real) && IsFloat32(delta.pointerX as real / 256.0)
    ensures IsFloat32(delta.pointerY as real) && IsFloat32(delta.pointerY as real / 256.0)
    ensures IsFloat32(delta.scrollX as real) && IsFloat32(delta.scrollX as real / 256.0)
    ensures IsFloat32(delta.scrollY as real) && IsFloat32(delta.scrollY as real / 256.0)
  {
    SmallIsExact(delta.pointerX);
    SmallIsExact(delta.pointerY);
    SmallIsExact(delta.scrollX);
    SmallIsExact(delta.scrollY);
  }

  lemma SmallIsExact(x: int)
    requires Abs(x) < 0x100_0000
    ensures IsFloat32(x as real) && IsFloat32(x as real / 256.0)
  {
    assert Pow2(0) == 1;
    assert Pow2(4) == 16;
    assert Pow2(8) == 256;
    assert Float32Form(x as real, x, 0);
    assert Float32Form(x as real / 256.0, x, 8);
  }
}
