// Keys and buttons held by several input sessions at once: reference counts, native state, and event streams.
module InputControls {
  import opened Basics

  datatype Lease = Lease(sessionId: nat, epoch: nat)

  /** The keys, or the buttons, each session holds down. */
  type Pressed = map<Lease, set<nat>>

  function Union(p: Pressed): set<nat>
  {
    set l, x | l in p && x in p[l] :: x
  }

  function Holders(p: Pressed, x: nat): set<Lease>
  {
    set l | l in p && x in p[l]
  }

  /** Every control's counter is the number of sessions holding it; a control nobody holds has none. */
  ghost predicate Exact(p: Pressed, counts: map<nat, nat>)
  {
    (forall x :: Count(counts, x) == |Holders(p, x)|) && (forall x :: x in counts ==> counts[x] > 0)
  }

  lemma HeldIffHolder(p: Pressed, x: nat)
    ensures x in Union(p) <==> |Holders(p, x)| > 0
  {
    if x in Union(p) {
      var l :| l in p && x in p[l];
      assert l in Holders(p, x);
    } else {
      assert Holders(p, x) == {};
    }
  }

  /** A press is the first one exactly when nobody held the control. */
  lemma PressCounts(p: Pressed, counts: map<nat, nat>, l: Lease, x: nat)
    requires Exact(p, counts) && l in p && x !in p[l]
    ensures Exact(p[l := p[l] + {x}], counts[x := Count(counts, x) + 1])
    ensures Count(counts, x) == 0 <==> x !in Union(p)
    ensures Union(p[l := p[l] + {x}]) == Union(p) + {x}
  {
    var p' := p[l := p[l] + {x}];
    assert Holders(p', x) == Holders(p, x) + {l};
    forall y | y != x ensures Holders(p', y) == Holders(p, y) {
    }
    HeldIffHolder(p, x);
    assert x in p'[l];
    forall y ensures y in Union(p') <==> y in Union(p) + {x} {
      if y != x {
        assert Holders(p', y) == Holders(p, y);
        HeldIffHolder(p, y);
        HeldIffHolder(p', y);
      }
    }
  }

  /** A release is the last one exactly when the counter disappears. */
  lemma ReleaseCounts(p: Pressed, counts: map<nat, nat>, l: Lease, x: nat)
    requires Exact(p, counts) && l in p && x in p[l]
    ensures x in counts && x in Union(p)
    ensures Exact(p[l := p[l] - {x}], Decrement(counts, x, 1))
    ensures x !in Decrement(counts, x, 1) <==> x !in Union(p[l := p[l] - {x}])
    ensures Union(p[l := p[l] - {x}]) == if x in Decrement(counts, x, 1) then Union(p) else Union(p) - {x}
  {
    var p', counts' := p[l := p[l] - {x}], Decrement(counts, x, 1);
    assert Holders(p, x) == Holders(p', x) + {l};
    forall y | y != x ensures Holders(p', y) == Holders(p, y) {
    }
    assert Exact(p', counts');
    HeldIffHolder(p', x);
    forall y ensures y in Union(p') <==> y in (if x in counts' then Union(p) else Union(p) - {x}) {
      HeldIffHolder(p, y);
      HeldIffHolder(p', y);
    }
  }

  lemma SameHolders(p: Pressed, p': Pressed, counts: map<nat, nat>)
    requires Exact(p, counts)
    requires forall l ::
               && (l in p && l in p' ==> p[l] == p'[l])
               && (l in p && l !in p' ==> p[l] == {}) && (l in p' && l !in p ==> p'[l] == {})
    ensures Exact(p', counts) && Union(p') == Union(p)
  {
    forall x ensures Holders(p', x) == Holders(p, x) {
    }
    forall x ensures x in Union(p') <==> x in Union(p) {
      HeldIffHolder(p, x);
      HeldIffHolder(p', x);
    }
  }

  // ---------- Events ----------

  /** `Other` stands for motion, scrolling, text and every event without pressed state. */
  datatype Event =
    | Key(usage: nat, down: bool, repeat: bool)
    | Button(button: nat, down: bool, clicks: nat)
    | ReleaseAll
    | Other(body: nat)

  /** What is held down natively, or by one session. */
  datatype Held = Held(keys: set<nat>, buttons: set<nat>)

  const NOTHING := Held({}, {})

  function Play1(h: Held, e: Event): Held
  {
    match e
    case Key(k, down, _) => h.(keys := if down then h.keys + {k} else h.keys - {k})
    case Button(b, down, _) => h.(buttons := if down then h.buttons + {b} else h.buttons - {b})
    case ReleaseAll => NOTHING
    case Other(_) => h
  }

  function Play(h: Held, events: seq<Event>): Held
  {
    if events == [] then h else Play1(Play(h, events[..|events| - 1]), events[|events| - 1])
  }

  /** An event the native side can take at face value: no second press, no release of what is up. */
  predicate Fits(h: Held, e: Event)
  {
    match e
    case Key(k, down, repeat) => if down then k in h.keys ==> repeat else k in h.keys
    case Button(b, down, _) => if down then b !in h.buttons else b in h.buttons
    case ReleaseAll => false
    case Other(_) => true
  }

  predicate Clean(h: Held, events: seq<Event>)
  {
    events == [] || (Clean(h, events[..|events| - 1]) && Fits(Play(h, events[..|events| - 1]), events[|events| - 1]))
  }

  /** A repeated key is down. */
  predicate RepeatFits(h: Held, e: Event)
  {
    e.Key? && e.down && e.repeat ==> e.usage in h.keys
  }

  /** Every repeat in the stream is of a key that is down. */
  predicate ProperRepeats(h: Held, events: seq<Event>)
  {
    events == [] ||
    var init := events[..|events| - 1];
    ProperRepeats(h, init) && RepeatFits(Play(h, init), events[|events| - 1])
  }

  lemma {:induction false} UpsAreProper(h: Held, events: seq<Event>)
    requires forall e :: e in events ==> (e.Key? || e.Button?) && !e.down
    ensures ProperRepeats(h, events)
  {
    if events != [] {
      assert events[|events| - 1] in events;
      UpsAreProper(h, events[..|events| - 1]);
    }
  }

  /** The events without pressed state, in order. */
  function Others(events: seq<Event>): seq<Event>
  {
    if events == [] then []
    else Others(events[..|events| - 1]) + (if events[|events| - 1].Other? then [events[|events| - 1]] else [])
  }

  /**
   * What an event comes out as: itself if it changes what is down natively, from `before` to `after`, or repeats a key
   * its sender holds; a release of everything comes out as single releases.
   */
  ghost predicate Piece(before: Held, held: Held, e: Event, after: Held, out: seq<Event>)
  {
    match e
    case Key(k, down, repeat) => out == if before != after || (down && repeat && k in held.keys) then [e] else []
    case Button(_, _, _) => out == if before != after then [e] else []
    case ReleaseAll =>
      && Clean(before, out) && Play(before, out) == after
      && forall up :: up in out ==> (up.Key? || up.Button?) && !up.down
    case Other(_) => out == [e]
  }

  /** What the events of a client that alone holds `h` come out as, in their order. */
  ghost predicate ComesOut(h: Held, events: seq<Event>, out: seq<Event>)
  {
    if events == [] then out == []
    else
      var init, e := events[..|events| - 1], events[|events| - 1];
      var held := Play(h, init);
      exists k: nat ::
        k <= |out| && ComesOut(h, init, out[..k]) && Piece(held, held, e, Play1(held, e), out[k..])
  }

  lemma PlayOne(h: Held, events: seq<Event>, e: Event)
    ensures Play(h, events + [e]) == Play1(Play(h, events), e)
    ensures Clean(h, events + [e]) <==> Clean(h, events) && Fits(Play(h, events), e)
    ensures ProperRepeats(h, events + [e]) <==> ProperRepeats(h, events) && RepeatFits(Play(h, events), e)
    ensures Others(events + [e]) == Others(events) + (if e.Other? then [e] else [])
  {
    assert (events + [e])[..|events + [e]| - 1] == events;
  }

  lemma {:induction false} PlayAll(h: Held, a: seq<Event>, b: seq<Event>)
    ensures Play(h, a + b) == Play(Play(h, a), b)
    ensures Clean(h, a + b) <==> Clean(h, a) && Clean(Play(h, a), b)
    ensures ProperRepeats(h, a + b) <==> ProperRepeats(h, a) && ProperRepeats(Play(h, a), b)
    ensures Others(a + b) == Others(a) + Others(b)
  {
    if b == [] {
      assert a + b == a;
    } else {
      var init, last := b[..|b| - 1], b[|b| - 1];
      assert b == init + [last];
      assert a + b == (a + init) + [last];
      PlayAll(h, a, init);
      PlayOne(h, a + init, last);
      PlayOne(Play(h, a), init, last);
    }
  }
}
