// Orders the replication protocol compares by: text, (revision, device) pairs and scan cursors.
module Ordering {
  type Text = seq<char>

  /** Lexicographic order by scalar value, which is the byte order of UTF-8 text. */
  predicate TextLt(a: Text, b: Text)
  {
    b != [] && (a == [] || a[0] < b[0] || (a[0] == b[0] && TextLt(a[1..], b[1..])))
  }

  /** The first place where two texts differ decides, and a text precedes its extensions. */
  lemma {:induction false} TextLtByFirst(a: Text, b: Text, k: nat)
    requires k <= |a| && k <= |b| && a[..k] == b[..k]
    ensures k < |a| && k < |b| && a[k] < b[k] ==> TextLt(a, b)
    ensures k < |a| && k < |b| && b[k] < a[k] ==> !TextLt(a, b)
    ensures k == |a| < |b| ==> TextLt(a, b)
    ensures k == |b| ==> !TextLt(a, b)
  {
    if k > 0 {
      assert a[1..][..k - 1] == a[..k][1..] == b[1..][..k - 1];
      assert a[0] == a[..k][0] == b[0];
      TextLtByFirst(a[1..], b[1..], k - 1);
    }
  }

  lemma {:induction false} TextTrichotomy(a: Text, b: Text)
    ensures TextLt(a, b) || a == b || TextLt(b, a)
  {
    if a != [] && b != [] && a[0] == b[0] {
      TextTrichotomy(a[1..], b[1..]);
      assert a == [a[0]] + a[1..] && b == [b[0]] + b[1..];
    }
  }

  lemma {:induction false} TextAsymmetric(a: Text, b: Text)
    requires TextLt(a, b)
    ensures a != b && !TextLt(b, a)
  {
    if a != [] && a[0] == b[0] {
      TextAsymmetric(a[1..], b[1..]);
    }
  }

  lemma {:induction false} TextTransitive(a: Text, b: Text, c: Text)
    requires TextLt(a, b) && TextLt(b, c)
    ensures TextLt(a, c)
  {
    if a != [] && a[0] == b[0] == c[0] {
      TextTransitive(a[1..], b[1..], c[1..]);
    }
  }

  /** A revision and the device that wrote it; the pair is compared lexicographically. */
  datatype Version = Version(revision: nat, device: Text)

  predicate VersionLt(a: Version, b: Version)
  {
    a.revision < b.revision || (a.revision == b.revision && TextLt(a.device, b.device))
  }

  predicate VersionLe(a: Version, b: Version)
  {
    a == b || VersionLt(a, b)
  }

  lemma VersionTotal(a: Version, b: Version)
    ensures VersionLt(a, b) <==> !VersionLe(b, a)
    ensures VersionLe(a, b) && VersionLe(b, a) ==> a == b
  {
    TextTrichotomy(a.device, b.device);
    if VersionLt(a, b) && TextLt(a.device, b.device) {
      TextAsymmetric(a.device, b.device);
    }
    if TextLt(b.device, a.device) {
      TextAsymmetric(b.device, a.device);
    }
    if TextLt(a.device, b.device) {
      TextAsymmetric(a.device, b.device);
    }
  }

  lemma VersionTransitive(a: Version, b: Version, c: Version)
    requires VersionLe(a, b) && VersionLe(b, c)
    ensures VersionLe(a, c)
  {
    if TextLt(a.device, b.device) && TextLt(b.device, c.device) {
      TextTransitive(a.device, b.device, c.device);
    }
  }

  /** Scan position of a record: capture time, then identifier. */
  datatype Cursor = Cursor(capturedAt: int, id: Text)

  predicate CursorLt(a: Cursor, b: Cursor)
  {
    a.capturedAt < b.capturedAt || (a.capturedAt == b.capturedAt && TextLt(a.id, b.id))
  }

  lemma CursorTotal(a: Cursor, b: Cursor)
    ensures CursorLt(a, b) || a == b || CursorLt(b, a)
    ensures CursorLt(a, b) ==> a != b && !CursorLt(b, a)
  {
    TextTrichotomy(a.id, b.id);
    if TextLt(a.id, b.id) {
      TextAsymmetric(a.id, b.id);
    }
  }

  lemma CursorTransitive(a: Cursor, b: Cursor, c: Cursor)
    requires CursorLt(a, b) && CursorLt(b, c)
    ensures CursorLt(a, c)
  {
    if TextLt(a.id, b.id) && TextLt(b.id, c.id) {
      TextTransitive(a.id, b.id, c.id);
    }
  }

  /** `before` orders the elements of `s` strictly and totally. */
  ghost predicate StrictTotalOn<T(!new)>(before: (T, T) -> bool, s: set<T>)
  {
    && (forall x, y :: x in s && y in s && before(x, y) ==> x != y && !before(y, x))
    && (forall x, y :: x in s && y in s ==> before(x, y) || x == y || before(y, x))
    && (forall x, y, z :: x in s && y in s && z in s && before(x, y) && before(y, z) ==> before(x, z))
  }

  ghost predicate IsFirst<T(!new)>(first: T, s: set<T>, before: (T, T) -> bool)
  {
    first in s && forall y :: y in s && y != first ==> before(first, y)
  }

  lemma {:induction false} FirstExists<T(!new)>(s: set<T>, before: (T, T) -> bool) returns (first: T)
    requires s != {} && StrictTotalOn(before, s)
    ensures IsFirst(first, s, before)
    decreases s
  {
    var x :| x in s;
    var others := s - {x};
    if others == {} {
      assert s == {x};
      first := x;
    } else {
      assert StrictTotalOn(before, others);
      var rest := FirstExists(others, before);
      if before(x, rest) {
        first := x;
        forall y | y in s && y != x ensures before(x, y) {
          assert y in others;
          if y != rest {
            assert before(rest, y);
          }
        }
      } else {
        first := rest;
        forall y | y in s && y != rest ensures before(rest, y) {
          if y != x {
            assert y in others;
          }
        }
      }
    }
  }

  /** The elements of `s` from first to last under `before`. */
  ghost function Sorted<T(!new)>(s: set<T>, before: (T, T) -> bool): seq<T>
    decreases s
  {
    if first :| IsFirst(first, s, before) then [first] + Sorted(s - {first}, before) else []
  }

  /** `q` lists exactly `s`, in order and, `before` being irreflexive, without repetition. */
  ghost predicate Enumerates<T(!new)>(q: seq<T>, s: set<T>, before: (T, T) -> bool)
  {
    && (forall x :: x in q <==> x in s)
    && (forall i, j :: 0 <= i < j < |q| ==> before(q[i], q[j]))
    && (forall x :: x in s ==> !before(x, x))
  }

  lemma {:induction false} SortedEnumerates<T(!new)>(s: set<T>, before: (T, T) -> bool)
    requires StrictTotalOn(before, s)
    ensures Enumerates(Sorted(s, before), s, before)
    ensures |Sorted(s, before)| == |s|
    decreases s
  {
    if s != {} {
      var _ := FirstExists(s, before);
      var q := Sorted(s, before);
      var head := q[0];
      assert IsFirst(head, s, before) && q == [head] + Sorted(s - {head}, before);
      assert StrictTotalOn(before, s - {head});
      SortedEnumerates(s - {head}, before);
    }
  }

  lemma EnumeratesTail<T(!new)>(q: seq<T>, s: set<T>, before: (T, T) -> bool)
    requires q != [] && Enumerates(q, s, before)
    ensures IsFirst(q[0], s, before)
    ensures Enumerates(q[1..], s - {q[0]}, before)
  {
    var head, tail := q[0], q[1..];
    assert head in q;
    forall y | y in s && y != head ensures before(head, y) {
      assert y in q;
    }
    forall x ensures x in tail <==> x in s - {head} {
      assert x in q <==> x == head || x in tail;
      if x in tail {
        var k :| 0 <= k < |tail| && tail[k] == x;
        assert before(q[0], q[k + 1]);
      }
    }
    forall i, j | 0 <= i < j < |tail| ensures before(tail[i], tail[j]) {
      assert tail[i] == q[i + 1] && tail[j] == q[j + 1];
    }
  }

  lemma {:induction false} EnumerationUnique<T(!new)>(p: seq<T>, q: seq<T>, s: set<T>, before: (T, T) -> bool)
    requires Enumerates(p, s, before) && Enumerates(q, s, before)
    requires forall x, y :: x in s && y in s && before(x, y) ==> !before(y, x)
    ensures p == q
    decreases |p|
  {
    assert p == [] || p[0] in s;
    assert q == [] || q[0] in s;
    if p != [] && q != [] {
      EnumeratesTail(p, s, before);
      EnumeratesTail(q, s, before);
      assert p[0] == q[0];
      EnumerationUnique(p[1..], q[1..], s - {p[0]}, before);
      assert p == [p[0]] + p[1..] && q == [q[0]] + q[1..];
    }
  }

  /** What `Sorted` promises determines it. */
  lemma SortedUnique<T(!new)>(s: set<T>, before: (T, T) -> bool, q: seq<T>)
    requires StrictTotalOn(before, s)
    requires Enumerates(q, s, before)
    ensures q == Sorted(s, before)
  {
    SortedEnumerates(s, before);
    EnumerationUnique(q, Sorted(s, before), s, before);
  }

  lemma SortedHead<T(!new)>(s: set<T>, before: (T, T) -> bool, head: T)
    requires StrictTotalOn(before, s) && IsFirst(head, s, before)
    ensures Sorted(s, before) == [head] + Sorted(s - {head}, before)
  {
    SortedEnumerates(s, before);
    var q := Sorted(s, before);
    EnumeratesTail(q, s, before);
    SortedUnique(s - {q[0]}, before, q[1..]);
  }

  lemma EnumerationSuffix<T(!new)>(q: seq<T>, s: set<T>, before: (T, T) -> bool, k: nat, rest: set<T>)
    requires Enumerates(q, s, before) && k < |q|
    requires forall x, y :: x in s && y in s && before(x, y) ==> !before(y, x)
    requires forall x :: x in rest <==> x in s && before(q[k], x)
    ensures Enumerates(q[k + 1..], rest, before)
  {
    var tail := q[k + 1..];
    assert q[k] in q;
    forall x ensures x in tail <==> x in rest {
      if x in tail {
        var j :| 0 <= j < |tail| && tail[j] == x;
        assert before(q[k], q[k + 1 + j]) && q[k + 1 + j] in q;
      }
      if x in rest {
        assert x in q;
        var j :| 0 <= j < |q| && q[j] == x;
        assert k < j;
        assert tail[j - k - 1] == x;
      }
    }
    forall i, j | 0 <= i < j < |tail| ensures before(tail[i], tail[j]) {
      assert tail[i] == q[k + 1 + i] && tail[j] == q[k + 1 + j];
    }
  }

  /** Restarting after the k-th element continues the same sequence. */
  lemma SortedResume<T(!new)>(s: set<T>, before: (T, T) -> bool, k: nat, rest: set<T>)
    requires StrictTotalOn(before, s)
    requires k < |Sorted(s, before)|
    requires forall x :: x in rest <==> x in s && before(Sorted(s, before)[k], x)
    ensures Sorted(rest, before) == Sorted(s, before)[k + 1..]
  {
    SortedEnumerates(s, before);
    var q := Sorted(s, before);
    EnumerationSuffix(q, s, before, k, rest);
    assert StrictTotalOn(before, rest);
    SortedUnique(rest, before, q[k + 1..]);
  }

  method PickFirst<T(!new, ==)>(s: set<T>, before: (T, T) -> bool) returns (first: T)
    requires s != {} && StrictTotalOn(before, s)
    ensures first in s && Sorted(s, before) == [first] + Sorted(s - {first}, before)
    ensures StrictTotalOn(before, s - {first})
  {
    ghost var witnessed := FirstExists(s, before);
    first :| first in s && forall y :: y in s && y != first ==> before(first, y);
    SortedHead(s, before, first);
  }

  /** The first `limit` elements of `s` in order. */
  method TakeFirst<T(!new, ==)>(s: set<T>, before: (T, T) -> bool, limit: nat) returns (q: seq<T>)
    requires StrictTotalOn(before, s)
    ensures q <= Sorted(s, before) && |Sorted(s, before)| == |s|
    ensures |q| == if |s| <= limit then |s| else limit
  {
    hide StrictTotalOn, Sorted, Enumerates;
    SortedEnumerates(s, before);
    var rest := s;
    q := [];
    while rest != {} && |q| < limit
      invariant |q| <= limit && |q| + |rest| == |s|
      invariant StrictTotalOn(before, rest)
      invariant Sorted(s, before) == q + Sorted(rest, before)
      decreases |rest|
    {
      var first := PickFirst(rest, before);
      assert q + Sorted(rest, before) == (q + [first]) + Sorted(rest - {first}, before);
      q := q + [first];
      rest := rest - {first};
    }
    SortedEnumerates(rest, before);
  }
}
