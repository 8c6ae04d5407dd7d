// Shared vocabulary: options, byte strings, saturating counters and sums.
module Basics {

  datatype Option<+T> = None | Some(value: T)

  type Bytes = seq<bv8>

  const USIZE_MAX := 0xFFFF_FFFF_FFFF_FFFF
  const U64_MAX := 0xFFFF_FFFF_FFFF_FFFF

  function SatAdd(a: nat, b: nat): nat
  {
    if a + b > USIZE_MAX then USIZE_MAX else a + b
  }

  function SatSub(a: nat, b: nat): nat
  {
    if a < b then 0 else a - b
  }

  function Min(a: nat, b: nat): nat
  {
    if a < b then a else b
  }

  /** A map of counters in which an absent key counts zero. */
  function Count<K>(m: map<K, nat>, key: K): nat
  {
    if key in m then m[key] else 0
  }

  /** Subtracts and drops the counter when it reaches zero. */
  function Decrement<K>(m: map<K, nat>, key: K, amount: nat): map<K, nat>
  {
    if key !in m then m
    else if SatSub(m[key], amount) == 0 then m - {key}
    else m[key := SatSub(m[key], amount)]
  }

  /** Sum of all values of a map. */
  ghost function Sum<K>(m: map<K, nat>): nat
    decreases |m|
  {
    if key :| key in m then m[key] + Sum(m - {key}) else 0
  }

  lemma {:induction false} SumRemove<K>(m: map<K, nat>, key: K)
    requires key in m
    ensures Sum(m) == m[key] + Sum(m - {key})
    decreases |m|
  {
    var first :| first in m && Sum(m) == m[first] + Sum(m - {first});
    if first != key {
      SumRemove(m - {first}, key);
      SumRemove(m - {key}, first);
      assert m - {first} - {key} == m - {key} - {first};
    }
  }

  lemma SumInsert<K>(m: map<K, nat>, key: K, value: nat)
    requires key !in m
    ensures Sum(m[key := value]) == Sum(m) + value
    ensures |m[key := value]| == |m| + 1
  {
    SumRemove(m[key := value], key);
    assert m[key := value] - {key} == m;
  }

  lemma SizeRemove<K, V>(m: map<K, V>, key: K)
    requires key in m
    ensures |m - {key}| == |m| - 1
  {
    assert m == (m - {key})[key := m[key]];
    assert (m - {key}).Keys == m.Keys - {key};
  }

  /** A part of a map has no larger sum and no more entries. */
  lemma {:induction false} SumPart<K>(part: map<K, nat>, m: map<K, nat>)
    requires forall key :: key in part ==> key in m && part[key] == m[key]
    ensures Sum(part) <= Sum(m) && |part| <= |m|
    decreases |m|
  {
    if part != map[] {
      var key :| key in part;
      SumRemove(part, key);
      SumRemove(m, key);
      SizeRemove(part, key);
      SizeRemove(m, key);
      SumPart(part - {key}, m - {key});
    }
  }

  /** The elements of `q` that satisfy membership in `keep`, in order. */
  function Filter<T(==)>(q: seq<T>, keep: set<T>): seq<T>
  {
    if q == [] then []
    else Filter(q[..|q| - 1], keep) + (if q[|q| - 1] in keep then [q[|q| - 1]] else [])
  }

  predicate Unique<T(==)>(q: seq<T>)
  {
    forall i, j :: 0 <= i < j < |q| ==> q[i] != q[j]
  }

  lemma {:induction false} FilterIsExact<T>(q: seq<T>, keep: set<T>)
    ensures forall x :: x in Filter(q, keep) <==> x in q && x in keep
    ensures Unique(q) ==> Unique(Filter(q, keep))
  {
    if q != [] {
      FilterIsExact(q[..|q| - 1], keep);
      assert q == q[..|q| - 1] + [q[|q| - 1]];
    }
  }

  /** Filtering keeps the relative order of what it keeps. */
  lemma {:induction false} FilterOrder<T>(q: seq<T>, keep: set<T>, a: nat, b: nat) returns (i: nat, j: nat)
    requires a < b < |q| && q[a] in keep && q[b] in keep
    ensures i < j < |Filter(q, keep)| && Filter(q, keep)[i] == q[a] && Filter(q, keep)[j] == q[b]
  {
    var init := q[..|q| - 1];
    if b < |q| - 1 {
      i, j := FilterOrder(init, keep, a, b);
    } else {
      FilterIsExact(init, keep);
      assert init[a] in Filter(init, keep);
      i :| 0 <= i < |Filter(init, keep)| && Filter(init, keep)[i] == q[a];
      j := |Filter(q, keep)| - 1;
    }
  }

  lemma FilterStep<T>(q: seq<T>, i: nat, keep: set<T>)
    requires i < |q|
    ensures Filter(q[..i + 1], keep) == Filter(q[..i], keep) + (if q[i] in keep then [q[i]] else [])
  {
    assert q[..i + 1][..i] == q[..i];
  }

  lemma {:induction false} FilterSame<T>(q: seq<T>, a: set<T>, b: set<T>)
    requires forall x :: x in q ==> (x in a <==> x in b)
    ensures Filter(q, a) == Filter(q, b)
  {
    if q != [] {
      assert q[|q| - 1] in q;
      FilterSame(q[..|q| - 1], a, b);
    }
  }

  lemma {:induction false} FilterTwice<T>(q: seq<T>, a: set<T>, b: set<T>)
    ensures Filter(Filter(q, a), b) == Filter(q, a * b)
  {
    if q != [] {
      var init, last := q[..|q| - 1], q[|q| - 1];
      FilterTwice(init, a, b);
      if last in a {
        var f := Filter(q, a);
        assert f[..|f| - 1] == Filter(init, a);
      } else {
        assert Filter(q, a) == Filter(init, a);
      }
    }
  }

  lemma OthersDiffer<T>(q: seq<T>, p: nat)
    requires Unique(q) && p < |q|
    ensures forall x :: x in q[..p] || x in q[p + 1..] ==> x in ElementsOf(q) - {q[p]}
  {
    forall x | x in q[..p] || x in q[p + 1..] ensures x in ElementsOf(q) - {q[p]} {
      var i :| 0 <= i < |q| && i != p && q[i] == x;
      assert x != q[p];
    }
  }

  /** Removing one position of a duplicate-free sequence filters its element out. */
  lemma RemoveAtFilters<T>(q: seq<T>, p: nat)
    requires Unique(q) && p < |q|
    ensures q[..p] + q[p + 1..] == Filter(q, ElementsOf(q) - {q[p]})
  {
    hide Filter, Unique;
    var keep := ElementsOf(q) - {q[p]};
    assert q == q[..p + 1] + q[p + 1..];
    FilterConcat(q[..p + 1], q[p + 1..], keep);
    FilterStep(q, p, keep);
    OthersDiffer(q, p);
    FilterAll(q[..p], keep);
    FilterAll(q[p + 1..], keep);
  }

  lemma {:induction false} FilterAll<T>(q: seq<T>, keep: set<T>)
    requires forall x :: x in q ==> x in keep
    ensures Filter(q, keep) == q
  {
    if q != [] {
      assert q[|q| - 1] in q;
      FilterAll(q[..|q| - 1], keep);
      assert q == q[..|q| - 1] + [q[|q| - 1]];
    }
  }

  lemma {:induction false} FilterConcat<T>(p: seq<T>, q: seq<T>, keep: set<T>)
    ensures Filter(p + q, keep) == Filter(p, keep) + Filter(q, keep)
  {
    if q == [] {
      assert p + q == p;
    } else {
      FilterConcat(p, q[..|q| - 1], keep);
      assert (p + q)[..|p + q| - 1] == p + q[..|q| - 1];
    }
  }

  function ElementsOf<T>(q: seq<T>): set<T>
  {
    set x | x in q
  }

  lemma SubsetSize<T>(a: set<T>, b: set<T>)
    requires a <= b
    ensures |a| <= |b|
  {
    assert b == a + (b - a);
  }

  // ---------- Text ----------

  /** Bytes a character takes in UTF-8. */
  function CharBytes(c: char): nat
  {
    if c as int < 0x80 then 1 else if c as int < 0x800 then 2 else if c as int < 0x1_0000 then 3 else 4
  }

  /** Length of a text in UTF-8, which is what string lengths count. */
  function Utf8Len(s: string): nat
  {
    if s == [] then 0 else CharBytes(s[0]) + Utf8Len(s[1..])
  }

  predicate IsControl(c: char)
  {
    c as int < 0x20 || 0x7F <= c as int <= 0x9F
  }

  predicate NoControl(s: string)
  {
    forall i :: 0 <= i < |s| ==> !IsControl(s[i])
  }
}
