/** Sequence helpers standing in for the Python list operations the timetabler uses:
    `list.remove` (first occurrence only), `list(set(...))` and membership filters. */
module Seqs {

  datatype Option<T> = None | Some(value: T)

  /** No element occurs twice. */
  predicate NoDup<T(==)>(s: seq<T>) {
    forall p, q :: 0 <= p < q < |s| ==> s[p] != s[q]
  }

  /** The set of elements of a sequence. */
  function Elems<T>(s: seq<T>): set<T> {
    set x | x in s
  }

  /** Python's `list.remove(x)` when `x` is present: drops the first occurrence only;
      an absent `x` leaves the list as it is (callers test membership first). */
  function RemoveFirst<T(==)>(s: seq<T>, x: T): (r: seq<T>)
    ensures x !in s ==> r == s
    ensures x in s ==> |r| == |s| - 1
    ensures forall y :: y in r ==> y in s
    ensures forall y :: y in s && y != x ==> y in r
    ensures NoDup(s) ==> NoDup(r) && x !in r
    ensures forall k :: 0 <= k < |s| && s[k] == x && x !in s[..k] ==> r == s[..k] + s[k + 1..]
  {
    match IndexOf(s, x)
    case None => s
    case Some(k) =>
      DropAt(s, k);
      FirstOccurrenceUnique(s, k);
      s[..k] + s[k + 1..]
  }

  /** Dropping position `k` keeps every other element and nothing new; from a duplicate-free
      list it drops the element for good. */
  lemma DropAt<T>(s: seq<T>, k: nat)
    requires k < |s|
    ensures forall y :: y in s[..k] + s[k + 1..] ==> y in s
    ensures forall j :: 0 <= j < |s| && j != k ==> s[j] in s[..k] + s[k + 1..]
    ensures NoDup(s) ==> NoDup(s[..k] + s[k + 1..]) && s[k] !in s[..k] + s[k + 1..]
  {
    var r := s[..k] + s[k + 1..];
    assert forall j :: 0 <= j < |r| ==> r[j] == if j < k then s[j] else s[j + 1];
    forall j | 0 <= j < |s| && j != k ensures s[j] in r {
      if j < k {
        assert r[j] == s[j];
      } else {
        assert r[j - 1] == s[j];
      }
    }
    if NoDup(s) {
      forall a, b | 0 <= a < b < |r| ensures r[a] != r[b] {
      }
    }
  }

  /** Only one position holds the first occurrence of its element. */
  lemma FirstOccurrenceUnique<T>(s: seq<T>, k: nat)
    requires k < |s| && s[k] !in s[..k]
    ensures forall q :: 0 <= q < |s| && s[q] == s[k] && s[k] !in s[..q] ==> q == k
  {
  }

  /** A sequence is duplicate-free iff its head is not repeated and its tail is duplicate-free. */
  lemma NoDupCons<T>(s: seq<T>)
    requires s != []
    ensures NoDup(s) <==> s[0] !in s[1..] && NoDup(s[1..])
  {
    if s[0] !in s[1..] && NoDup(s[1..]) {
      forall p, q | 0 <= p < q < |s| ensures s[p] != s[q] {
        if p == 0 {
          assert s[q] == s[1..][q - 1];
        } else {
          assert s[p] == s[1..][p - 1] && s[q] == s[1..][q - 1];
        }
      }
    }
    if NoDup(s) {
      forall p, q | 0 <= p < q < |s[1..]| ensures s[1..][p] != s[1..][q] {
        assert s[1..][p] == s[p + 1] && s[1..][q] == s[q + 1];
      }
    }
  }

  /** `list(set(s))`: one copy of every element, kept at its first occurrence. */
  function Dedup<T(==)>(s: seq<T>): (r: seq<T>)
    ensures NoDup(r)
    ensures forall x :: x in r ==> x in s
    ensures forall x :: x in s ==> x in r
    ensures |r| <= |s|
    ensures NoDup(s) ==> r == s
  {
    if s == [] then []
    else
      var prefix := Dedup(s[..|s| - 1]);
      var last := s[|s| - 1];
      assert forall x :: x in s ==> x in s[..|s| - 1] || x == last;
      if last in prefix then prefix else prefix + [last]
  }

  /** The elements of `s` that are not in `gone`, in their original order
      (a list comprehension `[t for t in s if t not in gone]`). */
  function Without<T(==)>(s: seq<T>, gone: set<T>): (r: seq<T>)
    ensures forall x :: x in r ==> x in s && x !in gone
    ensures forall x :: x in s && x !in gone ==> x in r
    ensures |r| <= |s|
    ensures NoDup(s) ==> NoDup(r)
  {
    if s == [] then []
    else if s[0] in gone then Without(s[1..], gone)
    else [s[0]] + Without(s[1..], gone)
  }

  /** Removing the first occurrence of `x` from a duplicate-free filtered list
      is the same as filtering `x` out as well. */
  lemma {:induction false} RemoveFirstWithout<T>(s: seq<T>, gone: set<T>, x: T)
    requires NoDup(s)
    ensures RemoveFirst(Without(s, gone), x) == Without(s, gone + {x})
  {
    if s != [] {
      NoDupCons(s);
      RemoveFirstWithout(s[1..], gone, x);
      if s[0] in gone {
      } else if s[0] == x {
        assert x !in Without(s[1..], gone);
        assert Without(s[1..], gone + {x}) == Without(s[1..], gone) by {
          WithoutAbsent(s[1..], gone, x);
        }
      } else {
      }
    }
  }

  /** Adding an element that does not occur to the removed set changes nothing. */
  lemma {:induction false} WithoutAbsent<T>(s: seq<T>, gone: set<T>, x: T)
    requires x !in s
    ensures Without(s, gone + {x}) == Without(s, gone)
  {
    if s != [] {
      WithoutAbsent(s[1..], gone, x);
    }
  }

  /** `if x not in xs: xs.append(x)`: the list afterwards holds `x`, and nothing else new. */
  function AddIfAbsent<T(==)>(xs: seq<T>, x: T): (ys: seq<T>)
    ensures x in ys
    ensures Elems(ys) == Elems(xs) + {x}
    ensures x in xs ==> ys == xs
    ensures |xs| <= |ys| <= |xs| + 1 && ys[..|xs|] == xs
    ensures NoDup(xs) ==> NoDup(ys)
  {
    if x in xs then xs else xs + [x]
  }

  /** Removing what was just appended gives the list back. */
  lemma {:induction false} RemoveFirstAppended<T>(xs: seq<T>, x: T)
    requires x !in xs
    ensures RemoveFirst(xs + [x], x) == xs
  {
    if xs != [] {
      assert (xs + [x])[1..] == xs[1..] + [x];
      RemoveFirstAppended(xs[1..], x);
    }
  }

  /** `xs.index(x)`: the position of the first occurrence, `None` where Python raises
      ValueError. */
  function IndexOf<T(==)>(xs: seq<T>, x: T): (k: Option<nat>)
    ensures k.Some? ==> k.value < |xs| && xs[k.value] == x && x !in xs[..k.value]
    ensures k.None? <==> x !in xs
  {
    if xs == [] then None
    else if xs[0] == x then Some(0)
    else match IndexOf(xs[1..], x)
      case None => None
      case Some(p) =>
        assert xs[..p + 1] == [xs[0]] + xs[1..][..p];
        Some(p + 1)
  }

  /** A duplicate-free list has as many elements as distinct values. */
  lemma {:induction false} NoDupCardinality<T>(s: seq<T>)
    requires NoDup(s)
    ensures |Elems(s)| == |s|
  {
    if s != [] {
      NoDupCons(s);
      NoDupCardinality(s[1..]);
      assert Elems(s) == Elems(s[1..]) + {s[0]};
    }
  }

  /** `[f(x) for x in xs]` */
  function MapSeq<X, Y>(xs: seq<X>, f: X -> Y): (ys: seq<Y>)
    ensures |ys| == |xs|
  {
    if xs == [] then [] else MapSeq(xs[..|xs| - 1], f) + [f(xs[|xs| - 1])]
  }

  /** Position `p` of the mapped list holds the image of position `p`. (A lemma rather than
      a postcondition of MapSeq, so that the solver meets it only where a proof asks.) */
  lemma {:induction false} MapSeqAt<X, Y>(xs: seq<X>, f: X -> Y, p: int)
    requires 0 <= p < |xs|
    ensures MapSeq(xs, f)[p] == f(xs[p])
  {
    var n := |xs| - 1;
    if p < n {
      MapSeqAt(xs[..n], f, p);
    }
  }

  /** `[x for x in xs if keep(x)]`, built from the back as a loop appends. */
  function Keep<X>(xs: seq<X>, keep: X -> bool): (ys: seq<X>)
    ensures |ys| <= |xs|
  {
    if xs == [] then []
    else
      var prefix := Keep(xs[..|xs| - 1], keep);
      var last := xs[|xs| - 1];
      if keep(last) then prefix + [last] else prefix
  }

  /** The kept list holds exactly the elements that pass the test, and repeats none when the
      input repeats none. (A lemma rather than postconditions of Keep, so that the solver
      meets these quantifiers only where a proof asks.) */
  lemma {:induction false} KeepMembers<X>(xs: seq<X>, keep: X -> bool)
    ensures forall x :: x in Keep(xs, keep) <==> x in xs && keep(x)
    ensures NoDup(xs) ==> NoDup(Keep(xs, keep))
  {
    if xs != [] {
      var n := |xs| - 1;
      KeepMembers(xs[..n], keep);
      assert xs == xs[..n] + [xs[n]];
      assert forall x :: x in xs <==> x in xs[..n] || x == xs[n];
    }
  }

  /** A dictionary filled by `m[key(x)] = val(x)` for every `x` of `xs` in turn. Every key
      written is present. */
  function Tabulate<X, K, V>(xs: seq<X>, key: X -> K, val: X -> V): (m: map<K, V>)
    ensures forall p :: 0 <= p < |xs| ==> key(xs[p]) in m
  {
    if xs == [] then map[]
    else
      var n := |xs| - 1;
      assert forall p :: 0 <= p < n ==> xs[..n][p] == xs[p];
      Tabulate(xs[..n], key, val)[key(xs[n]) := val(xs[n])]
  }

  /** Every key of a tabulation was written, by some element whose value it holds. */
  lemma {:induction false} TabulateFrom<X, K, V>(xs: seq<X>, key: X -> K, val: X -> V, k: K)
    requires k in Tabulate(xs, key, val)
    ensures exists p :: 0 <= p < |xs| && key(xs[p]) == k && Tabulate(xs, key, val)[k] == val(xs[p])
  {
    var n := |xs| - 1;
    if key(xs[n]) != k {
      TabulateFrom(xs[..n], key, val, k);
      var p :| 0 <= p < n && key(xs[..n][p]) == k && Tabulate(xs[..n], key, val)[k] == val(xs[..n][p]);
      assert xs[..n][p] == xs[p];
    }
  }

  /** Last write wins: the element written last under a key gives its value. */
  lemma {:induction false} TabulateLast<X, K, V>(xs: seq<X>, key: X -> K, val: X -> V, p: nat)
    requires p < |xs| && forall q :: p < q < |xs| ==> key(xs[q]) != key(xs[p])
    ensures Tabulate(xs, key, val)[key(xs[p])] == val(xs[p])
  {
    var n := |xs| - 1;
    if p < n {
      assert xs[..n][p] == xs[p];
      assert forall q :: p < q < n ==> xs[..n][q] == xs[q];
      TabulateLast(xs[..n], key, val, p);
    }
  }

  /** The keys of a tabulation are the keys of its elements. */
  lemma TabulateKeys<X, K, V>(xs: seq<X>, key: X -> K, val: X -> V, k: K)
    ensures k in Tabulate(xs, key, val) <==> k in MapSeq(xs, key)
  {
    if k in Tabulate(xs, key, val) {
      TabulateFrom(xs, key, val, k);
      var p :| 0 <= p < |xs| && key(xs[p]) == k && Tabulate(xs, key, val)[k] == val(xs[p]);
      MapSeqAt(xs, key, p);
      assert MapSeq(xs, key)[p] == k;
    }
  }

  /** The elements of a mapped sequence are the images of the elements. */
  lemma MapSeqElems<X, Y>(xs: seq<X>, f: X -> Y)
    ensures Elems(MapSeq(xs, f)) == set x | x in xs :: f(x)
  {
    var ys := MapSeq(xs, f);
    forall y | y in Elems(ys) ensures y in set x | x in xs :: f(x) {
      var p :| 0 <= p < |ys| && ys[p] == y;
      MapSeqAt(xs, f, p);
      assert xs[p] in xs;
    }
    forall y | y in set x | x in xs :: f(x) ensures y in Elems(ys) {
      var x :| x in xs && f(x) == y;
      var p :| 0 <= p < |xs| && xs[p] == x;
      MapSeqAt(xs, f, p);
      assert ys[p] == y;
    }
  }

  /** Membership in a mapped sequence, element by element. */
  lemma MapSeqMembers<X, Y>(xs: seq<X>, f: X -> Y)
    ensures forall x :: x in xs ==> f(x) in MapSeq(xs, f)
    ensures forall y :: y in MapSeq(xs, f) ==> exists x :: x in xs && f(x) == y
  {
    MapSeqElems(xs, f);
    assert forall y :: y in MapSeq(xs, f) ==> y in Elems(MapSeq(xs, f));
  }

  /** A duplicate-free list maps to a duplicate-free list exactly when distinct elements have
      distinct images. */
  lemma MapSeqNoDup<X, Y>(xs: seq<X>, f: X -> Y)
    requires NoDup(xs)
    ensures NoDup(MapSeq(xs, f)) <==> forall a, b :: a in xs && b in xs && a != b ==> f(a) != f(b)
  {
    var ys := MapSeq(xs, f);
    if NoDup(ys) {
      forall a, b | a in xs && b in xs && a != b ensures f(a) != f(b) {
        var p :| 0 <= p < |xs| && xs[p] == a;
        var q :| 0 <= q < |xs| && xs[q] == b;
        MapSeqAt(xs, f, p);
        MapSeqAt(xs, f, q);
        if p < q {
          assert ys[p] != ys[q];
        } else {
          assert ys[q] != ys[p];
        }
      }
    }
    if forall a, b :: a in xs && b in xs && a != b ==> f(a) != f(b) {
      forall p, q | 0 <= p < q < |ys| ensures ys[p] != ys[q] {
        MapSeqAt(xs, f, p);
        MapSeqAt(xs, f, q);
        assert xs[p] in xs && xs[q] in xs && xs[p] != xs[q];
      }
    }
  }

  /** In a duplicate-free list, no element occurs before its own position. */
  lemma NoDupBefore<T>(s: seq<T>, p: nat)
    requires NoDup(s) && p < |s|
    ensures s[p] !in s[..p]
  {
  }

  /** Appending an element not yet listed keeps a list duplicate-free. */
  lemma NoDupSnoc<T>(s: seq<T>, x: T)
    requires NoDup(s) && x !in s
    ensures NoDup(s + [x])
  {
    forall p, q | 0 <= p < q < |s| + 1 ensures (s + [x])[p] != (s + [x])[q] {
      if q == |s| {
        assert s[p] in s;
      }
    }
  }

  // One more element at the end, as a loop that appends sees it.

  lemma MapSeqSnoc<X, Y>(xs: seq<X>, p: nat, f: X -> Y)
    requires p < |xs|
    ensures MapSeq(xs[..p + 1], f) == MapSeq(xs[..p], f) + [f(xs[p])]
  {
    assert xs[..p + 1][..p] == xs[..p];
  }

  lemma MapSeqAppend<X, Y>(xs: seq<X>, x: X, f: X -> Y)
    ensures MapSeq(xs + [x], f) == MapSeq(xs, f) + [f(x)]
  {
    assert (xs + [x])[..|xs|] == xs;
  }

  lemma KeepSnoc<X>(xs: seq<X>, p: nat, keep: X -> bool)
    requires p < |xs|
    ensures Keep(xs[..p + 1], keep) == Keep(xs[..p], keep) + (if keep(xs[p]) then [xs[p]] else [])
  {
    assert xs[..p + 1][..p] == xs[..p];
  }

  lemma TabulateSnoc<X, K, V>(xs: seq<X>, p: nat, key: X -> K, val: X -> V)
    requires p < |xs|
    ensures Tabulate(xs[..p + 1], key, val) == Tabulate(xs[..p], key, val)[key(xs[p]) := val(xs[p])]
  {
    assert xs[..p + 1][..p] == xs[..p];
  }

  lemma DedupSnoc<T>(s: seq<T>, x: T)
    ensures Dedup(s + [x]) == if x in s then Dedup(s) else Dedup(s) + [x]
  {
    assert (s + [x])[..|s|] == s;
  }
}
