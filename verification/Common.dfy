/** Vocabulary and set facts shared by the models. */
module Common {
  datatype Option<+T> = None | Some(value: T)

  /** Identifiers are 128-bit ULIDs; only equality matters here. */
  type Ulid(==, !new)

  /** The Pub/Sub channels of one room, one workspace and one user. */
  datatype Channel = RoomChannel(room: Ulid) | WorkspaceChannel(workspace: Ulid) | UserChannel(user: Ulid)

  lemma SubsetSize<T>(a: set<T>, b: set<T>)
    requires a <= b
    ensures |a| <= |b|
  {
    assert b == a + (b - a);
    assert |b| == |a| + |b - a|;
  }

  /** Splitting a finite set by membership in another splits its size. */
  lemma SplitSize<T>(whole: set<T>, part: set<T>)
    requires part <= whole
    ensures |whole| == |part| + |whole - part|
  {
    assert whole == part + (whole - part);
  }

  /** An injective map has as many values as keys. */
  lemma {:induction false} InjectiveMapSize<A, B>(f: map<A, B>)
    requires forall x, y :: x in f && y in f && f[x] == f[y] ==> x == y
    ensures |f.Values| == |f|
    decreases |f|
  {
    if f == map[] {
      assert f.Values == {};
    } else {
      var x :| x in f;
      var rest := f - {x};
      InjectiveMapSize(rest);
      assert f.Keys == rest.Keys + {x};
      assert f.Values == rest.Values + {f[x]} by {
        forall v | v in f.Values ensures v in rest.Values + {f[x]} {
          var y :| y in f && f[y] == v;
          if y != x { assert rest[y] == v; }
        }
      }
      assert f[x] !in rest.Values;
      assert |f| == |f.Keys| && |rest| == |rest.Keys|;
    }
  }

  /** No element occurs twice. */
  ghost predicate Distinct<T>(xs: seq<T>) {
    forall i, j :: 0 <= i < j < |xs| ==> xs[i] != xs[j]
  }

  lemma DistinctMore<T>(xs: seq<T>, x: T)
    requires Distinct(xs) && x !in Elements(xs)
    ensures Distinct(xs + [x])
  {
    assert forall i :: 0 <= i < |xs| ==> xs[i] in Elements(xs);
  }

  ghost function Elements<T>(xs: seq<T>): set<T> {
    set x | x in xs
  }

  lemma {:induction false} DistinctSize<T>(xs: seq<T>)
    requires Distinct(xs)
    ensures |Elements(xs)| == |xs|
  {
    if xs == [] {
      assert Elements(xs) == {};
    } else {
      var last := |xs| - 1;
      DistinctSize(xs[..last]);
      assert Elements(xs) == Elements(xs[..last]) + {xs[last]};
      assert xs[last] !in Elements(xs[..last]);
    }
  }

  lemma BothDistinct<T>(xs: seq<T>, ys: seq<T>)
    requires Distinct(xs) && Distinct(ys) && Elements(xs) !! Elements(ys)
    ensures Distinct(xs + ys) && Elements(xs + ys) == Elements(xs) + Elements(ys)
  {
    assert forall i :: 0 <= i < |xs| ==> xs[i] in Elements(xs);
    assert forall i :: 0 <= i < |ys| ==> ys[i] in Elements(ys);
  }

  // ---- keeping first occurrences ----

  /** The sequence without the elements that occurred before. */
  function Firsts<T(==)>(xs: seq<T>): seq<T> {
    if xs == [] then []
    else
      var rest, last := xs[..|xs| - 1], xs[|xs| - 1];
      if last in rest then Firsts(rest) else Firsts(rest) + [last]
  }

  lemma FirstsMore<T>(xs: seq<T>, i: nat)
    requires i < |xs|
    ensures Firsts(xs[..i + 1]) == if xs[i] in xs[..i] then Firsts(xs[..i]) else Firsts(xs[..i]) + [xs[i]]
  {
    assert xs[..i + 1][..i] == xs[..i];
  }

  /** Before any occurrence of a later element there is one of each earlier element. */
  ghost predicate Precedes<T>(xs: seq<T>, x: T, y: T) {
    forall p :: 0 <= p < |xs| && xs[p] == y ==> x in xs[..p]
  }

  /** Each element once, all of them, in the order they first occur. */
  lemma {:induction false} FirstsKeepOrder<T>(xs: seq<T>)
    ensures Distinct(Firsts(xs)) && Elements(Firsts(xs)) == Elements(xs)
    ensures forall i, j :: 0 <= i < j < |Firsts(xs)| ==> Precedes(xs, Firsts(xs)[i], Firsts(xs)[j])
  {
    if xs != [] {
      var n := |xs| - 1;
      var rest, last := xs[..n], xs[n];
      FirstsKeepOrder(rest);
      assert Elements(xs) == Elements(rest) + {last};
      if last !in rest {
        assert last !in Elements(rest);
        DistinctMore(Firsts(rest), last);
        assert Elements(Firsts(rest) + [last]) == Elements(Firsts(rest)) + {last};
      }
      forall i, j | 0 <= i < j < |Firsts(xs)| ensures Precedes(xs, Firsts(xs)[i], Firsts(xs)[j]) {
        var x, y := Firsts(xs)[i], Firsts(xs)[j];
        assert x == Firsts(rest)[i] && x in Elements(Firsts(rest));
        if j < |Firsts(rest)| { assert Precedes(rest, x, Firsts(rest)[j]) && y in Elements(Firsts(rest)); }
        forall p | 0 <= p < |xs| && xs[p] == y ensures x in xs[..p] {
          if p < n {
            assert xs[..p] == rest[..p] && rest[p] == y;
            assert y in Elements(rest);
          } else {
            assert xs[..p] == rest;
          }
        }
      }
    } else {
      assert Elements(xs) == {};
    }
  }

  // ---- tables of sets whose empty sets are dropped ----

  function MembersOf<K, M>(table: map<K, set<M>>, key: K): set<M> {
    if key in table then table[key] else {}
  }

  function AddMember<K, M>(table: map<K, set<M>>, key: K, member: M): map<K, set<M>> {
    table[key := MembersOf(table, key) + {member}]
  }

  function DropMember<K, M(==)>(table: map<K, set<M>>, key: K, member: M): map<K, set<M>> {
    if key !in table then table
    else if table[key] - {member} == {} then table - {key}
    else table[key := table[key] - {member}]
  }

  // ---- tables of Redis hashes, which vanish when empty ----

  function Row<V>(table: map<Ulid, map<Ulid, V>>, key: Ulid): map<Ulid, V> {
    if key in table then table[key] else map[]
  }

  function PutField<V>(table: map<Ulid, map<Ulid, V>>, key: Ulid, field: Ulid, v: V): map<Ulid, map<Ulid, V>> {
    table[key := Row(table, key)[field := v]]
  }

  function DropField<V>(table: map<Ulid, map<Ulid, V>>, key: Ulid, field: Ulid): map<Ulid, map<Ulid, V>> {
    if key !in table then table
    else if table[key] - {field} == map[] then table - {key}
    else table[key := table[key] - {field}]
  }
}
