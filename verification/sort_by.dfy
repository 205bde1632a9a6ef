/**
 * lodash `_.sortBy(collection, idKey)` as the reducer uses it: a stable sort,
 * ascending by the value each entity holds under the id key.
 */
module SortBy {
  import opened Values
  import opened Seqs

  /** Where lodash's ascending comparison places an id value. Numbers come
      first in numeric order, with booleans among them as 0 and 1. Strings
      come next in the order of their characters, with objects among them
      as "[object Object]". Then come `null`, then `undefined`, and `NaN`
      comes last. */
  datatype IdRank = NumberId(n: int) | TextId(text: string) | NullId | UndefinedId | NaNId

  function RankOf(v: Value): IdRank
  {
    match v
    case Num(n) => NumberId(n)
    case Bool(b) => NumberId(if b then 1 else 0)
    case Str(s) => TextId(s)
    case Obj(_) => TextId("[object Object]")
    case Null => NullId
    case Undefined => UndefinedId
    case NaN => NaNId
  }

  function Tier(r: IdRank): nat
  {
    match r
    case NumberId(_) => 0
    case TextId(_) => 1
    case NullId => 2
    case UndefinedId => 3
    case NaNId => 4
  }

  /** `a <= b` on strings, character by character. */
  predicate TextLe(a: string, b: string)
    decreases |a|
  {
    a == [] || (b != [] && (a[0] < b[0] || (a[0] == b[0] && TextLe(a[1..], b[1..]))))
  }

  lemma {:induction false} TextLeReflexive(a: string)
    ensures TextLe(a, a)
    decreases |a|
  {
    if a != [] {
      TextLeReflexive(a[1..]);
    }
  }

  lemma {:induction false} TextLeTotal(a: string, b: string)
    ensures TextLe(a, b) || TextLe(b, a)
    decreases |a|
  {
    if a != [] && b != [] && a[0] == b[0] {
      TextLeTotal(a[1..], b[1..]);
    }
  }

  lemma {:induction false} TextLeAntisymmetric(a: string, b: string)
    requires TextLe(a, b) && TextLe(b, a)
    ensures a == b
    decreases |a|
  {
    if a != [] {
      TextLeAntisymmetric(a[1..], b[1..]);
      assert a == [a[0]] + a[1..] && b == [b[0]] + b[1..];
    }
  }

  lemma {:induction false} TextLeTransitive(a: string, b: string, c: string)
    requires TextLe(a, b) && TextLe(b, c)
    ensures TextLe(a, c)
    decreases |a|
  {
    if a != [] && a[0] == b[0] && b[0] == c[0] {
      TextLeTransitive(a[1..], b[1..], c[1..]);
    }
  }

  /** `a` may come before `b`. */
  predicate RankLe(a: IdRank, b: IdRank)
  {
    Tier(a) < Tier(b) ||
    (Tier(a) == Tier(b) && (a.NumberId? ==> a.n <= b.n) && (a.TextId? ==> TextLe(a.text, b.text)))
  }

  function Rank(e: Entity, idKey: string): IdRank
  {
    RankOf(Lookup(e, idKey))
  }

  /** Ascending by the id key. */
  ghost predicate Sorted(s: seq<Entity>, idKey: string)
  {
    forall i, j :: 0 <= i < j < |s| ==> RankLe(Rank(s[i], idKey), Rank(s[j], idKey))
  }

  /** `RankLe` is a total order on ranks. */
  lemma RankLeIsTotalOrder(a: IdRank, b: IdRank, c: IdRank)
    ensures RankLe(a, a)
    ensures RankLe(a, b) || RankLe(b, a)
    ensures RankLe(a, b) && RankLe(b, a) ==> a == b
    ensures RankLe(a, b) && RankLe(b, c) ==> RankLe(a, c)
  {
    if a.TextId? {
      TextLeReflexive(a.text);
      if b.TextId? {
        TextLeTotal(a.text, b.text);
        if TextLe(a.text, b.text) && TextLe(b.text, a.text) {
          TextLeAntisymmetric(a.text, b.text);
        }
        if c.TextId? && TextLe(a.text, b.text) && TextLe(b.text, c.text) {
          TextLeTransitive(a.text, b.text, c.text);
        }
      }
    }
  }

  /** Places `e` in front of the first entity whose id is not smaller, so that
      it precedes the entities with an equal id. */
  function Insert(e: Entity, s: seq<Entity>, idKey: string): (r: seq<Entity>)
    requires Sorted(s, idKey)
    ensures Sorted(r, idKey)
    ensures multiset(r) == multiset(s) + multiset{e}
  {
    if s == [] then [e]
    else if RankLe(Rank(e, idKey), Rank(s[0], idKey)) then
      HeadBelowSorted(e, s, idKey);
      ConsSorted(e, s, idKey);
      [e] + s
    else
      var rest := Insert(e, s[1..], idKey);
      assert s == [s[0]] + s[1..];
      InsertBound(e, s, rest, idKey);
      ConsSorted(s[0], rest, idKey);
      [s[0]] + rest
  }

  /** Below the head of a sorted collection is below all of it. */
  lemma HeadBelowSorted(x: Entity, s: seq<Entity>, idKey: string)
    requires Sorted(s, idKey) && s != []
    requires RankLe(Rank(x, idKey), Rank(s[0], idKey))
    ensures forall j :: 0 <= j < |s| ==> RankLe(Rank(x, idKey), Rank(s[j], idKey))
  {
    forall j | 0 <= j < |s| ensures RankLe(Rank(x, idKey), Rank(s[j], idKey)) {
      RankLeIsTotalOrder(Rank(x, idKey), Rank(s[0], idKey), Rank(s[j], idKey));
    }
  }

  /** Whatever `Insert` puts after the head ranks no lower than the head. */
  lemma InsertBound(e: Entity, s: seq<Entity>, rest: seq<Entity>, idKey: string)
    requires Sorted(s, idKey) && s != []
    requires !RankLe(Rank(e, idKey), Rank(s[0], idKey))
    requires multiset(rest) == multiset(s[1..]) + multiset{e}
    ensures forall j :: 0 <= j < |rest| ==> RankLe(Rank(s[0], idKey), Rank(rest[j], idKey))
  {
    RankLeIsTotalOrder(Rank(e, idKey), Rank(s[0], idKey), Rank(s[0], idKey));
    forall j | 0 <= j < |rest| ensures RankLe(Rank(s[0], idKey), Rank(rest[j], idKey)) {
      assert rest[j] in multiset(rest);
      if rest[j] != e {
        assert rest[j] in multiset(s[1..]);
        var k :| 0 <= k < |s[1..]| && s[1..][k] == rest[j];
        assert s[k + 1] == rest[j];
      }
    }
  }

  /** A head that ranks no higher than a sorted tail keeps it sorted. */
  lemma ConsSorted(x: Entity, rest: seq<Entity>, idKey: string)
    requires Sorted(rest, idKey)
    requires forall j :: 0 <= j < |rest| ==> RankLe(Rank(x, idKey), Rank(rest[j], idKey))
    ensures Sorted([x] + rest, idKey)
  {
    forall i, j | 0 <= i < j < |[x] + rest|
      ensures RankLe(Rank(([x] + rest)[i], idKey), Rank(([x] + rest)[j], idKey))
    {
      if i > 0 {
        assert ([x] + rest)[i] == rest[i - 1];
      }
      assert ([x] + rest)[j] == rest[j - 1];
    }
  }

  /** `_.sortBy(s, idKey)`: a sorted permutation of `s`. */
  function SortById(s: seq<Entity>, idKey: string): (r: seq<Entity>)
    ensures Sorted(r, idKey)
    ensures multiset(r) == multiset(s)
    ensures |r| == |s|
  {
    if s == [] then []
    else
      assert s == [s[0]] + s[1..];
      Insert(s[0], SortById(s[1..], idKey), idKey)
  }

  /** The entities of `s` whose id has rank `k`, in order. */
  function WithRank(s: seq<Entity>, idKey: string, k: IdRank): seq<Entity>
  {
    Filter(s, HasRank(idKey, k))
  }

  function HasRank(idKey: string, k: IdRank): Entity -> bool
  {
    e => Rank(e, idKey) == k
  }

  lemma {:induction false} InsertIsStable(e: Entity, s: seq<Entity>, idKey: string, k: IdRank)
    requires Sorted(s, idKey)
    ensures WithRank(Insert(e, s, idKey), idKey, k)
         == (if Rank(e, idKey) == k then [e] else []) + WithRank(s, idKey, k)
  {
    var p := HasRank(idKey, k);
    var eh := if Rank(e, idKey) == k then [e] else [];
    FilterSingleton(e, p);
    assert p(e) == (Rank(e, idKey) == k);
    if s == [] {
      assert Insert(e, s, idKey) == [e];
      assert eh + WithRank(s, idKey, k) == eh;
    } else if RankLe(Rank(e, idKey), Rank(s[0], idKey)) {
      assert Insert(e, s, idKey) == [e] + s;
      FilterAppend([e], s, p);
    } else {
      var tail := Insert(e, s[1..], idKey);
      RankLeIsTotalOrder(Rank(e, idKey), Rank(e, idKey), Rank(e, idKey));
      assert Rank(s[0], idKey) != Rank(e, idKey);
      InsertIsStable(e, s[1..], idKey, k);
      assert Insert(e, s, idKey) == [s[0]] + tail;
      assert s == [s[0]] + s[1..];
      assert p(s[0]) == (Rank(s[0], idKey) == k);
      FilterPrependSwap(s[0], e, tail, s[1..], p);
    }
  }

  /** Stability: among entities whose ids rank equal, the sort keeps the
      original relative order. */
  lemma {:induction false} SortByIsStable(s: seq<Entity>, idKey: string, k: IdRank)
    ensures WithRank(SortById(s, idKey), idKey, k) == WithRank(s, idKey, k)
  {
    if s != [] {
      SortByIsStable(s[1..], idKey, k);
      InsertIsStable(s[0], SortById(s[1..], idKey), idKey, k);
      FilterAppend([s[0]], s[1..], HasRank(idKey, k));
      assert s == [s[0]] + s[1..];
    }
  }

  /** Sorting a sorted collection changes nothing. */
  lemma {:induction false} SortedIsFixpoint(s: seq<Entity>, idKey: string)
    requires Sorted(s, idKey)
    ensures SortById(s, idKey) == s
  {
    if s != [] {
      SortedIsFixpoint(s[1..], idKey);
      assert s == [s[0]] + s[1..];
    }
  }

  /** `_.sortBy` is idempotent. */
  lemma SortByIdempotent(s: seq<Entity>, idKey: string)
    ensures SortById(SortById(s, idKey), idKey) == SortById(s, idKey)
  {
    SortedIsFixpoint(SortById(s, idKey), idKey);
  }

  /** Sorting two entities: they stay in order unless the first has the
      strictly larger id. */
  lemma SortTwo(a: Entity, c: Entity, idKey: string)
    ensures SortById([a] + [c], idKey) == if RankLe(Rank(a, idKey), Rank(c, idKey)) then [a, c] else [c, a]
  {
    assert SortById([a] + [c], idKey) == Insert(a, [c], idKey) by {
      assert ([a] + [c])[0] == a && ([a] + [c])[1..] == [c];
      assert SortById([c], idKey) == [c] by {
        assert [c][1..] == [];
      }
    }
    if RankLe(Rank(a, idKey), Rank(c, idKey)) {
      assert Insert(a, [c], idKey) == [a, c];
    } else {
      assert Insert(a, [], idKey) == [a];
      assert Insert(a, [c], idKey) == [c, a];
    }
  }

  /** A sorted collection is determined by its rank classes: two sorted
      collections that list the entities of every rank in the same order are
      equal. So a stable sort has exactly one possible result. */
  lemma {:induction false} SortedUnique(x: seq<Entity>, y: seq<Entity>, idKey: string)
    requires Sorted(x, idKey) && Sorted(y, idKey)
    requires forall k :: WithRank(x, idKey, k) == WithRank(y, idKey, k)
    ensures x == y
  {
    if x == [] || y == [] {
      if x != [] {
        RankClassOfHead(x, idKey);
      } else if y != [] {
        RankClassOfHead(y, idKey);
      }
    } else {
      var k0 := Rank(x[0], idKey);
      var k1 := Rank(y[0], idKey);
      RankClassOfHead(x, idKey);
      RankClassOfHead(y, idKey);
      HeadRanksLowest(y, k0, idKey);
      HeadRanksLowest(x, k1, idKey);
      RankLeIsTotalOrder(k0, k1, k0);
      assert k0 == k1;
      assert x[0] == WithRank(x, idKey, k0)[0] == y[0];
      RankClassesOfTails(x, y, idKey);
      SortedUnique(x[1..], y[1..], idKey);
      assert x == [x[0]] + x[1..] && y == [y[0]] + y[1..];
    }
  }

  /** Equal heads and equal rank classes leave equal rank classes of the tails. */
  lemma RankClassesOfTails(x: seq<Entity>, y: seq<Entity>, idKey: string)
    requires x != [] && y != [] && x[0] == y[0]
    requires forall k :: WithRank(x, idKey, k) == WithRank(y, idKey, k)
    ensures forall k :: WithRank(x[1..], idKey, k) == WithRank(y[1..], idKey, k)
  {
    assert x == [x[0]] + x[1..] && y == [y[0]] + y[1..];
    forall k ensures WithRank(x[1..], idKey, k) == WithRank(y[1..], idKey, k) {
      var h := if HasRank(idKey, k)(x[0]) then [x[0]] else [];
      FilterCons(x[0], x[1..], HasRank(idKey, k));
      FilterCons(y[0], y[1..], HasRank(idKey, k));
      assert WithRank(x, idKey, k) == WithRank(y, idKey, k);
      assert WithRank(x[1..], idKey, k) == (h + WithRank(x[1..], idKey, k))[|h|..];
      assert WithRank(y[1..], idKey, k) == (h + WithRank(y[1..], idKey, k))[|h|..];
    }
  }

  /** The rank class of the first entity starts with it. */
  lemma RankClassOfHead(s: seq<Entity>, idKey: string)
    requires s != []
    ensures WithRank(s, idKey, Rank(s[0], idKey)) != []
    ensures WithRank(s, idKey, Rank(s[0], idKey))[0] == s[0]
  {
    var p := HasRank(idKey, Rank(s[0], idKey));
    assert p(s[0]);
    FilterCons(s[0], s[1..], p);
    assert s == [s[0]] + s[1..];
  }

  /** In a sorted collection that has an entity of rank `k`, the first entity
      ranks no higher than `k`. */
  lemma HeadRanksLowest(s: seq<Entity>, k: IdRank, idKey: string)
    requires Sorted(s, idKey) && s != []
    requires WithRank(s, idKey, k) != []
    ensures RankLe(Rank(s[0], idKey), k)
  {
    FilterMembers(s, HasRank(idKey, k));
    var w := WithRank(s, idKey, k)[0];
    assert w in s && HasRank(idKey, k)(w);
    var j :| 0 <= j < |s| && s[j] == w;
    RankLeIsTotalOrder(k, k, k);
  }

  /** No two entities share a numeric id. */
  ghost predicate DistinctIds(s: seq<Entity>, idKey: string)
  {
    forall i, j :: 0 <= i < j < |s| && Lookup(s[i], idKey).Num? ==> Lookup(s[i], idKey) != Lookup(s[j], idKey)
  }

  /** An entity whose numeric id is new, put in front, keeps the ids distinct. */
  lemma ConsKeepsIdsDistinct(x: Entity, rest: seq<Entity>, idKey: string)
    requires DistinctIds(rest, idKey)
    requires forall j :: 0 <= j < |rest| && Lookup(x, idKey).Num? ==> Lookup(rest[j], idKey) != Lookup(x, idKey)
    ensures DistinctIds([x] + rest, idKey)
  {
    var r := [x] + rest;
    forall i, j | 0 <= i < j < |r| && Lookup(r[i], idKey).Num?
      ensures Lookup(r[i], idKey) != Lookup(r[j], idKey)
    {
      assert r[j] == rest[j - 1];
      if i > 0 {
        assert r[i] == rest[i - 1];
      }
    }
  }

  /** Inserting an entity whose numeric id is new keeps the ids distinct. */
  lemma {:induction false} InsertKeepsIdsDistinct(e: Entity, s: seq<Entity>, idKey: string)
    requires Sorted(s, idKey) && DistinctIds(s, idKey)
    requires forall j :: 0 <= j < |s| && Lookup(e, idKey).Num? ==> Lookup(s[j], idKey) != Lookup(e, idKey)
    ensures DistinctIds(Insert(e, s, idKey), idKey)
  {
    if s == [] {
      assert Insert(e, s, idKey) == [e];
    } else if RankLe(Rank(e, idKey), Rank(s[0], idKey)) {
      ConsKeepsIdsDistinct(e, s, idKey);
    } else {
      var rest := Insert(e, s[1..], idKey);
      assert s == [s[0]] + s[1..];
      InsertKeepsIdsDistinct(e, s[1..], idKey);
      InsertedIdsDiffer(e, s, rest, idKey);
      ConsKeepsIdsDistinct(s[0], rest, idKey);
    }
  }

  /** After the head of `s`, `Insert` leaves only entities whose ids differ from the head's. */
  lemma InsertedIdsDiffer(e: Entity, s: seq<Entity>, rest: seq<Entity>, idKey: string)
    requires DistinctIds(s, idKey) && s != []
    requires forall j :: 0 <= j < |s| && Lookup(e, idKey).Num? ==> Lookup(s[j], idKey) != Lookup(e, idKey)
    requires multiset(rest) == multiset(s[1..]) + multiset{e}
    ensures forall j :: 0 <= j < |rest| && Lookup(s[0], idKey).Num? ==> Lookup(rest[j], idKey) != Lookup(s[0], idKey)
  {
    forall j | 0 <= j < |rest| && Lookup(s[0], idKey).Num?
      ensures Lookup(rest[j], idKey) != Lookup(s[0], idKey)
    {
      var x := rest[j];
      assert x in multiset(rest);
      if x != e {
        assert x in multiset(s[1..]);
        var k :| 0 <= k < |s[1..]| && s[1..][k] == x;
        assert s[k + 1] == x;
      }
    }
  }

  /** Sorting keeps distinct ids distinct. */
  lemma {:induction false} SortKeepsIdsDistinct(s: seq<Entity>, idKey: string)
    requires DistinctIds(s, idKey)
    ensures DistinctIds(SortById(s, idKey), idKey)
  {
    if s != [] {
      var sorted := SortById(s[1..], idKey);
      SortKeepsIdsDistinct(s[1..], idKey);
      forall j | 0 <= j < |sorted| && Lookup(s[0], idKey).Num?
        ensures Lookup(sorted[j], idKey) != Lookup(s[0], idKey)
      {
        assert sorted[j] in multiset(s[1..]);
        var k :| 0 <= k < |s[1..]| && s[1..][k] == sorted[j];
        assert s[k + 1] == sorted[j];
      }
      InsertKeepsIdsDistinct(s[0], sorted, idKey);
    }
  }
}
