/**
 The order of encoded outpoints, sorting by it, and finding double spends by
 scanning sorted keys for equal neighbours.
 */
module OutPointOrder {
  import opened Transactions
  import opened KeyOrder

  /** The encoded outpoint: kind, hash, and output number in little-endian bytes. */
  function Key(o: OutPoint): (r: seq<int>)
    ensures |r| == 6
  {
    match o
    case Regular(t, v) => [0, t.id] + LittleEndian(v)
    case Coinbase(t, v) => [1, t.id] + LittleEndian(v)
    case Deposit(t, v) => [2, t.id] + LittleEndian(v)
  }

  lemma KeyInjective(o: OutPoint, p: OutPoint)
    requires Key(o) == Key(p)
    ensures o == p
  {
    assert Key(o)[0] == Key(p)[0] && Key(o)[1] == Key(p)[1];
    assert LittleEndian(o.vout) == Key(o)[2..] && LittleEndian(p.vout) == Key(p)[2..];
    LittleEndianInjective(o.vout, p.vout);
  }

  predicate AtMost(o: OutPoint, p: OutPoint) {
    LexAtMost(Key(o), Key(p))
  }

  lemma AtMostTotal(o: OutPoint, p: OutPoint)
    ensures AtMost(o, p) || AtMost(p, o)
    ensures AtMost(o, p) && AtMost(p, o) ==> o == p
  {
    LexTotal(Key(o), Key(p));
    if Key(o) == Key(p) {
      KeyInjective(o, p);
    }
  }

  // ---- sorting ----

  predicate SortedBy<T(!new)>(s: seq<T>, key: T -> OutPoint) {
    forall i, j | 0 <= i < j < |s| :: AtMost(key(s[i]), key(s[j]))
  }

  function InsertBy<T>(x: T, s: seq<T>, key: T -> OutPoint): (r: seq<T>)
    ensures multiset(r) == multiset(s) + multiset{x}
  {
    if s == [] || AtMost(key(x), key(s[0])) then
      assert multiset([x] + s) == multiset{x} + multiset(s);
      [x] + s
    else
      assert s == [s[0]] + s[1..];
      [s[0]] + InsertBy(x, s[1..], key)
  }

  /** Sort by encoded outpoint. */
  function SortBy<T>(s: seq<T>, key: T -> OutPoint): (r: seq<T>)
    ensures multiset(r) == multiset(s)
  {
    if s == [] then []
    else
      assert s == s[..|s| - 1] + [s[|s| - 1]];
      InsertBy(s[|s| - 1], SortBy(s[..|s| - 1], key), key)
  }

  ghost predicate LowerBound<T(!new)>(x: T, s: seq<T>, key: T -> OutPoint) {
    forall y | y in multiset(s) :: AtMost(key(x), key(y))
  }

  lemma SortedCons<T(!new)>(x: T, s: seq<T>, key: T -> OutPoint)
    requires SortedBy(s, key) && LowerBound(x, s, key)
    ensures SortedBy([x] + s, key)
  {
    var r := [x] + s;
    forall i, j | 0 <= i < j < |r|
      ensures AtMost(key(r[i]), key(r[j]))
    {
      assert r[j] == s[j - 1] && s[j - 1] in multiset(s);
    }
  }

  lemma {:induction false} InsertSorted<T(!new)>(x: T, s: seq<T>, key: T -> OutPoint)
    requires SortedBy(s, key)
    ensures SortedBy(InsertBy(x, s, key), key)
  {
    if s == [] {
    } else if AtMost(key(x), key(s[0])) {
      forall y | y in multiset(s)
        ensures AtMost(key(x), key(y))
      {
        var j :| 0 <= j < |s| && s[j] == y;
        if j > 0 {
          LexTransitive(Key(key(x)), Key(key(s[0])), Key(key(y)));
        }
      }
      SortedCons(x, s, key);
    } else {
      AtMostTotal(key(x), key(s[0]));
      var rest := s[1..];
      assert SortedBy(rest, key);
      InsertSorted(x, rest, key);
      forall y | y in multiset(InsertBy(x, rest, key))
        ensures AtMost(key(s[0]), key(y))
      {
        assert y in multiset(rest) || y == x;
      }
      SortedCons(s[0], InsertBy(x, rest, key), key);
    }
  }

  lemma {:induction false} SortSorts<T(!new)>(s: seq<T>, key: T -> OutPoint)
    ensures SortedBy(SortBy(s, key), key)
  {
    if s != [] {
      SortSorts(s[..|s| - 1], key);
      InsertSorted(s[|s| - 1], SortBy(s[..|s| - 1], key), key);
    }
  }

  // ---- duplicates ----

  predicate Distinct<T(==)>(s: seq<T>) {
    forall i, j | 0 <= i < j < |s| :: s[i] != s[j]
  }

  lemma {:induction false} DistinctCounts<T>(s: seq<T>)
    ensures Distinct(s) <==> forall x | x in s :: multiset(s)[x] == 1
  {
    if s != [] {
      var t, y := s[..|s| - 1], s[|s| - 1];
      assert s == t + [y];
      DistinctCounts(t);
      if Distinct(s) {
        assert y !in t;
        assert forall x | x in s :: x in t || x == y;
      } else if y in t {
        assert multiset(s)[y] >= 2;
      } else {
        assert !Distinct(t);
        var x :| x in t && multiset(t)[x] != 1;
        assert multiset(s)[x] >= multiset(t)[x] > 1;
      }
    }
  }

  lemma PermutedDistinct<T>(s: seq<T>, t: seq<T>)
    requires multiset(s) == multiset(t)
    ensures Distinct(s) <==> Distinct(t)
  {
    DistinctCounts(s);
    DistinctCounts(t);
    assert forall x :: x in s <==> x in multiset(s);
    assert forall x :: x in t <==> x in multiset(t);
  }

  function Itself(): OutPoint -> OutPoint {
    (o: OutPoint) => o
  }

  /** A scan of sorted keys for equal neighbours finds a pair exactly when some key occurs twice. */
  lemma ScanFindsDuplicates(keys: seq<OutPoint>, sorted: seq<OutPoint>)
    requires SortedBy(sorted, Itself()) && multiset(sorted) == multiset(keys)
    ensures (exists i :: 0 <= i < |sorted| - 1 && sorted[i] == sorted[i + 1]) <==> !Distinct(keys)
  {
    PermutedDistinct(keys, sorted);
    if !Distinct(sorted) {
      var i, j :| 0 <= i < j < |sorted| && sorted[i] == sorted[j];
      assert AtMost(Itself()(sorted[i]), Itself()(sorted[i + 1]));
      if i + 1 < j {
        assert AtMost(Itself()(sorted[i + 1]), Itself()(sorted[j]));
      }
      AtMostTotal(sorted[i], sorted[i + 1]);
    }
  }

  // ---- writing sorted rows to a table ----

  function First<V>(): ((OutPoint, V)) -> OutPoint {
    (p: (OutPoint, V)) => p.0
  }

  function Keys<V>(rows: seq<(OutPoint, V)>): (r: seq<OutPoint>)
    ensures |r| == |rows| && forall i | 0 <= i < |rows| :: r[i] == rows[i].0
  {
    seq(|rows|, i requires 0 <= i < |rows| => rows[i].0)
  }

  function PutAll<V>(m: map<OutPoint, V>, rows: seq<(OutPoint, V)>): map<OutPoint, V> {
    if rows == [] then m else PutAll(m, rows[..|rows| - 1])[rows[|rows| - 1].0 := rows[|rows| - 1].1]
  }

  function DeleteAll<V>(m: map<OutPoint, V>, keys: seq<OutPoint>): map<OutPoint, V> {
    if keys == [] then m else DeleteAll(m, keys[..|keys| - 1]) - {keys[|keys| - 1]}
  }

  lemma {:induction false} DeleteAllIsMinus<V>(m: map<OutPoint, V>, keys: seq<OutPoint>)
    ensures DeleteAll(m, keys) == m - set k | k in keys
  {
    if keys != [] {
      DeleteAllIsMinus(m, keys[..|keys| - 1]);
      assert keys == keys[..|keys| - 1] + [keys[|keys| - 1]];
    }
  }

  /** Rows with distinct keys: every row is found under its key, everything else is as before. */
  lemma {:induction false} PutAllExact<V>(m: map<OutPoint, V>, rows: seq<(OutPoint, V)>)
    requires Distinct(Keys(rows))
    ensures PutAll(m, rows).Keys == m.Keys + set k | k in Keys(rows)
    ensures forall i | 0 <= i < |rows| :: PutAll(m, rows)[rows[i].0] == rows[i].1
    ensures forall k | k in m && k !in Keys(rows) :: PutAll(m, rows)[k] == m[k]
  {
    if rows != [] {
      var before, last := rows[..|rows| - 1], rows[|rows| - 1];
      assert Keys(rows) == Keys(before) + [last.0];
      assert forall i, j | 0 <= i < j < |before| :: Keys(rows)[i] != Keys(rows)[j];
      PutAllExact(m, before);
      forall i | 0 <= i < |rows| - 1
        ensures PutAll(m, rows)[rows[i].0] == rows[i].1
      {
        assert rows[i] == before[i] && Keys(rows)[i] != Keys(rows)[|rows| - 1];
      }
    }
  }

  function Without<T>(t: seq<T>, i: nat): (r: seq<T>)
    requires i < |t|
    ensures |r| == |t| - 1
  {
    t[..i] + t[i + 1..]
  }

  lemma WithoutCounts<T>(t: seq<T>, i: nat)
    requires i < |t|
    ensures multiset(t) == multiset(Without(t, i)) + multiset{t[i]}
    ensures multiset(Without(t, i)) == multiset(t) - multiset{t[i]}
  {
    assert t == t[..i] + [t[i]] + t[i + 1..];
  }

  lemma KeysWithout<V>(t: seq<(OutPoint, V)>, i: nat)
    requires i < |t|
    ensures Keys(Without(t, i)) == Without(Keys(t), i)
  {
  }

  lemma {:induction false} KeysOfPermuted<V>(s: seq<(OutPoint, V)>, t: seq<(OutPoint, V)>)
    requires multiset(s) == multiset(t)
    ensures multiset(Keys(s)) == multiset(Keys(t))
  {
    if s == [] {
      assert |multiset(t)| == |t|;
    } else {
      assert s[0] in multiset(s);
      var i :| 0 <= i < |t| && t[i] == s[0];
      WithoutCounts(s, 0);
      WithoutCounts(t, i);
      KeysOfPermuted(Without(s, 0), Without(t, i));
      KeysWithout(s, 0);
      KeysWithout(t, i);
      WithoutCounts(Keys(s), 0);
      WithoutCounts(Keys(t), i);
    }
  }

  lemma SameMember<T>(s: seq<T>, t: seq<T>, x: T)
    requires multiset(s) == multiset(t)
    ensures x in s <==> x in t
  {
    assert x in multiset(s) <==> x in multiset(t);
  }

  lemma PutAllSameRow<V>(m: map<OutPoint, V>, s: seq<(OutPoint, V)>, t: seq<(OutPoint, V)>, k: OutPoint)
    requires multiset(s) == multiset(t) && Distinct(Keys(s)) && Distinct(Keys(t))
    ensures k in PutAll(m, s) <==> k in PutAll(m, t)
    ensures k in PutAll(m, s) ==> PutAll(m, s)[k] == PutAll(m, t)[k]
  {
    PutAllExact(m, s);
    PutAllExact(m, t);
    KeysOfPermuted(s, t);
    SameMember(Keys(s), Keys(t), k);
    if k in Keys(s) {
      var i :| 0 <= i < |s| && Keys(s)[i] == k;
      SameMember(s, t, s[i]);
      var j :| 0 <= j < |t| && t[j] == s[i];
    }
  }

  /** The order in which rows with distinct keys are written does not matter. */
  lemma PutAllPermuted<V>(m: map<OutPoint, V>, s: seq<(OutPoint, V)>, t: seq<(OutPoint, V)>)
    requires multiset(s) == multiset(t) && Distinct(Keys(s))
    ensures PutAll(m, s) == PutAll(m, t)
  {
    KeysOfPermuted(s, t);
    PermutedDistinct(Keys(s), Keys(t));
    forall k: OutPoint
      ensures k in PutAll(m, s) <==> k in PutAll(m, t)
      ensures k in PutAll(m, s) ==> PutAll(m, s)[k] == PutAll(m, t)[k]
    {
      PutAllSameRow(m, s, t, k);
    }
  }
}
