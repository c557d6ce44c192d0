/** Orders and sorting as the pipeline uses them.

    Python compares `str` values by code point, lexicographically, a proper
    prefix first; pandas compares rows on several columns left to right, and
    its multi-column `sort_values` is stable. A row's sort columns are given
    here as a rank: a sequence of atoms compared lexicographically. A
    descending column enters the rank negated. */
module Ordering {

  /** Python's `a < b` on `str`. */
  predicate StrLess(a: string, b: string)
  {
    if a == [] then b != []
    else if b == [] then false
    else a[0] < b[0] || (a[0] == b[0] && StrLess(a[1..], b[1..]))
  }

  lemma {:induction false} StrLessIrreflexive(a: string)
    ensures !StrLess(a, a)
  {
    if a != [] {
      StrLessIrreflexive(a[1..]);
    }
  }

  lemma {:induction false} StrLessTransitive(a: string, b: string, c: string)
    requires StrLess(a, b) && StrLess(b, c)
    ensures StrLess(a, c)
  {
    if a != [] && a[0] == b[0] && b[0] == c[0] {
      StrLessTransitive(a[1..], b[1..], c[1..]);
    }
  }

  lemma {:induction false} StrLessTotal(a: string, b: string)
    requires a != b
    ensures StrLess(a, b) || StrLess(b, a)
  {
    if a != [] && b != [] && a[0] == b[0] {
      assert a == [a[0]] + a[1..] && b == [b[0]] + b[1..];
      StrLessTotal(a[1..], b[1..]);
    }
  }

  /** One sort column of a row: a number or a string. */
  datatype Atom = Num(n: int) | Text(s: string)

  predicate AtomLess(a: Atom, b: Atom)
  {
    match (a, b)
    case (Num(x), Num(y)) => x < y
    case (Text(x), Text(y)) => StrLess(x, y)
    case (Num(_), Text(_)) => true
    case (Text(_), Num(_)) => false
  }

  /** Rows compared column by column, left to right. */
  predicate LexLess(a: seq<Atom>, b: seq<Atom>)
  {
    if a == [] then b != []
    else if b == [] then false
    else AtomLess(a[0], b[0]) || (a[0] == b[0] && LexLess(a[1..], b[1..]))
  }

  lemma AtomLessStrictTotal(a: Atom, b: Atom, c: Atom)
    ensures !AtomLess(a, a)
    ensures AtomLess(a, b) && AtomLess(b, c) ==> AtomLess(a, c)
    ensures a != b ==> AtomLess(a, b) || AtomLess(b, a)
  {
    if a.Text? {
      StrLessIrreflexive(a.s);
      if b.Text? && c.Text? && StrLess(a.s, b.s) && StrLess(b.s, c.s) {
        StrLessTransitive(a.s, b.s, c.s);
      }
      if b.Text? && a != b {
        StrLessTotal(a.s, b.s);
      }
    }
  }

  lemma {:induction false} LexLessIrreflexive(a: seq<Atom>)
    ensures !LexLess(a, a)
  {
    if a != [] {
      AtomLessStrictTotal(a[0], a[0], a[0]);
      LexLessIrreflexive(a[1..]);
    }
  }

  lemma {:induction false} LexLessTransitive(a: seq<Atom>, b: seq<Atom>, c: seq<Atom>)
    requires LexLess(a, b) && LexLess(b, c)
    ensures LexLess(a, c)
  {
    if a != [] {
      AtomLessStrictTotal(a[0], b[0], c[0]);
      if a[0] == b[0] && b[0] == c[0] {
        LexLessTransitive(a[1..], b[1..], c[1..]);
      }
    }
  }

  lemma {:induction false} LexLessTotal(a: seq<Atom>, b: seq<Atom>)
    requires a != b
    ensures LexLess(a, b) || LexLess(b, a)
  {
    if a != [] && b != [] {
      AtomLessStrictTotal(a[0], b[0], b[0]);
      if a[0] == b[0] {
        assert a == [a[0]] + a[1..] && b == [b[0]] + b[1..];
        LexLessTotal(a[1..], b[1..]);
      }
    }
  }

  /** Two rows of the same width compare on their first columns first. */
  lemma {:induction false} LexLessAppend(a: seq<Atom>, b: seq<Atom>, x: seq<Atom>, y: seq<Atom>)
    requires |a| == |b|
    ensures LexLess(a + x, b + y) <==> LexLess(a, b) || (a == b && LexLess(x, y))
  {
    if a == [] {
      assert a + x == x && b + y == y;
    } else {
      var ax, bx := a + x, b + y;
      assert ax != [] && bx != [];
      assert ax[0] == a[0] && bx[0] == b[0];
      assert ax[1..] == a[1..] + x && bx[1..] == b[1..] + y;
      LexLessAppend(a[1..], b[1..], x, y);
      assert a == [a[0]] + a[1..] && b == [b[0]] + b[1..];
      assert LexLess(ax, bx) <==> AtomLess(a[0], b[0]) || (a[0] == b[0] && LexLess(a[1..] + x, b[1..] + y));
    }
  }

  /** `s` lists its rows in non-decreasing rank. */
  predicate SortedBy<T>(s: seq<T>, rank: T -> seq<Atom>)
  {
    forall i, j :: 0 <= i < j < |s| ==> !LexLess(rank(s[j]), rank(s[i]))
  }

  /** `s` lists its rows in strictly increasing rank. */
  predicate StrictlySortedBy<T>(s: seq<T>, rank: T -> seq<Atom>)
  {
    forall i, j :: 0 <= i < j < |s| ==> LexLess(rank(s[i]), rank(s[j]))
  }

  /** `a` comes before `b` by `rank`, and among equal ranks by `tie`. */
  predicate ThenLess<T>(rank: T -> seq<Atom>, tie: T -> seq<Atom>, a: T, b: T)
  {
    LexLess(rank(a), rank(b)) || (rank(a) == rank(b) && LexLess(tie(a), tie(b)))
  }

  predicate StrictlySortedThen<T>(s: seq<T>, rank: T -> seq<Atom>, tie: T -> seq<Atom>)
  {
    forall i, j :: 0 <= i < j < |s| ==> ThenLess(rank, tie, s[i], s[j])
  }

  lemma ThenLessStrict<T>(rank: T -> seq<Atom>, tie: T -> seq<Atom>, a: T, b: T, c: T)
    ensures !ThenLess(rank, tie, a, a)
    ensures ThenLess(rank, tie, a, b) && ThenLess(rank, tie, b, c) ==> ThenLess(rank, tie, a, c)
  {
    LexLessIrreflexive(rank(a));
    LexLessIrreflexive(tie(a));
    if ThenLess(rank, tie, a, b) && ThenLess(rank, tie, b, c) {
      if LexLess(rank(a), rank(b)) && LexLess(rank(b), rank(c)) {
        LexLessTransitive(rank(a), rank(b), rank(c));
      } else if rank(a) == rank(b) && rank(b) == rank(c) {
        LexLessTransitive(tie(a), tie(b), tie(c));
      }
    }
  }

  /** Rows strictly sorted by any order are pairwise distinct. */
  lemma StrictlySortedDistinct<T>(s: seq<T>, rank: T -> seq<Atom>, tie: T -> seq<Atom>, i: int, j: int)
    requires StrictlySortedThen(s, rank, tie)
    requires 0 <= i < |s| && 0 <= j < |s| && i != j
    ensures s[i] != s[j]
  {
    if i < j {
      ThenLessStrict(rank, tie, s[i], s[i], s[i]);
    } else {
      ThenLessStrict(rank, tie, s[j], s[j], s[j]);
    }
  }

  /** Places `x` after every row whose rank is strictly smaller and before
      the rest, so `x` precedes the rows of equal rank already in `s`. */
  function Insert<T>(x: T, s: seq<T>, rank: T -> seq<Atom>): (r: seq<T>)
    ensures |r| == |s| + 1 && multiset(r) == multiset(s) + multiset{x}
  {
    if s == [] || !LexLess(rank(s[0]), rank(x)) then [x] + s
    else
      assert s == [s[0]] + s[1..];
      [s[0]] + Insert(x, s[1..], rank)
  }

  /** The stable sort pandas' multi-column `sort_values` performs. */
  function SortBy<T>(s: seq<T>, rank: T -> seq<Atom>): (r: seq<T>)
    ensures |r| == |s| && multiset(r) == multiset(s)
  {
    if s == [] then []
    else
      assert s == [s[0]] + s[1..];
      Insert(s[0], SortBy(s[1..], rank), rank)
  }

  lemma {:induction false} InsertSorted<T>(x: T, s: seq<T>, rank: T -> seq<Atom>)
    requires SortedBy(s, rank)
    ensures SortedBy(Insert(x, s, rank), rank)
  {
    if s != [] && LexLess(rank(s[0]), rank(x)) {
      InsertSorted(x, s[1..], rank);
      var r := Insert(x, s, rank);
      var t := Insert(x, s[1..], rank);
      assert r == [s[0]] + t;
      forall j | 0 < j < |r|
        ensures !LexLess(rank(r[j]), rank(r[0]))
      {
        assert r[j] in multiset(t);
        if r[j] == x {
          LexLessIrreflexive(rank(s[0]));
          if LexLess(rank(x), rank(s[0])) {
            LexLessTransitive(rank(x), rank(s[0]), rank(x));
            LexLessIrreflexive(rank(x));
          }
        } else {
          assert r[j] in multiset(s[1..]);
          var k :| 0 <= k < |s[1..]| && s[1..][k] == r[j];
          assert s[k + 1] == r[j];
        }
      }
    } else if s != [] {
      var r := [x] + s;
      forall i, j | 0 <= i < j < |r|
        ensures !LexLess(rank(r[j]), rank(r[i]))
      {
        if i == 0 && LexLess(rank(r[j]), rank(x)) {
          if j > 1 {
            assert !LexLess(rank(s[j - 1]), rank(s[0]));
            if LexLess(rank(s[0]), rank(s[j - 1])) {
              LexLessTransitive(rank(s[0]), rank(s[j - 1]), rank(x));
            } else if rank(s[0]) != rank(s[j - 1]) {
              LexLessTotal(rank(s[0]), rank(s[j - 1]));
            }
          }
        }
      }
    }
  }

  /** The sort yields rows in non-decreasing rank. */
  lemma {:induction false} SortBySorted<T>(s: seq<T>, rank: T -> seq<Atom>)
    ensures SortedBy(SortBy(s, rank), rank)
  {
    if s != [] {
      SortBySorted(s[1..], rank);
      InsertSorted(s[0], SortBy(s[1..], rank), rank);
    }
  }

  lemma {:induction false} InsertThen<T>(x: T, s: seq<T>, rank: T -> seq<Atom>, tie: T -> seq<Atom>)
    requires StrictlySortedThen(s, rank, tie)
    requires forall y :: y in s && rank(y) == rank(x) ==> LexLess(tie(x), tie(y))
    ensures StrictlySortedThen(Insert(x, s, rank), rank, tie)
  {
    if s == [] {
    } else if !LexLess(rank(s[0]), rank(x)) {
      var r := [x] + s;
      forall j | 0 < j < |r|
        ensures ThenLess(rank, tie, x, r[j])
      {
        assert r[j] == s[j - 1];
        if rank(x) != rank(s[0]) {
          LexLessTotal(rank(x), rank(s[0]));
          assert ThenLess(rank, tie, x, s[0]);
        }
        if j > 1 {
          ThenLessStrict(rank, tie, x, s[0], s[j - 1]);
        }
      }
      assert StrictlySortedThen(r, rank, tie) by {
        forall i, j | 0 <= i < j < |r|
          ensures ThenLess(rank, tie, r[i], r[j])
        {
          if i > 0 {
            assert r[i] == s[i - 1] && r[j] == s[j - 1];
          }
        }
      }
    } else {
      var t := Insert(x, s[1..], rank);
      InsertThen(x, s[1..], rank, tie);
      var r := [s[0]] + t;
      assert r == Insert(x, s, rank);
      forall j | 0 < j < |r|
        ensures ThenLess(rank, tie, s[0], r[j])
      {
        assert r[j] in multiset(t);
        if r[j] != x {
          assert r[j] in multiset(s[1..]);
          var k :| 0 <= k < |s[1..]| && s[1..][k] == r[j];
          assert s[k + 1] == r[j];
        }
      }
    }
  }

  /** Rows of equal rank stand in strict `tie` order. */
  predicate TiesOrdered<T>(s: seq<T>, rank: T -> seq<Atom>, tie: T -> seq<Atom>)
  {
    forall i, j :: 0 <= i < j < |s| && rank(s[i]) == rank(s[j]) ==> LexLess(tie(s[i]), tie(s[j]))
  }

  /** Stability in general: when the rows of equal rank already stand in
      `tie` order, they keep that order, so the output is ordered by rank
      and then by `tie`. */
  lemma {:induction false} SortByTiesStable<T>(s: seq<T>, rank: T -> seq<Atom>, tie: T -> seq<Atom>)
    requires TiesOrdered(s, rank, tie)
    ensures StrictlySortedThen(SortBy(s, rank), rank, tie)
  {
    if s != [] {
      assert TiesOrdered(s[1..], rank, tie) by {
        forall i, j | 0 <= i < j < |s[1..]| && rank(s[1..][i]) == rank(s[1..][j])
          ensures LexLess(tie(s[1..][i]), tie(s[1..][j]))
        {
          assert s[1..][i] == s[i + 1] && s[1..][j] == s[j + 1];
        }
      }
      SortByTiesStable(s[1..], rank, tie);
      var t := SortBy(s[1..], rank);
      forall y | y in t && rank(y) == rank(s[0])
        ensures LexLess(tie(s[0]), tie(y))
      {
        assert y in multiset(s[1..]);
        var k :| 0 <= k < |s[1..]| && s[1..][k] == y;
        assert s[k + 1] == y;
      }
      InsertThen(s[0], t, rank, tie);
    }
  }

  /** Stability: rows of equal rank keep the order they had, so when the
      input was strictly ordered by `tie`, the output is ordered by rank
      and then by `tie`. */
  lemma {:induction false} SortByStable<T>(s: seq<T>, rank: T -> seq<Atom>, tie: T -> seq<Atom>)
    requires StrictlySortedBy(s, tie)
    ensures StrictlySortedThen(SortBy(s, rank), rank, tie)
  {
    if s != [] {
      assert StrictlySortedBy(s[1..], tie) by {
        forall i, j | 0 <= i < j < |s[1..]|
          ensures LexLess(tie(s[1..][i]), tie(s[1..][j]))
        {
          assert s[1..][i] == s[i + 1] && s[1..][j] == s[j + 1];
        }
      }
      SortByStable(s[1..], rank, tie);
      var t := SortBy(s[1..], rank);
      forall y | y in t
        ensures LexLess(tie(s[0]), tie(y))
      {
        assert y in multiset(s[1..]);
        var k :| 0 <= k < |s[1..]| && s[1..][k] == y;
        assert s[k + 1] == y;
      }
      InsertThen(s[0], t, rank, tie);
    }
  }

  /** Sorting rows that are already in order changes nothing. */
  lemma {:induction false} SortByOfSorted<T>(s: seq<T>, rank: T -> seq<Atom>)
    requires SortedBy(s, rank)
    ensures SortBy(s, rank) == s
  {
    if s != [] {
      assert SortedBy(s[1..], rank) by {
        forall i, j | 0 <= i < j < |s[1..]|
          ensures !LexLess(rank(s[1..][j]), rank(s[1..][i]))
        {
          assert s[1..][i] == s[i + 1] && s[1..][j] == s[j + 1];
        }
      }
      SortByOfSorted(s[1..], rank);
      var t := s[1..];
      assert SortBy(s, rank) == Insert(s[0], t, rank);
      assert t == [] || !LexLess(rank(t[0]), rank(s[0]));
      assert Insert(s[0], t, rank) == [s[0]] + t;
      assert s == [s[0]] + t;
    }
  }

  /** A sorted sequence with the same elements as a strictly sorted one is
      that sequence: sorting by a rank that tells the elements apart has one
      outcome. */
  lemma {:induction false} SortedUnique<T>(a: seq<T>, b: seq<T>, rank: T -> seq<Atom>)
    requires SortedBy(a, rank) && StrictlySortedBy(b, rank) && multiset(a) == multiset(b)
    ensures a == b
  {
    if a != [] {
      assert a[0] in multiset(b);
      assert b != [] && b[0] in multiset(a);
      var i :| 0 <= i < |b| && b[i] == a[0];
      var j :| 0 <= j < |a| && a[j] == b[0];
      if i > 0 {
        assert LexLess(rank(b[0]), rank(b[i]));
        if j == 0 {
          LexLessIrreflexive(rank(a[0]));
        }
        assert false;
      }
      MultisetTail(a, b);
      assert SortedBy(a[1..], rank) by {
        forall x, y | 0 <= x < y < |a[1..]|
          ensures !LexLess(rank(a[1..][y]), rank(a[1..][x]))
        {
          assert a[1..][x] == a[x + 1] && a[1..][y] == a[y + 1];
        }
      }
      assert StrictlySortedBy(b[1..], rank) by {
        forall x, y | 0 <= x < y < |b[1..]|
          ensures LexLess(rank(b[1..][x]), rank(b[1..][y]))
        {
          assert b[1..][x] == b[x + 1] && b[1..][y] == b[y + 1];
        }
      }
      SortedUnique(a[1..], b[1..], rank);
      assert a == [a[0]] + a[1..] && b == [b[0]] + b[1..];
    } else {
      assert |b| == |multiset(b)|;
    }
  }

  lemma MultisetTail<T>(a: seq<T>, b: seq<T>)
    requires a != [] && b != [] && a[0] == b[0] && multiset(a) == multiset(b)
    ensures multiset(a[1..]) == multiset(b[1..])
  {
    assert a == [a[0]] + a[1..] && b == [b[0]] + b[1..];
    assert multiset(a) == multiset{a[0]} + multiset(a[1..]);
    assert multiset(b) == multiset{a[0]} + multiset(b[1..]);
    assert multiset(a[1..]) == multiset(a) - multiset{a[0]};
    assert multiset(b[1..]) == multiset(b) - multiset{a[0]};
  }

  /** A sequence whose neighbours are in strictly increasing order is
      strictly sorted. */
  lemma {:induction false} ChainSorted<T>(a: seq<T>, rank: T -> seq<Atom>)
    requires forall i :: 0 <= i < |a| - 1 ==> LexLess(rank(a[i]), rank(a[i + 1]))
    ensures StrictlySortedBy(a, rank)
  {
    if a != [] {
      forall i | 0 <= i < |a[1..]| - 1
        ensures LexLess(rank(a[1..][i]), rank(a[1..][i + 1]))
      {
        assert a[1..][i] == a[i + 1] && a[1..][i + 1] == a[i + 2];
      }
      ChainSorted(a[1..], rank);
      forall j | 1 <= j < |a| ensures LexLess(rank(a[0]), rank(a[j])) {
        if j > 1 {
          assert a[1..][j - 1] == a[j] && a[1..][0] == a[1];
          LexLessTransitive(rank(a[0]), rank(a[1]), rank(a[j]));
        }
      }
      forall i, j | 0 < i < j < |a| ensures LexLess(rank(a[i]), rank(a[j])) {
        assert a[1..][i - 1] == a[i] && a[1..][j - 1] == a[j];
      }
    }
  }
}
