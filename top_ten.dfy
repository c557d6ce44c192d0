/** The yearly top-10 tables built from weekly chart rows
    (scrape-top-charts/filter_top_10.py).

    Both tables follow one chain of pandas steps: keep rows charted at
    position 10 or better, group by (year, artist, title, country) and
    collapse each group to one candidate (radio: the number of weeks;
    Spotify: the sum of streams), sort the candidates with a stable
    multi-column sort, and keep the first ten of every group. */
module TopTen {
  import opened Wrappers
  import opened Ordering
  import Strings

  /** A row of a radio chart file: columns position, artist, title, year, week. */
  datatype RadioRow = RadioRow(position: int, artist: string, title: string, year: int, week: int)

  /** A row of the Spotify chart file: columns position, artist, title,
      streams, daterange, year, country. */
  datatype SpotifyRow = SpotifyRow(position: int, artist: string, title: string, streams: int,
                                   daterange: string, year: int, country: string)

  /** The grouping key of both aggregations. */
  datatype ChartKey = ChartKey(year: int, artist: string, title: string, country: string)

  /** A weekly row as the aggregation sees it: its key, its chart position,
      and what it adds to its key's value. */
  datatype Observation = Observation(key: ChartKey, position: int, amount: int)

  /** A collapsed candidate: `value` is the `weekcount` (radio) or the
      `streams` sum (Spotify). */
  datatype Entry = Entry(key: ChartKey, value: int)

  /** pandas `groupby` lists its groups in ascending key order. */
  function KeyRank(k: ChartKey): seq<Atom>
  {
    [Num(k.year), Text(k.artist), Text(k.title), Text(k.country)]
  }

  function EntryKeyRank(e: Entry): seq<Atom>
  {
    KeyRank(e.key)
  }

  /** A radio week adds 1: `groupby(...)["position"].count()`. */
  function RadioObservation(r: RadioRow, country: string): Observation
  {
    Observation(ChartKey(r.year, r.artist, r.title, country), r.position, 1)
  }

  /** A Spotify week adds its streams: `groupby(...)["streams"].sum()`. */
  function SpotifyObservation(r: SpotifyRow): Observation
  {
    Observation(ChartKey(r.year, r.artist, r.title, r.country), r.position, r.streams)
  }

  // ---------------------------------------------------------------------
  // df[df.position <= 10]

  /** The rows charted at position 10 or better, in their order. */
  function TopPositions(obs: seq<Observation>): (r: seq<Observation>)
    ensures forall i :: 0 <= i < |r| ==> r[i].position <= 10
    ensures forall o :: multiset(r)[o] == if o.position <= 10 then multiset(obs)[o] else 0
  {
    if obs == [] then []
    else
      var init, o := obs[..|obs| - 1], obs[|obs| - 1];
      assert obs == init + [o];
      TopPositions(init) + (if o.position <= 10 then [o] else [])
  }

  // ---------------------------------------------------------------------
  // groupby(["year", "artist", "title", "country"]) with count() / sum()

  /** What the rows of key `k` add up to. */
  function Total(obs: seq<Observation>, k: ChartKey): int
  {
    if obs == [] then 0
    else Total(obs[..|obs| - 1], k) + (if obs[|obs| - 1].key == k then obs[|obs| - 1].amount else 0)
  }

  /** How many rows have key `k`. */
  function Weeks(obs: seq<Observation>, k: ChartKey): nat
  {
    if obs == [] then 0
    else Weeks(obs[..|obs| - 1], k) + (if obs[|obs| - 1].key == k then 1 else 0)
  }

  /** With every row adding 1, a key's total is its number of rows: the
      radio `weekcount`. */
  lemma {:induction false} TotalOfOnes(obs: seq<Observation>, k: ChartKey)
    requires forall i :: 0 <= i < |obs| ==> obs[i].amount == 1
    ensures Total(obs, k) == Weeks(obs, k)
  {
    if obs != [] {
      TotalOfOnes(obs[..|obs| - 1], k);
    }
  }

  function KeysOf(obs: seq<Observation>): set<ChartKey>
  {
    set o | o in obs :: o.key
  }

  function EntryKeys(entries: seq<Entry>): set<ChartKey>
  {
    set e | e in entries :: e.key
  }

  /** The value listed for `k`, 0 when `k` is not listed. */
  function ValueOf(entries: seq<Entry>, k: ChartKey): int
  {
    if entries == [] then 0
    else if entries[0].key == k then entries[0].value
    else ValueOf(entries[1..], k)
  }

  /** Adds `amount` to the candidate of key `k`, creating it in key order
      when it is new. */
  function AddTo(entries: seq<Entry>, k: ChartKey, amount: int): seq<Entry>
  {
    if entries == [] then [Entry(k, amount)]
    else if entries[0].key == k then [Entry(k, entries[0].value + amount)] + entries[1..]
    else if LexLess(KeyRank(k), KeyRank(entries[0].key)) then [Entry(k, amount)] + entries
    else [entries[0]] + AddTo(entries[1..], k, amount)
  }

  /** The candidates of the rows, one per key, in groupby order. */
  function Tally(obs: seq<Observation>): seq<Entry>
  {
    if obs == [] then []
    else AddTo(Tally(obs[..|obs| - 1]), obs[|obs| - 1].key, obs[|obs| - 1].amount)
  }

  lemma KeyRankInjective(a: ChartKey, b: ChartKey)
    requires KeyRank(a) == KeyRank(b)
    ensures a == b
  {
    assert KeyRank(a)[0] == KeyRank(b)[0] && KeyRank(a)[1] == KeyRank(b)[1];
    assert KeyRank(a)[2] == KeyRank(b)[2] && KeyRank(a)[3] == KeyRank(b)[3];
  }

  /** In a key-sorted list, a key ranked below the head is absent. */
  lemma {:induction false} AbsentBelowHead(entries: seq<Entry>, k: ChartKey)
    requires StrictlySortedBy(entries, EntryKeyRank)
    requires entries != [] && LexLess(KeyRank(k), KeyRank(entries[0].key))
    ensures k !in EntryKeys(entries) && ValueOf(entries, k) == 0
  {
    forall e | e in entries
      ensures e.key != k
    {
      var i :| 0 <= i < |entries| && entries[i] == e;
      if i > 0 {
        LexLessTransitive(KeyRank(k), KeyRank(entries[0].key), KeyRank(e.key));
      }
      LexLessIrreflexive(KeyRank(k));
    }
    AbsentValue(entries, k);
  }

  lemma {:induction false} AbsentValue(entries: seq<Entry>, k: ChartKey)
    requires k !in EntryKeys(entries)
    ensures ValueOf(entries, k) == 0
  {
    if entries != [] {
      assert entries[0] in entries;
      assert EntryKeys(entries[1..]) <= EntryKeys(entries) by {
        forall e | e in entries[1..] ensures e in entries { }
      }
      AbsentValue(entries[1..], k);
    }
  }

  lemma TailSorted(entries: seq<Entry>)
    requires StrictlySortedBy(entries, EntryKeyRank) && entries != []
    ensures StrictlySortedBy(entries[1..], EntryKeyRank)
  {
    forall i, j | 0 <= i < j < |entries[1..]|
      ensures LexLess(EntryKeyRank(entries[1..][i]), EntryKeyRank(entries[1..][j]))
    {
      assert entries[1..][i] == entries[i + 1] && entries[1..][j] == entries[j + 1];
    }
  }

  /** Adding to a key keeps the list key-sorted and lists the key. */
  lemma {:induction false} AddToSorted(entries: seq<Entry>, k: ChartKey, amount: int)
    requires StrictlySortedBy(entries, EntryKeyRank)
    ensures StrictlySortedBy(AddTo(entries, k, amount), EntryKeyRank)
    ensures EntryKeys(AddTo(entries, k, amount)) == EntryKeys(entries) + {k}
  {
    var r := AddTo(entries, k, amount);
    if entries == [] {
      assert EntryKeys(r) == {k} by {
        assert r[0] in r;
      }
    } else if entries[0].key == k {
      AddToExisting(entries, k, amount);
    } else if LexLess(KeyRank(k), KeyRank(entries[0].key)) {
      AddToNew(entries, k, amount);
    } else {
      TailSorted(entries);
      AddToSorted(entries[1..], k, amount);
      AddToLater(entries, k, amount);
    }
  }

  /** The step case of `AddToSorted`: the key goes past the head. */
  lemma AddToLater(entries: seq<Entry>, k: ChartKey, amount: int)
    requires StrictlySortedBy(entries, EntryKeyRank)
    requires entries != [] && entries[0].key != k && !LexLess(KeyRank(k), KeyRank(entries[0].key))
    requires StrictlySortedBy(AddTo(entries[1..], k, amount), EntryKeyRank)
    requires EntryKeys(AddTo(entries[1..], k, amount)) == EntryKeys(entries[1..]) + {k}
    ensures StrictlySortedBy(AddTo(entries, k, amount), EntryKeyRank)
    ensures EntryKeys(AddTo(entries, k, amount)) == EntryKeys(entries) + {k}
  {
    var r := AddTo(entries, k, amount);
    var rest := entries[1..];
    var t := AddTo(rest, k, amount);
    assert r == [entries[0]] + t;
    AddToLaterHead(entries, k, amount);
    forall i, j | 0 < i < j < |r|
      ensures LexLess(EntryKeyRank(r[i]), EntryKeyRank(r[j]))
    {
      assert r[i] == t[i - 1] && r[j] == t[j - 1];
    }
    AddToLaterKeys(entries, k, amount);
  }

  lemma AddToLaterKeys(entries: seq<Entry>, k: ChartKey, amount: int)
    requires entries != [] && entries[0].key != k && !LexLess(KeyRank(k), KeyRank(entries[0].key))
    requires EntryKeys(AddTo(entries[1..], k, amount)) == EntryKeys(entries[1..]) + {k}
    ensures EntryKeys(AddTo(entries, k, amount)) == EntryKeys(entries) + {k}
  {
    var rest := entries[1..];
    var t := AddTo(rest, k, amount);
    assert AddTo(entries, k, amount) == [entries[0]] + t;
    assert entries == [entries[0]] + rest;
    EntryKeysCons(entries[0], rest);
    EntryKeysCons(entries[0], t);
  }

  lemma EntryKeysCons(e: Entry, s: seq<Entry>)
    ensures EntryKeys([e] + s) == {e.key} + EntryKeys(s)
  {
  }

  /** In the step case the head stays first. */
  lemma AddToLaterHead(entries: seq<Entry>, k: ChartKey, amount: int)
    requires StrictlySortedBy(entries, EntryKeyRank)
    requires entries != [] && entries[0].key != k && !LexLess(KeyRank(k), KeyRank(entries[0].key))
    requires EntryKeys(AddTo(entries[1..], k, amount)) == EntryKeys(entries[1..]) + {k}
    ensures var r := AddTo(entries, k, amount);
      forall j :: 0 < j < |r| ==> LexLess(EntryKeyRank(r[0]), EntryKeyRank(r[j]))
  {
    var r := AddTo(entries, k, amount);
    var rest := entries[1..];
    var t := AddTo(rest, k, amount);
    assert r == [entries[0]] + t;
    var h := KeyRank(entries[0].key);
    LexLessTotal(KeyRank(k), h);
    assert LexLess(h, KeyRank(k));
    forall j | 0 < j < |r|
      ensures LexLess(h, EntryKeyRank(r[j]))
    {
      var x := t[j - 1];
      assert r[j] == x;
      assert x.key in EntryKeys(t);
      if x.key != k {
        assert x.key in EntryKeys(rest);
        var m :| 0 <= m < |rest| && rest[m].key == x.key;
        assert entries[m + 1] == rest[m];
        assert LexLess(h, KeyRank(rest[m].key));
      }
    }
  }

  lemma AddToExisting(entries: seq<Entry>, k: ChartKey, amount: int)
    requires StrictlySortedBy(entries, EntryKeyRank)
    requires entries != [] && entries[0].key == k
    ensures StrictlySortedBy(AddTo(entries, k, amount), EntryKeyRank)
    ensures EntryKeys(AddTo(entries, k, amount)) == EntryKeys(entries)
  {
    var r := AddTo(entries, k, amount);
    assert r[1..] == entries[1..];
    forall i, j | 0 <= i < j < |r|
      ensures LexLess(EntryKeyRank(r[i]), EntryKeyRank(r[j]))
    {
      assert EntryKeyRank(r[i]) == EntryKeyRank(entries[i]);
      assert r[j] == entries[j];
    }
    forall c | c in EntryKeys(entries) ensures c in EntryKeys(r) {
      var e :| e in entries && e.key == c;
      var i :| 0 <= i < |entries| && entries[i] == e;
      assert r[i].key == c;
    }
    forall c | c in EntryKeys(r) ensures c in EntryKeys(entries) {
      var e :| e in r && e.key == c;
      var i :| 0 <= i < |r| && r[i] == e;
      assert entries[i].key == c;
    }
  }

  lemma AddToNew(entries: seq<Entry>, k: ChartKey, amount: int)
    requires StrictlySortedBy(entries, EntryKeyRank)
    requires entries != [] && entries[0].key != k && LexLess(KeyRank(k), KeyRank(entries[0].key))
    ensures StrictlySortedBy(AddTo(entries, k, amount), EntryKeyRank)
    ensures EntryKeys(AddTo(entries, k, amount)) == EntryKeys(entries) + {k}
  {
    var r := AddTo(entries, k, amount);
    assert r == [Entry(k, amount)] + entries;
    forall i, j | 0 <= i < j < |r|
      ensures LexLess(EntryKeyRank(r[i]), EntryKeyRank(r[j]))
    {
      if i == 0 && j > 1 {
        LexLessTransitive(KeyRank(k), KeyRank(entries[0].key), KeyRank(entries[j - 1].key));
      }
      if i > 0 {
        assert r[i] == entries[i - 1] && r[j] == entries[j - 1];
      }
    }
    assert r[0] in r;
    forall e | e in entries ensures e in r { }
    forall e | e in r && e != r[0] ensures e in entries { }
  }

  /** Adding to a key changes that key's value and no other. */
  lemma {:induction false} AddToValue(entries: seq<Entry>, k: ChartKey, amount: int, k': ChartKey)
    requires StrictlySortedBy(entries, EntryKeyRank)
    ensures ValueOf(AddTo(entries, k, amount), k') == ValueOf(entries, k') + (if k' == k then amount else 0)
  {
    var r := AddTo(entries, k, amount);
    if entries == [] {
    } else if entries[0].key == k {
      if k' != k {
        assert r[1..] == entries[1..];
      }
    } else if LexLess(KeyRank(k), KeyRank(entries[0].key)) {
      AbsentBelowHead(entries, k);
      assert r[1..] == entries;
    } else {
      TailSorted(entries);
      AddToValue(entries[1..], k, amount, k');
      assert r[1..] == AddTo(entries[1..], k, amount);
    }
  }

  /** The groupby step: one candidate per key of the rows, in ascending
      key order, holding what that key's rows add up to. */
  lemma {:induction false} TallyCorrect(obs: seq<Observation>)
    ensures StrictlySortedBy(Tally(obs), EntryKeyRank)
    ensures EntryKeys(Tally(obs)) == KeysOf(obs)
    ensures forall k :: ValueOf(Tally(obs), k) == Total(obs, k)
  {
    if obs != [] {
      var init, o := obs[..|obs| - 1], obs[|obs| - 1];
      TallyCorrect(init);
      AddToSorted(Tally(init), o.key, o.amount);
      forall k ensures ValueOf(Tally(obs), k) == Total(obs, k) {
        AddToValue(Tally(init), o.key, o.amount, k);
      }
      assert obs == init + [o];
      assert KeysOf(obs) == KeysOf(init) + {o.key} by {
        forall c | c in KeysOf(obs) ensures c in KeysOf(init) + {o.key} {
          var p :| p in obs && p.key == c;
          if p != o {
            assert p in init;
          }
        }
      }
    }
  }

  /** In a key-sorted list, each listed candidate is the value of its key. */
  lemma {:induction false} ValueOfMember(entries: seq<Entry>, e: Entry)
    requires StrictlySortedBy(entries, EntryKeyRank)
    requires e in entries
    ensures ValueOf(entries, e.key) == e.value
  {
    if entries[0] != e {
      TailSorted(entries);
      if entries[0].key == e.key {
        var i :| 0 <= i < |entries| && entries[i] == e;
        assert i > 0;
        LexLessIrreflexive(KeyRank(e.key));
        assert false;
      }
      ValueOfMember(entries[1..], e);
    }
  }

  /** The candidates are exactly the pairs of a row key and its total. */
  lemma TallyMembers(obs: seq<Observation>, e: Entry)
    ensures e in Tally(obs) <==> e.key in KeysOf(obs) && e.value == Total(obs, e.key)
  {
    var t := Tally(obs);
    TallyCorrect(obs);
    if e in t {
      ValueOfMember(t, e);
    } else if e.key in KeysOf(obs) {
      assert e.key in EntryKeys(t);
      var d :| d in t && d.key == e.key;
      ValueOfMember(t, d);
    }
  }

  // ---------------------------------------------------------------------
  // groupby(group).head(n)

  /** How many rows of `s` lie in group `g`. */
  function CountGroup(s: seq<Entry>, g: seq<Atom>, group: Entry -> seq<Atom>): nat
  {
    if s == [] then 0
    else CountGroup(s[..|s| - 1], g, group) + (if group(s[|s| - 1]) == g then 1 else 0)
  }

  /** Row `i` is among the first `n` of its group. */
  predicate KeptAt(s: seq<Entry>, n: nat, group: Entry -> seq<Atom>, i: int)
    requires 0 <= i < |s|
  {
    CountGroup(s[..i], group(s[i]), group) < n
  }

  /** `groupby(group).head(n)`: the first `n` rows of every group, in
      their order. */
  function HeadPerGroup(s: seq<Entry>, n: nat, group: Entry -> seq<Atom>): (r: seq<Entry>)
    ensures multiset(r) <= multiset(s)
  {
    if s == [] then []
    else
      var init, x := s[..|s| - 1], s[|s| - 1];
      assert s == init + [x];
      HeadPerGroup(init, n, group) + (if CountGroup(init, group(x), group) < n then [x] else [])
  }

  lemma {:induction false} CountGroupAppend(a: seq<Entry>, b: seq<Entry>, g: seq<Atom>, group: Entry -> seq<Atom>)
    ensures CountGroup(a + b, g, group) == CountGroup(a, g, group) + CountGroup(b, g, group)
  {
    if b == [] {
      assert a + b == a;
    } else {
      assert (a + b)[..|a + b| - 1] == a + b[..|b| - 1];
      CountGroupAppend(a, b[..|b| - 1], g, group);
    }
  }

  /** Group counts depend on which rows there are, not on their order. */
  lemma {:induction false} CountGroupPermutation(a: seq<Entry>, b: seq<Entry>, g: seq<Atom>, group: Entry -> seq<Atom>)
    requires multiset(a) == multiset(b)
    ensures CountGroup(a, g, group) == CountGroup(b, g, group)
  {
    if a != [] {
      var init, x := a[..|a| - 1], a[|a| - 1];
      assert x in multiset(b);
      var k :| 0 <= k < |b| && b[k] == x;
      var rest := b[..k] + b[k + 1..];
      RemoveLast(a);
      RemoveAt(b, k);
      CountGroupPermutation(init, rest, g, group);
      CountGroupAppend(b[..k], b[k + 1..], g, group);
      CountGroupAppend(b[..k] + [x], b[k + 1..], g, group);
      CountGroupAppend(b[..k], [x], g, group);
      CountGroupSingle(x, g, group);
    }
  }

  lemma RemoveLast<T>(a: seq<T>)
    requires a != []
    ensures multiset(a[..|a| - 1]) == multiset(a) - multiset{a[|a| - 1]}
  {
    assert a == a[..|a| - 1] + [a[|a| - 1]];
  }

  lemma RemoveAt<T>(b: seq<T>, k: int)
    requires 0 <= k < |b|
    ensures b == b[..k] + [b[k]] + b[k + 1..]
    ensures multiset(b[..k] + b[k + 1..]) == multiset(b) - multiset{b[k]}
  {
    assert b == b[..k] + [b[k]] + b[k + 1..];
    assert multiset(b) == multiset(b[..k]) + multiset{b[k]} + multiset(b[k + 1..]);
  }


  lemma {:induction false} CountGroupPrefix(s: seq<Entry>, i: int, j: int, g: seq<Atom>, group: Entry -> seq<Atom>)
    requires 0 <= i <= j <= |s|
    ensures CountGroup(s[..i], g, group) <= CountGroup(s[..j], g, group)
    ensures j < |s| ==> CountGroup(s[..j + 1], g, group) ==
                        CountGroup(s[..j], g, group) + (if group(s[j]) == g then 1 else 0)
  {
    if j < |s| {
      assert s[..j + 1][..j] == s[..j];
    }
    if i < j {
      CountGroupPrefix(s, i, j - 1, g, group);
      assert s[..j][..j - 1] == s[..j - 1];
    }
  }

  lemma CountGroupSingle(x: Entry, g: seq<Atom>, group: Entry -> seq<Atom>)
    ensures CountGroup([x], g, group) == if group(x) == g then 1 else 0
  {
    assert [x][..0] == [];
  }

  /** Every group keeps `min(n, size)` rows: at most `n`, and all of a
      smaller group. */
  lemma {:induction false} HeadCount(s: seq<Entry>, n: nat, group: Entry -> seq<Atom>, g: seq<Atom>)
    ensures CountGroup(HeadPerGroup(s, n, group), g, group) ==
            if CountGroup(s, g, group) < n then CountGroup(s, g, group) else n
  {
    if s != [] {
      var init, x := s[..|s| - 1], s[|s| - 1];
      var h := HeadPerGroup(init, n, group);
      var tail := if CountGroup(init, group(x), group) < n then [x] else [];
      assert HeadPerGroup(s, n, group) == h + tail;
      assert CountGroup(s, g, group) == CountGroup(init, g, group) + (if group(x) == g then 1 else 0);
      HeadCount(init, n, group, g);
      CountGroupAppend(h, tail, g, group);
      CountGroupSingle(x, g, group);
    }
  }

  /** A row is kept exactly when, at some position, fewer than `n` rows of
      its group come before it. */
  lemma {:induction false} HeadMember(s: seq<Entry>, n: nat, group: Entry -> seq<Atom>, x: Entry)
    ensures x in HeadPerGroup(s, n, group) <==> exists i :: 0 <= i < |s| && s[i] == x && KeptAt(s, n, group, i)
  {
    if s != [] {
      var init, y := s[..|s| - 1], s[|s| - 1];
      HeadMember(init, n, group, x);
      assert s[..|s| - 1] == init;
      if x in HeadPerGroup(s, n, group) {
        if x in HeadPerGroup(init, n, group) {
          var i :| 0 <= i < |init| && init[i] == x && KeptAt(init, n, group, i);
          assert s[..i] == init[..i];
          assert s[i] == x && KeptAt(s, n, group, i);
        } else {
          assert x == y && KeptAt(s, n, group, |s| - 1);
        }
      }
      if exists i :: 0 <= i < |s| && s[i] == x && KeptAt(s, n, group, i) {
        var i :| 0 <= i < |s| && s[i] == x && KeptAt(s, n, group, i);
        if i < |init| {
          assert s[..i] == init[..i];
          assert init[i] == x && KeptAt(init, n, group, i);
        }
      }
    }
  }

  /** Keeping a prefix of each group preserves the order of the rows. */
  lemma {:induction false} HeadOrder(s: seq<Entry>, n: nat, group: Entry -> seq<Atom>,
                                     rank: Entry -> seq<Atom>, tie: Entry -> seq<Atom>)
    requires StrictlySortedThen(s, rank, tie)
    ensures StrictlySortedThen(HeadPerGroup(s, n, group), rank, tie)
  {
    if s != [] {
      var init, x := s[..|s| - 1], s[|s| - 1];
      assert StrictlySortedThen(init, rank, tie) by {
        forall i, j | 0 <= i < j < |init| ensures ThenLess(rank, tie, init[i], init[j]) {
          assert init[i] == s[i] && init[j] == s[j];
        }
      }
      HeadOrder(init, n, group, rank, tie);
      var h := HeadPerGroup(init, n, group);
      if CountGroup(init, group(x), group) < n {
        var r := h + [x];
        forall i, j | 0 <= i < j < |r| ensures ThenLess(rank, tie, r[i], r[j]) {
          if j == |h| {
            assert r[i] in multiset(h);
            assert r[i] in multiset(init);
            var m :| 0 <= m < |init| && init[m] == r[i];
            assert s[m] == r[i];
          } else {
            assert r[i] == h[i] && r[j] == h[j];
          }
        }
      }
    }
  }

  /** No dropped row outranks a kept row of its group: when the rows are
      in rank order and the rank is the group followed by the negated
      value, a kept row's value is at least any dropped row's value. */
  lemma HeadKeepsLargest(s: seq<Entry>, n: nat, group: Entry -> seq<Atom>, rank: Entry -> seq<Atom>,
                         x: Entry, y: Entry)
    requires SortedBy(s, rank)
    requires forall e :: rank(e) == group(e) + [Num(-e.value)]
    requires x in HeadPerGroup(s, n, group)
    requires y in s && y !in HeadPerGroup(s, n, group)
    requires group(x) == group(y)
    ensures y.value <= x.value
  {
    HeadMember(s, n, group, x);
    HeadMember(s, n, group, y);
    var i :| 0 <= i < |s| && s[i] == x && KeptAt(s, n, group, i);
    var j :| 0 <= j < |s| && s[j] == y;
    KeptBeforeDropped(s, n, group, i, j);
    LexLessAppend(group(x), group(y), [Num(-y.value)], [Num(-x.value)]);
    assert !LexLess(rank(y), rank(x));
  }

  /** A kept row comes before every dropped row of its group. */
  lemma KeptBeforeDropped(s: seq<Entry>, n: nat, group: Entry -> seq<Atom>, i: int, j: int)
    requires 0 <= i < |s| && 0 <= j < |s| && group(s[i]) == group(s[j])
    requires KeptAt(s, n, group, i) && !KeptAt(s, n, group, j)
    ensures i < j
  {
    if j < i {
      CountGroupPrefix(s, j + 1, i, group(s[i]), group);
      CountGroupPrefix(s, j, j, group(s[i]), group);
      assert false;
    }
  }

  /** Within one group, values never increase along a rank-ordered list. */
  lemma GroupValuesNonIncreasing(s: seq<Entry>, group: Entry -> seq<Atom>, rank: Entry -> seq<Atom>, i: int, j: int)
    requires SortedBy(s, rank)
    requires forall e :: rank(e) == group(e) + [Num(-e.value)]
    requires 0 <= i < j < |s| && group(s[i]) == group(s[j])
    ensures s[j].value <= s[i].value
  {
    LexLessAppend(group(s[j]), group(s[i]), [Num(-s[j].value)], [Num(-s[i].value)]);
  }

  lemma ThenSorted(s: seq<Entry>, rank: Entry -> seq<Atom>, tie: Entry -> seq<Atom>)
    requires StrictlySortedThen(s, rank, tie)
    ensures SortedBy(s, rank)
  {
    forall i, j | 0 <= i < j < |s| ensures !LexLess(rank(s[j]), rank(s[i])) {
      if LexLess(rank(s[j]), rank(s[i])) {
        LexLessIrreflexive(rank(s[i]));
        if LexLess(rank(s[i]), rank(s[j])) {
          LexLessTransitive(rank(s[i]), rank(s[j]), rank(s[i]));
        }
        assert false;
      }
    }
  }

  // ---------------------------------------------------------------------
  // The two aggregations

  /** Radio candidates sort by year ascending, then weekcount descending. */
  function RadioGroup(e: Entry): seq<Atom>
  {
    [Num(e.key.year)]
  }

  function RadioRank(e: Entry): seq<Atom>
  {
    RadioGroup(e) + [Num(-e.value)]
  }

  /** Spotify candidates sort by year, then country, then streams descending;
      the saved tables of both kinds use this order too. */
  function SpotifyGroup(e: Entry): seq<Atom>
  {
    [Num(e.key.year), Text(e.key.country)]
  }

  function SpotifyRank(e: Entry): seq<Atom>
  {
    SpotifyGroup(e) + [Num(-e.value)]
  }

  /** The shared chain: tally the rows, stable-sort by `rank`, keep `n` per group. */
  function TopN(rows: seq<Observation>, n: nat, group: Entry -> seq<Atom>, rank: Entry -> seq<Atom>): seq<Entry>
  {
    HeadPerGroup(SortBy(Tally(rows), rank), n, group)
  }

  /** The candidates are exactly one (key, total) pair per key of the rows. */
  lemma TopNCandidates(rows: seq<Observation>, n: nat, group: Entry -> seq<Atom>, rank: Entry -> seq<Atom>, e: Entry)
    ensures e in Tally(rows) <==> e.key in KeysOf(rows) && e.value == Total(rows, e.key)
    ensures e in TopN(rows, n, group, rank) ==> e in Tally(rows)
  {
    TallyMembers(rows, e);
    if e in TopN(rows, n, group, rank) {
      assert e in multiset(SortBy(Tally(rows), rank));
    }
  }

  /** The kept rows are in rank order, ties in groupby key order; each key
      appears once; within a group the values never increase. */
  lemma TopNOrder(rows: seq<Observation>, n: nat, group: Entry -> seq<Atom>, rank: Entry -> seq<Atom>)
    requires forall e :: rank(e) == group(e) + [Num(-e.value)]
    ensures var out := TopN(rows, n, group, rank);
      && (forall i, j :: 0 <= i < j < |out| ==> ThenLess(rank, EntryKeyRank, out[i], out[j]))
      && (forall i, j :: 0 <= i < j < |out| ==> out[i].key != out[j].key)
      && (forall i, j :: 0 <= i < j < |out| && group(out[i]) == group(out[j]) ==> out[j].value <= out[i].value)
  {
    var cands := Tally(rows);
    var sorted := SortBy(cands, rank);
    var out := HeadPerGroup(sorted, n, group);
    TallyCorrect(rows);
    SortByStable(cands, rank, EntryKeyRank);
    HeadOrder(sorted, n, group, rank, EntryKeyRank);
    ThenSorted(out, rank, EntryKeyRank);
    forall i, j | 0 <= i < j < |out| ensures out[i].key != out[j].key {
      if out[i].key == out[j].key {
        assert out[i] in multiset(sorted) && out[j] in multiset(sorted);
        ValueOfMember(cands, out[i]);
        ValueOfMember(cands, out[j]);
        ThenLessStrict(rank, EntryKeyRank, out[i], out[i], out[i]);
        assert false;
      }
    }
    forall i, j | 0 <= i < j < |out| && group(out[i]) == group(out[j])
      ensures out[j].value <= out[i].value
    {
      GroupValuesNonIncreasing(out, group, rank, i, j);
    }
  }

  /** Every group keeps `min(n, candidates in the group)` rows: at most
      `n`, and all of a smaller group, with no padding. */
  lemma TopNCounts(rows: seq<Observation>, n: nat, group: Entry -> seq<Atom>, rank: Entry -> seq<Atom>, g: seq<Atom>)
    ensures var c := CountGroup(Tally(rows), g, group);
      CountGroup(TopN(rows, n, group, rank), g, group) == if c < n then c else n
  {
    var sorted := SortBy(Tally(rows), rank);
    HeadCount(sorted, n, group, g);
    CountGroupPermutation(sorted, Tally(rows), g, group);
  }

  /** No dropped candidate has a larger value than a kept one of its group. */
  lemma TopNLargest(rows: seq<Observation>, n: nat, group: Entry -> seq<Atom>, rank: Entry -> seq<Atom>, x: Entry, y: Entry)
    requires forall e :: rank(e) == group(e) + [Num(-e.value)]
    requires x in TopN(rows, n, group, rank)
    requires y in Tally(rows) && y !in TopN(rows, n, group, rank)
    requires group(x) == group(y)
    ensures y.value <= x.value
  {
    var sorted := SortBy(Tally(rows), rank);
    SortBySorted(Tally(rows), rank);
    assert y in multiset(sorted);
    HeadKeepsLargest(sorted, n, group, rank, x, y);
  }

  // ---------------------------------------------------------------------
  // filter_spotify_charts / save_filtered_spotify_charts

  function SpotifyObservations(rows: seq<SpotifyRow>): seq<Observation>
  {
    seq(|rows|, i requires 0 <= i < |rows| => SpotifyObservation(rows[i]))
  }

  /** The yearly Spotify top 10 per country. */
  function FilterSpotifyCharts(rows: seq<SpotifyRow>): seq<Entry>
  {
    TopN(TopPositions(SpotifyObservations(rows)), 10, SpotifyGroup, SpotifyRank)
  }

  /** Every kept Spotify candidate is a key of a top-10 row, its `streams`
      is the sum over that key's top-10 rows, each key appears once, and the
      rows come in year, country, streams-descending order with ties in
      groupby key order; a (year, country) group keeps min(10, its size)
      candidates, never fewer than a dropped candidate outranks. */
  lemma SpotifyTopTen(rows: seq<SpotifyRow>, e: Entry)
    ensures var out := FilterSpotifyCharts(rows);
            var top := TopPositions(SpotifyObservations(rows));
      && (e in out ==> e.key in KeysOf(top) && e.value == Total(top, e.key))
      && (forall i, j :: 0 <= i < j < |out| ==> ThenLess(SpotifyRank, EntryKeyRank, out[i], out[j]))
      && (forall i, j :: 0 <= i < j < |out| ==> out[i].key != out[j].key)
      && (forall i, j :: 0 <= i < j < |out| && SpotifyGroup(out[i]) == SpotifyGroup(out[j]) ==> out[j].value <= out[i].value)
      && CountGroup(out, SpotifyGroup(e), SpotifyGroup) <= 10
  {
    var top := TopPositions(SpotifyObservations(rows));
    TopNCandidates(top, 10, SpotifyGroup, SpotifyRank, e);
    TopNOrder(top, 10, SpotifyGroup, SpotifyRank);
    TopNCounts(top, 10, SpotifyGroup, SpotifyRank, SpotifyGroup(e));
  }

  /** `save_filtered_spotify_charts`: the saved table is the filtered table
      sorted once more by year, country and streams descending, which it
      already is: the second sort moves no row. */
  function SaveFilteredSpotifyCharts(rows: seq<SpotifyRow>): (r: seq<Entry>)
    ensures r == FilterSpotifyCharts(rows)
  {
    var out := FilterSpotifyCharts(rows);
    TopNOrder(TopPositions(SpotifyObservations(rows)), 10, SpotifyGroup, SpotifyRank);
    ThenSorted(out, SpotifyRank, EntryKeyRank);
    SortByOfSorted(out, SpotifyRank);
    SortBy(out, SpotifyRank)
  }

  // ---------------------------------------------------------------------
  // filter_radio_charts / save_filtered_radio_charts

  /** A radio chart file: its path and the rows `read_csv` gives for it. */
  datatype RadioFile = RadioFile(path: string, rows: seq<RadioRow>)

  /** `filename.split("_")[2]`; `None` is the `IndexError` of a path with
      fewer than three `_`-separated pieces. */
  function PathCountry(path: string): (r: Option<string>)
    ensures r.Some? ==> '_' !in r.value
  {
    var pieces := Strings.Split(path, '_');
    if |pieces| >= 3 then Some(pieces[2]) else None
  }

  /** The country is the third piece of the path. */
  lemma PathCountryOfJoin(pieces: seq<string>)
    requires |pieces| >= 3
    requires forall i :: 0 <= i < |pieces| ==> '_' !in pieces[i]
    ensures PathCountry(Strings.Join(pieces, '_')) == Some(pieces[2])
  {
    Strings.SplitJoin(pieces, '_');
  }

  lemma CapitalizeLowercase(s: string)
    requires s != [] && forall i :: 0 <= i < |s| ==> 'a' <= s[i] <= 'z'
    ensures Strings.Capitalize(s) == [Strings.UpperChar(s[0])] + s[1..]
  {
    assert Strings.Lower(s[1..]) == s[1..];
  }

  /** The radio files are named `data/charts/charts_radio_<country>_2017_2021.csv`
      (country denmark, finland, norway or sweden): the dict key is the
      country and the row label is the country capitalised (Denmark, ...). */
  lemma RadioChartLabel(country: string)
    requires country != [] && forall i :: 0 <= i < |country| ==> 'a' <= country[i] <= 'z'
    ensures PathCountry("data/charts/charts_radio_" + country + "_2017_2021.csv") == Some(country)
    ensures Strings.Capitalize(country) == [Strings.UpperChar(country[0])] + country[1..]
  {
    CapitalizeLowercase(country);
    assert '_' !in country;
    var pieces := ["data/charts/charts", "radio", country, "2017", "2021.csv"];
    JoinFive(pieces, '_');
    assert Strings.Join(pieces, '_') == "data/charts/charts_radio_" + country + "_2017_2021.csv";
    PathCountryOfJoin(pieces);
  }

  lemma JoinFive(p: seq<string>, sep: char)
    requires |p| == 5
    ensures Strings.Join(p, sep) == p[0] + [sep] + p[1] + [sep] + p[2] + [sep] + p[3] + [sep] + p[4]
  {
    var p1, p2, p3 := p[1..], p[2..], p[3..];
    assert p1[1..] == p2 && p2[1..] == p3 && p3[1..] == [p[4]];
    assert Strings.Join(p3, sep) == p[3] + [sep] + p[4];
    assert Strings.Join(p2, sep) == p[2] + [sep] + p[3] + [sep] + p[4];
    assert Strings.Join(p1, sep) == p[1] + [sep] + p[2] + [sep] + p[3] + [sep] + p[4];
  }

  function RadioObservations(rows: seq<RadioRow>, country: string): seq<Observation>
  {
    seq(|rows|, i requires 0 <= i < |rows| => RadioObservation(rows[i], country))
  }

  /** A Python dict: its keys in insertion order and its items. Assigning
      to a present key keeps the key's place. */
  datatype Dict<V> = Dict(keys: seq<string>, items: map<string, V>)
  {
    predicate Valid()
    {
      && (forall i, j :: 0 <= i < j < |keys| ==> keys[i] != keys[j])
      && items.Keys == set k | k in keys
    }

    /** `d[k] = v`. */
    function Put(k: string, v: V): (d: Dict<V>)
      requires Valid()
      ensures d.Valid() && d.items == items[k := v]
      ensures k in keys ==> d.keys == keys
      ensures k !in keys ==> d.keys == keys + [k]
    {
      if k in items then Dict(keys, items[k := v]) else Dict(keys + [k], items[k := v])
    }
  }

  function EmptyDict<V>(): (d: Dict<V>)
    ensures d.Valid() && d.keys == []
  {
    Dict([], map[])
  }

  /** The first loop of `filter_radio_charts`: per file, the country's
      top-10 weekly rows; a later file of the same country replaces an
      earlier one. `None` when a path has no third piece. */
  function WeeklyTables(charts: seq<RadioFile>): (r: Option<Dict<seq<Observation>>>)
    ensures r.Some? ==> r.value.Valid()
    ensures r.Some? ==> (r.value.keys == [] <==> charts == [])
  {
    if charts == [] then Some(EmptyDict())
    else
      var last := charts[|charts| - 1];
      match WeeklyTables(charts[..|charts| - 1])
      case None => None
      case Some(d) =>
        match PathCountry(last.path)
        case None => None
        case Some(c) => Some(d.Put(c, TopPositions(RadioObservations(last.rows, Strings.Capitalize(c)))))
  }

  lemma {:induction false} WeeklyTablesFails(charts: seq<RadioFile>, i: nat)
    requires i <= |charts| && WeeklyTables(charts[..i]).None?
    ensures WeeklyTables(charts).None?
  {
    if i < |charts| {
      assert charts[..|charts| - 1][..i] == charts[..i];
      WeeklyTablesFails(charts[..|charts| - 1], i);
    } else {
      assert charts[..i] == charts;
    }
  }

  /** A country's weekly rows ranked by year, then weekcount descending. */
  function RankedWeeks(top: seq<Observation>): seq<Entry>
  {
    SortBy(Tally(top), RadioRank)
  }

  /** The tables `filter_radio_charts` returns, per country key. */
  function RadioTables(charts: seq<RadioFile>): Result<Dict<seq<Entry>>, string>
  {
    match WeeklyTables(charts)
    case None => Err("IndexError")
    case Some(w) => Ok(TopTenTables(w))
  }

  /** Per country, the ten rows per year of the ranked weekly table. */
  function TopTenTables(w: Dict<seq<Observation>>): Dict<seq<Entry>>
  {
    Dict(w.keys, map c | c in w.items :: HeadPerGroup(RankedWeeks(w.items[c]), 10, RadioGroup))
  }

  /** Assigning to the `k`-th key leaves the key order and every other key's item alone. */
  lemma PutKeepsOthers<V>(d: Dict<V>, k: nat, v: V)
    requires d.Valid() && k < |d.keys|
    ensures d.Put(d.keys[k], v).keys == d.keys
    ensures forall m :: 0 <= m < |d.keys| && m != k ==> d.Put(d.keys[k], v).items[d.keys[m]] == d.items[d.keys[m]]
  {
  }

  /** Appending the next key of `keys` to a dict holding the keys before it. */
  lemma PutNewKey<V>(d: Dict<V>, keys: seq<string>, j: nat, v: V)
    requires d.Valid() && j < |keys| && d.keys == keys[..j]
    requires forall a, b :: 0 <= a < b < |keys| ==> keys[a] != keys[b]
    ensures d.Put(keys[j], v).keys == keys[..j + 1]
    ensures forall m :: 0 <= m < j ==> d.Put(keys[j], v).items[keys[m]] == d.items[keys[m]]
  {
    assert keys[j] !in keys[..j];
    assert keys[..j + 1] == keys[..j] + [keys[j]];
  }

  lemma TopTenTablesFrom(weekly: Dict<seq<Observation>>, tables: Dict<seq<Entry>>)
    requires weekly.Valid() && tables.Valid() && tables.keys == weekly.keys
    requires forall m :: 0 <= m < |tables.keys| ==>
      tables.items[tables.keys[m]] == HeadPerGroup(RankedWeeks(weekly.items[tables.keys[m]]), 10, RadioGroup)
    ensures TopTenTables(weekly) == tables
  {
    var expected := TopTenTables(weekly);
    assert tables.items == expected.items by {
      forall c | c in tables.items ensures tables.items[c] == expected.items[c] {
        var m :| 0 <= m < |tables.keys| && tables.keys[m] == c;
      }
    }
  }

  /** `filter_radio_charts` over the files' rows: label and filter every
      file, then rank every country's table, then keep ten per year; the
      three loops of the function, in order, on one dict. */
  method FilterRadioCharts(charts: seq<RadioFile>) returns (r: Result<Dict<seq<Entry>>, string>)
    ensures r == RadioTables(charts)
  {
    var weekly := LabelRadioFiles(charts);
    if weekly.None? {
      return Err("IndexError");
    }
    var tables := RankTables(weekly.value);
    KeepTopTen(tables, weekly.value);
    TopTenTablesFrom(weekly.value, tables.dict);
    r := Ok(tables.dict);
  }

  /** First loop: per file, the country key and its labelled top-10 rows. */
  method LabelRadioFiles(charts: seq<RadioFile>) returns (weekly: Option<Dict<seq<Observation>>>)
    ensures weekly == WeeklyTables(charts)
  {
    var d: Dict<seq<Observation>> := EmptyDict();
    for i := 0 to |charts|
      invariant WeeklyTables(charts[..i]) == Some(d)
    {
      assert charts[..i + 1][..i] == charts[..i];
      var country := PathCountry(charts[i].path);
      if country.None? {
        WeeklyTablesFails(charts, i + 1);
        return None;
      }
      var df := RadioObservations(charts[i].rows, Strings.Capitalize(country.value));
      d := d.Put(country.value, TopPositions(df));
    }
    assert charts[..|charts|] == charts;
    weekly := Some(d);
  }

  /** The dict `filter_radio_charts` updates in place. */
  class TableDict {
    var dict: Dict<seq<Entry>>

    constructor ()
      ensures dict == EmptyDict()
    {
      dict := EmptyDict();
    }
  }

  /** Second loop: every country's table tallied and ranked, keys in the
      same order. */
  method RankTables(weekly: Dict<seq<Observation>>) returns (tables: TableDict)
    requires weekly.Valid()
    ensures fresh(tables)
    ensures tables.dict.Valid() && tables.dict.keys == weekly.keys
    ensures forall m :: 0 <= m < |tables.dict.keys| ==>
      tables.dict.items[tables.dict.keys[m]] == RankedWeeks(weekly.items[tables.dict.keys[m]])
  {
    tables := new TableDict();
    for j := 0 to |weekly.keys|
      invariant tables.dict.Valid() && tables.dict.keys == weekly.keys[..j]
      invariant forall m :: 0 <= m < j ==> tables.dict.items[weekly.keys[m]] == RankedWeeks(weekly.items[weekly.keys[m]])
    {
      var country := weekly.keys[j];
      ghost var before := tables.dict;
      PutNewKey(before, weekly.keys, j, RankedWeeks(weekly.items[country]));
      tables.dict := tables.dict.Put(country, RankedWeeks(weekly.items[country]));
    }
    assert weekly.keys[..|weekly.keys|] == weekly.keys;
  }

  /** Third loop: every country's table cut to ten rows per year. */
  method KeepTopTen(tables: TableDict, ghost weekly: Dict<seq<Observation>>)
    requires weekly.Valid() && tables.dict.Valid() && tables.dict.keys == weekly.keys
    requires forall m :: 0 <= m < |tables.dict.keys| ==>
      tables.dict.items[tables.dict.keys[m]] == RankedWeeks(weekly.items[tables.dict.keys[m]])
    modifies tables
    ensures tables.dict.Valid() && tables.dict.keys == weekly.keys
    ensures forall m :: 0 <= m < |tables.dict.keys| ==>
      tables.dict.items[tables.dict.keys[m]] == HeadPerGroup(old(tables.dict.items[tables.dict.keys[m]]), 10, RadioGroup)
  {
    ghost var start := tables.dict;
    for k := 0 to |tables.dict.keys|
      invariant tables.dict.Valid() && tables.dict.keys == start.keys
      invariant forall m :: 0 <= m < |start.keys| ==>
        tables.dict.items[start.keys[m]] ==
          if m < k then HeadPerGroup(start.items[start.keys[m]], 10, RadioGroup)
          else start.items[start.keys[m]]
    {
      var country := tables.dict.keys[k];
      ghost var before := tables.dict;
      tables.dict := tables.dict.Put(country, HeadPerGroup(tables.dict.items[country], 10, RadioGroup));
      PutKeepsOthers(before, k, HeadPerGroup(before.items[country], 10, RadioGroup));
    }
  }

  /** Every week in a radio country's top ten counts once and carries the
      country. */
  lemma RadioTopWeeks(rows: seq<RadioRow>, country: string)
    ensures var top := TopPositions(RadioObservations(rows, country));
      forall i :: 0 <= i < |top| ==> top[i].amount == 1 && top[i].key.country == country
  {
    var obs := RadioObservations(rows, country);
    var top := TopPositions(obs);
    forall i | 0 <= i < |top| ensures top[i].amount == 1 && top[i].key.country == country {
      assert top[i] in multiset(top);
      assert top[i] in multiset(obs);
    }
  }

  /** Every radio candidate is a key of the country's top-10 weekly rows,
      labelled with the country, and its `weekcount` is how many of those
      rows it has. */
  lemma RadioWeekcount(rows: seq<RadioRow>, country: string, e: Entry)
    requires e in HeadPerGroup(RankedWeeks(TopPositions(RadioObservations(rows, country))), 10, RadioGroup)
    ensures var top := TopPositions(RadioObservations(rows, country));
      e.key in KeysOf(top) && e.key.country == country && e.value == Weeks(top, e.key)
  {
    var obs := RadioObservations(rows, country);
    var top := TopPositions(obs);
    RadioTopWeeks(rows, country);
    TopNCandidates(top, 10, RadioGroup, RadioRank, e);
    TotalOfOnes(top, e.key);
    var o :| o in top && o.key == e.key;
  }

  /** Each key appears once, the rows come in year and weekcount-descending
      order with ties in groupby key order, and a year keeps min(10, its
      size) candidates. */
  lemma RadioTopTen(rows: seq<RadioRow>, country: string, year: int)
    ensures var top := TopPositions(RadioObservations(rows, country));
            var out := HeadPerGroup(RankedWeeks(top), 10, RadioGroup);
            var c := CountGroup(Tally(top), [Num(year)], RadioGroup);
      && (forall i, j :: 0 <= i < j < |out| ==> ThenLess(RadioRank, EntryKeyRank, out[i], out[j]))
      && (forall i, j :: 0 <= i < j < |out| ==> out[i].key != out[j].key)
      && (forall i, j :: 0 <= i < j < |out| && out[i].key.year == out[j].key.year ==> out[j].value <= out[i].value)
      && CountGroup(out, [Num(year)], RadioGroup) == if c < 10 then c else 10
  {
    var top := TopPositions(RadioObservations(rows, country));
    TopNOrder(top, 10, RadioGroup, RadioRank);
    TopNCounts(top, 10, RadioGroup, RadioRank, [Num(year)]);
  }

  /** `pandas.concat(dfs_top10.values())`: the tables one after another,
      in key order. */
  function ConcatTables(keys: seq<string>, items: map<string, seq<Entry>>): seq<Entry>
    requires forall k :: k in keys ==> k in items
  {
    if keys == [] then [] else items[keys[0]] + ConcatTables(keys[1..], items)
  }

  /** `save_filtered_radio_charts`: the saved table holds exactly the rows
      of all country tables, ordered by year, country, then weekcount
      descending. With no chart file there is no table to concatenate,
      and `pandas.concat` raises `ValueError`. */
  function SaveFilteredRadioCharts(charts: seq<RadioFile>): (r: Result<seq<Entry>, string>)
    ensures r.Ok? <==> RadioTables(charts).Ok? && charts != []
    ensures charts == [] ==> r == Err("ValueError")
    ensures r.Ok? ==> var d := RadioTables(charts).value;
      multiset(r.value) == multiset(ConcatTables(d.keys, d.items)) && SortedBy(r.value, SpotifyRank)
  {
    match RadioTables(charts)
    case Err(e) => Err(e)
    case Ok(d) =>
      if d.keys == [] then Err("ValueError")
      else
        var all := ConcatTables(d.keys, d.items);
        SortBySorted(all, SpotifyRank);
        Ok(SortBy(all, SpotifyRank))
  }

  /** The file that decides country `c`'s table: the last file whose path
      names `c`. */
  predicate LastFileOf(charts: seq<RadioFile>, c: string, i: int)
  {
    && 0 <= i < |charts|
    && PathCountry(charts[i].path) == Some(c)
    && forall j :: i < j < |charts| ==> PathCountry(charts[j].path) != Some(c)
  }

  /** Every country key of the first loop's dict holds the labelled top-10
      weekly rows of the last file naming that country. */
  lemma {:induction false} WeeklyEntry(charts: seq<RadioFile>, c: string)
    requires WeeklyTables(charts).Some? && c in WeeklyTables(charts).value.keys
    ensures exists i :: (LastFileOf(charts, c, i) &&
      WeeklyTables(charts).value.items[c] == TopPositions(RadioObservations(charts[i].rows, Strings.Capitalize(c))))
  {
    var n := |charts|;
    var init := charts[..n - 1];
    var d := WeeklyTables(init).value;
    var c0 := PathCountry(charts[n - 1].path).value;
    if c0 == c {
      assert LastFileOf(charts, c, n - 1);
    } else {
      assert c in d.keys;
      WeeklyEntry(init, c);
      var i :| LastFileOf(init, c, i) &&
        d.items[c] == TopPositions(RadioObservations(init[i].rows, Strings.Capitalize(c)));
      assert charts[i] == init[i];
      forall j | i < j < n ensures PathCountry(charts[j].path) != Some(c) {
        if j < n - 1 {
          assert charts[j] == init[j];
        }
      }
      assert LastFileOf(charts, c, i);
    }
  }

  /** Two last files of the same country are the same file. */
  lemma LastFileUnique(charts: seq<RadioFile>, c: string, i: int, k: int)
    requires LastFileOf(charts, c, i) && LastFileOf(charts, c, k)
    ensures i == k
  {
  }

  /** The radio properties of one country's table as `filter_radio_charts`
      returns it: it is the `head(10)` per year of the ranked weeks of the
      last file naming the country; each key appears once, rows come in
      year and weekcount-descending order with ties in key order, a year
      keeps min(10, its candidates) rows, and each row's weekcount is its
      number of top-10 weeks under the country's label. */
  lemma RadioTableTopTen(charts: seq<RadioFile>, c: string, i: int, year: int)
    requires RadioTables(charts).Ok? && c in RadioTables(charts).value.keys
    requires LastFileOf(charts, c, i)
    ensures var top := TopPositions(RadioObservations(charts[i].rows, Strings.Capitalize(c)));
            var out := RadioTables(charts).value.items[c];
            var cnt := CountGroup(Tally(top), [Num(year)], RadioGroup);
      && out == HeadPerGroup(RankedWeeks(top), 10, RadioGroup)
      && (forall a, b :: 0 <= a < b < |out| ==> ThenLess(RadioRank, EntryKeyRank, out[a], out[b]))
      && (forall a, b :: 0 <= a < b < |out| ==> out[a].key != out[b].key)
      && (forall a, b :: 0 <= a < b < |out| && out[a].key.year == out[b].key.year ==> out[b].value <= out[a].value)
      && CountGroup(out, [Num(year)], RadioGroup) == (if cnt < 10 then cnt else 10)
      && (forall e :: e in out ==>
            e.key in KeysOf(top) && e.key.country == Strings.Capitalize(c) && e.value == Weeks(top, e.key))
  {
    var w := WeeklyTables(charts).value;
    WeeklyEntry(charts, c);
    var k :| LastFileOf(charts, c, k) &&
      w.items[c] == TopPositions(RadioObservations(charts[k].rows, Strings.Capitalize(c)));
    LastFileUnique(charts, c, i, k);
    var rows, country := charts[i].rows, Strings.Capitalize(c);
    var top := TopPositions(RadioObservations(rows, country));
    var out := RadioTables(charts).value.items[c];
    assert out == HeadPerGroup(RankedWeeks(top), 10, RadioGroup);
    RadioTopTen(rows, country, year);
    forall e | e in out
      ensures e.key in KeysOf(top) && e.key.country == country && e.value == Weeks(top, e.key)
    {
      RadioWeekcount(rows, country, e);
    }
  }

  /** Every row of the concatenated tables comes from the table of some key. */
  lemma {:induction false} ConcatTablesFrom(keys: seq<string>, items: map<string, seq<Entry>>, e: Entry)
    requires forall k :: k in keys ==> k in items
    requires e in ConcatTables(keys, items)
    ensures exists m :: 0 <= m < |keys| && e in items[keys[m]]
  {
    if e !in items[keys[0]] {
      ConcatTablesFrom(keys[1..], items, e);
      var m :| 0 <= m < |keys[1..]| && e in items[keys[1..][m]];
      assert keys[1..][m] == keys[m + 1];
    }
  }

  /** Two entries of equal save rank have equal radio rank. */
  lemma SameSpotifyRank(a: Entry, b: Entry)
    requires SpotifyRank(a) == SpotifyRank(b)
    ensures RadioRank(a) == RadioRank(b) && a.key.country == b.key.country
  {
    assert SpotifyRank(a)[0] == SpotifyRank(b)[0];
    assert SpotifyRank(a)[1] == SpotifyRank(b)[1];
    assert SpotifyRank(a)[2] == SpotifyRank(b)[2];
  }

  /** In the concatenated country tables, rows of equal save rank stand in
      key order, provided every table is in (year, weekcount descending,
      key) order, holds rows of its own country label only, and different
      keys carry different labels. */
  lemma {:induction false} ConcatTiesOrdered(keys: seq<string>, items: map<string, seq<Entry>>)
    requires forall k :: k in keys ==> k in items
    requires forall k :: k in keys ==> StrictlySortedThen(items[k], RadioRank, EntryKeyRank)
    requires forall k, e :: k in keys && e in items[k] ==> e.key.country == Strings.Capitalize(k)
    requires forall a, b :: 0 <= a < b < |keys| ==> Strings.Capitalize(keys[a]) != Strings.Capitalize(keys[b])
    ensures TiesOrdered(ConcatTables(keys, items), SpotifyRank, EntryKeyRank)
  {
    if keys != [] {
      var first, rest := items[keys[0]], ConcatTables(keys[1..], items);
      ConcatTiesOrdered(keys[1..], items);
      var all := ConcatTables(keys, items);
      assert all == first + rest;
      forall i, j | 0 <= i < j < |all| && SpotifyRank(all[i]) == SpotifyRank(all[j])
        ensures LexLess(EntryKeyRank(all[i]), EntryKeyRank(all[j]))
      {
        SameSpotifyRank(all[i], all[j]);
        if j < |first| {
          assert ThenLess(RadioRank, EntryKeyRank, first[i], first[j]);
          LexLessIrreflexive(RadioRank(first[i]));
        } else if i < |first| {
          assert all[j] == rest[j - |first|];
          ConcatTablesFrom(keys[1..], items, all[j]);
          var m :| 0 <= m < |keys[1..]| && all[j] in items[keys[1..][m]];
          assert false;
        } else {
          assert all[i] == rest[i - |first|] && all[j] == rest[j - |first|];
        }
      }
    }
  }

  /** The saved radio table's order is exact: by year, country and
      weekcount descending, and rows equal in all three stay in the key
      order they had within their country's table, as the stable sort
      keeps them, provided different country keys carry different labels. */
  lemma SavedRadioOrder(charts: seq<RadioFile>)
    requires RadioTables(charts).Ok? && charts != []
    requires var keys := RadioTables(charts).value.keys;
      forall a, b :: 0 <= a < b < |keys| ==> Strings.Capitalize(keys[a]) != Strings.Capitalize(keys[b])
    ensures SaveFilteredRadioCharts(charts).Ok?
    ensures StrictlySortedThen(SaveFilteredRadioCharts(charts).value, SpotifyRank, EntryKeyRank)
  {
    var d := RadioTables(charts).value;
    var w := WeeklyTables(charts).value;
    forall k | k in d.keys
      ensures StrictlySortedThen(d.items[k], RadioRank, EntryKeyRank)
      ensures forall e :: e in d.items[k] ==> e.key.country == Strings.Capitalize(k)
    {
      WeeklyEntry(charts, k);
      var i :| LastFileOf(charts, k, i) &&
        w.items[k] == TopPositions(RadioObservations(charts[i].rows, Strings.Capitalize(k)));
      RadioTableTopTen(charts, k, i, 0);
    }
    ConcatTiesOrdered(d.keys, d.items);
    SortByTiesStable(ConcatTables(d.keys, d.items), SpotifyRank, EntryKeyRank);
  }
}
