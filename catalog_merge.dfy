/** The merge of the two Eurovision catalogs
    (scrape-eurovision/assign_language.py): the official catalog (artist,
    country, title, final place and points, year) is left-joined with the
    esc-history.com catalog (artist, country, language, title, year) on
    country, lower-cased title and year, so that official rows gain a
    `language`. */
module CatalogMerge {
  import opened Wrappers
  import opened Ordering
  import Strings

  /** A row of `eurovision_songs_official.csv`. */
  datatype OfficialSong = OfficialSong(artist: string, country: string, title: string,
                                       placeFinal: Option<string>, pointsFinal: Option<int>, year: int)

  /** A row of `eurovision_songs_esc.csv`. */
  datatype EscSong = EscSong(artist: string, country: string, language: string, title: string, year: int)

  /** A row of the merged table; its fields are the output columns in
      their (alphabetical) order. `language` is `None` where no catalog
      row matched. */
  datatype MergedSong = MergedSong(artist: string, country: string, language: Option<string>,
                                   placeFinal: Option<string>, pointsFinal: Option<int>,
                                   title: string, year: int)

  /** `sort_values(by=["year", "country"])` on either catalog. */
  function OfficialYearCountry(s: OfficialSong): seq<Atom>
  {
    [Num(s.year), Text(s.country)]
  }

  function EscYearCountry(s: EscSong): seq<Atom>
  {
    [Num(s.year), Text(s.country)]
  }

  function MergedYearCountry(s: MergedSong): seq<Atom>
  {
    [Num(s.year), Text(s.country)]
  }

  /** The join columns `country`, `lowertitle`, `year`. */
  datatype JoinKey = JoinKey(country: string, lowertitle: string, year: int)

  function OfficialKey(s: OfficialSong): JoinKey
  {
    JoinKey(s.country, Strings.Lower(s.title), s.year)
  }

  function EscKey(s: EscSong): JoinKey
  {
    JoinKey(s.country, Strings.Lower(s.title), s.year)
  }

  /** The catalog rows with key `k`, in catalog order: a row with key `k`
      is kept as many times as the catalog holds it, any other row never. */
  function Matches(k: JoinKey, right: seq<EscSong>): (r: seq<EscSong>)
    ensures forall e :: e in r <==> e in right && EscKey(e) == k
    ensures forall e {:trigger multiset(r)[e]} :: multiset(r)[e] == if EscKey(e) == k then multiset(right)[e] else 0
  {
    if right == [] then []
    else
      var init, e := right[..|right| - 1], right[|right| - 1];
      assert right == init + [e];
      Matches(k, init) + (if EscKey(e) == k then [e] else [])
  }

  /** Matching works catalog row by catalog row: the matches in a
      concatenated catalog are those of the first part, then those of the
      second, so they come in catalog order. */
  lemma {:induction false} MatchesAppend(k: JoinKey, a: seq<EscSong>, b: seq<EscSong>)
    ensures Matches(k, a + b) == Matches(k, a) + Matches(k, b)
  {
    if b != [] {
      var init, e := b[..|b| - 1], b[|b| - 1];
      var last := if EscKey(e) == k then [e] else [];
      assert (a + b)[..|a + b| - 1] == a + init && (a + b)[|a + b| - 1] == e;
      assert Matches(k, a + b) == Matches(k, a + init) + last;
      assert Matches(k, b) == Matches(k, init) + last;
      MatchesAppend(k, a, init);
    } else {
      assert a + b == a;
    }
  }

  /** An official row with the language of a matching catalog row. */
  function Joined(l: OfficialSong, e: EscSong): MergedSong
  {
    MergedSong(l.artist, l.country, Some(e.language), l.placeFinal, l.pointsFinal, l.title, l.year)
  }

  /** An official row no catalog row matched. */
  function Unmatched(l: OfficialSong): MergedSong
  {
    MergedSong(l.artist, l.country, None, l.placeFinal, l.pointsFinal, l.title, l.year)
  }

  /** The official columns of a merged row. */
  function LeftPart(m: MergedSong): OfficialSong
  {
    OfficialSong(m.artist, m.country, m.title, m.placeFinal, m.pointsFinal, m.year)
  }

  /** The merged rows one official row yields: one per matching catalog
      row, in catalog order, or the row alone when nothing matches. */
  function RowsOf(l: OfficialSong, right: seq<EscSong>): seq<MergedSong>
  {
    var m := Matches(OfficialKey(l), right);
    if m == [] then [Unmatched(l)]
    else seq(|m|, i requires 0 <= i < |m| => Joined(l, m[i]))
  }

  /** `pandas.merge(left, right, on=["country", "lowertitle", "year"], how="left")`,
      the row part. */
  function LeftMerge(left: seq<OfficialSong>, right: seq<EscSong>): seq<MergedSong>
  {
    if left == [] then [] else RowsOf(left[0], right) + LeftMerge(left[1..], right)
  }

  /** A catalog row matches exactly when country, year and lower-cased
      title agree. */
  lemma MatchesExactly(l: OfficialSong, right: seq<EscSong>, e: EscSong)
    ensures e in Matches(OfficialKey(l), right) <==>
      e in right && e.country == l.country && e.year == l.year && Strings.Lower(e.title) == Strings.Lower(l.title)
  {
  }

  /** One official row yields `max(1, k)` rows for `k` matching catalog
      rows; each keeps the official artist, title and other official
      columns, and carries the matches' languages in catalog order, or no
      language when there is no match. */
  lemma RowsOfBlock(l: OfficialSong, right: seq<EscSong>)
    ensures var m := Matches(OfficialKey(l), right);
            var rows := RowsOf(l, right);
      && |rows| == (if |m| == 0 then 1 else |m|)
      && (forall i :: 0 <= i < |rows| ==> LeftPart(rows[i]) == l)
      && (m == [] ==> rows[0].language == None)
      && (forall i :: 0 <= i < |m| ==> rows[i].language == Some(m[i].language))
  {
  }

  /** The merge works row by row: merging a concatenation concatenates
      the merges, so the output follows the official row order. */
  lemma {:induction false} LeftMergeAppend(a: seq<OfficialSong>, b: seq<OfficialSong>, right: seq<EscSong>)
    ensures LeftMerge(a + b, right) == LeftMerge(a, right) + LeftMerge(b, right)
  {
    if a == [] {
      assert a + b == b;
    } else {
      assert (a + b)[0] == a[0] && (a + b)[1..] == a[1..] + b;
      LeftMergeAppend(a[1..], b, right);
    }
  }

  /** Official row `i` owns a contiguous block of the output, between the
      blocks of the rows before and after it. */
  lemma LeftMergeBlock(left: seq<OfficialSong>, right: seq<EscSong>, i: nat)
    requires i < |left|
    ensures LeftMerge(left, right) ==
      LeftMerge(left[..i], right) + RowsOf(left[i], right) + LeftMerge(left[i + 1..], right)
  {
    assert left == left[..i] + ([left[i]] + left[i + 1..]);
    LeftMergeAppend(left[..i], [left[i]] + left[i + 1..], right);
    assert ([left[i]] + left[i + 1..])[1..] == left[i + 1..];
  }

  /** No official row is lost: the output has at least one row per
      official row. */
  lemma {:induction false} LeftMergeAtLeast(left: seq<OfficialSong>, right: seq<EscSong>)
    ensures |LeftMerge(left, right)| >= |left|
  {
    if left != [] {
      LeftMergeAtLeast(left[1..], right);
      RowsOfBlock(left[0], right);
    }
  }

  /** An official row with two or more matches makes the output longer
      than the official table. */
  lemma LeftMergeGrows(left: seq<OfficialSong>, right: seq<EscSong>, j: nat)
    requires j < |left| && |Matches(OfficialKey(left[j]), right)| >= 2
    ensures |LeftMerge(left, right)| > |left|
  {
    LeftMergeBlock(left, right, j);
    LeftMergeAtLeast(left[..j], right);
    LeftMergeAtLeast(left[j + 1..], right);
    RowsOfBlock(left[j], right);
  }

  /** When no official row matches twice, output row `i` is official row
      `i` with at most a language added: same count, same order. */
  lemma {:induction false} LeftMergeOnce(left: seq<OfficialSong>, right: seq<EscSong>)
    requires forall i :: 0 <= i < |left| ==> |Matches(OfficialKey(left[i]), right)| <= 1
    ensures |LeftMerge(left, right)| == |left|
    ensures forall i :: 0 <= i < |left| ==> LeftPart(LeftMerge(left, right)[i]) == left[i]
  {
    if left != [] {
      var rest := left[1..];
      assert forall i :: 0 <= i < |rest| ==> rest[i] == left[i + 1];
      LeftMergeOnce(rest, right);
      RowsOfBlock(left[0], right);
      var out := LeftMerge(left, right);
      forall i | 0 <= i < |left| ensures LeftPart(out[i]) == left[i] {
        if i > 0 {
          assert out[i] == LeftMerge(rest, right)[i - 1];
        }
      }
    }
  }

  lemma MatchesNone(k: JoinKey, right: seq<EscSong>)
    requires forall i :: 0 <= i < |right| ==> EscKey(right[i]) != k
    ensures Matches(k, right) == []
  {
    if Matches(k, right) != [] {
      assert Matches(k, right)[0] in Matches(k, right);
    }
  }

  /** Catalog rows with pairwise distinct keys. */
  predicate UniqueKeys(right: seq<EscSong>)
  {
    forall i, j :: 0 <= i < j < |right| ==> EscKey(right[i]) != EscKey(right[j])
  }

  /** With distinct catalog keys no key matches twice, so the merge keeps
      the official row count and order. */
  lemma {:induction false} UniqueKeysMatchOnce(k: JoinKey, right: seq<EscSong>)
    requires UniqueKeys(right)
    ensures |Matches(k, right)| <= 1
  {
    if right != [] {
      var init, e := right[..|right| - 1], right[|right| - 1];
      assert UniqueKeys(init) by {
        forall i, j | 0 <= i < j < |init| ensures EscKey(init[i]) != EscKey(init[j]) {
          assert init[i] == right[i] && init[j] == right[j];
        }
      }
      UniqueKeysMatchOnce(k, init);
      if EscKey(e) == k {
        forall i | 0 <= i < |init| ensures EscKey(init[i]) != k {
          assert init[i] == right[i];
        }
        MatchesNone(k, init);
      }
    }
  }

  /** Every output row comes from an official row. */
  lemma {:induction false} LeftMergeOrigin(left: seq<OfficialSong>, right: seq<EscSong>, i: nat)
    requires i < |LeftMerge(left, right)|
    ensures LeftPart(LeftMerge(left, right)[i]) in left
  {
    RowsOfBlock(left[0], right);
    var b := RowsOf(left[0], right);
    if i >= |b| {
      LeftMergeOrigin(left[1..], right, i - |b|);
      assert LeftMerge(left, right)[i] == LeftMerge(left[1..], right)[i - |b|];
    }
  }

  /** Rows that come in year and country order keep that order in the
      output. */
  lemma {:induction false} LeftMergeSorted(left: seq<OfficialSong>, right: seq<EscSong>)
    requires SortedBy(left, OfficialYearCountry)
    ensures SortedBy(LeftMerge(left, right), MergedYearCountry)
  {
    if left != [] {
      var l, rest := left[0], left[1..];
      assert SortedBy(rest, OfficialYearCountry) by {
        forall i, j | 0 <= i < j < |rest|
          ensures !LexLess(OfficialYearCountry(rest[j]), OfficialYearCountry(rest[i]))
        {
          assert rest[i] == left[i + 1] && rest[j] == left[j + 1];
        }
      }
      LeftMergeSorted(rest, right);
      RowsOfBlock(l, right);
      var a, b := RowsOf(l, right), LeftMerge(rest, right);
      forall i, j | 0 <= i < j < |a + b|
        ensures !LexLess(MergedYearCountry((a + b)[j]), MergedYearCountry((a + b)[i]))
      {
        if i < |a| {
          assert MergedYearCountry((a + b)[i]) == OfficialYearCountry(l);
          if j < |a| {
            assert MergedYearCountry((a + b)[j]) == OfficialYearCountry(l);
            LexLessIrreflexive(OfficialYearCountry(l));
          } else {
            LeftMergeOrigin(rest, right, j - |a|);
            var o := LeftPart(b[j - |a|]);
            var m :| 0 <= m < |rest| && rest[m] == o;
            assert left[m + 1] == o && MergedYearCountry((a + b)[j]) == OfficialYearCountry(o);
          }
        } else {
          assert (a + b)[i] == b[i - |a|] && (a + b)[j] == b[j - |a|];
        }
      }
    }
  }

  // ---------------------------------------------------------------------
  // The column order

  /** The columns of the two catalogs; `lowertitle` is the join helper. */
  datatype Field = Artist | Country | Title | PlaceFinal | PointsFinal | Year | Language | LowerTitle

  /** The column's name as the tables spell it. */
  function FieldName(f: Field): string
  {
    match f
    case Artist => "artist"
    case Country => "country"
    case Title => "title"
    case PlaceFinal => "place_final"
    case PointsFinal => "points_final"
    case Year => "year"
    case Language => "language"
    case LowerTitle => "lowertitle"
  }

  /** Columns sort by their names. */
  function NameRank(f: Field): seq<Atom>
  {
    [Text(FieldName(f))]
  }

  /** The official catalog's columns, in the order its scraper writes them. */
  const OfficialColumns: seq<Field> := [Artist, Country, Title, PlaceFinal, PointsFinal, Year]

  /** The fields of `MergedSong`, in declaration order. */
  const OutputColumns: seq<Field> := [Artist, Country, Language, PlaceFinal, PointsFinal, Title, Year]

  /** The output column names are in strictly increasing order. */
  lemma OutputColumnsAlphabetical()
    ensures StrictlySortedBy(OutputColumns, NameRank)
  {
    var s := OutputColumns;
    assert LexLess(NameRank(s[0]), NameRank(s[1]));
    assert LexLess(NameRank(s[1]), NameRank(s[2]));
    assert LexLess(NameRank(s[2]), NameRank(s[3]));
    assert LexLess(NameRank(s[3]), NameRank(s[4]));
    assert LexLess(NameRank(s[4]), NameRank(s[5]));
    assert LexLess(NameRank(s[5]), NameRank(s[6]));
    ChainSorted(s, NameRank);
  }

  /** After the merge, renaming restores the official `artist` and
      `title`, and dropping removes the catalog's copies and `lowertitle`:
      the official columns and the catalog's `language` remain.
      `reindex(sorted(...))` then orders them by name, which is the field
      order of `MergedSong`. */
  lemma MergedColumnsAre()
    ensures SortBy(OfficialColumns + [Language], NameRank) == OutputColumns
  {
    var kept := OfficialColumns + [Language];
    assert multiset(kept) == multiset(OutputColumns);
    OutputColumnsAlphabetical();
    SortBySorted(kept, NameRank);
    SortedUnique(SortBy(kept, NameRank), OutputColumns, NameRank);
  }

  // ---------------------------------------------------------------------
  // merge_language_into_dataset

  /** The steps of `merge_language_into_dataset` on the two catalogs' rows:
      sort both by year and country, key both by lower-cased title,
      left-join, then fix the columns. */
  method MergeLanguageIntoDataset(official: seq<OfficialSong>, esc: seq<EscSong>)
    returns (merged: seq<MergedSong>, columns: seq<Field>)
    ensures merged == LeftMerge(SortBy(official, OfficialYearCountry), SortBy(esc, EscYearCountry))
    ensures SortedBy(merged, MergedYearCountry)
    ensures columns == OutputColumns
  {
    var dfOfficial := SortBy(official, OfficialYearCountry);
    var dfEsc := SortBy(esc, EscYearCountry);
    merged := LeftMerge(dfOfficial, dfEsc);
    SortBySorted(official, OfficialYearCountry);
    LeftMergeSorted(dfOfficial, dfEsc);
    columns := SortBy(OfficialColumns + [Language], NameRank);
    MergedColumnsAre();
  }

  /** A catalog row whose title differs from the official one only in
      letter case still matches: the official row takes its language. */
  lemma CaseInsensitiveMatch(l: OfficialSong, e: EscSong)
    requires l.country == e.country && l.year == e.year
    requires |l.title| == |e.title|
    requires forall i :: 0 <= i < |l.title| ==> Strings.LowerChar(l.title[i]) == Strings.LowerChar(e.title[i])
    ensures LeftMerge([l], [e]) == [MergedSong(l.artist, l.country, Some(e.language), l.placeFinal, l.pointsFinal, l.title, l.year)]
  {
    assert Strings.Lower(l.title) == Strings.Lower(e.title);
    assert Matches(OfficialKey(l), [e]) == [e] by {
      assert [e][..0] == [];
    }
    assert [l][1..] == [];
  }
}
