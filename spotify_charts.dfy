/** The weekly Spotify charts (scrape-top-charts/scrape_top_charts_spotify.py):
    the week tokens put into the chart URLs, the parsing of one chart row,
    the year of a chart, and the cleaning of the collected rows. Dates are
    day ordinals as Python's `date.toordinal()` counts them; turning an
    ordinal into its "%Y-%m-%d" text is a parameter of the operations that
    need it. */
module SpotifyCharts {
  import opened Wrappers
  import opened Strings
  import TopTen

  // ---------------------------------------------------------------------
  // Dates

  predicate IsLeap(y: int)
  {
    y % 4 == 0 && (y % 100 != 0 || y % 400 == 0)
  }

  /** Days in the years before year `y`. */
  function DaysBeforeYear(y: int): int
  {
    var p := y - 1;
    p * 365 + p / 4 - p / 100 + p / 400
  }

  /** Days in the months of year `y` before month `m`. */
  function DaysBeforeMonth(y: int, m: int): int
    requires 1 <= m <= 12
  {
    var before := [0, 31, 59, 90, 120, 151, 181, 212, 243, 273, 304, 334];
    before[m - 1] + (if m > 2 && IsLeap(y) then 1 else 0)
  }

  /** `date(y, m, d).toordinal()`. */
  function Ordinal(y: int, m: int, d: int): int
    requires 1 <= m <= 12
  {
    DaysBeforeYear(y) + DaysBeforeMonth(y, m) + d
  }

  /** The first week starts on Friday 2016-12-30; weeks start while the
      start is before Friday 2021-12-31. */
  const StartDate: int := Ordinal(2016, 12, 30)
  const EndDate: int := Ordinal(2021, 12, 31)

  /** The two dates are 261 weeks apart. */
  lemma ChartPeriod()
    ensures StartDate == 736328 && EndDate == 738155
    ensures EndDate - StartDate == 261 * 7
  {
  }

  /** The text `strftime("%Y-%m-%d")` gives: four digits, a dash, two
      digits, a dash, two digits. */
  predicate IsIsoDate(s: string)
  {
    |s| == 10 && s[4] == '-' && s[7] == '-' &&
    forall i :: 0 <= i < 10 && i != 4 && i != 7 ==> IsDigit(s[i])
  }

  // ---------------------------------------------------------------------
  // generate_url_tokens

  /** The week token for the week starting at `start`: the start date and
      the date a week later, joined by "--". */
  function WeekToken(start: int, format: int -> string): string
  {
    format(start) + "--" + format(start + 7)
  }

  /** Weeks starting at `from`, `from + 7`, ... while the start is before
      `to`: the day gap divided by 7, rounded up. */
  function WeekCount(from: int, to: int): nat
  {
    if from < to then (to - from + 6) / 7 else 0
  }

  /** `generate_url_tokens()`: token `i` covers the week starting `7 * i`
      days after the first Friday; every token starts before the end date
      and the count is the number of weeks from start to end, rounded up. */
  method GenerateUrlTokens(format: int -> string) returns (tokens: seq<string>)
    ensures |tokens| == WeekCount(StartDate, EndDate)
    ensures forall i :: 0 <= i < |tokens| ==>
      tokens[i] == WeekToken(StartDate + 7 * i, format) && StartDate + 7 * i < EndDate
  {
    tokens := [];
    var startdate := StartDate;
    while startdate < EndDate
      invariant startdate == StartDate + 7 * |tokens|
      invariant startdate <= EndDate + 6
      invariant forall i :: 0 <= i < |tokens| ==>
        tokens[i] == WeekToken(StartDate + 7 * i, format) && StartDate + 7 * i < EndDate
      decreases EndDate - startdate
    {
      var nextdate := startdate + 7;
      tokens := tokens + [format(startdate) + "--" + format(nextdate)];
      startdate := nextdate;
    }
  }

  /** There are 261 tokens, and the first and last weeks are
      2016-12-30--2017-01-06 and 2021-12-24--2021-12-31. */
  lemma TokenCount()
    ensures WeekCount(StartDate, EndDate) == 261
    ensures StartDate + 7 * 260 == Ordinal(2021, 12, 24)
    ensures StartDate + 7 * 261 == EndDate
    ensures StartDate + 7 == Ordinal(2017, 1, 6)
  {
    ChartPeriod();
  }

  /** The start date of a token: the text before its "--". */
  function TokenStart(token: string): string
  {
    FirstPiece(token, "--")
  }

  /** A "%Y-%m-%d" date holds no "--", so splitting a token on "--"
      gives back its start date. */
  lemma TokenStartOfWeek(start: int, format: int -> string)
    requires IsIsoDate(format(start))
    ensures TokenStart(WeekToken(start, format)) == format(start)
  {
    var a := format(start);
    forall i | 0 <= i < |a|
      ensures !("--" <= (a + "--")[i..])
    {
      var t := (a + "--")[i..];
      if i == 4 || i == 7 {
        assert t[1] == a[i + 1] && IsDigit(a[i + 1]);
      } else {
        assert t[0] == a[i] && IsDigit(a[i]);
      }
    }
    FirstPieceOfJoin(a, "--", format(start + 7));
  }

  /** Consecutive tokens chain: the week a token ends on is the week the
      next token starts on. */
  lemma TokensChain(tokens: seq<string>, format: int -> string, i: int)
    requires forall j :: 0 <= j < |tokens| ==> tokens[j] == WeekToken(StartDate + 7 * j, format)
    requires forall d :: IsIsoDate(format(d))
    requires 0 <= i && i + 1 < |tokens|
    ensures tokens[i] == format(StartDate + 7 * i) + "--" + TokenStart(tokens[i + 1])
  {
    TokenStartOfWeek(StartDate + 7 * (i + 1), format);
    assert StartDate + 7 * i + 7 == StartDate + 7 * (i + 1);
  }

  // ---------------------------------------------------------------------
  // The year of a chart

  /** `strptime(s, "%Y-%m-%d").year`: the four-digit year of a date in that
      format; anything else raises `ValueError` (`None`). Day and month
      ranges are not checked here. */
  function ParseYear(s: string): (r: Option<int>)
    ensures r.Some? ==> 0 <= r.value < 10000
  {
    if IsIsoDate(s) then
      assert DigitsValue(s[..4]) < 10000 by { DigitsBound(s[..4]); }
      Some(DigitsValue(s[..4]) as int)
    else None
  }

  lemma {:induction false} DigitsBound(s: string)
    requires forall i :: 0 <= i < |s| ==> IsDigit(s[i])
    ensures DigitsValue(s) < Pow10(|s|)
  {
    if s != [] {
      DigitsBound(s[..|s| - 1]);
    }
  }

  function Pow10(n: nat): nat
  {
    if n == 0 then 1 else 10 * Pow10(n - 1)
  }

  /** The year column of a weekly chart: the year of the first date of
      its daterange. */
  function ChartYear(daterange: string): Option<int>
  {
    ParseYear(TokenStart(daterange))
  }

  /** A chart's year is the year printed in its week's start date, not the
      end date: the week 2016-12-30--2017-01-06 is a 2016 chart. */
  lemma ChartYearOfToken(start: int, format: int -> string)
    requires IsIsoDate(format(start))
    ensures ChartYear(WeekToken(start, format)) == Some(DigitsValue(format(start)[..4]) as int)
    ensures ChartYear(WeekToken(start, format)) == ParseYear(format(start))
  {
    TokenStartOfWeek(start, format);
  }

  // ---------------------------------------------------------------------
  // get_song_info

  /** The cells of a chart table row: the position text, the contents of
      the artist span and of the title (each empty or one string), and
      the streams text. */
  datatype ChartRow = ChartRow(position: string, artistContents: seq<string>, titleContents: seq<string>,
                               streams: string)

  /** A parsed row; `None` where the cell was empty. */
  datatype SongInfo = SongInfo(position: int, artist: Option<string>, title: Option<string>, streams: int)

  /** The characters `lstrip("by ")` removes. */
  const ByChars: set<char> := {'b', 'y', ' '}

  /** `int(cell.replace(",", ""))`: the streams count with its thousands
      separators removed. */
  function ParseStreams(cell: string): Option<int>
  {
    ParseInt(RemoveChar(cell, ','))
  }

  /** A stream count written with thousands separators. */
  function Grouped(n: nat): string
  {
    if n < 1000 then ShowNat(n) else Grouped(n / 1000) + "," + Pad3(n % 1000)
  }

  function Pad3(n: nat): string
    requires n < 1000
  {
    [DigitChar(n / 100), DigitChar(n / 10 % 10), DigitChar(n % 10)]
  }

  /** Past 999, the decimal text is the text of the thousands followed by
      the three last digits. */
  lemma ShowNatThousands(n: nat)
    requires n >= 1000
    ensures ShowNat(n) == ShowNat(n / 1000) + Pad3(n % 1000)
  {
    var q, m := n / 1000, n % 1000;
    var a, b, c := m / 100, m / 10 % 10, m % 10;
    ThreeDigits(m);
    assert n == 1000 * q + m;
    var x1, x2 := 100 * q + 10 * a + b, 10 * q + a;
    DivTen(n, x1, c);
    DivTen(x1, x2, b);
    DivTen(x2, q, a);
    assert ShowNat(n) == ShowNat(x1) + [DigitChar(c)];
    assert ShowNat(x1) == ShowNat(x2) + [DigitChar(b)];
    assert ShowNat(x2) == ShowNat(q) + [DigitChar(a)];
    assert Pad3(m) == [DigitChar(a)] + [DigitChar(b)] + [DigitChar(c)];
  }

  lemma ThreeDigits(m: nat)
    requires m < 1000
    ensures m == 100 * (m / 100) + 10 * (m / 10 % 10) + m % 10
    ensures m / 100 < 10
  {
  }

  lemma DivTen(x: nat, q: nat, r: nat)
    requires r < 10 && x == 10 * q + r
    ensures x / 10 == q && x % 10 == r
  {
  }

  /** Removing the commas from a grouped count gives its plain digits. */
  lemma {:induction false} GroupedDigits(n: nat)
    ensures RemoveChar(Grouped(n), ',') == ShowNat(n)
  {
    if n < 1000 {
      NoComma(ShowNat(n));
    } else {
      var g, p := Grouped(n / 1000), Pad3(n % 1000);
      GroupedDigits(n / 1000);
      ShowNatThousands(n);
      CommaStep(g, p);
      assert Grouped(n) == g + "," + p;
    }
  }

  /** One more group: the comma goes, the three digits stay. */
  lemma CommaStep(g: string, p: string)
    requires forall i :: 0 <= i < |p| ==> IsDigit(p[i])
    ensures RemoveChar(g + "," + p, ',') == RemoveChar(g, ',') + p
  {
    var head := g + ",";
    assert RemoveChar(head + p, ',') == RemoveChar(head, ',') + p by {
      RemoveCharAppend(head, p, ',');
      NoComma(p);
    }
    assert RemoveChar(head, ',') == RemoveChar(g, ',') by {
      RemoveCharAppend(g, ",", ',');
      assert RemoveChar(",", ',') == [] by {
        assert ","[1..] == [];
      }
    }
  }

  /** A string of digits has no comma to remove. */
  lemma {:induction false} NoComma(s: string)
    requires forall i :: 0 <= i < |s| ==> IsDigit(s[i])
    ensures RemoveChar(s, ',') == s
  {
    if s != [] {
      NoComma(s[1..]);
      assert s == [s[0]] + s[1..];
    }
  }

  /** The streams cell "1,234,567" reads as 1234567: parsing undoes the
      grouping for every count. */
  lemma StreamsRoundTrip(n: nat)
    ensures ParseStreams(Grouped(n)) == Some(n as int)
  {
    GroupedDigits(n);
    ParseShowNat(n);
  }

  /** `get_song_info(row)` as written: the artist cell loses its leading
      run of the characters 'b', 'y' and ' ', not the prefix "by ". */
  function GetSongInfoAsWritten(row: ChartRow): (r: Result<SongInfo, string>)
    ensures r.Ok? <==> ParseInt(row.position).Some? && ParseStreams(row.streams).Some?
    ensures r.Ok? ==> r.value.position == ParseInt(row.position).value
    ensures r.Ok? ==> r.value.streams == ParseStreams(row.streams).value
    ensures r.Ok? ==> (r.value.artist.None? <==> row.artistContents == [])
    ensures r.Ok? ==> (r.value.title.None? <==> row.titleContents == [])
    ensures r.Ok? && r.value.artist.Some? ==> r.value.artist.value == LStrip(row.artistContents[0], ByChars)
    ensures r.Ok? && r.value.title.Some? ==> r.value.title.value == row.titleContents[0]
  {
    match (ParseInt(row.position), ParseStreams(row.streams))
    case (Some(position), Some(streams)) =>
      var artist := if row.artistContents != [] then Some(LStrip(row.artistContents[0], ByChars)) else None;
      var title := if row.titleContents != [] then Some(row.titleContents[0]) else None;
      Ok(SongInfo(position, artist, title, streams))
    case _ => Err("ValueError")
  }

  /** The artist "bbno$", shown as "by bbno$", comes out as "no$". */
  lemma ArtistOverStripped()
    ensures LStrip("by bbno$", ByChars) == "no$"
    ensures StripByPrefix("by bbno$") == "bbno$"
  {
    var s := "by bbno$";
    LStripStops(s, ByChars, 5);
    assert s[5..] == "no$";
    assert "by " <= s && s[3..] == "bbno$";
  }

  /** The literal prefix "by " removed, when present. */
  function StripByPrefix(s: string): (r: string)
    ensures "by " <= s ==> s == "by " + r
    ensures !("by " <= s) ==> r == s
  {
    if "by " <= s then s[3..] else s
  }

  /** Every artist name survives the "by " prefix and its removal, while
      the character-set strip eats any name starting with 'b', 'y' or
      ' ' as well. */
  lemma ByPrefixRoundTrip(name: string)
    ensures StripByPrefix("by " + name) == name
    ensures name != [] && name[0] in ByChars ==> LStrip("by " + name, ByChars) != name
  {
    var s := "by " + name;
    assert "by " <= s;
    assert s[3..] == name;
  }

  /** `get_song_info(row)` with the artist cell's "by " prefix removed as
      intended: position and streams parse as integers (else
      `ValueError`), artist and title are `None` for an empty cell. */
  function GetSongInfo(row: ChartRow): (r: Result<SongInfo, string>)
    ensures r.Ok? <==> ParseInt(row.position).Some? && ParseStreams(row.streams).Some?
    ensures r.Ok? ==> r.value.position == ParseInt(row.position).value
    ensures r.Ok? ==> r.value.streams == ParseStreams(row.streams).value
    ensures r.Ok? ==> (r.value.artist.None? <==> row.artistContents == [])
    ensures r.Ok? ==> (r.value.title.None? <==> row.titleContents == [])
    ensures r.Ok? && r.value.artist.Some? ==> r.value.artist.value == StripByPrefix(row.artistContents[0])
    ensures r.Ok? && r.value.title.Some? ==> r.value.title.value == row.titleContents[0]
  {
    match (ParseInt(row.position), ParseStreams(row.streams))
    case (Some(position), Some(streams)) =>
      var artist := if row.artistContents != [] then Some(StripByPrefix(row.artistContents[0])) else None;
      var title := if row.titleContents != [] then Some(row.titleContents[0]) else None;
      Ok(SongInfo(position, artist, title, streams))
    case _ => Err("ValueError")
  }

  /** The two parses differ in the artist only: they fail on the same
      rows and agree on position, streams and title; for an artist shown
      as "by " + a name that does not start with 'b', 'y' or ' ', they give
      the same artist too. */
  lemma AsWrittenAgrees(row: ChartRow)
    ensures GetSongInfoAsWritten(row).Ok? <==> GetSongInfo(row).Ok?
    ensures GetSongInfo(row).Ok? ==>
      var a, b := GetSongInfoAsWritten(row).value, GetSongInfo(row).value;
      a.position == b.position && a.streams == b.streams && a.title == b.title &&
      a.artist.None? == b.artist.None?
    ensures GetSongInfo(row).Ok? && row.artistContents != [] ==>
      forall name :: row.artistContents[0] == "by " + name && (name == [] || name[0] !in ByChars) ==>
        GetSongInfoAsWritten(row).value.artist == GetSongInfo(row).value.artist
  {
    if GetSongInfo(row).Ok? && row.artistContents != [] {
      forall name | row.artistContents[0] == "by " + name && (name == [] || name[0] !in ByChars)
        ensures GetSongInfoAsWritten(row).value.artist == GetSongInfo(row).value.artist
      {
        ByPrefixStrip(name);
      }
    }
  }

  /** The character-set strip removes exactly the prefix "by " when the
      name after it starts with none of those characters. */
  lemma ByPrefixStrip(name: string)
    requires name == [] || name[0] !in ByChars
    ensures LStrip("by " + name, ByChars) == name
    ensures StripByPrefix("by " + name) == name
  {
    var s := "by " + name;
    assert s[..3] == "by ";
    assert s[3..] == name;
    if name == [] {
      assert s == "by ";
      assert LeadCount(s, ByChars) == 3;
    } else {
      LStripStops(s, ByChars, 3);
    }
  }

  // ---------------------------------------------------------------------
  // extract_weekly_chart and the saved dataset

  /** The chart countries by their lower-case two-letter code. */
  const Countries: map<string, string> :=
    map["dk" := "Denmark", "fi" := "Finland", "is" := "Iceland", "no" := "Norway", "se" := "Sweden"]

  /** A row of the collected charts. */
  datatype ChartEntry = ChartEntry(position: int, artist: Option<string>, title: Option<string>, streams: int,
                                   daterange: string, year: int, country: string)

  /** The rows of one weekly chart tagged with its daterange, year and
      country; a row that does not parse, a daterange without a date in
      front or an unknown country code raises. */
  function ExtractWeeklyChart(countryCode: string, daterange: string, rows: seq<ChartRow>)
    : (r: Result<seq<ChartEntry>, string>)
    ensures r.Ok? <==> countryCode in Countries && ChartYear(daterange).Some? &&
                       forall i :: 0 <= i < |rows| ==> GetSongInfoAsWritten(rows[i]).Ok?
    ensures r.Ok? ==> |r.value| == |rows| && forall i :: 0 <= i < |rows| ==>
      var info := GetSongInfoAsWritten(rows[i]).value;
      r.value[i] == ChartEntry(info.position, info.artist, info.title, info.streams,
                               daterange, ChartYear(daterange).value, Countries[countryCode])
  {
    MapAllEach(rows, GetSongInfoAsWritten);
    match ParseRows(rows)
    case Err(e) => Err(e)
    case Ok(infos) =>
      match ChartYear(daterange)
      case None => Err("ValueError")
      case Some(year) =>
        if countryCode in Countries then Ok(TagAll(infos, daterange, year, Countries[countryCode]))
        else Err("KeyError")
  }

  /** `[get_song_info(row) for row in rows]`: the first row that does not
      parse raises. */
  function ParseRows(rows: seq<ChartRow>): (r: Result<seq<SongInfo>, string>)
    ensures r.Ok? ==> |r.value| == |rows|
  {
    MapAll(rows, GetSongInfoAsWritten)
  }

  /** The parsed rows with the chart's daterange, year and country columns. */
  function TagAll(infos: seq<SongInfo>, daterange: string, year: int, country: string): (r: seq<ChartEntry>)
    ensures |r| == |infos|
    ensures forall i :: 0 <= i < |infos| ==> r[i] == ChartEntry(infos[i].position, infos[i].artist, infos[i].title,
                                                                  infos[i].streams, daterange, year, country)
  {
    if infos == [] then []
    else
      var info := infos[0];
      [ChartEntry(info.position, info.artist, info.title, info.streams, daterange, year, country)] +
      TagAll(infos[1..], daterange, year, country)
  }

  /** `df.dropna()` then `df[df.year > 2016]`: the rows with both artist
      and title, from 2017 on, in their order, as rows of the saved file. */
  function CleanCharts(entries: seq<ChartEntry>): (r: seq<TopTen.SpotifyRow>)
    ensures |r| <= |entries|
    ensures forall row :: row in r <==>
      exists e :: e in entries && e.artist.Some? && e.title.Some? && e.year > 2016 && row == Saved(e)
    ensures forall i :: 0 <= i < |r| ==> r[i].year > 2016
  {
    if entries == [] then []
    else
      var e := entries[0];
      var rest := CleanCharts(entries[1..]);
      assert forall x :: x in entries[1..] ==> x in entries;
      assert forall x :: x in entries ==> x == e || x in entries[1..];
      if e.artist.Some? && e.title.Some? && e.year > 2016 then [Saved(e)] + rest else rest
  }

  function Saved(e: ChartEntry): TopTen.SpotifyRow
    requires e.artist.Some? && e.title.Some?
  {
    TopTen.SpotifyRow(e.position, e.artist.value, e.title.value, e.streams, e.daterange, e.year, e.country)
  }

  /** Keeping rows is done per row: the cleaned rows of two batches are
      the cleaned rows of each, in order. */
  lemma {:induction false} CleanChartsAppend(a: seq<ChartEntry>, b: seq<ChartEntry>)
    ensures CleanCharts(a + b) == CleanCharts(a) + CleanCharts(b)
  {
    if a == [] {
      assert a + b == b;
    } else {
      assert (a + b)[1..] == a[1..] + b;
      CleanChartsAppend(a[1..], b);
    }
  }

  /** The week before 2017 is dropped: a chart whose daterange starts on
      2016-12-30 contributes no rows. */
  lemma FirstWeekDropped(entries: seq<ChartEntry>)
    requires forall i :: 0 <= i < |entries| ==> entries[i].year == 2016
    ensures CleanCharts(entries) == []
  {
  }

  // ---------------------------------------------------------------------
  // create_dataset

  /** The country codes in the order the charts are collected. */
  const CountryCodes: seq<string> := ["dk", "fi", "is", "no", "se"]

  /** The week tokens `generate_url_tokens()` returns. */
  function UrlTokens(format: int -> string): seq<string>
  {
    seq(WeekCount(StartDate, EndDate), i => WeekToken(StartDate + 7 * i, format))
  }

  /** The charts of one country, one per week token. */
  function CountryWeeks(code: string, tokens: seq<string>): seq<(string, string)>
  {
    seq(|tokens|, j requires 0 <= j < |tokens| => (code, tokens[j]))
  }

  /** The (country, week) charts requested, country by country. */
  function Weeks(codes: seq<string>, tokens: seq<string>): seq<(string, string)>
  {
    if codes == [] then [] else Weeks(codes[..|codes| - 1], tokens) + CountryWeeks(codes[|codes| - 1], tokens)
  }

  /** The rows of the requested charts concatenated in request order; the
      first chart that raises stops the collection. `fetch` stands for the
      table rows of the downloaded chart page of a country and week. */
  function Collect(weeks: seq<(string, string)>, fetch: (string, string) -> seq<ChartRow>)
    : Result<seq<ChartEntry>, string>
  {
    if weeks == [] then Ok([])
    else
      var (code, daterange) := weeks[|weeks| - 1];
      match Collect(weeks[..|weeks| - 1], fetch)
      case Err(e) => Err(e)
      case Ok(entries) =>
        match ExtractWeeklyChart(code, daterange, fetch(code, daterange))
        case Err(e) => Err(e)
        case Ok(chart) => Ok(entries + chart)
  }

  /** Row `e` belongs to the chart of week `w`: its country is the one
      named by the week's code, its daterange the week's token, and its
      year the year the daterange starts in. */
  predicate FromWeek(e: ChartEntry, w: (string, string))
  {
    w.0 in Countries && e.country == Countries[w.0] && e.daterange == w.1 && ChartYear(w.1) == Some(e.year)
  }

  /** Every row of a weekly chart is tagged with that week. */
  lemma ChartRowsFromWeek(code: string, daterange: string, rows: seq<ChartRow>)
    requires ExtractWeeklyChart(code, daterange, rows).Ok?
    ensures forall e :: e in ExtractWeeklyChart(code, daterange, rows).value ==> FromWeek(e, (code, daterange))
  {
  }

  /** Every collected row comes from one of the requested weeks. */
  lemma {:induction false} CollectedRows(weeks: seq<(string, string)>, fetch: (string, string) -> seq<ChartRow>)
    requires Collect(weeks, fetch).Ok?
    ensures forall e :: e in Collect(weeks, fetch).value ==> exists k :: 0 <= k < |weeks| && FromWeek(e, weeks[k])
  {
    if weeks != [] {
      var init := weeks[..|weeks| - 1];
      var w := weeks[|weeks| - 1];
      CollectedRows(init, fetch);
      ChartRowsFromWeek(w.0, w.1, fetch(w.0, w.1));
      var chart := ExtractWeeklyChart(w.0, w.1, fetch(w.0, w.1)).value;
      assert Collect(weeks, fetch).value == Collect(init, fetch).value + chart;
      forall e | e in Collect(weeks, fetch).value
        ensures exists k :: 0 <= k < |weeks| && FromWeek(e, weeks[k])
      {
        if e in chart {
          assert FromWeek(e, weeks[|weeks| - 1]);
        } else {
          var k :| 0 <= k < |init| && FromWeek(e, init[k]);
          assert weeks[k] == init[k];
        }
      }
    }
  }

  /** Collecting one more chart. */
  lemma CollectStep(done: seq<(string, string)>, w: (string, string), fetch: (string, string) -> seq<ChartRow>)
    requires Collect(done, fetch).Ok?
    ensures var chart := ExtractWeeklyChart(w.0, w.1, fetch(w.0, w.1));
      Collect(done + [w], fetch) == if chart.Ok? then Ok(Collect(done, fetch).value + chart.value) else Err(chart.error)
  {
    assert (done + [w])[..|done|] == done;
  }

  /** The requested charts through week `j` of a country, after the
      charts `x` of the countries before it. */
  lemma WeeksStep(x: seq<(string, string)>, code: string, tokens: seq<string>, j: nat)
    requires j < |tokens|
    ensures x + CountryWeeks(code, tokens[..j + 1]) == x + CountryWeeks(code, tokens[..j]) + [(code, tokens[j])]
  {
    var ts := tokens[..j];
    assert tokens[..j + 1] == ts + [tokens[j]];
    CountryWeeksSnoc(code, ts, tokens[j]);
    SnocAssociates(x, CountryWeeks(code, ts), (code, tokens[j]));
  }

  lemma SnocAssociates<T>(x: seq<T>, y: seq<T>, z: T)
    ensures x + (y + [z]) == x + y + [z]
  {
  }

  lemma CountryWeeksSnoc(code: string, ts: seq<string>, t: string)
    ensures CountryWeeks(code, ts + [t]) == CountryWeeks(code, ts) + [(code, t)]
  {
    var a, b := CountryWeeks(code, ts + [t]), CountryWeeks(code, ts) + [(code, t)];
    assert |a| == |b|;
    forall k | 0 <= k < |a|
      ensures a[k] == b[k]
    {
      if k < |ts| {
        assert a[k] == (code, ts[k]);
      }
    }
  }

  /** All the weeks of country `i` complete the first `i + 1` countries. */
  lemma WeeksNext(codes: seq<string>, i: nat, tokens: seq<string>)
    requires i < |codes|
    ensures Weeks(codes[..i + 1], tokens) == Weeks(codes[..i], tokens) + CountryWeeks(codes[i], tokens)
  {
    assert codes[..i + 1][..i] == codes[..i];
  }

  /** The tokens of `generate_url_tokens()`, as a sequence. */
  lemma TokensAre(tokens: seq<string>, format: int -> string)
    requires |tokens| == WeekCount(StartDate, EndDate)
    requires forall i :: 0 <= i < |tokens| ==> tokens[i] == WeekToken(StartDate + 7 * i, format)
    ensures tokens == UrlTokens(format)
  {
  }

  /** `create_dataset()`: for each country, for each week token, the rows
      of that week's chart, all concatenated; an error raised by one chart
      ends the run. */
  method CreateDataset(format: int -> string, fetch: (string, string) -> seq<ChartRow>)
    returns (r: Result<seq<ChartEntry>, string>)
    ensures r == Collect(Weeks(CountryCodes, UrlTokens(format)), fetch)
  {
    r := CollectCharts(CountryCodes, format, fetch);
  }

  /** The loop of `create_dataset()` over the given country codes. */
  method CollectCharts(codes: seq<string>, format: int -> string, fetch: (string, string) -> seq<ChartRow>)
    returns (r: Result<seq<ChartEntry>, string>)
    ensures r == Collect(Weeks(codes, UrlTokens(format)), fetch)
  {
    var dfs: seq<ChartEntry> := [];
    for i := 0 to |codes|
      invariant Collect(Weeks(codes[..i], UrlTokens(format)), fetch) == Ok(dfs)
    {
      var tokens := GenerateUrlTokens(format);
      TokensAre(tokens, format);
      var country := CollectCountry(codes[i], tokens, Weeks(codes[..i], tokens), dfs, fetch);
      WeeksNext(codes, i, tokens);
      if country.Err? {
        WeeksPrefix(codes, i + 1, tokens);
        CollectStops(Weeks(codes[..i + 1], tokens), Weeks(codes, tokens), fetch);
        return country;
      }
      dfs := country.value;
    }
    assert codes[..|codes|] == codes;
    r := Ok(dfs);
  }

  /** The inner loop of `create_dataset()`: the charts of one country
      appended, week by week, to the rows `dfs0` collected for the weeks
      `before`. */
  method CollectCountry(code: string, tokens: seq<string>, ghost before: seq<(string, string)>,
                        dfs0: seq<ChartEntry>, fetch: (string, string) -> seq<ChartRow>)
    returns (r: Result<seq<ChartEntry>, string>)
    requires Collect(before, fetch) == Ok(dfs0)
    ensures r == Collect(before + CountryWeeks(code, tokens), fetch)
  {
    var dfs := dfs0;
    assert CountryWeeks(code, tokens[..0]) == [];
    assert before + [] == before;
    for j := 0 to |tokens|
      invariant Collect(before + CountryWeeks(code, tokens[..j]), fetch) == Ok(dfs)
    {
      var chart := ExtractWeeklyChart(code, tokens[j], fetch(code, tokens[j]));
      WeeksStep(before, code, tokens, j);
      CollectStep(before + CountryWeeks(code, tokens[..j]), (code, tokens[j]), fetch);
      if chart.Err? {
        CountryWeeksPrefix(before, code, tokens, j + 1);
        CollectStops(before + CountryWeeks(code, tokens[..j + 1]), before + CountryWeeks(code, tokens), fetch);
        return Err(chart.error);
      }
      dfs := dfs + chart.value;
    }
    assert tokens[..|tokens|] == tokens;
    r := Ok(dfs);
  }

  /** The first `j` weeks of a country come before the rest. */
  lemma CountryWeeksPrefix(before: seq<(string, string)>, code: string, tokens: seq<string>, j: nat)
    requires j <= |tokens|
    ensures before + CountryWeeks(code, tokens[..j]) <= before + CountryWeeks(code, tokens)
  {
    assert CountryWeeks(code, tokens[..j]) <= CountryWeeks(code, tokens);
  }

  /** The charts of the first `k` countries come first. */
  lemma {:induction false} WeeksPrefix(codes: seq<string>, k: nat, tokens: seq<string>)
    requires k <= |codes|
    ensures Weeks(codes[..k], tokens) <= Weeks(codes, tokens)
  {
    if k < |codes| {
      WeeksPrefix(codes[..|codes| - 1], k, tokens);
      assert codes[..|codes| - 1][..k] == codes[..k];
    } else {
      assert codes[..k] == codes;
    }
  }

  /** Once a chart raises, no later chart changes the outcome. */
  lemma {:induction false} CollectStops(weeks: seq<(string, string)>, more: seq<(string, string)>,
                                        fetch: (string, string) -> seq<ChartRow>)
    requires weeks <= more && Collect(weeks, fetch).Err?
    ensures Collect(more, fetch) == Collect(weeks, fetch)
  {
    if |more| > |weeks| {
      var init := more[..|more| - 1];
      assert weeks <= init;
      CollectStops(weeks, init, fetch);
    } else {
      assert weeks == more;
    }
  }
}
