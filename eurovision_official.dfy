/** The official Eurovision results scraper
    (scrape-eurovision/scrape_eurovision_songs_official.py): which event
    pages are read, how each participant is looked up in the final's
    result table, and the rows the event contributes to
    `eurovision_songs_official.csv`. Downloaded pages are parameters: the
    participant cards and the final-table rows a URL yields. */
module EurovisionOfficial {
  import opened Wrappers
  import opened Strings
  import CatalogMerge

  // ---------------------------------------------------------------------
  // gather_events_url

  /** The event links in page order without the first one (the event of
      the current year, not yet held). */
  function GatherEvents(hrefs: seq<string>): (r: seq<string>)
    ensures hrefs == [] ==> r == []
    ensures hrefs != [] ==> hrefs == [hrefs[0]] + r
  {
    if hrefs == [] then [] else hrefs[1..]
  }

  // ---------------------------------------------------------------------
  // get_participant_info

  /** The texts of a participant card: its title heading, its country
      label and its song line. */
  datatype ParticipantCard = ParticipantCard(artistText: string, countryText: string, titleText: string)

  datatype Participant = Participant(artist: string, country: string, title: string)

  /** No whitespace at either end. */
  predicate Trimmed(s: string)
  {
    s == [] || (s[0] !in Whitespace && s[|s| - 1] !in Whitespace)
  }

  /** `get_participant_info(participant)`: the three texts, stripped. */
  function GetParticipantInfo(card: ParticipantCard): Participant
  {
    Participant(Strip(card.artistText), Strip(card.countryText), Strip(card.titleText))
  }

  /** The participant's texts carry no surrounding whitespace, so
      stripping them again changes nothing. */
  lemma ParticipantTrimmed(card: ParticipantCard)
    ensures var p := GetParticipantInfo(card);
      Trimmed(p.artist) && Trimmed(p.country) && Trimmed(p.title) &&
      Strip(p.artist) == p.artist && Strip(p.country) == p.country && Strip(p.title) == p.title
  {
    StripIdempotent(card.artistText);
    StripIdempotent(card.countryText);
    StripIdempotent(card.titleText);
  }

  /** A card whose texts carry no surrounding whitespace is read as it is. */
  lemma ParticipantAsShown(card: ParticipantCard)
    requires Trimmed(card.artistText) && Trimmed(card.countryText) && Trimmed(card.titleText)
    ensures GetParticipantInfo(card) == Participant(card.artistText, card.countryText, card.titleText)
  {
    TrimmedStrip(card.artistText);
    TrimmedStrip(card.countryText);
    TrimmedStrip(card.titleText);
  }

  lemma TrimmedStrip(s: string)
    requires Trimmed(s)
    ensures Strip(s) == s
  {
    StripClean(s);
  }

  // ---------------------------------------------------------------------
  // get_final_info_if_present

  /** A row of the final's result table: the texts of its cells, and the
      text of the span inside the title cell (`None` when the cell has no
      span). */
  datatype FinalRow = FinalRow(cells: seq<string>, titleSpan: Option<string>)

  /** Place (the ordinal without its suffix) and points of a song in the
      final; both `None` for a song that did not reach it. */
  datatype FinalInfo = FinalInfo(place: Option<string>, points: Option<int>)

  const ArtistCol: nat := 2
  const TitleCol: nat := 3
  const PointsCol: nat := 4
  const PlaceCol: nat := 5

  /** The dash the table shows for no points, as the page text decodes it. */
  const NoPoints: string := "\U{00E2}\U{20AC}\U{201D}"

  /** The stripped artist and title of a row; a row too short to have a
      title cell raises `IndexError`, a title cell without a span
      `AttributeError`. */
  function RowKey(row: FinalRow): Result<(string, string), string>
  {
    if |row.cells| <= TitleCol then Err("IndexError")
    else match row.titleSpan
      case None => Err("AttributeError")
      case Some(span) => Ok((Strip(row.cells[ArtistCol]), Strip(span)))
  }

  /** The place cell, stripped, without its two-letter suffix. */
  function Place(cell: string): string
  {
    DropLastTwo(Strip(cell))
  }

  /** The points cell: 0 for the dash, else its integer value. */
  function Points(cell: string): Result<int, string>
  {
    var t := Strip(cell);
    if t != NoPoints then
      match ParseInt(t)
      case None => Err("ValueError")
      case Some(n) => Ok(n)
    else Ok(0)
  }

  /** The place and points read from the row that matched. */
  function RowResult(row: FinalRow): Result<FinalInfo, string>
  {
    if |row.cells| <= PlaceCol then Err("IndexError")
    else
      match Points(row.cells[PointsCol])
      case Err(e) => Err(e)
      case Ok(points) => Ok(FinalInfo(Some(Place(row.cells[PlaceCol])), Some(points)))
  }

  /** The rows are scanned in order; the first whose artist and title are
      exactly the participant's gives the result, and a participant with no
      such row gets no place and no points. */
  function FinalInfoOf(artist: string, title: string, rows: seq<FinalRow>): (r: Result<FinalInfo, string>)
    ensures r.Ok? ==> (r.value.place.Some? <==> r.value.points.Some?)
  {
    if rows == [] then Ok(FinalInfo(None, None))
    else
      match RowKey(rows[0])
      case Err(e) => Err(e)
      case Ok(key) =>
        if key == (artist, title) then RowResult(rows[0]) else FinalInfoOf(artist, title, rows[1..])
  }

  /** `get_final_info_if_present(artist, title, final_rows)`. */
  method GetFinalInfoIfPresent(artist: string, title: string, rows: seq<FinalRow>) returns (r: Result<FinalInfo, string>)
    ensures r == FinalInfoOf(artist, title, rows)
  {
    for i := 0 to |rows|
      invariant FinalInfoOf(artist, title, rows) == FinalInfoOf(artist, title, rows[i..])
    {
      assert rows[i..][1..] == rows[i + 1..];
      var row := rows[i];
      if |row.cells| <= ArtistCol {
        return Err("IndexError");
      }
      var rowartist := Strip(row.cells[ArtistCol]);
      if |row.cells| <= TitleCol {
        return Err("IndexError");
      }
      if row.titleSpan.None? {
        return Err("AttributeError");
      }
      var rowtitle := Strip(row.titleSpan.value);
      if rowartist == artist && rowtitle == title {
        if |row.cells| <= PlaceCol {
          return Err("IndexError");
        }
        var rowplace := DropLastTwo(Strip(row.cells[PlaceCol]));
        var pointsText := Strip(row.cells[PointsCol]);
        var rowpoints := 0;
        if pointsText != NoPoints {
          var n := ParseInt(pointsText);
          if n.None? {
            return Err("ValueError");
          }
          rowpoints := n.value;
        }
        return Ok(FinalInfo(Some(rowplace), Some(rowpoints)));
      }
    }
    return Ok(FinalInfo(None, None));
  }

  /** Row `k` is the first row whose artist and title are the
      participant's, and every row before it could be read. */
  predicate FirstMatchAt(artist: string, title: string, rows: seq<FinalRow>, k: int)
  {
    0 <= k < |rows| && RowKey(rows[k]) == Ok((artist, title)) &&
    forall j :: 0 <= j < k ==> RowKey(rows[j]).Ok? && RowKey(rows[j]).value != (artist, title)
  }

  /** No row matches, and every row could be read. */
  predicate NoMatch(artist: string, title: string, rows: seq<FinalRow>)
  {
    forall j :: 0 <= j < |rows| ==> RowKey(rows[j]).Ok? && RowKey(rows[j]).value != (artist, title)
  }

  /** The first matching row decides, whatever the rows after it hold. */
  lemma {:induction false} FirstMatchDecides(artist: string, title: string, rows: seq<FinalRow>, k: int)
    requires FirstMatchAt(artist, title, rows, k)
    ensures FinalInfoOf(artist, title, rows) == RowResult(rows[k])
  {
    if k > 0 {
      assert RowKey(rows[0]).Ok? && RowKey(rows[0]).value != (artist, title);
      assert FirstMatchAt(artist, title, rows[1..], k - 1) by {
        assert forall j :: 0 <= j < k - 1 ==> rows[1..][j] == rows[j + 1];
      }
      FirstMatchDecides(artist, title, rows[1..], k - 1);
    }
  }

  /** Without a matching row the result is no place and no points. */
  lemma {:induction false} NoMatchAbsent(artist: string, title: string, rows: seq<FinalRow>)
    requires NoMatch(artist, title, rows)
    ensures FinalInfoOf(artist, title, rows) == Ok(FinalInfo(None, None))
  {
    if rows != [] {
      assert RowKey(rows[0]).Ok? && RowKey(rows[0]).value != (artist, title);
      assert NoMatch(artist, title, rows[1..]) by {
        assert forall j :: 0 <= j < |rows| - 1 ==> rows[1..][j] == rows[j + 1];
      }
      NoMatchAbsent(artist, title, rows[1..]);
    }
  }

  /** Conversely, a place means a first matching row. */
  lemma {:induction false} FinalInfoFound(artist: string, title: string, rows: seq<FinalRow>)
    requires FinalInfoOf(artist, title, rows).Ok? && FinalInfoOf(artist, title, rows).value.place.Some?
    ensures exists k :: FirstMatchAt(artist, title, rows, k) && RowResult(rows[k]) == FinalInfoOf(artist, title, rows)
  {
    if RowKey(rows[0]).value == (artist, title) {
      assert FirstMatchAt(artist, title, rows, 0);
    } else {
      var tail := rows[1..];
      FinalInfoFound(artist, title, tail);
      var k :| FirstMatchAt(artist, title, tail, k) && RowResult(tail[k]) == FinalInfoOf(artist, title, tail);
      assert FinalInfoOf(artist, title, rows) == FinalInfoOf(artist, title, tail);
      assert rows[k + 1] == tail[k];
      forall j | 1 <= j < k + 1
        ensures RowKey(rows[j]).Ok? && RowKey(rows[j]).value != (artist, title)
      {
        assert rows[j] == tail[j - 1];
      }
      assert FirstMatchAt(artist, title, rows, k + 1);
    }
  }

  /** And no place means that no row matched. */
  lemma {:induction false} FinalInfoNone(artist: string, title: string, rows: seq<FinalRow>)
    requires FinalInfoOf(artist, title, rows).Ok? && FinalInfoOf(artist, title, rows).value.place.None?
    ensures NoMatch(artist, title, rows)
  {
    if rows != [] {
      var tail := rows[1..];
      assert RowKey(rows[0]).Ok? && RowKey(rows[0]).value != (artist, title);
      assert FinalInfoOf(artist, title, rows) == FinalInfoOf(artist, title, tail);
      FinalInfoNone(artist, title, tail);
      forall j | 1 <= j < |rows|
        ensures RowKey(rows[j]).Ok? && RowKey(rows[j]).value != (artist, title)
      {
        assert rows[j] == tail[j - 1];
      }
    }
  }

  /** A place shown as a number with a two-letter suffix ("1st", "12th")
      is kept as the number's text. */
  lemma PlaceWithoutSuffix(n: nat, suffix: string)
    requires |suffix| == 2 && suffix[1] !in Whitespace
    ensures Place(ShowNat(n) + suffix) == ShowNat(n)
  {
    var s := ShowNat(n) + suffix;
    DigitNotWhitespace(s[0]);
    StripClean(s);
  }

  /** The dash counts 0 points and a number counts its value. */
  lemma PointsRead(n: nat)
    ensures Points(NoPoints) == Ok(0)
    ensures Points(ShowNat(n)) == Ok(n as int)
  {
    StripClean(NoPoints);
    var s := ShowNat(n);
    DigitNotWhitespace(s[0]);
    DigitNotWhitespace(s[|s| - 1]);
    StripClean(s);
    ParseShowNat(n);
  }

  // ---------------------------------------------------------------------
  // extract_songinfo_from

  /** `int(url.split("-")[-1])`: the year at the end of an event URL. */
  function EventYear(url: string): Result<int, string>
  {
    match ParseInt(LastPiece(url, '-'))
    case None => Err("ValueError")
    case Some(year) => Ok(year)
  }

  /** An event URL ending in "-" and a year yields that year, whatever
      dashes the city part holds. */
  lemma EventYearOfUrl(prefix: string, year: nat)
    ensures EventYear(prefix + "-" + ShowNat(year)) == Ok(year as int)
  {
    assert '-' !in ShowNat(year);
    LastPieceAfter(prefix, ShowNat(year), '-');
    ParseShowNat(year);
  }

  /** The final's page: "/final" before 2004, "/grand-final" from 2004 on,
      when the contest gained a semi-final. */
  function FinalUrl(url: string, year: int): (r: string)
    ensures year < 2004 ==> r == url + "/final"
    ensures year >= 2004 ==> r == url + "/grand-final"
  {
    url + (if year < 2004 then "/final" else "/grand-final")
  }

  function ParticipantsUrl(url: string): string
  {
    url + "/participants"
  }

  /** The final's result for the participant of a card. */
  function Lookup(rows: seq<FinalRow>): ParticipantCard -> Result<FinalInfo, string>
  {
    card => FinalInfoOf(GetParticipantInfo(card).artist, GetParticipantInfo(card).title, rows)
  }

  /** The output row of a participant. */
  function SongRow(card: ParticipantCard, info: FinalInfo, year: int): CatalogMerge.OfficialSong
  {
    var p := GetParticipantInfo(card);
    CatalogMerge.OfficialSong(p.artist, p.country, p.title, info.place, info.points, year)
  }

  /** `zip(participants_info, final_info)` made into rows with the year. */
  function ZipRows(cards: seq<ParticipantCard>, infos: seq<FinalInfo>, year: int): (r: seq<CatalogMerge.OfficialSong>)
    requires |infos| == |cards|
    ensures |r| == |cards|
    ensures forall i :: 0 <= i < |cards| ==> r[i] == SongRow(cards[i], infos[i], year)
  {
    if cards == [] then [] else [SongRow(cards[0], infos[0], year)] + ZipRows(cards[1..], infos[1..], year)
  }

  /** `extract_songinfo_from(url)`: the year is read before any page is
      requested; then every participant card is looked up in the final's
      table, and the first lookup that raises ends the call. */
  function ExtractSongInfo(url: string, participantsPage: string -> seq<ParticipantCard>,
                           finalPage: string -> seq<FinalRow>): (r: Result<seq<CatalogMerge.OfficialSong>, string>)
    ensures EventYear(url).Err? ==> r == Err(EventYear(url).error)
    ensures r.Ok? ==> EventYear(url).Ok? && |r.value| == |participantsPage(ParticipantsUrl(url))|
  {
    match EventYear(url)
    case Err(e) => Err(e)
    case Ok(year) =>
      var cards := participantsPage(ParticipantsUrl(url));
      match MapAll(cards, Lookup(finalPage(FinalUrl(url, year))))
      case Err(e) => Err(e)
      case Ok(infos) => Ok(ZipRows(cards, infos, year))
  }

  /** One row per participant card, in card order: the participant with
      the place and points of its first matching final row, and the event
      year; the call succeeds exactly when every lookup does. */
  lemma ExtractedRows(url: string, participantsPage: string -> seq<ParticipantCard>, finalPage: string -> seq<FinalRow>)
    requires EventYear(url).Ok?
    ensures var year := EventYear(url).value;
      var cards, rows := participantsPage(ParticipantsUrl(url)), finalPage(FinalUrl(url, year));
      var r := ExtractSongInfo(url, participantsPage, finalPage);
      (r.Ok? <==> forall i :: 0 <= i < |cards| ==> Lookup(rows)(cards[i]).Ok?) &&
      (r.Ok? ==> forall i :: 0 <= i < |cards| ==> r.value[i] == SongRow(cards[i], Lookup(rows)(cards[i]).value, year))
  {
    var year := EventYear(url).value;
    var cards, rows := participantsPage(ParticipantsUrl(url)), finalPage(FinalUrl(url, year));
    MapAllEach(cards, Lookup(rows));
  }

  // ---------------------------------------------------------------------
  // create_dataset

  /** The event left out of the dataset. */
  const SkippedEvent: string := "https://eurovision.tv/event/london-1963"

  /** The rows of the listed events in order, the skipped event left out;
      the first event that raises stops the collection. */
  function CollectEvents(urls: seq<string>, participantsPage: string -> seq<ParticipantCard>,
                         finalPage: string -> seq<FinalRow>): Result<seq<CatalogMerge.OfficialSong>, string>
  {
    if urls == [] then Ok([])
    else
      var url := urls[|urls| - 1];
      match CollectEvents(urls[..|urls| - 1], participantsPage, finalPage)
      case Err(e) => Err(e)
      case Ok(rows) =>
        if url == SkippedEvent then Ok(rows)
        else
          match ExtractSongInfo(url, participantsPage, finalPage)
          case Err(e) => Err(e)
          case Ok(more) => Ok(rows + more)
  }

  /** Every collected row carries the year of one of the listed events,
      and never comes from the skipped event. */
  lemma {:induction false} CollectedEventRows(urls: seq<string>, participantsPage: string -> seq<ParticipantCard>,
                                              finalPage: string -> seq<FinalRow>)
    requires CollectEvents(urls, participantsPage, finalPage).Ok?
    ensures forall s :: s in CollectEvents(urls, participantsPage, finalPage).value ==>
      exists k :: 0 <= k < |urls| && urls[k] != SkippedEvent && EventYear(urls[k]) == Ok(s.year)
  {
    if urls != [] {
      var init, url := urls[..|urls| - 1], urls[|urls| - 1];
      CollectedEventRows(init, participantsPage, finalPage);
      forall s | s in CollectEvents(urls, participantsPage, finalPage).value
        ensures exists k :: 0 <= k < |urls| && urls[k] != SkippedEvent && EventYear(urls[k]) == Ok(s.year)
      {
        if s in CollectEvents(init, participantsPage, finalPage).value {
          var k :| 0 <= k < |init| && init[k] != SkippedEvent && EventYear(init[k]) == Ok(s.year);
          assert urls[k] == init[k];
        } else {
          var more := ExtractSongInfo(url, participantsPage, finalPage).value;
          var i :| 0 <= i < |more| && more[i] == s;
          assert urls[|urls| - 1] == url;
        }
      }
    }
  }

  /** Once an event raises, the later events change nothing. */
  lemma {:induction false} CollectEventsStops(urls: seq<string>, more: seq<string>,
                                              participantsPage: string -> seq<ParticipantCard>,
                                              finalPage: string -> seq<FinalRow>)
    requires urls <= more && CollectEvents(urls, participantsPage, finalPage).Err?
    ensures CollectEvents(more, participantsPage, finalPage) == CollectEvents(urls, participantsPage, finalPage)
  {
    if |more| > |urls| {
      var init := more[..|more| - 1];
      assert urls <= init;
      CollectEventsStops(urls, init, participantsPage, finalPage);
    } else {
      assert urls == more;
    }
  }

  /** Collecting one more event. */
  lemma CollectEventsStep(urls: seq<string>, i: nat, participantsPage: string -> seq<ParticipantCard>,
                          finalPage: string -> seq<FinalRow>)
    requires i < |urls| && CollectEvents(urls[..i], participantsPage, finalPage).Ok?
    ensures var done := CollectEvents(urls[..i], participantsPage, finalPage).value;
      var df := ExtractSongInfo(urls[i], participantsPage, finalPage);
      CollectEvents(urls[..i + 1], participantsPage, finalPage) ==
        if urls[i] == SkippedEvent then Ok(done)
        else if df.Err? then Err(df.error)
        else Ok(done + df.value)
  {
    assert urls[..i + 1][..i] == urls[..i];
  }

  /** How many of the listed events are not skipped: the number of
      tables handed to `pandas.concat`. */
  function KeptEvents(urls: seq<string>): (n: nat)
    ensures n <= |urls|
  {
    if urls == [] then 0
    else KeptEvents(urls[..|urls| - 1]) + (if urls[|urls| - 1] == SkippedEvent then 0 else 1)
  }

  /** No table is kept exactly when every listed event is the skipped one. */
  lemma {:induction false} NoKeptEvents(urls: seq<string>)
    ensures KeptEvents(urls) == 0 <==> forall k :: 0 <= k < |urls| ==> urls[k] == SkippedEvent
  {
    if urls != [] {
      var init := urls[..|urls| - 1];
      NoKeptEvents(init);
      assert forall k :: 0 <= k < |init| ==> init[k] == urls[k];
    }
  }

  /** The dataset: the collected rows, or the first error; with no table
      to concatenate, `pandas.concat` raises `ValueError`. */
  function Dataset(urls: seq<string>, participantsPage: string -> seq<ParticipantCard>,
                   finalPage: string -> seq<FinalRow>): (r: Result<seq<CatalogMerge.OfficialSong>, string>)
    ensures CollectEvents(urls, participantsPage, finalPage).Err? ==>
      r == CollectEvents(urls, participantsPage, finalPage)
    ensures r.Ok? <==>
      CollectEvents(urls, participantsPage, finalPage).Ok? && exists k :: 0 <= k < |urls| && urls[k] != SkippedEvent
    ensures r.Ok? ==> r == CollectEvents(urls, participantsPage, finalPage)
    ensures r.Err? && CollectEvents(urls, participantsPage, finalPage).Ok? ==> r == Err("ValueError")
  {
    NoKeptEvents(urls);
    match CollectEvents(urls, participantsPage, finalPage)
    case Err(e) => Err(e)
    case Ok(rows) => if KeptEvents(urls) == 0 then Err("ValueError") else Ok(rows)
  }

  /** With at most one event listed, or only the skipped event after the
      first, the dataset raises `ValueError`. */
  lemma NothingToConcat(hrefs: seq<string>, participantsPage: string -> seq<ParticipantCard>,
                        finalPage: string -> seq<FinalRow>)
    requires forall k :: 1 <= k < |hrefs| ==> hrefs[k] == SkippedEvent
    ensures Dataset(GatherEvents(hrefs), participantsPage, finalPage) == Err("ValueError")
  {
    var urls := GatherEvents(hrefs);
    NoKeptEvents(urls);
    assert forall k :: 0 <= k < |urls| ==> urls[k] == hrefs[k + 1];
    AllSkippedCollectsNothing(urls, participantsPage, finalPage);
  }

  /** Skipped events contribute nothing and never raise. */
  lemma {:induction false} AllSkippedCollectsNothing(urls: seq<string>, participantsPage: string -> seq<ParticipantCard>,
                                                     finalPage: string -> seq<FinalRow>)
    requires forall k :: 0 <= k < |urls| ==> urls[k] == SkippedEvent
    ensures CollectEvents(urls, participantsPage, finalPage) == Ok([])
  {
    if urls != [] {
      var init := urls[..|urls| - 1];
      assert forall k :: 0 <= k < |init| ==> init[k] == urls[k];
      AllSkippedCollectsNothing(init, participantsPage, finalPage);
    }
  }

  /** `create_dataset()`: the rows of every listed event but the first,
      skipping the London 1963 event, concatenated in page order; the
      first event that raises stops it, and with no event kept the
      concatenation raises. */
  method CreateDataset(hrefs: seq<string>, participantsPage: string -> seq<ParticipantCard>,
                       finalPage: string -> seq<FinalRow>) returns (r: Result<seq<CatalogMerge.OfficialSong>, string>)
    ensures r == Dataset(GatherEvents(hrefs), participantsPage, finalPage)
  {
    var urls := GatherEvents(hrefs);
    var dfs: seq<CatalogMerge.OfficialSong> := [];
    var tables := 0;
    for i := 0 to |urls|
      invariant CollectEvents(urls[..i], participantsPage, finalPage) == Ok(dfs)
      invariant tables == KeptEvents(urls[..i])
    {
      var url := urls[i];
      CollectEventsStep(urls, i, participantsPage, finalPage);
      assert urls[..i + 1][..i] == urls[..i];
      if url == SkippedEvent {
        continue;
      }
      var df := ExtractSongInfo(url, participantsPage, finalPage);
      if df.Err? {
        CollectEventsStops(urls[..i + 1], urls, participantsPage, finalPage);
        return Err(df.error);
      }
      dfs := dfs + df.value;
      tables := tables + 1;
    }
    assert urls[..|urls|] == urls;
    if tables == 0 {
      return Err("ValueError");
    }
    return Ok(dfs);
  }
}
