/** Language labelling of chart songs (scrape-top-charts/detect_language.py):
    a detector memoised per (artist, title) in an unbounded cache, in front
    of three outside services (a lyrics search, a language detector and a
    table from two-letter codes to language names), which appear here as
    parameters. */
module LanguageCache {
  import opened Wrappers
  import Strings

  /** The cache key: artist and title. */
  datatype Song = Song(artist: string, title: string)

  /** What the lyrics search answers: no song, a song (whose lyrics may be
      missing), a connection timeout, or any other exception of the search
      (an HTTP or connection error), which nothing catches. */
  datatype SearchResult = NotFound | Found(lyrics: Option<string>) | TimedOut | SearchFailed

  /** What the language detector answers: a two-letter code, or the
      detector's own failure on text it cannot classify. */
  datatype Detection = Code(alpha2: string) | Undetectable

  /** The outcome of one detection call: a label (a language name or one
      of the two failure sentinels), or an exception that escapes, which
      happens when the search raises something other than a timeout or
      when the code has no language name. */
  datatype Outcome = Label(name: string) | Raised

  const DetectFailure: string := "LangDetectException"
  const TimeoutFailure: string := "Timeout"

  /** The text handed to the detector: the lyrics when the song was found
      with lyrics, otherwise the lower-cased title; nothing when the search
      timed out or raised. */
  function DetectionInput(title: string, response: SearchResult): (r: Option<string>)
    ensures r.None? <==> response.TimedOut? || response.SearchFailed?
    ensures response.Found? && response.lyrics.Some? ==> r == Some(response.lyrics.value)
    ensures response.NotFound? || response == Found(None) ==> r == Some(Strings.Lower(title))
  {
    match response
    case TimedOut => None
    case SearchFailed => None
    case Found(Some(lyrics)) => Some(lyrics)
    case _ => Some(Strings.Lower(title))
  }

  /** One uncached run of the detection for `song` given the search's
      answer: the language name, a sentinel, or `Raised`. */
  function Resolve(song: Song, response: SearchResult, detect: string -> Detection,
                   names: string -> Option<string>): Outcome
  {
    match DetectionInput(song.title, response)
    case None => if response.SearchFailed? then Raised else Label(TimeoutFailure)
    case Some(text) =>
      match detect(text)
      case Undetectable => Label(DetectFailure)
      case Code(c) =>
        match names(c)
        case None => Raised
        case Some(name) => Label(name)
  }

  /** The ways a detection ends, each tied to its cause: a timeout
      exactly when the search timed out (no language is called "Timeout"),
      the detector's sentinel exactly when the detector fails, an escaping
      exception exactly when the search raised something else or the code
      has no language name. */
  lemma ResolveOutcomes(song: Song, response: SearchResult, detect: string -> Detection,
                        names: string -> Option<string>)
    requires forall c :: names(c) != Some(TimeoutFailure) && names(c) != Some(DetectFailure)
    ensures var r := Resolve(song, response, detect, names);
      var input := DetectionInput(song.title, response);
      && (r == Label(TimeoutFailure) <==> response.TimedOut?)
      && (r == Label(DetectFailure) <==> input.Some? && detect(input.value).Undetectable?)
      && (r.Raised? <==> response.SearchFailed? ||
                         (input.Some? && detect(input.value).Code? && names(detect(input.value).alpha2).None?))
  {
  }

  /** The memoised `detect_song_language`. `lookups` logs every call that
      reached the outside services, in order. */
  class LanguageDetector {
    const detect: string -> Detection
    const names: string -> Option<string>
    var cache: map<Song, string>
    var lookups: seq<Song>
    /** The search answer each cached label was computed from. */
    ghost var answers: map<Song, SearchResult>

    /** Every cached label is what the services gave for that song, and
        came from a logged lookup. */
    ghost predicate Valid()
      reads this
    {
      forall s :: s in cache ==>
        s in answers && s in lookups && Resolve(s, answers[s], detect, names) == Label(cache[s])
    }

    constructor(detect: string -> Detection, names: string -> Option<string>)
      ensures Valid()
      ensures this.detect == detect && this.names == names
      ensures cache == map[] && lookups == []
    {
      this.detect := detect;
      this.names := names;
      cache := map[];
      lookups := [];
      answers := map[];
    }

    /** `detect_song_language(artist, title)`: a cached label comes back
        with no lookup; otherwise the services are asked once, and the
        result is cached unless it raised. */
    method DetectSongLanguage(artist: string, title: string, response: SearchResult) returns (r: Outcome)
      requires Valid()
      modifies this
      ensures Valid()
      ensures var song := Song(artist, title);
        if song in old(cache) then
          r == Label(old(cache)[song]) && cache == old(cache) && lookups == old(lookups)
        else
          && r == Resolve(song, response, detect, names)
          && lookups == old(lookups) + [song]
          && cache == (if r.Label? then old(cache)[song := r.name] else old(cache))
    {
      var song := Song(artist, title);
      if song in cache {
        return Label(cache[song]);
      }
      lookups := lookups + [song];
      if response.SearchFailed? {
        return Raised;
      }
      var input := DetectionInput(title, response);
      if input.None? {
        r := Label(TimeoutFailure);
      } else {
        var detected := detect(input.value);
        if detected.Undetectable? {
          r := Label(DetectFailure);
        } else {
          var name := names(detected.alpha2);
          if name.None? {
            return Raised;
          }
          r := Label(name.value);
        }
      }
      cache := cache[song := r.name];
      answers := answers[song := response];
    }

    /** `amend_song_language`: any label but "Timeout" is returned as it
        is; "Timeout" asks `detect_song_language` again, which answers from
        the cache when the song is there. */
    method AmendSongLanguage(artist: string, title: string, language: string, response: SearchResult)
      returns (r: Outcome)
      requires Valid()
      modifies this
      ensures Valid()
      ensures language != TimeoutFailure ==>
        r == Label(language) && cache == old(cache) && lookups == old(lookups)
      ensures var song := Song(artist, title);
        language == TimeoutFailure && song in old(cache) ==>
          r == Label(old(cache)[song]) && cache == old(cache) && lookups == old(lookups)
      ensures var song := Song(artist, title);
        language == TimeoutFailure && song !in old(cache) ==>
          && r == Resolve(song, response, detect, names)
          && lookups == old(lookups) + [song]
          && cache == (if r.Label? then old(cache)[song := r.name] else old(cache))
    {
      if language == TimeoutFailure {
        r := DetectSongLanguage(artist, title, response);
      } else {
        r := Label(language);
      }
    }

    /** Amending the sentinel with the cached entry for the song removed
        first, so that the services are asked again. */
    method RetrySongLanguage(artist: string, title: string, language: string, response: SearchResult)
      returns (r: Outcome)
      requires Valid()
      modifies this
      ensures Valid()
      ensures language != TimeoutFailure ==>
        r == Label(language) && cache == old(cache) && lookups == old(lookups)
      ensures var song := Song(artist, title);
        language == TimeoutFailure ==>
          && r == Resolve(song, response, detect, names)
          && lookups == old(lookups) + [song]
          && (r.Label? ==> cache == old(cache)[song := r.name])
          && (r.Raised? ==> cache == map s | s in old(cache) && s != song :: old(cache)[s])
    {
      if language == TimeoutFailure {
        var song := Song(artist, title);
        cache := map s | s in cache && s != song :: cache[s];
        r := DetectSongLanguage(artist, title, response);
        assert r.Label? ==> cache == old(cache)[song := r.name];
        assert r.Raised? ==> cache == map s | s in old(cache) && s != song :: old(cache)[s];
      } else {
        r := Label(language);
      }
    }

    /** Since the cache held `cache0` and the log held `log0`: no cached
        label changed, and the log grew by distinct songs taken from `seen`
        that were not cached before. */
    ghost predicate Extends(cache0: map<Song, string>, log0: seq<Song>, seen: seq<Song>)
      reads this
    {
      && (forall s :: s in cache0 ==> s in cache && cache[s] == cache0[s])
      && |log0| <= |lookups| && lookups[..|log0|] == log0
      && (forall j :: |log0| <= j < |lookups| ==> lookups[j] in seen && lookups[j] !in cache0)
      && (forall j, k :: |log0| <= j < k < |lookups| ==> lookups[j] != lookups[k])
    }

    /** Row `j` of `seen` is labelled `labels[j]`, its song's cached label. */
    ghost predicate Labelled(seen: seq<Song>, labels: seq<string>)
      reads this
    {
      |labels| == |seen| && forall j :: 0 <= j < |seen| ==> seen[j] in cache && labels[j] == cache[seen[j]]
    }

    /** Every song looked up since the log held `log0` is cached. */
    ghost predicate LookupsCached(log0: seq<Song>)
      reads this
    {
      forall j :: |log0| <= j < |lookups| ==> lookups[j] in cache
    }

    /** The per-row `apply` of the labelling script: one label per row, in
        row order, each row's label being its song's cached label, so rows
        of the same song get the same label; the services are asked at most
        once per song not already cached. An exception on some row stops
        the labelling and is reported with that row's song. `responses[i]`
        is what the search answers if row `i` needs a lookup. */
    method LabelRows(rows: seq<Song>, responses: seq<SearchResult>) returns (r: Result<seq<string>, Song>)
      requires Valid()
      requires |responses| == |rows|
      modifies this
      ensures Valid()
      ensures Extends(old(cache), old(lookups), rows)
      ensures r.Ok? ==> Labelled(rows, r.value)
      ensures r.Ok? ==> forall i, j :: 0 <= i < |rows| && 0 <= j < |rows| && rows[i] == rows[j] ==>
        r.value[i] == r.value[j]
      ensures r.Err? ==> r.error in rows && r.error !in cache
    {
      ghost var cache0 := cache;
      ghost var log0 := lookups;
      var labels: seq<string> := [];
      var i := 0;
      while i < |rows|
        invariant 0 <= i <= |rows|
        invariant Valid()
        invariant Labelled(rows[..i], labels)
        invariant Extends(cache0, log0, rows[..i])
        invariant LookupsCached(log0)
      {
        var outcome := LabelRow(rows[i], responses[i], cache0, log0, rows[..i], labels);
        assert rows[..i] + [rows[i]] == rows[..i + 1];
        if outcome.Raised? {
          ExtendsMore(cache0, log0, rows[..i + 1], rows);
          return Err(rows[i]);
        }
        labels := labels + [outcome.name];
        i := i + 1;
      }
      assert rows[..i] == rows;
      LabelledSame(rows, labels);
      return Ok(labels);
    }

    /** One row of `LabelRows`. */
    method LabelRow(song: Song, response: SearchResult, ghost cache0: map<Song, string>,
                    ghost log0: seq<Song>, ghost seen: seq<Song>, ghost labels: seq<string>)
      returns (outcome: Outcome)
      requires Valid() && Extends(cache0, log0, seen) && LookupsCached(log0) && Labelled(seen, labels)
      modifies this
      ensures Valid() && Extends(cache0, log0, seen + [song])
      ensures outcome.Label? ==> LookupsCached(log0) && Labelled(seen + [song], labels + [outcome.name])
      ensures outcome.Raised? ==> song !in cache
    {
      ghost var before := lookups;
      ghost var cacheBefore := cache;
      outcome := DetectSongLanguage(song.artist, song.title, response);
      if song !in old(cache) {
        assert lookups[..|log0|] == before[..|log0|];
        assert forall j :: |log0| <= j < |before| ==> lookups[j] == before[j];
      }
      if outcome.Label? {
        forall j | 0 <= j < |seen| + 1
          ensures (seen + [song])[j] in cache && (labels + [outcome.name])[j] == cache[(seen + [song])[j]]
        {
          if j < |seen| {
            assert seen[j] in cacheBefore && labels[j] == cacheBefore[seen[j]];
          }
        }
      }
    }

    /** Rows of the same song carry the same label. */
    lemma LabelledSame(seen: seq<Song>, labels: seq<string>)
      requires Labelled(seen, labels)
      ensures forall i, j :: 0 <= i < |seen| && 0 <= j < |seen| && seen[i] == seen[j] ==> labels[i] == labels[j]
    {
    }

    /** `Extends` keeps holding when more songs count as seen. */
    lemma ExtendsMore(cache0: map<Song, string>, log0: seq<Song>, seen: seq<Song>, more: seq<Song>)
      requires Extends(cache0, log0, seen)
      requires forall s :: s in seen ==> s in more
      ensures Extends(cache0, log0, more)
    {
    }
  }

  /** As written, amending right after a timeout gets the cached "Timeout"
      back: the search is not asked again, whatever it would answer now. */
  method AmendAfterTimeout(d: LanguageDetector, artist: string, title: string, retry: SearchResult)
    returns (first: Outcome, amended: Outcome)
    requires d.Valid() && Song(artist, title) !in d.cache
    modifies d
    ensures first == Label(TimeoutFailure) && amended == Label(TimeoutFailure)
    ensures d.lookups == old(d.lookups) + [Song(artist, title)]
    ensures d.cache == old(d.cache)[Song(artist, title) := TimeoutFailure]
  {
    first := d.DetectSongLanguage(artist, title, TimedOut);
    amended := d.AmendSongLanguage(artist, title, first.name, retry);
  }

  /** With the cached sentinel removed, amending after a timeout asks the
      services again and gets their answer, a language name when the
      lyrics are found and classified. */
  method RetryAfterTimeout(d: LanguageDetector, artist: string, title: string, retry: SearchResult)
    returns (first: Outcome, amended: Outcome)
    requires d.Valid() && Song(artist, title) !in d.cache
    modifies d
    ensures first == Label(TimeoutFailure)
    ensures amended == Resolve(Song(artist, title), retry, d.detect, d.names)
    ensures d.lookups == old(d.lookups) + [Song(artist, title), Song(artist, title)]
    ensures amended.Label? ==> d.cache == old(d.cache)[Song(artist, title) := amended.name]
    ensures amended.Raised? ==> d.cache == old(d.cache)
    ensures (retry.Found? && retry.lyrics.Some? && d.detect(retry.lyrics.value).Code? &&
             d.names(d.detect(retry.lyrics.value).alpha2).Some?) ==>
      amended == Label(d.names(d.detect(retry.lyrics.value).alpha2).value)
  {
    first := d.DetectSongLanguage(artist, title, TimedOut);
    amended := d.RetrySongLanguage(artist, title, first.name, retry);
  }
}
