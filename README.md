# Scandinavian music charts — a verified model of the data pipeline

This project models the data-reconciliation core of the
`scandinavian-music-charts` pipeline in Dafny and proves what that core
promises. The pipeline has five parts:

- **Yearly top-10 tables** (`filter_top_10.py`).
  - Weekly radio and Spotify chart rows are filtered to positions 1-10.
  - They are grouped by (year, artist, title, country) and collapsed.
    Radio counts weeks (`weekcount`); Spotify sums `streams`.
  - The candidates are sorted with pandas' stable multi-column sort.
  - The first ten of every year group (radio, per country) or of every
    (year, country) group (Spotify) are kept.
  - The save steps sort the result once more.
- **The Eurovision catalog merge** (`assign_language.py`).
  - The official catalog and the esc-history.com catalog are each sorted
    by (year, country).
  - They are left-joined on country, lower-cased title and year.
  - The columns are then renamed, dropped and put in alphabetical order.
- **Language labelling** (`detect_language.py`).
  - The detector is memoised per (artist, title) in an unbounded cache.
    It stands in front of a lyrics search, a language detector and a
    code-to-name table.
  - Failures come back as the sentinels `"LangDetectException"` and
    `"Timeout"`, and these are cached too.
  - `amend_song_language` asks again only for `"Timeout"`.
  - The `__main__` loop labels every row of a chart table.
- **The Spotify scraper's logic** (`scrape_top_charts_spotify.py`).
  - The loop that generates chained weekly date-range tokens.
  - The parse of one chart row: position, artist, title, and
    comma-grouped streams.
  - The chart year taken from the date range.
  - `create_dataset`'s nested loop over countries and weeks.
  - The `dropna` and year filter applied before saving.
- **The official Eurovision scraper's logic**
  (`scrape_eurovision_songs_official.py`).
  - The event list, without its first entry.
  - The stripped participant cards.
  - The first-match search of the final table, including its place suffix
    and its points dash marker.
  - The event year taken from the URL, and the choice of final page.
  - The zip of participants with their final results.
  - `create_dataset`'s loop, which skips `london-1963`.

Web pages, files and outside services are parameters of the model.

Files:

- `wrappers.dfy`: `Option` and `Result`, where `Err` is an exception that
  propagates, and `MapAll`, a list comprehension whose element function may
  raise.
- `ordering.dfy`: Python's string order, lexicographic rank keys, and
  `SortBy`, the stable sort that pandas' multi-column `sort_values` performs.
- `strings.dfy`: the Python `str` builtins the core uses: `split`, `strip`,
  `lstrip(chars)`, `lower`, `capitalize`, `replace`, `int()` and `[:-2]`.
- `top_ten.dfy`: `filter_top_10.py`.
- `catalog_merge.dfy`: `assign_language.py`.
- `language_cache.dfy`: `detect_language.py`.
- `spotify_charts.dfy`: `scrape_top_charts_spotify.py`.
- `eurovision_official.dfy`: `scrape_eurovision_songs_official.py`.

Two behaviours of the code are easy to misread, and the model keeps both:

- The merge is pandas' left join. A left row with k matching catalog
  rows appears k times, not once with the first match.
- `amend_song_language` calls the memoised detector. After a `"Timeout"`
  in the same process it gets the cached `"Timeout"` back without a new
  search. This is recorded as a finding below.

## Model

| member | source | states |
|---|---|---|
| Wrappers.MapAllEach | scrape-top-charts/scrape_top_charts_spotify.py:60 | a comprehension whose element function may raise succeeds exactly when every element succeeds, and then yields each element's value in order |
| Ordering.StrLessTotal | scrape-top-charts/filter_top_10.py:29-30 | Python string order is total on distinct strings; with `StrLessIrreflexive` and `StrLessTransitive`, it is a strict total order, so the groupby key order is well defined |
| Ordering.LexLessTotal | scrape-top-charts/filter_top_10.py:29-30 | the multi-column sort key order is total, irreflexive (`LexLessIrreflexive`) and transitive (`LexLessTransitive`) |
| Ordering.LexLessAppend | scrape-top-charts/filter_top_10.py:60 | comparing two concatenated keys compares the first columns, and only when they are equal the rest |
| Ordering.SortBy | scrape-top-charts/filter_top_10.py:30 | `sort_values` returns a permutation of its input of the same length |
| Ordering.SortBySorted | scrape-top-charts/filter_top_10.py:30 | `sort_values` output is ordered by the sort key |
| Ordering.SortByStable | scrape-top-charts/filter_top_10.py:29-30 | the sort is stable: input already strictly ordered by a tie key comes out ordered by sort key, then tie key |
| Ordering.SortByTiesStable | scrape-top-charts/filter_top_10.py:44-46 | the sort is stable in general: rows of equal sort key that already stand in tie order come out ordered by sort key, then tie key |
| Ordering.SortByOfSorted | scrape-top-charts/filter_top_10.py:70 | sorting a table already in sort-key order leaves it unchanged |
| Ordering.SortedUnique | scrape-top-charts/filter_top_10.py:46 | two sort-key orderings of the same rows are equal when the keys are distinct |
| Ordering.StrictlySortedDistinct | scrape-top-charts/filter_top_10.py:29 | rows strictly ordered by (rank, tie) are pairwise different |
| Strings.Split | scrape-top-charts/filter_top_10.py:23 | `str.split` yields at least one piece, none containing the separator |
| Strings.JoinSplit | scrape-top-charts/filter_top_10.py:23 | joining the pieces of a split with the separator gives back the string |
| Strings.SplitJoin | scrape-top-charts/filter_top_10.py:23 | splitting a join of separator-free pieces gives back the pieces |
| Strings.SplitAppend | scrape-eurovision/scrape_eurovision_songs_official.py:58 | splitting `x + sep + y` splits `x` and `y` separately |
| Strings.LastPieceAfter | scrape-eurovision/scrape_eurovision_songs_official.py:58 | `split(sep)[-1]` of `x + sep + y` is `y` when `y` has no separator |
| Strings.FirstPieceOfJoin | scrape-top-charts/scrape_top_charts_spotify.py:62 | `split("--")[0]` of `a + "--" + b` is `a` when `a` holds no `--` |
| Strings.LeadCount | scrape-top-charts/scrape_top_charts_spotify.py:35 | `lstrip(chars)` removes the longest leading run of characters from the set, and only that run |
| Strings.TrailCount | scrape-eurovision/scrape_eurovision_songs_official.py:32-34 | the right half of `strip()` removes the longest trailing run of whitespace, and only that run |
| Strings.StripIdempotent | scrape-eurovision/scrape_eurovision_songs_official.py:32-34 | `strip()` output neither starts nor ends with whitespace, and stripping again changes nothing |
| Strings.StripClean | scrape-eurovision/scrape_eurovision_songs_official.py:47-48 | text without surrounding whitespace is its own `strip()` |
| Strings.RemoveChar | scrape-top-charts/scrape_top_charts_spotify.py:38 | `replace(",", "")` leaves no comma and keeps every other character, counted |
| Strings.RemoveCharAppend | scrape-top-charts/scrape_top_charts_spotify.py:38 | removing commas distributes over concatenation |
| Strings.DropLastTwo | scrape-eurovision/scrape_eurovision_songs_official.py:50 | `[:-2]` is the text before its last two characters, and empty for shorter text |
| Strings.Lower | scrape-eurovision/assign_language.py:13-14 | `str.lower` maps each character and keeps the length (ASCII letters) |
| Strings.Capitalize | scrape-top-charts/filter_top_10.py:25 | `capitalize` upper-cases the first character and lower-cases the rest |
| Strings.DigitsValueShowNat | scrape-top-charts/scrape_top_charts_spotify.py:33 | reading back the decimal digits of `n` gives `n` |
| Strings.ParseShowNat | scrape-top-charts/scrape_top_charts_spotify.py:33 | `int()` of a natural number's decimal text is that number |
| Strings.ParseShowNegative | scrape-eurovision/scrape_eurovision_songs_official.py:51 | `int()` reads a leading minus sign |
| Strings.DigitNotWhitespace | scrape-eurovision/scrape_eurovision_songs_official.py:50 | digits are not stripped as whitespace |
| TopTen.TopPositions | scrape-top-charts/filter_top_10.py:57 | the filter keeps exactly the rows at position 10 or better, each as often as in the input |
| TopTen.TotalOfOnes | scrape-top-charts/filter_top_10.py:29 | for rows that each count one week, a key's total is its number of rows |
| TopTen.TallyCorrect | scrape-top-charts/filter_top_10.py:29-30 | `groupby(...).count()/sum()` lists each key once, in ascending key order, with the total of its rows |
| TopTen.TallyMembers | scrape-top-charts/filter_top_10.py:59 | a candidate is in the grouped table exactly when its key occurs in the input and its value is the key's total |
| TopTen.HeadPerGroup | scrape-top-charts/filter_top_10.py:35 | `groupby(...).head(n)` keeps a sub-multiset of its input |
| TopTen.HeadCount | scrape-top-charts/filter_top_10.py:35 | every group keeps min(n, its size) rows: at most n, and all of a smaller group |
| TopTen.HeadMember | scrape-top-charts/filter_top_10.py:35 | a row is kept exactly when fewer than n rows of its group come before it |
| TopTen.HeadOrder | scrape-top-charts/filter_top_10.py:35 | `head` keeps the rows it keeps in input order: input strictly ordered by (rank, tie) stays so |
| TopTen.HeadKeepsLargest | scrape-top-charts/filter_top_10.py:30-35 | in value-descending input, no dropped row of a group has a larger value than a kept one |
| TopTen.KeptBeforeDropped | scrape-top-charts/filter_top_10.py:35 | within a group every kept row precedes every dropped row |
| TopTen.GroupValuesNonIncreasing | scrape-top-charts/filter_top_10.py:60 | within a group, values never increase in sorted order |
| TopTen.TopNCandidates | scrape-top-charts/filter_top_10.py:59-62 | every kept candidate is a grouped candidate: a key of the filtered rows with its total |
| TopTen.TopNOrder | scrape-top-charts/filter_top_10.py:59-62 | the kept rows are in rank order with ties in groupby key order, each key appears once, and values never increase within a group |
| TopTen.TopNCounts | scrape-top-charts/filter_top_10.py:62 | every group keeps min(n, its candidates) rows |
| TopTen.TopNLargest | scrape-top-charts/filter_top_10.py:60-62 | no dropped candidate of a group has a larger value than a kept one |
| TopTen.SpotifyTopTen | scrape-top-charts/filter_top_10.py:50-64 | Spotify: each kept row is a top-10 key with its streams sum, keys are unique, rows are in (year, country, streams desc, key) order, and each (year, country) group has at most 10 rows |
| TopTen.SaveFilteredSpotifyCharts | scrape-top-charts/filter_top_10.py:67-71 | the saving sort moves no row: the saved table is the filtered table |
| TopTen.PathCountry | scrape-top-charts/filter_top_10.py:23 | the third `_` piece of the path holds no `_` (`None` is the `IndexError`) |
| TopTen.PathCountryOfJoin | scrape-top-charts/filter_top_10.py:23 | the third `_` piece of a path made of `_`-free pieces is its third piece |
| TopTen.RadioChartLabel | scrape-top-charts/filter_top_10.py:23-25 | a chart file `charts_radio_<country>_2017_2021.csv` gives the country label `<Country>`, capitalised |
| TopTen.Dict.Put | scrape-top-charts/filter_top_10.py:26-32 | assigning a dict key updates that key only, keeps the insertion order of an existing key and appends a new one |
| TopTen.WeeklyTables | scrape-top-charts/filter_top_10.py:20-26 | the first loop's dict is a valid insertion-ordered dict, empty exactly when there is no chart file |
| TopTen.WeeklyTablesFails | scrape-top-charts/filter_top_10.py:22-26 | once a file's path has no country piece, the whole function raises |
| TopTen.PutKeepsOthers | scrape-top-charts/filter_top_10.py:32 | overwriting an existing key keeps the key order and every other value |
| TopTen.TopTenTablesFrom | scrape-top-charts/filter_top_10.py:34-35 | tables holding each country's `head(10)` are exactly the function's result |
| TopTen.FilterRadioCharts | scrape-top-charts/filter_top_10.py:15-37 | the three loops compute the radio tables: per country, the first ten candidates of each year by weekcount |
| TopTen.LabelRadioFiles | scrape-top-charts/filter_top_10.py:22-26 | the first loop stores each country's labelled top-10 weekly rows under its key, in file order |
| TopTen.TableDict.constructor | scrape-top-charts/filter_top_10.py:20 | the dict starts empty |
| TopTen.RankTables | scrape-top-charts/filter_top_10.py:28-32 | the second loop replaces each country's rows by its candidates, sorted by year and weekcount descending, keys and order unchanged |
| TopTen.KeepTopTen | scrape-top-charts/filter_top_10.py:34-35 | the third loop cuts every country table to `head(10)` per year in place, keys unchanged |
| TopTen.RadioTopWeeks | scrape-top-charts/filter_top_10.py:25-26 | every top-10 radio week counts one and carries the country label |
| TopTen.RadioWeekcount | scrape-top-charts/filter_top_10.py:29-31 | every kept radio candidate is a top-10 key of its country and its weekcount is its number of top-10 weeks |
| TopTen.RadioTopTen | scrape-top-charts/filter_top_10.py:29-35 | radio: keys are unique, rows are in (year, weekcount desc, key) order, weekcount never increases within a year, and each year keeps min(10, candidates) rows |
| TopTen.WeeklyEntry | scrape-top-charts/filter_top_10.py:22-26 | each country key holds the labelled top-10 weekly rows of the last file naming that country, a later file replacing an earlier one |
| TopTen.RadioTableTopTen | scrape-top-charts/filter_top_10.py:15-37 | a country's table as returned is `head(10)` per year of its last file's ranked weeks: unique keys, (year, weekcount desc, key) order, min(10, candidates) rows per year, each weekcount the number of top-10 weeks under the country's label |
| TopTen.LastFileUnique | scrape-top-charts/filter_top_10.py:26 | only one file is the last to name a country, so its table is well defined |
| TopTen.SaveFilteredRadioCharts | scrape-top-charts/filter_top_10.py:40-47 | the saved table holds exactly the rows of all country tables, ordered by year, country and weekcount descending; with no chart file `pandas.concat` has nothing to join and raises `ValueError` |
| TopTen.ConcatTiesOrdered | scrape-top-charts/filter_top_10.py:44-45 | in the concatenated country tables, rows equal in year, country and weekcount stand in key order, when different country keys carry different labels |
| TopTen.SavedRadioOrder | scrape-top-charts/filter_top_10.py:40-47 | the saved radio table is ordered by year, country, weekcount descending and then by key: rows equal in the sort columns keep their order from their country's table, as the stable sort keeps them, when different country keys carry different labels |
| CatalogMerge.Matches | scrape-eurovision/assign_language.py:16 | the right rows a left key matches are exactly those with that join key, each kept as many times as the catalog holds it |
| CatalogMerge.MatchesAppend | scrape-eurovision/assign_language.py:16 | the matches in a concatenated catalog are the first part's matches followed by the second part's, so matches keep catalog order |
| CatalogMerge.MatchesExactly | scrape-eurovision/assign_language.py:13-16 | a catalog row matches when country and year are equal and the lower-cased titles are equal |
| CatalogMerge.RowsOfBlock | scrape-eurovision/assign_language.py:16-20 | a left row yields one output row per match, or one row with no language; each keeps the left artist, title, country, place, points and year |
| CatalogMerge.LeftMergeAppend | scrape-eurovision/assign_language.py:16 | the join of concatenated left tables is the concatenation of the joins, so left order is kept |
| CatalogMerge.LeftMergeBlock | scrape-eurovision/assign_language.py:16 | the rows for left row i sit between the rows of the rows before and after it |
| CatalogMerge.LeftMergeAtLeast | scrape-eurovision/assign_language.py:16 | every left row appears: the output has at least as many rows as the left table |
| CatalogMerge.LeftMergeGrows | scrape-eurovision/assign_language.py:16 | a left row with two or more matches makes the output longer than the left table |
| CatalogMerge.LeftMergeOnce | scrape-eurovision/assign_language.py:16 | when each left row matches at most once, the output has one row per left row, in left order |
| CatalogMerge.MatchesNone | scrape-eurovision/assign_language.py:16 | a key no catalog row has matches nothing |
| CatalogMerge.UniqueKeysMatchOnce | scrape-eurovision/assign_language.py:16 | when catalog keys are unique, every key matches at most once |
| CatalogMerge.LeftMergeOrigin | scrape-eurovision/assign_language.py:16 | every output row comes from a left row |
| CatalogMerge.LeftMergeSorted | scrape-eurovision/assign_language.py:6-16 | a left table sorted by (year, country) gives output sorted by (year, country) |
| CatalogMerge.OutputColumnsAlphabetical | scrape-eurovision/assign_language.py:21 | the output columns are in strictly alphabetical order |
| CatalogMerge.MergedColumnsAre | scrape-eurovision/assign_language.py:19-21 | after the rename and drop, sorting the columns gives the output column order |
| CatalogMerge.MergeLanguageIntoDataset | scrape-eurovision/assign_language.py:4-23 | both catalogs are sorted by (year, country) and left-joined; the result is sorted by (year, country) and has the alphabetical columns |
| CatalogMerge.CaseInsensitiveMatch | scrape-eurovision/assign_language.py:13-16 | titles differing only in letter case match, and the row gets the catalog's language |
| LanguageCache.DetectionInput | scrape-top-charts/detect_language.py:21-22 | the detector reads the lyrics when the song was found with lyrics, otherwise the lower-cased title; on a timeout or any other search exception nothing is detected |
| LanguageCache.ResolveOutcomes | scrape-top-charts/detect_language.py:20-30 | the result is `"Timeout"` exactly on a search timeout, `"LangDetectException"` exactly when the detector fails, and an exception escapes exactly when the search raises something other than a timeout or the code has no language name |
| LanguageCache.LanguageDetector.constructor | scrape-top-charts/detect_language.py:18 | the cache starts empty and no lookup has happened |
| LanguageCache.LanguageDetector.DetectSongLanguage | scrape-top-charts/detect_language.py:18-30 | a cached key returns its cached label with no lookup; otherwise one lookup is made and the label, sentinels included, is cached; an exception is not cached |
| LanguageCache.LanguageDetector.AmendSongLanguage | scrape-top-charts/detect_language.py:33-38 | a label other than `"Timeout"` comes back unchanged with no lookup; for `"Timeout"` the memoised detector answers: the cached label with no lookup, or one lookup whose label, unless it raised, is cached |
| LanguageCache.LanguageDetector.LabelRows | scrape-top-charts/detect_language.py:41-45 | labelling a table gives one label per row, each the row's cached label, so equal rows get equal labels; no cached label changes, and the services are asked at most once per uncached song; an escaping exception stops the loop at an uncached row |
| LanguageCache.LanguageDetector.LabelRow | scrape-top-charts/detect_language.py:44 | one `apply` step keeps the cache invariant and labels the row with its cached value |
| LanguageCache.LanguageDetector.LabelledSame | scrape-top-charts/detect_language.py:44 | rows with the same (artist, title) get the same label |
| LanguageCache.AmendAfterTimeout | scrape-top-charts/detect_language.py:18-35 | as written: after a timeout, amend returns the cached `"Timeout"` with no second lookup, and the cache keeps `"Timeout"` |
| LanguageCache.LanguageDetector.RetrySongLanguage | scrape-top-charts/detect_language.py:33-38 | corrected amend: a `"Timeout"` label evicts the song's entry and detects again with one lookup; the new label is cached, or on an exception the song stays evicted and every other entry is kept |
| LanguageCache.RetryAfterTimeout | scrape-top-charts/detect_language.py:28-35 | corrected: after a timeout, amend makes a second lookup and returns its answer, the language name when lyrics are found and classified; the cache ends with that label, or as it was before on an exception |
| SpotifyCharts.ChartPeriod | scrape-top-charts/scrape_top_charts_spotify.py:44-45 | the period runs from 2016-12-30 to 2021-12-31, which is 261 weeks |
| SpotifyCharts.GenerateUrlTokens | scrape-top-charts/scrape_top_charts_spotify.py:42-52 | the loop yields one token per 7-day step starting before the end date, each `start--start+7` |
| SpotifyCharts.TokenCount | scrape-top-charts/scrape_top_charts_spotify.py:48 | there are 261 tokens: the last starts on 2021-12-24, the second on 2017-01-06 |
| SpotifyCharts.TokenStartOfWeek | scrape-top-charts/scrape_top_charts_spotify.py:62 | `split("--")[0]` of a token is its start date |
| SpotifyCharts.TokensChain | scrape-top-charts/scrape_top_charts_spotify.py:49-51 | each token's end date is the next token's start date |
| SpotifyCharts.ParseYear | scrape-top-charts/scrape_top_charts_spotify.py:62 | a `%Y-%m-%d` year is between 0 and 9999 |
| SpotifyCharts.ChartYearOfToken | scrape-top-charts/scrape_top_charts_spotify.py:62 | a chart's year is the year of the first date of its date range |
| SpotifyCharts.ShowNatThousands | scrape-top-charts/scrape_top_charts_spotify.py:38 | a number's decimal text is its thousands' text followed by three zero-padded digits |
| SpotifyCharts.GroupedDigits | scrape-top-charts/scrape_top_charts_spotify.py:38 | removing the commas of a comma-grouped number gives its plain digits |
| SpotifyCharts.StreamsRoundTrip | scrape-top-charts/scrape_top_charts_spotify.py:38 | the stream count read from a comma-grouped number is that number |
| SpotifyCharts.GetSongInfoAsWritten | scrape-top-charts/scrape_top_charts_spotify.py:32-39 | as written: a row parses exactly when position and streams are integers; artist and title are `None` exactly for empty cells; the artist is the cell after `lstrip("by ")`, which strips a character set, and the title is the cell |
| SpotifyCharts.ArtistOverStripped | scrape-top-charts/scrape_top_charts_spotify.py:35 | as written, `"by bbno$"` becomes `"no$"`; the prefix removal gives `"bbno$"` |
| SpotifyCharts.StripByPrefix | scrape-top-charts/scrape_top_charts_spotify.py:35 | corrected cleanup: removes a literal leading `"by "` and nothing else |
| SpotifyCharts.ByPrefixRoundTrip | scrape-top-charts/scrape_top_charts_spotify.py:35 | the prefix removal recovers every artist name; the character-set strip does not for names starting with `b`, `y` or a space |
| SpotifyCharts.GetSongInfo | scrape-top-charts/scrape_top_charts_spotify.py:32-39 | a row parses exactly when position and streams are integers; artist and title are `None` exactly for empty cells, otherwise the cell's text (the artist without `"by "`) |
| SpotifyCharts.AsWrittenAgrees | scrape-top-charts/scrape_top_charts_spotify.py:35 | the as-written and corrected parses fail on the same rows and agree on everything but the artist; they agree on the artist too when the name after `"by "` starts with none of `b`, `y`, space |
| SpotifyCharts.ByPrefixStrip | scrape-top-charts/scrape_top_charts_spotify.py:35 | `lstrip("by ")` removes exactly the prefix `"by "` when the name does not start with `b`, `y` or a space |
| SpotifyCharts.ExtractWeeklyChart | scrape-top-charts/scrape_top_charts_spotify.py:55-68 | a weekly chart succeeds exactly when the country code is known, the year parses and every row parses as written; each row is its as-written song info tagged with date range, year and country name |
| SpotifyCharts.ParseRows | scrape-top-charts/scrape_top_charts_spotify.py:60 | the comprehension parses every row as written and, when none raises, yields one song per row |
| SpotifyCharts.CleanCharts | scrape-top-charts/scrape_top_charts_spotify.py:84-87 | the saved rows are exactly the rows with artist and title present and year after 2016 |
| SpotifyCharts.CleanChartsAppend | scrape-top-charts/scrape_top_charts_spotify.py:84-87 | the row filter works row by row over concatenated charts |
| SpotifyCharts.FirstWeekDropped | scrape-top-charts/scrape_top_charts_spotify.py:85-87 | the trailing 2016 week is dropped entirely |
| SpotifyCharts.ChartRowsFromWeek | scrape-top-charts/scrape_top_charts_spotify.py:65-67 | every row of a weekly chart carries that week's date range, year and country name |
| SpotifyCharts.CollectedRows | scrape-top-charts/scrape_top_charts_spotify.py:71-77 | every collected row comes from one of the requested weeks |
| SpotifyCharts.CollectStops | scrape-top-charts/scrape_top_charts_spotify.py:76 | once a weekly chart raises, the dataset raises that error |
| SpotifyCharts.CreateDataset | scrape-top-charts/scrape_top_charts_spotify.py:71-77 | the nested loop concatenates the weekly charts of every country for every token, countries outermost |
| SpotifyCharts.CollectCharts | scrape-top-charts/scrape_top_charts_spotify.py:73-76 | the outer loop over country codes collects each country's weeks in order |
| SpotifyCharts.CollectCountry | scrape-top-charts/scrape_top_charts_spotify.py:74-76 | the inner loop appends one country's weekly charts in token order |
| EurovisionOfficial.GatherEvents | scrape-eurovision/scrape_eurovision_songs_official.py:19 | the event list without its first entry |
| EurovisionOfficial.ParticipantTrimmed | scrape-eurovision/scrape_eurovision_songs_official.py:30-36 | artist, country and title are stripped of surrounding whitespace |
| EurovisionOfficial.ParticipantAsShown | scrape-eurovision/scrape_eurovision_songs_official.py:30-36 | already trimmed card text is returned unchanged |
| EurovisionOfficial.FinalInfoOf | scrape-eurovision/scrape_eurovision_songs_official.py:39-54 | place and points are both present or both absent |
| EurovisionOfficial.GetFinalInfoIfPresent | scrape-eurovision/scrape_eurovision_songs_official.py:39-54 | the loop with early return computes the first-match result |
| EurovisionOfficial.FirstMatchDecides | scrape-eurovision/scrape_eurovision_songs_official.py:45-52 | the first row whose stripped artist and title equal the participant's decides the result |
| EurovisionOfficial.NoMatchAbsent | scrape-eurovision/scrape_eurovision_songs_official.py:54 | with no matching row the result is `(None, None)` |
| EurovisionOfficial.FinalInfoFound | scrape-eurovision/scrape_eurovision_songs_official.py:45-52 | a present place comes from the first matching row |
| EurovisionOfficial.FinalInfoNone | scrape-eurovision/scrape_eurovision_songs_official.py:45-54 | an absent place means no row matched |
| EurovisionOfficial.PlaceWithoutSuffix | scrape-eurovision/scrape_eurovision_songs_official.py:50 | a place cell `<n><suffix>` gives the text `<n>` |
| EurovisionOfficial.PointsRead | scrape-eurovision/scrape_eurovision_songs_official.py:51 | the dash marker counts 0 points; a number's text counts that number |
| EurovisionOfficial.EventYearOfUrl | scrape-eurovision/scrape_eurovision_songs_official.py:58 | the year is the integer after the URL's last `-` |
| EurovisionOfficial.FinalUrl | scrape-eurovision/scrape_eurovision_songs_official.py:59-62 | the final page is `/final` before 2004 and `/grand-final` from 2004 |
| EurovisionOfficial.ZipRows | scrape-eurovision/scrape_eurovision_songs_official.py:77-81 | one row per participant, in participant order, each with its final result and the event year |
| EurovisionOfficial.ExtractSongInfo | scrape-eurovision/scrape_eurovision_songs_official.py:57-82 | an unreadable year raises before any page is used; a result has one row per participant |
| EurovisionOfficial.ExtractedRows | scrape-eurovision/scrape_eurovision_songs_official.py:64-81 | the event succeeds exactly when every participant's final lookup succeeds, and row i is participant i with its result and the year |
| EurovisionOfficial.CollectedEventRows | scrape-eurovision/scrape_eurovision_songs_official.py:85-93 | every collected row comes from an event other than `london-1963`, tagged with that event's year |
| EurovisionOfficial.CollectEventsStops | scrape-eurovision/scrape_eurovision_songs_official.py:91 | once an event raises, the dataset raises that error |
| EurovisionOfficial.CollectEventsStep | scrape-eurovision/scrape_eurovision_songs_official.py:87-92 | one step of the loop skips `london-1963`, stops on an error, or appends the event's rows |
| EurovisionOfficial.Dataset | scrape-eurovision/scrape_eurovision_songs_official.py:85-93 | the dataset is the collected rows exactly when no event raises and some event is not skipped; an event's error propagates; otherwise `ValueError` |
| EurovisionOfficial.NoKeptEvents | scrape-eurovision/scrape_eurovision_songs_official.py:87-92 | no table is appended exactly when every listed event is `london-1963` |
| EurovisionOfficial.AllSkippedCollectsNothing | scrape-eurovision/scrape_eurovision_songs_official.py:89-90 | skipped events contribute no rows and never raise |
| EurovisionOfficial.NothingToConcat | scrape-eurovision/scrape_eurovision_songs_official.py:93 | an event page with at most one event, or only `london-1963` after the first, makes the dataset raise `ValueError` |
| EurovisionOfficial.CreateDataset | scrape-eurovision/scrape_eurovision_songs_official.py:85-93 | the loop concatenates the rows of every listed event after the first, skipping `london-1963`; the first event that raises stops it, and with no event kept `pandas.concat` raises `ValueError` |

## Left out

- Reading and writing files (`read_csv`, `to_csv`, `os.listdir`), HTTP
  requests and BeautifulSoup navigation. Each page or file is a parameter:
  - `RadioFile` is a path with its rows;
  - `fetch` gives the chart rows of a (country, week);
  - `participantsPage` and `finalPage` give the cards and table rows of a
    URL;
  - the lyrics search answer is a `SearchResult`.
- The outside services are parameters; the model fixes only which kinds
  of answer the code tells apart:
  - the Genius lyrics search: no song, a song with or without lyrics, a
    `Timeout`, or any other exception;
  - `langdetect.detect` (as `detect`): a code, or `LangDetectException`;
    any other exception it might raise is not modelled;
  - `pycountry`'s code-to-name table (as `names`): a language, or none.
  The shipped `GENIUS = None` would make every lookup raise. The model
  assumes a configured client.
- `print` output, the `cache_info()` report and the `__main__` file loops
  are not modelled. The labelling loop over one table is modelled.
- `save_specific_year` in `scrape_eurovision_songs_official.py` is not
  modelled. It is `extract_songinfo_from` followed by a file write, and
  both of those are covered.
- Calendar formatting: dates are day ordinals and `strftime("%Y-%m-%d")`
  is a formatter parameter.
  - `strptime` is modelled by its shape only: four digits, `-`, two
    digits, `-`, two digits. It does not check that the month and day are
    valid.
- Strings.Lower: maps ASCII letters only. Python's Unicode case mapping is
  not modelled. Strings.Capitalize has the same limit.
- Strings.ParseInt: accepts surrounding whitespace, a sign and ASCII digits.
  Underscores and non-ASCII digits, which Python's `int()` also accepts,
  are not modelled.
- pandas dataframes become sequences of row datatypes. Column renames and
  drops become the choice of output fields. `reset_index` is not modelled,
  since it only renumbers.
- In-place dataframe mutation in `assign_language.py` is modelled as values
  inside one method. The dict of tables in `filter_top_10.py` is a class
  field that is updated in place.
- SpotifyCharts.CollectCharts: the empty-list `ValueError` of
  `pandas.concat` is not modelled. `create_dataset` always hands it 5 × 261
  weekly tables, so that error cannot arise there.
- TopTen.SavedRadioOrder: assumes that different country pieces of the
  chart file names capitalise to different labels, as the real file names
  do. When two pieces differ only in letter case, their rows share a
  label, and the model does not state the saved order of those rows
  beyond the sort columns.
- LanguageCache.LanguageDetector.LabelRows: when an exception stops the
  loop, the contract names the failing row's song but not the labels of
  the rows before it, which the script discards anyway.
- EurovisionOfficial.FinalInfoOf: place stays a string, as in the code. The
  `SongInfo` annotation says `Optional[int]`, and that annotation is not
  modelled.
- The scrapers for single countries, the esc-history.com scraper
  (`scrape_eurovision_songs_esc.py`) and the plotting script are not part
  of this model.

## Findings

| source | as written | input that shows it | evidently intended | confidence | as-written member | corrected member |
|---|---|---|---|---|---|---|
| scrape-top-charts/scrape_top_charts_spotify.py:35 | `lstrip("by ")` strips every leading `b`, `y` and space | the cell `"by bbno$"` becomes `"no$"` | remove the literal prefix `"by "`, giving `"bbno$"` | not executed; follows from Python's documented `lstrip` semantics | SpotifyCharts.GetSongInfoAsWritten, SpotifyCharts.ArtistOverStripped | SpotifyCharts.StripByPrefix, SpotifyCharts.ByPrefixRoundTrip, SpotifyCharts.GetSongInfo, SpotifyCharts.AsWrittenAgrees |
| scrape-top-charts/detect_language.py:33-35 | `amend_song_language` calls the `lru_cache`d detector, which has cached `"Timeout"` | a song whose first search timed out: amend returns `"Timeout"` again and makes no new search | ask the lyrics search again for a song that timed out | not executed; follows from `lru_cache` caching every returned value | LanguageCache.AmendAfterTimeout, LanguageCache.LanguageDetector.AmendSongLanguage | LanguageCache.LanguageDetector.RetrySongLanguage, LanguageCache.RetryAfterTimeout |
