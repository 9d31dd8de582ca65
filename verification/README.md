# Border-neighbours threat index — a Dafny model

This project models the deterministic core of `borderneighboursthreatindex.py`, a script that
computes a "BNT" threat index for Turkey from the tone of news headlines published in seven
neighbouring countries (Armenia, Georgia, Greece, Iran, Iraq, Syria, Bulgaria).

For each country the script reads the country's RSS feeds. It keeps the entries published since
the start of yesterday, or falls back to a feed's first 20 entries. It translates non-ASCII titles
to English and classifies each title as POSITIVE or NEGATIVE. Each NEGATIVE title adds 0.01 to the
country's "threat percentage". The script writes one report file per country, headed
`Threat Percentage: x.xx`. The index is then derived from the total of the country scores: a tenth
of the total when the total exceeds 1.0, otherwise 1.0. It is stored under "Turkey". A second pass
reads every score back from the report files and derives the index again.

The feed reader, the translation service and the sentiment classifier are oracles given as
parameters:
- `Fetch`: a URL's entries.
- `Translator`: an English text, or `None` for a failure.
- `Classifier`: one label per text.

The clock is the parameter `startOfYesterday`. The desktop folder is a map from country name to
file content. Scores are counted in hundredths (`nat`) while scoring and formatting. The index is
composed over `real`, because a tenth of a total is not a whole number of hundredths. A Python dict
is an association list with distinct keys, kept in insertion order (`Dict.Dict`).

Modules, one per component: `Dict` (the dict), `Scoring` (`analyze_with_local_model`),
`Normalize` (translation choice), `Window` (entry collection and fallback), `ReportFormat` (report
text, header parsing), `Compose` (index composition), `Pipeline` (the two passes and the whole run).

## Behaviour worth noting

- **Fallback.** The fallback to `entries[:20]` runs inside the URL loop (lines 100-102), after each
  feed, not once per country. Its block therefore comes from the first feed that returned anything.
  Later feeds' recent entries are appended after that block
  (`Window.StaleFirstFeedKeptBeforeRecentEntries`, `Window.CollectShape`).
- **Index floor.** 1.0 is not a lower bound of the index. For a total strictly between 1.0 and 10.0
  the index is `total / 10`, which is below 1.0 (`Compose.BntIndexThresholds`).
- **Unreadable score.** A report whose score line does not convert with `float` raises `ValueError`
  (line 184). Nothing catches it, so the run stops; the model returns `None` there. Only a missing
  file gives 0.0.
- **Countries without entries.** A country that had no entries gets 0.0 in the fresh table. Its
  report `No recent entries found.` has no score line, so the re-read table has no key for it. The
  totals, and therefore both indexes, still agree (`Pipeline.RederivationAgrees`).
- **Multiplier.** The eligible-country step multiplies by 1.0, so it changes no score; the comments at
  lines 130 and 190 speak of 1.5 (`Compose.ApplyEligibleMultiplier`).

## Model

| member | source | states |
|---|---|---|
| `Scoring.AnalyzeWithLocalModel` | borderneighboursthreatindex.py:63-74 | The loop returns 0.01 per NEGATIVE result as its score. It returns the NEGATIVE-labelled texts and the POSITIVE-labelled texts, in input order, each paired with 0.01. It walks the pairs of `zip(results, texts)`. |
| `Scoring.ScoreIsNegativeListTotal` | borderneighboursthreatindex.py:69-71 | The negative list has one entry per NEGATIVE label. The score equals the sum of the negative list's contributions. |
| `Scoring.LabelledMembership` | borderneighboursthreatindex.py:68-73 | A scored title is in a list exactly when some zipped pair has that label and that text, with contribution 0.01 (both directions). |
| `Scoring.ListsBoundedByTexts` | borderneighboursthreatindex.py:68-73 | The negative and positive lists together have at most as many entries as there are texts. They have exactly as many iff every label is NEGATIVE or POSITIVE. Other labels land in neither list. |
| `Scoring.FiveTitlesExample` | borderneighboursthreatindex.py:63-74 | Labels N,P,N,P,N give a score of 0.03, three negative titles and two positive ones, in order. |
| `Normalize.NormalizeTitlesPointwise` | borderneighboursthreatindex.py:112 | Normalisation keeps the length and order of the titles. An ASCII title stays as it is. A non-ASCII title becomes its translation. A failed translation leaves the title as it was. |
| `Normalize.TranslatorOnlySeesNonAscii` | borderneighboursthreatindex.py:112 | Two translation services that agree on the non-ASCII titles give the same result, so the service is never consulted for an ASCII title. |
| `Normalize.NormalizeWithoutTranslation` | borderneighboursthreatindex.py:55-61 | If every translation fails, or every title is ASCII, the titles come back unchanged. |
| `Window.CollectDailyEntries` | borderneighboursthreatindex.py:83-102 | The URL loop and its entry loop compute the collected list: the windowed entries of each feed, with the per-feed fallback to `entries[:20]`. |
| `Window.WindowedMembership` | borderneighboursthreatindex.py:89-98 | Within one feed, an entry is kept iff its publication time parsed and is at or after the start of yesterday. An entry with a missing or unparsable date is skipped. At most the feed's entries are kept. |
| `Window.CollectShape` | borderneighboursthreatindex.py:83-102 | The collected list is a fallback block followed by every recent entry of every feed, in URL order. The block has at most 20 entries, none of them recent, and comes from the first feed that returned anything. The list is empty iff every feed returned nothing. |
| `Window.AllWindowedMembership` | borderneighboursthreatindex.py:84-98 | An entry is among the recent part iff it is in the window and belongs to one of the country's feeds. |
| `Window.StaleFirstFeedKeptBeforeRecentEntries` | borderneighboursthreatindex.py:100-102 | A first feed with only a stale entry, followed by a feed with a recent one, yields both entries, stale first. |
| `Dict.Put` | borderneighboursthreatindex.py:145 | `d[k] = v`: afterwards `k` maps to `v` and every other key keeps its value. A new key is appended at the end; an existing key is replaced in place. |
| `Dict.SumPutNew` | borderneighboursthreatindex.py:145-146 | Inserting a key that was absent increases `sum(d.values())` by its value. |
| `Dict.PutSameValue` | borderneighboursthreatindex.py:133 | Storing a key's own value back leaves the dict unchanged. |
| `Compose.ApplyEligibleMultiplier` | borderneighboursthreatindex.py:130-133 | The value of each eligible country present (Syria, Russia, Ukraine, Iraq) is multiplied by the multiplier. Every other entry, and the key order, stays the same. With the multiplier at 1.0 the table is unchanged. |
| `Compose.ComposeIndex` | borderneighboursthreatindex.py:135-146 | The index is `BntIndex` of the total of the given scores, and it is stored under "Turkey". Every other country's value is unchanged. If "Turkey" was absent, it is appended and the new total is the old total plus the index. |
| `Compose.BntIndexThresholds` | borderneighboursthreatindex.py:138-142 | A total of at most 1.0 gives exactly 1.0. Above 1.0 the index is a tenth of the total. The index is at least 1.0 iff the total is at most 1.0 or at least 10.0, and it is positive for a non-negative total. |
| `Compose.BntIndexNotMonotone` | borderneighboursthreatindex.py:139-142 | A total of 1.0 gives 1.0, while a total of 2.0 gives 0.2. |
| `Compose.WeakSignalExample` | borderneighboursthreatindex.py:136-146 | Scores 0.02, 0, 0.05, 0.01, 0, 0 total 0.08. The index is 1.0 and the grand total 1.08. |
| `Compose.StrongSignalExample` | borderneighboursthreatindex.py:136-146 | Scores totalling 3.0 give an index of 0.3 and a grand total of 3.3. |
| `ReportFormat.SplitOnce` | borderneighboursthreatindex.py:184 | Splitting at the first separator: the part before it contains no separator. When the separator occurs, the text is that part, the separator and the rest; otherwise the part is the whole text. |
| `ReportFormat.DecimalRoundTrip` | borderneighboursthreatindex.py:184 | Reading back the decimal digits written for a number gives the number. |
| `ReportFormat.ParseFormatted` | borderneighboursthreatindex.py:184 | `float` of the `.2f` text of k hundredths gives k/100 exactly. |
| `ReportFormat.HeaderValueRoundTrip` | borderneighboursthreatindex.py:184 | On the written header line, splitting at ':', stripping and converting give back k/100. |
| `ReportFormat.HeaderIsFirstLine` | borderneighboursthreatindex.py:181-186 | The first line containing `Threat Percentage:` in a written report is its header line, whatever the entry blocks after it contain. |
| `ReportFormat.ReportRoundTrip` | borderneighboursthreatindex.py:118 | A report written with a score of k hundredths reads back as the score k/100. |
| `ReportFormat.NoEntriesReportHasNoScore` | borderneighboursthreatindex.py:126 | The file `No recent entries found.` has no score line, so reading it adds no key. |
| `ReportFormat.ThreeHundredthsHeader` | borderneighboursthreatindex.py:118 | A score of 0.03 is written as `Threat Percentage: 0.03`. |
| `Pipeline.ProcessCountry` | borderneighboursthreatindex.py:83-126 | The body of the country loop yields the country's outcome: its score (or 0.0 without entries), its two title lists and the report text. |
| `Pipeline.FreshPass` | borderneighboursthreatindex.py:81-128 | The country loop leaves the scores dict, the global negative and positive lists, and the report files as the record of every country's outcome, in registry order. |
| `Pipeline.ScoreCountryFacts` | borderneighboursthreatindex.py:108-126 | A country's score is 0.01 per NEGATIVE title, the sum of its negative list. Its scored titles never outnumber its collected entries. Its report reads back as its score, or has no score line when it had no entries and scored 0.0. |
| `Pipeline.ReadBackPass` | borderneighboursthreatindex.py:176-188 | The read-back loop: a missing file gives 0.0. A file with a score line gives that score. A file without one gives no key. An unconvertible score stops the run. |
| `Pipeline.ReadBackAborted` | borderneighboursthreatindex.py:184 | Once a score fails to convert, the whole read-back fails. |
| `Pipeline.ReadBackFrame` | borderneighboursthreatindex.py:177-179 | The read-back only depends on the files of the countries it reads. |
| `Pipeline.ReadBackOfRecord` | borderneighboursthreatindex.py:176-188 | Reading back files whose reports match their recorded scores succeeds and agrees with the recorded table: same total, same values, except that 0.0 entries may be absent. It adds no other key. |
| `Pipeline.RederivationAgrees` | borderneighboursthreatindex.py:177-188 | On the files of a fresh pass over distinct country names, the read-back succeeds and agrees with the fresh table in the same sense: same total and same values, with absent keys only where the fresh score was 0.0. |
| `Pipeline.RecordThreatLookup` | borderneighboursthreatindex.py:115 | After recording distinct countries, each country's value in the table is its recorded score. |
| `Pipeline.RecordReportLookup` | borderneighboursthreatindex.py:106-126 | After recording distinct countries, each country's file holds its recorded report. |
| `Pipeline.FreshRunLookup` | borderneighboursthreatindex.py:108-126 | Every configured country is in the fresh table with its own outcome's score, and its report file is on the desktop. A country whose feeds gave nothing has 0.0 and the file `No recent entries found.`. |
| `Pipeline.ReadBackLookup` | borderneighboursthreatindex.py:177-188 | Whenever the read-back completes, a country without a report file has 0.0. A report with a score line gives that score, and one without a score line gives no key. No report failed to convert, and no unlisted country appears. |
| `Pipeline.RegistryFacts` | borderneighboursthreatindex.py:17-46 | The configured countries have distinct names and do not include Turkey. |
| `Pipeline.RunThreatIndex` | borderneighboursthreatindex.py:81-204 | The whole script. The first index is `BntIndex` of the fresh total. It is stored under Turkey; every other country keeps its fresh score. For distinct names without Turkey, the first table is the fresh table with Turkey appended, and the first grand total adds the index to the fresh total. For distinct names without Turkey, the second pass succeeds with the same index, and its table matches the first except where the first holds 0.0. |

## Left out

- Feed fetching (`feedparser.parse`), translation (`googletrans`) and classification (the Hugging Face pipeline) are foreign network or ML calls. They are oracle parameters. A feed that fails to load is an oracle returning no entries. Only the label of each classifier result is used; its confidence is ignored by the script too.
- Date parsing (`dateutil`) and the clock (`datetime.now()`). Each entry carries the instant its date parsed to, or `None` when its `published` field was missing or empty, or parsing it raised `ValueError`, which line 97 catches. Any other exception from `date_parser.parse`, such as the `OverflowError` that dateutil raises for an out-of-range date, is not caught and stops the whole run; the model has no such path. `.replace(tzinfo=None)` keeps the wall-clock time and drops the offset; `startOfYesterday` is a parameter.
- IEEE floating point. Scores are exact hundredths and the composition uses exact reals. In binary floating point, repeated `+= 0.01` can drift, for example to a little over 1.0 after 100 additions. The re-read value `1.00` could then fall on the other side of the `> 1.0` threshold from the fresh total. The model cannot show that case.
- File mechanics: `os.makedirs`, the path construction, encodings, newline translation of text mode, and the Excel files of lines 150-159 and 206-213 with their no-op column rewrites. The title-log files of lines 161-173 and every `print` are left out too. A report file is its content in a map keyed by country name.
- A feed entry that lacks a `title`, `link` or `published` attribute makes the report writing raise `AttributeError`. Entries here always carry the three texts.
- An exception raised by `nlp(texts)` (line 64) is not caught and stops the whole run. The `Classifier` oracle always returns a list of labels, so the model has no such path.
- The unused `number_of_countries` (line 137).
- `ReportFormat.ParseFloat`: accepts only unsigned decimal notation (digits with an optional fraction). Python's `float` also takes signs, exponents, `inf`, `nan` and underscores, none of which the report writer produces.
- `ReportFormat.Strip`: strips the ASCII whitespace of `str.isspace` (tab to carriage return, 0x1C-0x1F and space) only. Python's `str.strip` also strips the non-ASCII Unicode whitespace characters, such as U+0085 and U+00A0.
