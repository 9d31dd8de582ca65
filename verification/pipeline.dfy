/**
 * The script's two passes over the registry of feeds.
 * The fresh pass collects, normalises and scores each country's titles,
 * records its score under its name and writes its report file. The second
 * pass reads the score back from each report file. Feed fetching,
 * translation and classification are oracles given as parameters, the
 * files on the desktop are a map from country name to file content, and
 * `startOfYesterday` is the instant the clock gave.
 */
module Pipeline {
  import opened Wrappers
  import opened Dict
  import opened Scoring
  import opened Normalize
  import opened Window
  import opened ReportFormat
  import opened Compose

  datatype Country = Country(name: string, urls: seq<string>)

  /** The feed registry of the script, in its order. */
  const RssUrls: seq<Country> := [
    Country("Armenia", ["https://en.1in.am/feed", "https://a1plus.am/en/feed", "https://life.mediamall.am/?rss"]),
    Country("Georgia", ["https://civil.ge/feed"]),
    Country("Greece", ["https://www.in.gr/feed/?rid=2&pid=250&la=1&si=1", "https://feeds.feedburner.com/newsbombgr",
                       "https://www.newsit.gr/feed/", "https://www.protothema.gr/rss"]),
    Country("Iran", ["https://ir.voanews.com/api/zkup_empmy"]),
    Country("Iraq", ["https://www.ahewar.org/rss/default.asp?lt=7"]),
    Country("Syria", ["https://www.sana.sy/tr/?feed=rss2"]),
    Country("Bulgaria", ["https://dnes.dir.bg/support/cat_rss.php", "https://www.dnes.bg/rss.php?today",
                         "https://www.24chasa.bg/rss"])
  ]

  /** `feedparser.parse(url).entries` */
  type Fetch = string -> seq<Entry>
  /** `nlp(texts)`, reduced to the label of each result */
  type Classifier = seq<string> -> seq<string>

  function Names(registry: seq<Country>): (names: seq<string>)
    ensures |names| == |registry|
    ensures forall i :: 0 <= i < |registry| ==> names[i] == registry[i].name
  {
    seq(|registry|, i requires 0 <= i < |registry| => registry[i].name)
  }

  predicate Distinct(names: seq<string>)
  {
    forall i, j :: 0 <= i < j < |names| ==> names[i] != names[j]
  }

  predicate DistinctNames(registry: seq<Country>)
  {
    Distinct(Names(registry))
  }

  function FetchFeeds(urls: seq<string>, fetch: Fetch): (feeds: seq<seq<Entry>>)
  {
    seq(|urls|, i requires 0 <= i < |urls| => fetch(urls[i]))
  }

  function Titles(entries: seq<Entry>): (titles: seq<string>)
  {
    seq(|entries|, i requires 0 <= i < |entries| => entries[i].title)
  }

  /** What one country contributes: its score, its scored titles and its report file. */
  datatype CountryOutcome = CountryOutcome(
    threat: real, negatives: seq<ScoredTitle>, positives: seq<ScoredTitle>, report: string)

  /** The body of the country loop for one country. */
  function ScoreCountry(country: Country, fetch: Fetch, startOfYesterday: int,
                        translate: Translator, nlp: Classifier): (outcome: CountryOutcome)
  {
    var daily := Collect(FetchFeeds(country.urls, fetch), startOfYesterday);
    if daily != [] then
      var translated := NormalizeTitles(Titles(daily), translate);
      var z := Zip(nlp(translated), translated);
      var score := PerItemContribution * CountLabel(z, NegativeLabel);
      CountryOutcome(Hundredths(score), Labelled(z, NegativeLabel), Labelled(z, PositiveLabel),
                     ReportText(score, daily))
    else
      CountryOutcome(0.0, [], [], NoEntriesMarker)
  }

  /** The script's state after the country loop. */
  datatype RunState = RunState(
    threats: Dict, allNegative: seq<ScoredTitle>, allPositive: seq<ScoredTitle>, desktop: map<string, string>)

  /** Each country's outcome, in registry order. */
  function Outcomes(registry: seq<Country>, fetch: Fetch, startOfYesterday: int,
                    translate: Translator, nlp: Classifier): (outcomes: seq<CountryOutcome>)
    ensures |outcomes| == |registry|
    ensures forall i :: 0 <= i < |registry| ==>
      outcomes[i] == ScoreCountry(registry[i], fetch, startOfYesterday, translate, nlp)
  {
    seq(|registry|, i requires 0 <= i < |registry| => ScoreCountry(registry[i], fetch, startOfYesterday, translate, nlp))
  }

  /** Recording the outcomes country by country: score, title lists and report file. */
  function Record(names: seq<string>, outcomes: seq<CountryOutcome>, desktop: map<string, string>): (run: RunState)
    requires |names| == |outcomes|
  {
    if names == [] then RunState([], [], [], desktop)
    else
      var before := Record(names[..|names| - 1], outcomes[..|outcomes| - 1], desktop);
      var name, outcome := names[|names| - 1], outcomes[|outcomes| - 1];
      RunState(Put(before.threats, name, outcome.threat),
               before.allNegative + outcome.negatives,
               before.allPositive + outcome.positives,
               before.desktop[name := outcome.report])
  }

  function FreshRun(registry: seq<Country>, fetch: Fetch, startOfYesterday: int,
                    translate: Translator, nlp: Classifier, desktop: map<string, string>): (run: RunState)
  {
    Record(Names(registry), Outcomes(registry, fetch, startOfYesterday, translate, nlp), desktop)
  }

  /** Recording the prefix one country longer records that country on top of the shorter prefix. */
  lemma RecordSnoc(names: seq<string>, outcomes: seq<CountryOutcome>, desktop: map<string, string>, c: nat)
    requires |names| == |outcomes| && c < |names|
    ensures var before := Record(names[..c], outcomes[..c], desktop);
      Record(names[..c + 1], outcomes[..c + 1], desktop)
        == RunState(Put(before.threats, names[c], outcomes[c].threat),
                    before.allNegative + outcomes[c].negatives,
                    before.allPositive + outcomes[c].positives,
                    before.desktop[names[c] := outcomes[c].report])
  {
    assert names[..c + 1][..c] == names[..c];
    assert outcomes[..c + 1][..c] == outcomes[..c];
  }

  /** The body of the country loop: collect, normalise, score, and the report to write. */
  method ProcessCountry(country: Country, fetch: Fetch, startOfYesterday: int,
                        translate: Translator, nlp: Classifier)
    returns (threat: real, negativeTitles: seq<ScoredTitle>, positiveTitles: seq<ScoredTitle>, report: string)
    ensures CountryOutcome(threat, negativeTitles, positiveTitles, report)
         == ScoreCountry(country, fetch, startOfYesterday, translate, nlp)
  {
    var dailyEntries := CollectDailyEntries(FetchFeeds(country.urls, fetch), startOfYesterday);
    if dailyEntries != [] {
      var titles := Titles(dailyEntries);
      var translatedTitles := NormalizeTitles(titles, translate);
      var threatPercentage;
      threatPercentage, negativeTitles, positiveTitles := AnalyzeWithLocalModel(translatedTitles, nlp(translatedTitles));
      threat := Hundredths(threatPercentage);
      report := ReportText(threatPercentage, dailyEntries);
    } else {
      threat, negativeTitles, positiveTitles := 0.0, [], [];
      report := NoEntriesMarker;
    }
  }

  /** The country loop (lines 81-128). */
  method FreshPass(registry: seq<Country>, fetch: Fetch, startOfYesterday: int,
                   translate: Translator, nlp: Classifier, desktop: map<string, string>)
    returns (threats: Dict, allNegative: seq<ScoredTitle>, allPositive: seq<ScoredTitle>,
             files: map<string, string>)
    ensures RunState(threats, allNegative, allPositive, files)
         == FreshRun(registry, fetch, startOfYesterday, translate, nlp, desktop)
  {
    ghost var names := Names(registry);
    ghost var outcomes := Outcomes(registry, fetch, startOfYesterday, translate, nlp);
    threats, allNegative, allPositive, files := [], [], [], desktop;
    var c := 0;
    while c < |registry|
      invariant 0 <= c <= |registry|
      invariant RunState(threats, allNegative, allPositive, files) == Record(names[..c], outcomes[..c], desktop)
    {
      RecordSnoc(names, outcomes, desktop, c);
      var country := registry[c];
      var threat, negativeTitles, positiveTitles, report :=
        ProcessCountry(country, fetch, startOfYesterday, translate, nlp);
      assert outcomes[c] == CountryOutcome(threat, negativeTitles, positiveTitles, report);
      assert names[c] == country.name;
      threats := Put(threats, country.name, threat);
      allNegative := allNegative + negativeTitles;
      allPositive := allPositive + positiveTitles;
      files := files[country.name := report];
      c := c + 1;
    }
    assert names[..c] == names && outcomes[..c] == outcomes;
  }

  lemma DistinctPrefix(names: seq<string>, n: nat)
    requires Distinct(names) && n <= |names|
    ensures Distinct(names[..n])
  {
    forall a, b | 0 <= a < b < n ensures names[..n][a] != names[..n][b] {
      assert names[..n][a] == names[a] && names[..n][b] == names[b];
    }
  }

  /** After recording distinct countries, each one's score is in the table. */
  lemma {:induction false} RecordThreatLookup(names: seq<string>, outcomes: seq<CountryOutcome>,
                                              desktop: map<string, string>, i: nat)
    requires |names| == |outcomes| && Distinct(names) && i < |names|
    ensures Get(Record(names, outcomes, desktop).threats, names[i]) == Some(outcomes[i].threat)
  {
    var n := |names| - 1;
    var p, q := names[..n], outcomes[..n];
    var before := Record(p, q, desktop).threats;
    var after := Record(names, outcomes, desktop).threats;
    assert after == Put(before, names[n], outcomes[n].threat);
    if i < n {
      DistinctPrefix(names, n);
      assert p[i] == names[i] && q[i] == outcomes[i];
      RecordThreatLookup(p, q, desktop, i);
      PutOther(before, names[n], outcomes[n].threat, names[i]);
    }
  }

  /** After recording distinct countries, each one's report is on the desktop. */
  lemma {:induction false} RecordReportLookup(names: seq<string>, outcomes: seq<CountryOutcome>,
                                              desktop: map<string, string>, i: nat)
    requires |names| == |outcomes| && Distinct(names) && i < |names|
    ensures names[i] in Record(names, outcomes, desktop).desktop
    ensures Record(names, outcomes, desktop).desktop[names[i]] == outcomes[i].report
  {
    var n := |names| - 1;
    var p, q := names[..n], outcomes[..n];
    var before := Record(p, q, desktop).desktop;
    assert Record(names, outcomes, desktop).desktop == before[names[n] := outcomes[n].report];
    if i < n {
      assert names[i] != names[n];
      DistinctPrefix(names, n);
      assert p[i] == names[i] && q[i] == outcomes[i];
      RecordReportLookup(p, q, desktop, i);
    }
  }

  /**
   * The fresh table holds every configured country, with the score of its
   * own outcome: a country whose feeds gave nothing still appears, with 0.0,
   * and its report file says that no recent entries were found.
   */
  lemma FreshRunLookup(registry: seq<Country>, fetch: Fetch, startOfYesterday: int,
                       translate: Translator, nlp: Classifier, desktop: map<string, string>, i: nat)
    requires DistinctNames(registry) && i < |registry|
    ensures var run := FreshRun(registry, fetch, startOfYesterday, translate, nlp, desktop);
      var outcome := ScoreCountry(registry[i], fetch, startOfYesterday, translate, nlp);
      && Get(run.threats, registry[i].name) == Some(outcome.threat)
      && registry[i].name in run.desktop && run.desktop[registry[i].name] == outcome.report
      && (Collect(FetchFeeds(registry[i].urls, fetch), startOfYesterday) == [] ==>
            Get(run.threats, registry[i].name) == Some(0.0)
            && run.desktop[registry[i].name] == NoEntriesMarker)
  {
    var outcomes := Outcomes(registry, fetch, startOfYesterday, translate, nlp);
    RecordThreatLookup(Names(registry), outcomes, desktop, i);
    RecordReportLookup(Names(registry), outcomes, desktop, i);
    ScoreCountryFacts(registry[i], fetch, startOfYesterday, translate, nlp);
  }

  /** One iteration of the read-back loop; None stands for the exception `float` raised. */
  function ReadStep(threatsFromTxt: Dict, country: string, desktop: map<string, string>): (next: Option<Dict>)
  {
    if country in desktop then
      match ReadReport(desktop[country])
      case Score(v) => Some(Put(threatsFromTxt, country, v))
      case NoHeader => Some(threatsFromTxt)
      case ParseError => None
    else Some(Put(threatsFromTxt, country, 0.0))
  }

  function ReadBack(names: seq<string>, desktop: map<string, string>): (back: Option<Dict>)
  {
    if names == [] then Some([])
    else match ReadBack(names[..|names| - 1], desktop)
      case None => None
      case Some(d) => ReadStep(d, names[|names| - 1], desktop)
  }

  lemma {:induction false} ReadBackAborted(names: seq<string>, n: nat, desktop: map<string, string>)
    requires n <= |names| && ReadBack(names[..n], desktop).None?
    ensures ReadBack(names, desktop).None?
  {
    if n < |names| {
      assert names[..|names| - 1][..n] == names[..n];
      ReadBackAborted(names[..|names| - 1], n, desktop);
    } else {
      assert names[..n] == names;
    }
  }

  /** The read-back loop (lines 176-188). */
  method ReadBackPass(names: seq<string>, desktop: map<string, string>) returns (threatsFromTxt: Option<Dict>)
    ensures threatsFromTxt == ReadBack(names, desktop)
  {
    var d: Dict := [];
    var c := 0;
    while c < |names|
      invariant 0 <= c <= |names|
      invariant ReadBack(names[..c], desktop) == Some(d)
    {
      assert names[..c + 1][..c] == names[..c];
      var country := names[c];
      if country in desktop {
        match ReadReport(desktop[country]) {
          case Score(v) =>
            d := Put(d, country, v);
          case NoHeader =>
          case ParseError =>
            ReadBackAborted(names, c + 1, desktop);
            return None;
        }
      } else {
        d := Put(d, country, 0.0);
      }
      c := c + 1;
    }
    assert names[..c] == names;
    return Some(d);
  }

  /**
   * What the read-back pass gives each country, whenever it completes: a
   * country without a report file gets 0.0, a report with a score line gives
   * that score, a report without one gives no key, no report failed to
   * convert, and no country outside the list appears.
   */
  lemma {:induction false} ReadBackLookup(names: seq<string>, desktop: map<string, string>, k: string)
    requires ReadBack(names, desktop).Some?
    ensures var back := ReadBack(names, desktop).value;
      && (k !in names ==> Get(back, k).None?)
      && (k in names && k !in desktop ==> Get(back, k) == Some(0.0))
      && (k in names && k in desktop ==> !ReadReport(desktop[k]).ParseError?)
      && (k in names && k in desktop && ReadReport(desktop[k]).Score? ==>
            Get(back, k) == Some(ReadReport(desktop[k]).value))
      && (k in names && k in desktop && ReadReport(desktop[k]).NoHeader? ==> Get(back, k).None?)
  {
    if names != [] {
      var p, last := names[..|names| - 1], names[|names| - 1];
      assert names == p + [last];
      var before := ReadBack(p, desktop);
      assert before.Some?;
      ReadBackLookup(p, desktop, k);
      ReadStepLookup(before.value, last, desktop, k);
    }
  }

  /** One read-back step touches only the country it reads. */
  lemma ReadStepLookup(d: Dict, name: string, desktop: map<string, string>, k: string)
    requires ReadStep(d, name, desktop).Some?
    ensures var next := ReadStep(d, name, desktop).value;
      && (k != name ==> Get(next, k) == Get(d, k))
      && (k == name && k !in desktop ==> Get(next, k) == Some(0.0))
      && (k == name && k in desktop ==> !ReadReport(desktop[k]).ParseError?)
      && (k == name && k in desktop && ReadReport(desktop[k]).Score? ==>
            Get(next, k) == Some(ReadReport(desktop[k]).value))
      && (k == name && k in desktop && ReadReport(desktop[k]).NoHeader? ==> Get(next, k) == Get(d, k))
  {
    if k != name {
      if name in desktop && ReadReport(desktop[name]).Score? {
        PutOther(d, name, ReadReport(desktop[name]).value, k);
      } else if name !in desktop {
        PutOther(d, name, 0.0, k);
      }
    }
  }

  /**
   * One country's outcome: the score is 0.01 per NEGATIVE title, which is
   * the total of its negative list; the scored titles never outnumber the
   * collected entries; its report reads back as its score, or has no score
   * line when nothing was collected (the score then being 0.0).
   */
  lemma ScoreCountryFacts(country: Country, fetch: Fetch, startOfYesterday: int,
                          translate: Translator, nlp: Classifier)
    ensures var daily := Collect(FetchFeeds(country.urls, fetch), startOfYesterday);
      var outcome := ScoreCountry(country, fetch, startOfYesterday, translate, nlp);
      && outcome.threat == Hundredths(TotalContribution(outcome.negatives))
      && outcome.threat == Hundredths(PerItemContribution * |outcome.negatives|)
      && |outcome.negatives| + |outcome.positives| <= |daily|
      && ReadReport(outcome.report) == (if daily != [] then Score(outcome.threat) else NoHeader)
      && (daily == [] ==> outcome == CountryOutcome(0.0, [], [], NoEntriesMarker))
  {
    var daily := Collect(FetchFeeds(country.urls, fetch), startOfYesterday);
    if daily != [] {
      var translated := NormalizeTitles(Titles(daily), translate);
      var z := Zip(nlp(translated), translated);
      ScoreIsNegativeListTotal(z);
      ListsBoundedByTexts(z);
      ReportRoundTrip(PerItemContribution * CountLabel(z, NegativeLabel), daily);
    } else {
      NoEntriesReportHasNoScore();
    }
  }

  /** Reading back only looks at the files of the countries it is given. */
  lemma {:induction false} ReadBackFrame(names: seq<string>, desktop: map<string, string>, k: string, v: string)
    requires k !in names
    ensures ReadBack(names, desktop[k := v]) == ReadBack(names, desktop)
  {
    if names != [] {
      ReadBackFrame(names[..|names| - 1], desktop, k, v);
    }
  }

  /**
   * A re-read table agrees with the fresh one: same total, and each key has
   * the fresh value or, where the fresh value is 0.0, is absent.
   */
  ghost predicate Agree(back: Dict, live: Dict)
  {
    && Sum(back) == Sum(live)
    && forall k :: Get(back, k) == Get(live, k) || (Get(back, k).None? && Get(live, k) == Some(0.0))
  }

  ghost predicate KeysAmong(d: Dict, names: seq<string>)
  {
    forall k :: k !in names ==> Get(d, k).None?
  }

  /** Recording one more country keeps the two tables in agreement. */
  lemma AgreeStep(back: Dict, live: Dict, name: string, threat: real, read: ReadOutcome)
    requires Agree(back, live)
    requires Get(back, name).None? && Get(live, name).None?
    requires read == Score(threat) || (read == NoHeader && threat == 0.0)
    ensures Agree(if read.Score? then Put(back, name, threat) else back, Put(live, name, threat))
  {
    var back' := if read.Score? then Put(back, name, threat) else back;
    var live' := Put(live, name, threat);
    SumPutNew(live, name, threat);
    if read.Score? {
      SumPutNew(back, name, threat);
    }
    forall k ensures Get(back', k) == Get(live', k) || (Get(back', k).None? && Get(live', k) == Some(0.0)) {
      if k != name {
        assert Get(live', k) == Get(live, k);
        assert Get(back', k) == Get(back, k);
      }
    }
  }

  /** A report that reads back as the score recorded for it, or has no score when the score is 0.0. */
  predicate Consistent(outcome: CountryOutcome)
  {
    ReadReport(outcome.report) == Score(outcome.threat)
    || (ReadReport(outcome.report) == NoHeader && outcome.threat == 0.0)
  }

  /** Reading back one more country's report keeps the tables in agreement. */
  lemma ReadBackStep(names: seq<string>, desktop: map<string, string>, threats: Dict,
                     name: string, outcome: CountryOutcome,
                     all: seq<string>, files: map<string, string>, table: Dict)
    requires ReadBack(names, desktop).Some?
    requires Agree(ReadBack(names, desktop).value, threats)
    requires KeysAmong(threats, names) && KeysAmong(ReadBack(names, desktop).value, names)
    requires name !in names
    requires Consistent(outcome)
    requires all == names + [name] && files == desktop[name := outcome.report]
    requires table == Put(threats, name, outcome.threat)
    ensures ReadBack(all, files).Some?
    ensures Agree(ReadBack(all, files).value, table)
    ensures KeysAmong(table, all) && KeysAmong(ReadBack(all, files).value, all)
  {
    var d := ReadBack(names, desktop).value;
    ReadBackFrame(names, desktop, name, outcome.report);
    assert all[..|all| - 1] == names;
    assert ReadBack(all, files) == ReadStep(d, name, files);
    AgreeStep(d, threats, name, outcome.threat, ReadReport(outcome.report));
  }

  /** The read-back pass over recorded outcomes whose reports are consistent agrees with the record. */
  lemma {:induction false} ReadBackOfRecord(names: seq<string>, outcomes: seq<CountryOutcome>,
                                            desktop: map<string, string>)
    requires |names| == |outcomes| && Distinct(names)
    requires forall i :: 0 <= i < |outcomes| ==> Consistent(outcomes[i])
    ensures var run := Record(names, outcomes, desktop);
      var back := ReadBack(names, run.desktop);
      && back.Some?
      && Agree(back.value, run.threats)
      && KeysAmong(run.threats, names)
      && KeysAmong(back.value, names)
  {
    if names != [] {
      var p, q := names[..|names| - 1], outcomes[..|outcomes| - 1];
      var name, outcome := names[|names| - 1], outcomes[|outcomes| - 1];
      assert names == p + [name];
      DistinctPrefix(names, |names| - 1);
      assert name !in p by {
        forall i | 0 <= i < |p| ensures p[i] != name {
          assert p[i] == names[i];
        }
      }
      ReadBackOfRecord(p, q, desktop);
      var before := Record(p, q, desktop);
      RecordSnoc(names, outcomes, desktop, |names| - 1);
      assert names[..|names|] == names && outcomes[..|outcomes|] == outcomes;
      var run := Record(names, outcomes, desktop);
      ReadBackStep(p, before.desktop, before.threats, name, outcome, names, run.desktop, run.threats);
    }
  }

  /**
   * Re-deriving the scores from the report files the fresh pass wrote:
   * nothing fails, every country with a report score gets the score of the
   * fresh run, a country without entries (0.0 in the fresh run) gets no key,
   * no other key appears, and the totals agree.
   */
  lemma RederivationAgrees(registry: seq<Country>, fetch: Fetch, startOfYesterday: int,
                           translate: Translator, nlp: Classifier, desktop: map<string, string>)
    requires DistinctNames(registry)
    ensures var run := FreshRun(registry, fetch, startOfYesterday, translate, nlp, desktop);
      var back := ReadBack(Names(registry), run.desktop);
      && back.Some?
      && Agree(back.value, run.threats)
      && KeysAmong(run.threats, Names(registry))
      && KeysAmong(back.value, Names(registry))
  {
    var outcomes := Outcomes(registry, fetch, startOfYesterday, translate, nlp);
    forall i | 0 <= i < |outcomes| ensures Consistent(outcomes[i]) {
      ScoreCountryFacts(registry[i], fetch, startOfYesterday, translate, nlp);
    }
    ReadBackOfRecord(Names(registry), outcomes, desktop);
  }

  /** The script's registry has distinct names and does not contain the focal country. */
  lemma RegistryFacts()
    ensures DistinctNames(RssUrls) && FocalCountry !in Names(RssUrls)
  {
  }

  /**
   * The whole script: the live pass and its composition, then the read-back
   * pass and its composition. The second composition is None when reading a
   * report raised an exception.
   */
  method RunThreatIndex(registry: seq<Country>, fetch: Fetch, startOfYesterday: int,
                        translate: Translator, nlp: Classifier, desktop: map<string, string>)
    returns (composite: Dict, bntIndex: real, totalThreat: real, fromTxt: Option<(Dict, real)>)
    ensures var run := FreshRun(registry, fetch, startOfYesterday, translate, nlp, desktop);
      && bntIndex == BntIndex(Sum(run.threats))
      && Get(composite, FocalCountry) == Some(bntIndex)
      && (forall k :: k != FocalCountry ==> Get(composite, k) == Get(run.threats, k))
      && totalThreat == Sum(composite)
    ensures DistinctNames(registry) && FocalCountry !in Names(registry) ==>
      && composite == FreshRun(registry, fetch, startOfYesterday, translate, nlp, desktop).threats + [(FocalCountry, bntIndex)]
      && totalThreat == Sum(FreshRun(registry, fetch, startOfYesterday, translate, nlp, desktop).threats) + bntIndex
      && fromTxt.Some?
      && fromTxt.value.1 == bntIndex
      && Get(fromTxt.value.0, FocalCountry) == Some(bntIndex)
      && forall k :: k != FocalCountry ==>
           Get(fromTxt.value.0, k) == Get(composite, k)
           || (Get(fromTxt.value.0, k).None? && Get(composite, k) == Some(0.0))
  {
    var threats, allNegative, allPositive, files :=
      FreshPass(registry, fetch, startOfYesterday, translate, nlp, desktop);
    composite, bntIndex, totalThreat := ComposeIndex(threats);
    var threatsFromTxt := ReadBackPass(Names(registry), files);
    if threatsFromTxt.Some? {
      var compositeFromTxt, bntIndexFromTxt, _ := ComposeIndex(threatsFromTxt.value);
      fromTxt := Some((compositeFromTxt, bntIndexFromTxt));
    } else {
      fromTxt := None;
    }
    if DistinctNames(registry) && FocalCountry !in Names(registry) {
      RederivationAgrees(registry, fetch, startOfYesterday, translate, nlp, desktop);
    }
  }
}
