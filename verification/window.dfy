/**
 * Collecting a country's entries (the URL loop of the country loop).
 * Each feed's entries are scanned; an entry is kept when its publication
 * time parsed and, with its timezone dropped, is at or after the start of
 * yesterday. After each feed, if nothing has been kept so far, the list is
 * replaced by that feed's first 20 entries. The fallback is thus applied
 * once per feed, inside the loop, and later feeds' recent entries are
 * appended after it.
 */
module Window {
  import opened Wrappers

  /**
   * A feed entry. `published` is the raw date text as printed in the report;
   * `instant` is what parsing it gave, with the timezone dropped, or None
   * when the field was missing, empty or could not be parsed.
   */
  datatype Entry = Entry(title: string, published: string, instant: Option<int>, link: string)

  /** `entries[:20]` when no recent entry has been collected. */
  const FallbackEntryCount: nat := 20

  /** Whether an entry falls in the window that opens at `startOfYesterday`. */
  predicate InWindow(e: Entry, startOfYesterday: int)
  {
    e.instant.Some? && e.instant.value >= startOfYesterday
  }

  /** The entries of one feed that fall in the window, in feed order. */
  function Windowed(entries: seq<Entry>, startOfYesterday: int): (kept: seq<Entry>)
  {
    if entries == [] then []
    else
      var last := entries[|entries| - 1];
      Windowed(entries[..|entries| - 1], startOfYesterday)
        + (if InWindow(last, startOfYesterday) then [last] else [])
  }

  /** `entries[:20]` */
  function Fallback(entries: seq<Entry>): (block: seq<Entry>)
  {
    entries[..Min(FallbackEntryCount, |entries|)]
  }

  /** What one pass of the URL loop does to the collected list. */
  function FeedStep(daily: seq<Entry>, entries: seq<Entry>, startOfYesterday: int): (next: seq<Entry>)
  {
    var kept := daily + Windowed(entries, startOfYesterday);
    if kept == [] then Fallback(entries) else kept
  }

  /** The collected list after all of a country's feeds, in URL order. */
  function Collect(feeds: seq<seq<Entry>>, startOfYesterday: int): (daily: seq<Entry>)
  {
    if feeds == [] then []
    else FeedStep(Collect(feeds[..|feeds| - 1], startOfYesterday), feeds[|feeds| - 1], startOfYesterday)
  }

  /** The URL loop with its inner entry loop. */
  method CollectDailyEntries(feeds: seq<seq<Entry>>, startOfYesterday: int) returns (dailyEntries: seq<Entry>)
    ensures dailyEntries == Collect(feeds, startOfYesterday)
  {
    dailyEntries := [];
    var u := 0;
    while u < |feeds|
      invariant 0 <= u <= |feeds|
      invariant dailyEntries == Collect(feeds[..u], startOfYesterday)
    {
      assert feeds[..u + 1][..u] == feeds[..u];
      var entries := feeds[u];
      ghost var before := dailyEntries;
      var k := 0;
      while k < |entries|
        invariant 0 <= k <= |entries|
        invariant dailyEntries == before + Windowed(entries[..k], startOfYesterday)
      {
        assert entries[..k + 1][..k] == entries[..k];
        var entry := entries[k];
        if entry.instant.Some? && entry.instant.value >= startOfYesterday {
          dailyEntries := dailyEntries + [entry];
        }
        k := k + 1;
      }
      assert entries[..k] == entries;
      if dailyEntries == [] {
        dailyEntries := entries[..Min(FallbackEntryCount, |entries|)];
      }
      u := u + 1;
    }
    assert feeds[..u] == feeds;
  }

  /** An entry is kept by the window iff it is one of the feed's entries and its time is in the window. */
  lemma {:induction false} WindowedMembership(entries: seq<Entry>, startOfYesterday: int, e: Entry)
    ensures e in Windowed(entries, startOfYesterday) <==> e in entries && InWindow(e, startOfYesterday)
    ensures |Windowed(entries, startOfYesterday)| <= |entries|
  {
    if entries != [] {
      var p := entries[..|entries| - 1];
      WindowedMembership(p, startOfYesterday, e);
      assert entries == p + [entries[|entries| - 1]];
    }
  }

  /** The index of the first feed that returned any entry. */
  function FirstNonEmpty(feeds: seq<seq<Entry>>): (r: Option<nat>)
    ensures r.Some? ==>
      r.value < |feeds| && feeds[r.value] != [] && forall j :: 0 <= j < r.value ==> feeds[j] == []
    ensures r.None? ==> forall j :: 0 <= j < |feeds| ==> feeds[j] == []
  {
    if feeds == [] then None
    else if feeds[0] != [] then Some(0)
    else match FirstNonEmpty(feeds[1..])
      case None => None
      case Some(j) => Some(j + 1)
  }

  /** The recent entries of all feeds, in URL order. */
  function AllWindowed(feeds: seq<seq<Entry>>, startOfYesterday: int): (recent: seq<Entry>)
  {
    if feeds == [] then []
    else AllWindowed(feeds[..|feeds| - 1], startOfYesterday) + Windowed(feeds[|feeds| - 1], startOfYesterday)
  }

  /**
   * The fallback block of the collected list: the first 20 entries of the
   * first feed that returned anything, if that feed had no recent entry.
   */
  function FallbackBlock(feeds: seq<seq<Entry>>, startOfYesterday: int): (block: seq<Entry>)
  {
    match FirstNonEmpty(feeds)
    case None => []
    case Some(j) => if Windowed(feeds[j], startOfYesterday) == [] then Fallback(feeds[j]) else []
  }

  lemma {:induction false} FirstNonEmptySnoc(p: seq<seq<Entry>>, f: seq<Entry>)
    ensures FirstNonEmpty(p + [f]) ==
      if FirstNonEmpty(p).Some? then FirstNonEmpty(p) else if f != [] then Some(|p|) else None
  {
    if p != [] && p[0] == [] {
      assert (p + [f])[1..] == p[1..] + [f];
      FirstNonEmptySnoc(p[1..], f);
    }
  }

  lemma {:induction false} NoEntriesNothingWindowed(feeds: seq<seq<Entry>>, startOfYesterday: int)
    requires forall j :: 0 <= j < |feeds| ==> feeds[j] == []
    ensures AllWindowed(feeds, startOfYesterday) == []
  {
    if feeds != [] {
      NoEntriesNothingWindowed(feeds[..|feeds| - 1], startOfYesterday);
    }
  }

  lemma {:induction false} WindowedOfOneFeedInAll(feeds: seq<seq<Entry>>, startOfYesterday: int, j: nat)
    requires j < |feeds|
    ensures |Windowed(feeds[j], startOfYesterday)| <= |AllWindowed(feeds, startOfYesterday)|
  {
    if j < |feeds| - 1 {
      WindowedOfOneFeedInAll(feeds[..|feeds| - 1], startOfYesterday, j);
    }
  }

  /**
   * What the loop collects: a fallback block of at most 20 entries, none of
   * them in the window, taken from the first feed that returned anything
   * when that feed had no recent entry, followed by every recent entry of
   * every feed in URL order.
   */
  lemma {:induction false} CollectShape(feeds: seq<seq<Entry>>, startOfYesterday: int)
    ensures Collect(feeds, startOfYesterday)
      == FallbackBlock(feeds, startOfYesterday) + AllWindowed(feeds, startOfYesterday)
    ensures |FallbackBlock(feeds, startOfYesterday)| <= FallbackEntryCount
    ensures forall e :: e in FallbackBlock(feeds, startOfYesterday) ==> !InWindow(e, startOfYesterday)
    ensures Collect(feeds, startOfYesterday) == [] <==> FirstNonEmpty(feeds).None?
  {
    if feeds != [] {
      var p, f := feeds[..|feeds| - 1], feeds[|feeds| - 1];
      assert feeds == p + [f];
      CollectShape(p, startOfYesterday);
      FirstNonEmptySnoc(p, f);
      match FirstNonEmpty(p)
      case None =>
        NoEntriesNothingWindowed(p, startOfYesterday);
        if f != [] && Windowed(f, startOfYesterday) == [] {
          forall e | e in Fallback(f) ensures !InWindow(e, startOfYesterday) {
            WindowedMembership(f, startOfYesterday, e);
          }
        }
      case Some(j) =>
        assert feeds[j] == p[j];
        WindowedOfOneFeedInAll(p, startOfYesterday, j);
    }
  }

  /** A recent entry of any feed is in the collected list, and the list only holds entries of the feeds. */
  lemma {:induction false} AllWindowedMembership(feeds: seq<seq<Entry>>, startOfYesterday: int, e: Entry)
    ensures e in AllWindowed(feeds, startOfYesterday) <==>
      InWindow(e, startOfYesterday) && exists j :: 0 <= j < |feeds| && e in feeds[j]
  {
    if feeds != [] {
      var p, f := feeds[..|feeds| - 1], feeds[|feeds| - 1];
      var before := AllWindowed(p, startOfYesterday);
      assert AllWindowed(feeds, startOfYesterday) == before + Windowed(f, startOfYesterday);
      AllWindowedMembership(p, startOfYesterday, e);
      WindowedMembership(f, startOfYesterday, e);
      var inFeeds := exists j :: 0 <= j < |feeds| && e in feeds[j];
      var inPrefix := exists j :: 0 <= j < |p| && e in p[j];
      if inFeeds {
        var j :| 0 <= j < |feeds| && e in feeds[j];
        if j < |p| { assert e in p[j]; }
      }
      if inPrefix {
        var j :| 0 <= j < |p| && e in p[j];
        assert e in feeds[j];
      }
      assert inFeeds <==> inPrefix || e in f;
    }
  }

  /**
   * The fallback is applied per feed: a first feed with only stale entries
   * puts them in the list even though a later feed has a recent one.
   */
  lemma StaleFirstFeedKeptBeforeRecentEntries(stale: Entry, recent: Entry, startOfYesterday: int)
    requires stale.instant == Some(startOfYesterday - 1)
    requires recent.instant == Some(startOfYesterday)
    ensures Collect([[stale], [recent]], startOfYesterday) == [stale, recent]
  {
    var feeds := [[stale], [recent]];
    assert [stale][..0] == [] && [recent][..0] == [];
    assert Windowed([stale], startOfYesterday) == [];
    assert Windowed([recent], startOfYesterday) == [recent];
    assert Fallback([stale]) == [stale];
    assert feeds[..1][..0] == [];
    assert Collect(feeds[..1], startOfYesterday) == [stale];
    assert feeds[..|feeds| - 1] == feeds[..1];
  }
}
