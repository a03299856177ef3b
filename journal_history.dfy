/**
 * The history view (app/journal.tsx): walk the day index, fetch each day's
 * payload, skip days whose payload is missing, tag each entry with its day,
 * and sort the list newest first.
 */
module JournalHistory {
  import opened Optional
  import opened JournalStore
  import opened JsText

  /** An entry as listed: the stored payload plus the `dateKey` it was found under. */
  datatype ListedEntry = ListedEntry(date: Instant, answer: string, dateKey: string)

  /** `entry.dateKey = day`: the payload stored for `day`, tagged with it. */
  function Tagged(entries: map<string, Entry>, day: string): ListedEntry
    requires day in entries
  {
    ListedEntry(entries[day].date, entries[day].answer, day)
  }

  /**
   * What the loop of `loadEntries` pushes, in index order: for each indexed
   * day whose payload exists, that payload tagged with the day.
   */
  function Collect(days: seq<string>, entries: map<string, Entry>): (r: seq<ListedEntry>)
    ensures |r| <= |days|
    ensures forall k :: 0 <= k < |r| ==> r[k].dateKey in days && r[k].dateKey in entries
    ensures forall k :: 0 <= k < |r| ==> r[k] == Tagged(entries, r[k].dateKey)
  {
    if days == [] then []
    else
      var day := days[|days| - 1];
      var before := Collect(days[..|days| - 1], entries);
      if day in entries then before + [Tagged(entries, day)] else before
  }

  /** The indexed days that have a payload, in index order. */
  function PresentDays(days: seq<string>, entries: map<string, Entry>): seq<string> {
    if days == [] then []
    else
      var day := days[|days| - 1];
      PresentDays(days[..|days| - 1], entries) + (if day in entries then [day] else [])
  }

  /**
   * The collected list has one element per indexed day with a payload, in
   * the same order, so days without a payload are exactly the ones skipped.
   */
  lemma {:induction false} CollectFollowsPresentDays(days: seq<string>, entries: map<string, Entry>)
    ensures |Collect(days, entries)| == |PresentDays(days, entries)|
    ensures forall k :: 0 <= k < |Collect(days, entries)| ==> Collect(days, entries)[k].dateKey == PresentDays(days, entries)[k]
    ensures forall d :: d in PresentDays(days, entries) <==> d in days && d in entries
  {
    if days != [] {
      var init := days[..|days| - 1];
      CollectFollowsPresentDays(init, entries);
      assert days == init + [days[|days| - 1]];
    }
  }

  /** Every indexed day with a payload is listed by `Collect`. */
  lemma CollectIsComplete(days: seq<string>, entries: map<string, Entry>, d: string)
    requires d in days && d in entries
    ensures exists k :: 0 <= k < |Collect(days, entries)| && Collect(days, entries)[k].dateKey == d
  {
    CollectFollowsPresentDays(days, entries);
    var p := PresentDays(days, entries);
    var k :| 0 <= k < |p| && p[k] == d;
    assert Collect(days, entries)[k].dateKey == d;
  }

  /** An index without duplicates yields a list in which no day appears twice. */
  lemma {:induction false} CollectKeysDistinct(days: seq<string>, entries: map<string, Entry>)
    requires NoDuplicates(days)
    ensures forall i, j :: 0 <= i < j < |Collect(days, entries)| ==> Collect(days, entries)[i].dateKey != Collect(days, entries)[j].dateKey
  {
    if days != [] {
      var init := days[..|days| - 1];
      var day := days[|days| - 1];
      assert NoDuplicates(init);
      CollectKeysDistinct(init, entries);
      var before := Collect(init, entries);
      forall k | 0 <= k < |before| ensures before[k].dateKey != day {
        var m :| 0 <= m < |init| && init[m] == before[k].dateKey;
        assert days[m] == init[m];
      }
    }
  }

  /** The order of the history list: `date` descending, newest first. */
  predicate NewestFirst(s: seq<ListedEntry>) {
    forall i, j :: 0 <= i < j < |s| ==> s[i].date.millis >= s[j].date.millis
  }

  /** Places `x` after every element at least as new, keeping a newest-first list so. */
  function InsertByDate(x: ListedEntry, s: seq<ListedEntry>): (r: seq<ListedEntry>)
    requires NewestFirst(s)
    ensures |r| == |s| + 1
    ensures forall k :: 0 <= k < |r| ==> r[k] == x || r[k] in s
    ensures NewestFirst(r)
    ensures multiset(r) == multiset(s) + multiset{x}
  {
    if s == [] then [x]
    else if s[0].date.millis >= x.date.millis then
      var rest := InsertByDate(x, s[1..]);
      assert s == [s[0]] + s[1..];
      assert forall k :: 0 <= k < |rest| ==> s[0].date.millis >= rest[k].date.millis;
      PrependKeepsNewestFirst(s[0], rest);
      [s[0]] + rest
    else
      PrependKeepsNewestFirst(x, s);
      [x] + s
  }

  /** An entry at least as new as every element of a newest-first list can go in front of it. */
  lemma {:induction false} PrependKeepsNewestFirst(h: ListedEntry, s: seq<ListedEntry>)
    requires NewestFirst(s)
    requires forall k :: 0 <= k < |s| ==> h.date.millis >= s[k].date.millis
    ensures NewestFirst([h] + s)
  {
    var r := [h] + s;
    forall i, j | 0 <= i < j < |r| ensures r[i].date.millis >= r[j].date.millis {
      assert r[j] == s[j - 1];
      if i > 0 {
        assert r[i] == s[i - 1];
      }
    }
  }

  /**
   * `allEntries.sort((a, b) => new Date(b.date) - new Date(a.date))`: a
   * stable sort on the comparator, giving the entries newest first; it adds
   * and drops nothing.
   */
  function SortNewestFirst(s: seq<ListedEntry>): (r: seq<ListedEntry>)
    ensures NewestFirst(r)
    ensures multiset(r) == multiset(s)
    ensures |r| == |s|
    ensures forall k :: 0 <= k < |r| ==> r[k] in s
  {
    if s == [] then []
    else
      assert s == s[..|s| - 1] + [s[|s| - 1]];
      InsertByDate(s[|s| - 1], SortNewestFirst(s[..|s| - 1]))
  }

  /** A sequence whose elements are pairwise distinct holds each value at most once. */
  lemma {:induction false} DistinctCountsAtMostOne(s: seq<ListedEntry>, x: ListedEntry)
    requires forall i, j :: 0 <= i < j < |s| ==> s[i] != s[j]
    ensures multiset(s)[x] <= 1
  {
    if s != [] {
      var init := s[..|s| - 1];
      DistinctCountsAtMostOne(init, x);
      assert s == init + [s[|s| - 1]];
      if x == s[|s| - 1] {
        assert x !in init;
      }
    }
  }

  /** A sequence holding each value at most once has pairwise distinct elements. */
  lemma CountsAtMostOneDistinct(s: seq<ListedEntry>)
    requires forall x :: multiset(s)[x] <= 1
    ensures forall i, j :: 0 <= i < j < |s| ==> s[i] != s[j]
  {
    forall i, j | 0 <= i < j < |s| ensures s[i] != s[j] {
      assert s == s[..j] + s[j..];
      assert s[i] in s[..j] && s[j] in s[j..];
      assert multiset(s)[s[j]] == multiset(s[..j])[s[j]] + multiset(s[j..])[s[j]];
    }
  }

  /** The outcome of `loadEntries`: the list shown, or the caught error (the previous list stays on screen). */
  datatype Listing = Listed(entries: seq<ListedEntry>) | ListFailed

  /**
   * `loadEntries`: read the index (as [] if that read throws), fetch each
   * indexed day's payload in order, skip the missing ones, tag the others
   * with their day, and sort newest first. A payload read that throws
   * (`unreadable` days) abandons the whole listing.
   */
  method LoadEntries(journal: Journal, indexReadFails: bool, unreadable: set<string>) returns (r: Listing)
    ensures var days := ReadDays(journal.State(), indexReadFails);
            r.ListFailed? <==> exists k :: 0 <= k < |days| && days[k] in unreadable
    ensures var days := ReadDays(journal.State(), indexReadFails);
            r.Listed? ==>
              && r.entries == SortNewestFirst(Collect(days, journal.entries))
              // newest first, and a permutation of what the loop collected
              && NewestFirst(r.entries)
              && multiset(r.entries) == multiset(Collect(days, journal.entries))
              // only indexed days with a payload, each with that payload's date and answer
              && |r.entries| == |PresentDays(days, journal.entries)| <= |days|
              && (forall k :: 0 <= k < |r.entries| ==>
                    && r.entries[k].dateKey in days
                    && r.entries[k].dateKey in journal.entries
                    && r.entries[k].date == journal.entries[r.entries[k].dateKey].date
                    && r.entries[k].answer == journal.entries[r.entries[k].dateKey].answer)
    ensures ReadDays(journal.State(), indexReadFails) == [] ==> r == Listed([])
    // the store's invariant (an index free of duplicates) shows each day once
    ensures journal.Valid() && r.Listed? ==>
              forall i, j :: 0 <= i < j < |r.entries| ==> r.entries[i].dateKey != r.entries[j].dateKey
  {
    var daysWithEntries := journal.GetDaysWithEntries(indexReadFails);
    var allEntries: seq<ListedEntry> := [];
    var i := 0;
    while i < |daysWithEntries|
      invariant 0 <= i <= |daysWithEntries|
      invariant allEntries == Collect(daysWithEntries[..i], journal.entries)
      invariant forall k :: 0 <= k < i ==> daysWithEntries[k] !in unreadable
    {
      var day := daysWithEntries[i];
      if day in unreadable {
        return ListFailed;
      }
      if day in journal.entries {
        var entry := journal.entries[day];
        allEntries := allEntries + [ListedEntry(entry.date, entry.answer, day)];
      }
      assert daysWithEntries[..i + 1][..i] == daysWithEntries[..i];
      i := i + 1;
    }
    assert daysWithEntries[..i] == daysWithEntries;
    r := Listed(SortNewestFirst(allEntries));
    ListingProperties(daysWithEntries, journal.entries);
    if !indexReadFails && journal.Valid() {
      ListsEachDayOnce(journal.State());
    }
  }

  /** What the history list holds, for any index and any stored payloads. */
  lemma ListingProperties(days: seq<string>, entries: map<string, Entry>)
    ensures var r := SortNewestFirst(Collect(days, entries));
            && |r| == |PresentDays(days, entries)| <= |days|
            && (forall k :: 0 <= k < |r| ==>
                  && r[k].dateKey in days
                  && r[k].dateKey in entries
                  && r[k].date == entries[r[k].dateKey].date
                  && r[k].answer == entries[r[k].dateKey].answer)
  {
    var c := Collect(days, entries);
    var r := SortNewestFirst(c);
    CollectFollowsPresentDays(days, entries);
    forall k | 0 <= k < |r| ensures r[k].dateKey in days && r[k] == Tagged(entries, r[k].dateKey) {
      var m :| 0 <= m < |c| && c[m] == r[k];
    }
  }

  /**
   * With an index that covers every stored day (what a fault-free history of
   * saves keeps), the history lists exactly the stored days.
   */
  lemma ListsEveryStoredDay(st: Storage)
    requires Indexed(st)
    ensures var r := SortNewestFirst(Collect(IndexDays(st), st.entries));
            forall d :: d in st.entries <==> exists k :: 0 <= k < |r| && r[k].dateKey == d
  {
    var days := IndexDays(st);
    var c := Collect(days, st.entries);
    var r := SortNewestFirst(c);
    ListingProperties(days, st.entries);
    forall d | d in st.entries ensures exists k :: 0 <= k < |r| && r[k].dateKey == d {
      CollectIsComplete(days, st.entries, d);
      var k :| 0 <= k < |c| && c[k].dateKey == d;
      assert c[k] in multiset(c);
      assert c[k] in multiset(r);
      var m :| 0 <= m < |r| && r[m] == c[k];
    }
  }

  /** With an index free of duplicates, the history lists each day at most once. */
  lemma ListsEachDayOnce(st: Storage)
    requires NoDuplicates(IndexDays(st))
    ensures var r := SortNewestFirst(Collect(IndexDays(st), st.entries));
            forall i, j :: 0 <= i < j < |r| ==> r[i].dateKey != r[j].dateKey
  {
    var days := IndexDays(st);
    var c := Collect(days, st.entries);
    var r := SortNewestFirst(c);
    CollectKeysDistinct(days, st.entries);
    forall x ensures multiset(r)[x] <= 1 {
      DistinctCountsAtMostOne(c, x);
    }
    CountsAtMostOneDistinct(r);
    forall i, j | 0 <= i < j < |r| ensures r[i].dateKey != r[j].dateKey {
      assert r[i] in c && r[j] in c;
    }
  }

  /** A store holding one indexed entry lists exactly that entry. */
  lemma ExpectSingleListing(st: Storage, day: string, e: Entry)
    requires st == Storage(map[day := e], Some([day]))
    ensures SortNewestFirst(Collect(IndexDays(st), st.entries)) == [ListedEntry(e.date, e.answer, day)]
  {
    assert [day][..0] == [];
  }

  /** Saving `answer` (already trimmed, not blank) at `now` into a store holding at most an entry for the same day. */
  lemma SaveIntoSingleDay(st: Storage, answer: string, now: Instant, day: string, prior: Entry)
    requires DayKey(now.iso) == day
    requires answer != [] && !IsJsWhitespace(answer[0]) && !IsJsWhitespace(answer[|answer| - 1])
    requires st == Storage(map[], None) || st == Storage(map[day := prior], Some([day]))
    ensures SaveEffect(st, answer, now, {}).after == Storage(map[day := Entry(now, answer)], Some([day]))
    ensures SaveEffect(st, answer, now, {}).outcome == Saved(Entry(now, answer))
  {
    TrimKeepsTrimmed(answer);
    assert [] + [day] == [day];
  }

  /** Starting from empty storage: save "Walked the dog", find it under today's key, and list it. */
  method SaveFindAndList()
  {
    var journal := new Journal();
    var day := "2024-01-01";
    var t1 := Instant(day + "T" + "09:00:00.000Z", 1704099600000);
    DayKeyOfTimestamp(day, "09:00:00.000Z");
    var e1 := Entry(t1, "Walked the dog");

    SaveIntoSingleDay(journal.State(), "Walked the dog", t1, day, e1);
    var first := journal.SaveAnswer("Walked the dog", t1, {});
    assert first == Saved(e1);
    var today := journal.CheckTodaysEntry(t1, false);
    assert today == Found(e1);
    ExpectSingleListing(journal.State(), day, e1);
    var listing := LoadEntries(journal, false, {});
    assert listing == Listed([ListedEntry(t1, "Walked the dog", day)]);
  }

  /**
   * Starting from empty storage: save `a1` at `t1`, then `a2` at `t2` on the
   * same day (both already trimmed and not blank); the history holds one
   * entry, the second answer at the second time.
   */
  method SaveTwiceThenList(day: string, t1: Instant, t2: Instant, a1: string, a2: string)
    requires DayKey(t1.iso) == day && DayKey(t2.iso) == day
    requires a1 != [] && !IsJsWhitespace(a1[0]) && !IsJsWhitespace(a1[|a1| - 1])
    requires a2 != [] && !IsJsWhitespace(a2[0]) && !IsJsWhitespace(a2[|a2| - 1])
  {
    var journal := new Journal();
    var e1, e2 := Entry(t1, a1), Entry(t2, a2);
    SaveIntoSingleDay(journal.State(), a1, t1, day, e1);
    var first := journal.SaveAnswer(a1, t1, {});
    SaveIntoSingleDay(journal.State(), a2, t2, day, e1);
    var second := journal.SaveAnswer(a2, t2, {});
    assert second == Saved(e2);
    ExpectSingleListing(journal.State(), day, e2);
    var listing := LoadEntries(journal, false, {});
    assert listing == Listed([ListedEntry(t2, a2, day)]);
  }
}
