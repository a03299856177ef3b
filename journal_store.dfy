/**
 * The journal entry store of the Today screen (app/today.tsx): one entry per
 * calendar day under the storage key "@journal_<day>", and a day index under
 * "@journal_days" listing the days that have an entry.
 *
 * AsyncStorage is modelled as the fields of `Journal`: the entry payloads
 * keyed by day, and the index (absent until first written). Every awaited
 * call is one step; a call that throws is chosen by a parameter.
 */
module JournalStore {
  import opened Optional
  import opened JsText

  /**
   * A moment as the app handles it: the ISO-8601 text `toISOString` gives
   * (e.g. "2024-01-01T18:30:00.000Z") and the millisecond value that
   * `new Date(text)` reads back from it.
   */
  datatype Instant = Instant(iso: string, millis: int)

  /** The payload stored for a day: `{date, answer}`. */
  datatype Entry = Entry(date: Instant, answer: string)

  /** A storage key the store uses: a day's entry, or the day index. */
  datatype Key = EntryOf(day: string) | DayIndex

  /** The key's text in AsyncStorage: "@journal_<day>" or "@journal_days". */
  function KeyText(k: Key): string {
    match k
    case EntryOf(day) => "@journal_" + day
    case DayIndex => "@journal_days"
  }

  /**
   * The texts of two keys coincide only for the same key, except that the
   * entry key of a day named "days" is the index's own key. Day keys come
   * from `toISOString` and start with a digit or a sign, so that day never
   * occurs; the model keeps entries and index apart on that ground.
   */
  lemma {:induction false} KeyTextsDistinct(k1: Key, k2: Key)
    ensures KeyText(k1) == KeyText(k2) <==> k1 == k2 || {k1, k2} == {EntryOf("days"), DayIndex}
  {
    var p := "@journal_";
    if KeyText(k1) == KeyText(k2) {
      match (k1, k2)
      case (EntryOf(a), EntryOf(b)) =>
        assert a == KeyText(k1)[|p|..] == KeyText(k2)[|p|..] == b;
      case (EntryOf(a), DayIndex) =>
        assert a == KeyText(k1)[|p|..] == "days";
      case (DayIndex, EntryOf(b)) =>
        assert b == KeyText(k2)[|p|..] == "days";
      case (DayIndex, DayIndex) =>
    }
    if {k1, k2} == {EntryOf("days"), DayIndex} {
      assert k1 in {k1, k2} && k2 in {k1, k2};
      assert KeyText(EntryOf("days")) == KeyText(DayIndex);
    }
  }

  /**
   * `getTodayString`: `iso.split('T')[0]`, the text before the first 'T'
   * (the whole text when there is none). For a `toISOString` timestamp this
   * is the UTC calendar date "YYYY-MM-DD".
   */
  function DayKey(iso: string): (day: string)
    ensures |day| <= |iso| && day == iso[..|day|]
    ensures 'T' !in day
    ensures |day| < |iso| ==> iso[|day|] == 'T'
  {
    if iso == [] || iso[0] == 'T' then [] else [iso[0]] + DayKey(iso[1..])
  }

  /** The day key of a timestamp "<date>T<time>" is its date part. */
  lemma {:induction false} DayKeyOfTimestamp(date: string, time: string)
    requires 'T' !in date
    ensures DayKey(date + "T" + time) == date
  {
    var iso := date + "T" + time;
    var day := DayKey(iso);
    assert iso[|date|] == 'T';
    assert iso[..|date|] == date;
  }

  /** The storage as the store sees it: entry payloads by day and the stored index. */
  datatype Storage = Storage(entries: map<string, Entry>, index: Option<seq<string>>)

  /** The stored index, or [] when "@journal_days" is absent. */
  function IndexDays(st: Storage): seq<string> {
    st.index.GetOr([])
  }

  /**
   * `getDaysWithEntries`: the stored index, or [] when the key is absent or
   * when the read throws (the error is logged and swallowed).
   */
  function ReadDays(st: Storage, readFails: bool): (days: seq<string>)
    ensures readFails || st.index.None? ==> days == []
    ensures !readFails && st.index.Some? ==> days == st.index.value
  {
    if readFails then [] else IndexDays(st)
  }

  predicate NoDuplicates(s: seq<string>) {
    forall i, j :: 0 <= i < j < |s| ==> s[i] != s[j]
  }

  /** Every day that has a stored entry is in the index. */
  predicate Indexed(st: Storage) {
    forall d :: d in st.entries ==> d in IndexDays(st)
  }

  /** What `checkTodaysEntry` finds for a day. */
  datatype TodayEntry = Found(entry: Entry) | NoEntry | ReadError

  /** The lookup of a day's entry: its payload, none when the key is absent, or the caught read error. */
  function LookupDay(st: Storage, day: string, readFails: bool): (r: TodayEntry)
    ensures r.ReadError? <==> readFails
    ensures r.NoEntry? <==> !readFails && day !in st.entries
    ensures r.Found? ==> day in st.entries && r.entry == st.entries[day]
  {
    if readFails then ReadError
    else if day in st.entries then Found(st.entries[day])
    else NoEntry
  }

  /** A storage call of `saveAnswer` that may throw. */
  datatype SaveCall = WriteEntry | ReadIndex | WriteIndex

  /** The result `saveAnswer` reports: the saved entry, the "Please enter an answer" rejection, or the caught write failure. */
  datatype SaveOutcome = Saved(entry: Entry) | Blank | WriteFailed

  /** The storage after a save, what the save reported, and the storage keys it wrote, in order. */
  datatype SaveResult = SaveResult(after: Storage, outcome: SaveOutcome, written: seq<Key>)

  /**
   * `saveAnswer` at instant `now`, where `failing` holds the storage calls
   * that throw if they are reached: reject a blank answer; otherwise write the
   * entry `{now, answer.trim()}` under today's key, read the index (as [] if
   * that read throws, the error being swallowed) and, when today is not in
   * it, append today and write the index back. A throwing write stops the
   * save; nothing is rolled back.
   */
  function SaveEffect(st: Storage, answer: string, now: Instant, failing: set<SaveCall>): SaveResult {
    if Trim(answer) == [] then SaveResult(st, Blank, [])
    else
      var day := DayKey(now.iso);
      var entry := Entry(now, Trim(answer));
      if WriteEntry in failing then SaveResult(st, WriteFailed, [])
      else
        var st1 := st.(entries := st.entries[day := entry]);
        var days := ReadDays(st, ReadIndex in failing);
        if day in days then SaveResult(st1, Saved(entry), [EntryOf(day)])
        else if WriteIndex in failing then SaveResult(st1, WriteFailed, [EntryOf(day)])
        else SaveResult(st1.(index := Some(days + [day])), Saved(entry), [EntryOf(day), DayIndex])
  }

  /** An answer that is blank after trimming is rejected before any storage write. */
  lemma SaveRejectsBlank(st: Storage, answer: string, now: Instant, failing: set<SaveCall>)
    ensures var r := SaveEffect(st, answer, now, failing);
            (r.outcome.Blank? <==> AllWhitespace(answer)) &&
            (r.outcome.Blank? ==> r.after == st && r.written == [])
  {
    TrimBlankIff(answer);
  }

  /**
   * A save succeeds exactly when the answer is not blank, the entry write
   * goes through and, when today has to be appended to the list read, so
   * does the index write; it then stores the trimmed answer and the save time
   * under today's key and leaves today in the index.
   */
  lemma SaveStoresTrimmedAnswer(st: Storage, answer: string, now: Instant, failing: set<SaveCall>)
    ensures var r := SaveEffect(st, answer, now, failing);
            var day := DayKey(now.iso);
            (r.outcome.Saved? <==>
               && !AllWhitespace(answer)
               && WriteEntry !in failing
               && (WriteIndex in failing ==> day in ReadDays(st, ReadIndex in failing))) &&
            (r.outcome.Saved? ==>
               && r.outcome.entry == Entry(now, Trim(answer))
               && day in r.after.entries
               && r.after.entries[day] == r.outcome.entry
               && day in IndexDays(r.after))
  {
    TrimBlankIff(answer);
  }

  /** A save changes no other day's entry; when the entry write throws it changes nothing. */
  lemma SaveKeepsOtherDays(st: Storage, answer: string, now: Instant, failing: set<SaveCall>)
    ensures var r := SaveEffect(st, answer, now, failing);
            var day := DayKey(now.iso);
            && (WriteEntry in failing ==> r.after == st)
            && (forall d :: d != day ==> (d in r.after.entries <==> d in st.entries))
            && (forall d :: d != day && d in st.entries ==> r.after.entries[d] == st.entries[d])
  {
    var r := SaveEffect(st, answer, now, failing);
    var day := DayKey(now.iso);
    if Trim(answer) != [] && WriteEntry !in failing {
      var m := st.entries[day := Entry(now, Trim(answer))];
      assert r.after.entries == m;
      forall d | d != day ensures (d in r.after.entries <==> d in st.entries) {
        assert d in m <==> d in st.entries;
      }
    }
  }

  /** A save writes no key but today's entry key and the index key, the entry first. */
  lemma SaveWritesOnlyTodaysKeys(st: Storage, answer: string, now: Instant, failing: set<SaveCall>)
    ensures var r := SaveEffect(st, answer, now, failing);
            var day := DayKey(now.iso);
            r.written in {[], [EntryOf(day)], [EntryOf(day), DayIndex]}
  {
  }

  /**
   * The index is written only to append today to the list just read (today
   * not being in it), and is left as it was otherwise; in particular a day
   * already indexed is neither appended nor rewritten (unless the index read
   * throws, in which case the list read is empty).
   */
  lemma {:induction false} SaveAppendsTodayOnce(st: Storage, answer: string, now: Instant, failing: set<SaveCall>)
    ensures var r := SaveEffect(st, answer, now, failing);
            var day := DayKey(now.iso);
            var read := ReadDays(st, ReadIndex in failing);
            && (DayIndex !in r.written ==> r.after.index == st.index)
            && (DayIndex in r.written ==> day !in read && r.after.index == Some(read + [day]))
            && (ReadIndex !in failing && day in IndexDays(st) ==> DayIndex !in r.written)
  {
    var r := SaveEffect(st, answer, now, failing);
    var day := DayKey(now.iso);
    var read := ReadDays(st, ReadIndex in failing);
    if Trim(answer) != [] && WriteEntry !in failing && day !in read && WriteIndex !in failing {
      assert r.written == [EntryOf(day), DayIndex];
    } else {
      assert DayIndex !in r.written;
    }
  }

  /** A save never puts a day in the index twice. */
  lemma {:induction false} SaveKeepsNoDuplicates(st: Storage, answer: string, now: Instant, failing: set<SaveCall>)
    requires NoDuplicates(IndexDays(st))
    ensures NoDuplicates(IndexDays(SaveEffect(st, answer, now, failing).after))
  {
    var r := SaveEffect(st, answer, now, failing);
    var day := DayKey(now.iso);
    var read := ReadDays(st, ReadIndex in failing);
    SaveAppendsTodayOnce(st, answer, now, failing);
    if r.after.index != st.index {
      var s := read + [day];
      assert NoDuplicates(read);
      forall i, j | 0 <= i < j < |s| ensures s[i] != s[j] {
        if j == |s| - 1 { assert s[i] == read[i]; }
      }
    }
  }

  /**
   * When every stored entry is indexed, a save keeps it so unless it fails
   * half-way: the index read throws, or the index write throws for a day not
   * yet indexed, while the entry write goes through.
   */
  lemma {:induction false} SaveKeepsIndexed(st: Storage, answer: string, now: Instant, failing: set<SaveCall>)
    requires Indexed(st)
    requires WriteEntry in failing || (ReadIndex !in failing && (WriteIndex in failing ==> DayKey(now.iso) in IndexDays(st)))
    ensures Indexed(SaveEffect(st, answer, now, failing).after)
  {
    var r := SaveEffect(st, answer, now, failing);
    var day := DayKey(now.iso);
    SaveAppendsTodayOnce(st, answer, now, failing);
    forall d | d in r.after.entries ensures d in IndexDays(r.after) {
      if d != day {
        assert d in st.entries;
        assert d in IndexDays(st);
        if r.after.index != st.index {
          assert IndexDays(r.after) == IndexDays(st) + [day];
        }
      } else if r.outcome.Blank? || WriteEntry in failing {
        assert d in st.entries;
      } else {
        SaveStoresTrimmedAnswer(st, answer, now, failing);
      }
    }
  }

  /**
   * A throwing index write, reached because today was not in the list read,
   * fails the save but does not undo the entry write: today's entry is
   * stored, the index is left as it was, and a day not indexed before stays
   * out of it, so the stored entries are no longer all indexed.
   */
  lemma {:induction false} SaveIndexWriteFailureKeepsEntry(st: Storage, answer: string, now: Instant, failing: set<SaveCall>)
    requires !AllWhitespace(answer)
    requires WriteEntry !in failing && WriteIndex in failing
    requires DayKey(now.iso) !in ReadDays(st, ReadIndex in failing)
    ensures var r := SaveEffect(st, answer, now, failing);
            var day := DayKey(now.iso);
            && r.outcome == WriteFailed
            && r.after.entries == st.entries[day := Entry(now, Trim(answer))]
            && r.after.index == st.index
            && r.written == [EntryOf(day)]
            && (day !in IndexDays(st) ==> !Indexed(r.after))
  {
    TrimBlankIff(answer);
    var r := SaveEffect(st, answer, now, failing);
    var day := DayKey(now.iso);
    assert day in r.after.entries;
  }

  /**
   * The index read throwing (and being swallowed) followed by a throwing
   * index write fails the save even for a day that is already indexed: the
   * empty list read does not hold today, so the write is attempted. The
   * entry is still stored and the index untouched.
   */
  lemma {:induction false} ReadAndWriteFailureFailsIndexedDay(st: Storage, answer: string, now: Instant)
    requires !AllWhitespace(answer)
    ensures var r := SaveEffect(st, answer, now, {ReadIndex, WriteIndex});
            && r.outcome == WriteFailed
            && r.after == st.(entries := st.entries[DayKey(now.iso) := Entry(now, Trim(answer))])
            && r.written == [EntryOf(DayKey(now.iso))]
  {
    TrimBlankIff(answer);
    assert WriteEntry !in {ReadIndex, WriteIndex};
  }

  /**
   * When the index read throws during a save that writes the index, the
   * index is rewritten as [today]: every other indexed day drops out of it,
   * although its entry is still stored.
   */
  lemma IndexReadFailureDropsOtherDays(st: Storage, answer: string, now: Instant)
    requires !AllWhitespace(answer)
    ensures var r := SaveEffect(st, answer, now, {ReadIndex});
            && r.after.index == Some([DayKey(now.iso)])
            && forall d :: d in st.entries && d != DayKey(now.iso) ==> d in r.after.entries && d !in IndexDays(r.after)
  {
    TrimBlankIff(answer);
    var r := SaveEffect(st, answer, now, {ReadIndex});
    var day := DayKey(now.iso);
    assert ReadDays(st, true) + [day] == [day];
    assert WriteEntry !in {ReadIndex} && WriteIndex !in {ReadIndex};
    assert r.after == Storage(st.entries[day := Entry(now, Trim(answer))], Some([day]));
    forall d | d in st.entries && d != day ensures d in r.after.entries && d !in IndexDays(r.after) {
      assert IndexDays(r.after) == [day];
    }
  }

  /**
   * Saving twice on the same day leaves one entry for that day, holding the
   * second answer and time, and the index as the first save left it.
   */
  lemma {:induction false} SaveTwiceSameDay(st: Storage, a1: string, a2: string, t1: Instant, t2: Instant)
    requires DayKey(t1.iso) == DayKey(t2.iso)
    requires SaveEffect(st, a1, t1, {}).outcome.Saved?
    requires !AllWhitespace(a2)
    ensures var s1 := SaveEffect(st, a1, t1, {}).after;
            var s2 := SaveEffect(s1, a2, t2, {});
            && s2.outcome == Saved(Entry(t2, Trim(a2)))
            && s2.after.index == s1.index
            && s2.after.entries == s1.entries[DayKey(t2.iso) := Entry(t2, Trim(a2))]
            && s2.written == [EntryOf(DayKey(t2.iso))]
  {
    var s1 := SaveEffect(st, a1, t1, {});
    SaveStoresTrimmedAnswer(st, a1, t1, {});
    TrimBlankIff(a2);
    assert DayKey(t2.iso) in ReadDays(s1.after, false);
  }

  /** After a successful save, looking up today finds the trimmed answer saved at `now`. */
  lemma {:induction false} LookupAfterSave(st: Storage, answer: string, now: Instant, failing: set<SaveCall>)
    requires SaveEffect(st, answer, now, failing).outcome.Saved?
    ensures LookupDay(SaveEffect(st, answer, now, failing).after, DayKey(now.iso), false) == Found(Entry(now, Trim(answer)))
  {
    SaveStoresTrimmedAnswer(st, answer, now, failing);
  }

  /**
   * The store held by AsyncStorage. `written` is the log of storage keys
   * written, so that "rewritten with the same value" can be told apart.
   */
  class Journal {
    var entries: map<string, Entry>
    var index: Option<seq<string>>
    ghost var written: seq<Key>

    function State(): Storage
      reads this
    {
      Storage(entries, index)
    }

    /** The index never lists a day twice. */
    ghost predicate Valid()
      reads this
    {
      NoDuplicates(IndexDays(State()))
    }

    /** Empty storage, as on first launch. */
    constructor ()
      ensures Valid()
      ensures State() == Storage(map[], None) && written == []
    {
      entries := map[];
      index := None;
      written := [];
    }

    /** `getDaysWithEntries` (app/today.tsx and app/journal.tsx define it identically). */
    method GetDaysWithEntries(readFails: bool) returns (days: seq<string>)
      ensures days == ReadDays(State(), readFails)
    {
      if readFails {
        return [];
      }
      match index
      case None => days := [];
      case Some(stored) => days := stored;
    }

    /** `checkTodaysEntry`: look up the entry stored for the day of `now`. */
    method CheckTodaysEntry(now: Instant, readFails: bool) returns (r: TodayEntry)
      ensures r == LookupDay(State(), DayKey(now.iso), readFails)
    {
      var todayKey := DayKey(now.iso);
      if readFails {
        return ReadError;
      }
      if todayKey in entries {
        r := Found(entries[todayKey]);
      } else {
        r := NoEntry;
      }
    }

    /** `saveAnswer`, step by step over the storage. */
    method SaveAnswer(answer: string, now: Instant, failing: set<SaveCall>) returns (outcome: SaveOutcome)
      requires Valid()
      modifies this
      ensures Valid()
      ensures var r := SaveEffect(old(State()), answer, now, failing);
              State() == r.after && outcome == r.outcome && written == old(written) + r.written
    {
      ghost var st := State();
      SaveKeepsNoDuplicates(st, answer, now, failing);
      var trimmed := Trim(answer);
      if trimmed == [] {
        return Blank;
      }
      var todayKey := DayKey(now.iso);
      var entryData := Entry(now, trimmed);
      if WriteEntry in failing {
        return WriteFailed;
      }
      entries := entries[todayKey := entryData];
      written := written + [EntryOf(todayKey)];
      var daysWithEntries := GetDaysWithEntries(ReadIndex in failing);
      assert daysWithEntries == ReadDays(st, ReadIndex in failing);
      if todayKey !in daysWithEntries {
        daysWithEntries := daysWithEntries + [todayKey];
        if WriteIndex in failing {
          return WriteFailed;
        }
        index := Some(daysWithEntries);
        written := written + [DayIndex];
      }
      outcome := Saved(entryData);
    }
  }
}
