/**
 * The history list: records grouped by night (20:00 to 20:00), nights shown
 * newest first with their total sleep, and the expand/edit state of the
 * list.
 */
module SleepList {
  import opened Options
  import opened Calendar
  import opened Types
  import opened DateUtils
  import opened Store

  /** The night a record is filed under. */
  function NightOf(e: SleepEntry): Date
  {
    GetNightDate(e.date, e.bedTime, e.sleepType)
  }

  /** The minutes a record counts for. */
  function EntryDuration(e: SleepEntry): (r: int)
    ensures 1 <= r <= 1440
  {
    SleepDuration(e.bedTime, e.wakeTime)
  }

  // ---------------------------------------------------------------------
  // Grouping by night.

  /** The records of night `d`, in input order. */
  function EntriesOfNight(s: seq<SleepEntry>, d: Date): (r: seq<SleepEntry>)
    ensures |r| <= |s|
  {
    if s == [] then []
    else
      var last := s[|s| - 1];
      EntriesOfNight(s[..|s| - 1], d) + (if NightOf(last) == d then [last] else [])
  }

  /** The nights of the records, each once, in order of first occurrence (the key order of the grouping object). */
  function NightKeys(s: seq<SleepEntry>): (r: seq<Date>)
    ensures Distinct(r)
  {
    if s == [] then []
    else
      var keys := NightKeys(s[..|s| - 1]);
      var n := NightOf(s[|s| - 1]);
      if n in keys then keys else keys + [n]
  }

  /** A night's group holds exactly the records filed under that night. */
  lemma {:induction false} EntriesOfNightMembers(s: seq<SleepEntry>, d: Date)
    ensures forall k :: 0 <= k < |EntriesOfNight(s, d)| ==> NightOf(EntriesOfNight(s, d)[k]) == d && EntriesOfNight(s, d)[k] in s
    ensures forall k :: 0 <= k < |s| && NightOf(s[k]) == d ==> s[k] in EntriesOfNight(s, d)
    decreases |s|
  {
    if s != [] {
      var s', e := s[..|s| - 1], s[|s| - 1];
      assert s == s' + [e];
      EntriesOfNightMembers(s', d);
      assert forall k :: 0 <= k < |s'| ==> s'[k] == s[k];
    }
  }

  /** The keys are exactly the nights of the records. */
  lemma {:induction false} NightKeysMembers(s: seq<SleepEntry>)
    ensures forall k :: 0 <= k < |s| ==> NightOf(s[k]) in NightKeys(s)
    ensures forall j :: 0 <= j < |NightKeys(s)| ==> exists k :: 0 <= k < |s| && NightOf(s[k]) == NightKeys(s)[j]
    decreases |s|
  {
    if s != [] {
      var s', e := s[..|s| - 1], s[|s| - 1];
      assert s == s' + [e];
      NightKeysMembers(s');
      assert forall k :: 0 <= k < |s'| ==> s'[k] == s[k];
      var keys := NightKeys(s);
      assert forall x :: x in NightKeys(s') ==> x in keys;
      assert keys == if NightOf(e) in NightKeys(s') then NightKeys(s') else NightKeys(s') + [NightOf(e)];
      forall k | 0 <= k < |s| ensures NightOf(s[k]) in keys {
        if k < |s'| { assert NightOf(s'[k]) in NightKeys(s'); }
      }
      forall j | 0 <= j < |keys| ensures exists k :: 0 <= k < |s| && NightOf(s[k]) == keys[j] {
        if j < |NightKeys(s')| {
          assert keys[j] == NightKeys(s')[j];
          var k :| 0 <= k < |s'| && NightOf(s'[k]) == keys[j];
          assert NightOf(s[k]) == keys[j];
        } else {
          assert NightOf(s[|s| - 1]) == keys[j];
        }
      }
    } else {
      assert NightKeys(s) == [];
    }
  }

  /** Grouping keeps the input order inside each night: it works piecewise. */
  lemma {:induction false} EntriesOfNightAppend(a: seq<SleepEntry>, b: seq<SleepEntry>, d: Date)
    ensures EntriesOfNight(a + b, d) == EntriesOfNight(a, d) + EntriesOfNight(b, d)
    decreases |b|
  {
    if b == [] {
      assert a + b == a;
    } else {
      var b' := b[..|b| - 1];
      assert (a + b)[..|a + b| - 1] == a + b';
      assert (a + b)[|a + b| - 1] == b[|b| - 1];
      EntriesOfNightAppend(a, b', d);
    }
  }

  /** Appending one record extends its night's group by that record and adds its night as a key if new. */
  lemma SnocNight(s: seq<SleepEntry>, e: SleepEntry, d: Date)
    ensures EntriesOfNight(s + [e], d) == EntriesOfNight(s, d) + (if NightOf(e) == d then [e] else [])
    ensures NightKeys(s + [e]) == if NightOf(e) in NightKeys(s) then NightKeys(s) else NightKeys(s) + [NightOf(e)]
  {
    assert (s + [e])[..|s + [e]| - 1] == s;
  }

  lemma TotalDurationSnoc(s: seq<SleepEntry>, e: SleepEntry)
    ensures TotalDuration(s + [e]) == TotalDuration(s) + EntryDuration(e)
  {
    assert (s + [e])[..|s + [e]| - 1] == s;
  }

  lemma {:induction false} EntriesOfUnseenNight(s: seq<SleepEntry>, d: Date)
    requires d !in NightKeys(s)
    ensures EntriesOfNight(s, d) == []
    decreases |s|
  {
    if s != [] {
      var s', e := s[..|s| - 1], s[|s| - 1];
      assert s == s' + [e];
      SnocNight(s', e, d);
      EntriesOfUnseenNight(s', d);
    }
  }

  /** The list's `entries.reduce`: one pass, creating a night's list on its first record and appending to it. */
  method GroupByNight(entries: seq<SleepEntry>) returns (groups: map<Date, seq<SleepEntry>>, keys: seq<Date>)
    ensures keys == NightKeys(entries)
    ensures forall d :: d in groups <==> d in keys
    ensures forall d :: d in groups ==> groups[d] == EntriesOfNight(entries, d)
  {
    groups, keys := map[], [];
    var i := 0;
    while i < |entries|
      invariant 0 <= i <= |entries|
      invariant keys == NightKeys(entries[..i])
      invariant forall d :: d in groups <==> d in keys
      invariant forall d :: d in groups ==> groups[d] == EntriesOfNight(entries[..i], d)
    {
      var entry := entries[i];
      var nightDate := NightOf(entry);
      assert entries[..i + 1] == entries[..i] + [entry];
      SnocNight(entries[..i], entry, nightDate);
      forall d | d != nightDate ensures EntriesOfNight(entries[..i + 1], d) == EntriesOfNight(entries[..i], d) {
        SnocNight(entries[..i], entry, d);
      }
      if nightDate !in groups {
        EntriesOfUnseenNight(entries[..i], nightDate);
        groups := groups[nightDate := []];
        keys := keys + [nightDate];
      }
      groups := groups[nightDate := groups[nightDate] + [entry]];
      i := i + 1;
    }
    assert entries[..i] == entries;
  }

  /** The nights shown, newest first. */
  function Nights(entries: seq<SleepEntry>): seq<Date>
  {
    SortDates(NightKeys(entries), true)
  }

  /** Every night of a record is listed exactly once, and the nights are strictly decreasing. */
  lemma NightsSpec(entries: seq<SleepEntry>)
    ensures forall k :: 0 <= k < |entries| ==> NightOf(entries[k]) in Nights(entries)
    ensures forall d :: d in Nights(entries) ==> exists k :: 0 <= k < |entries| && NightOf(entries[k]) == d
    ensures forall i, j :: 0 <= i < j < |Nights(entries)| ==> Before(Nights(entries)[j], Nights(entries)[i])
  {
    var r := Nights(entries);
    NightKeysMembers(entries);
    SortDistinct(NightKeys(entries), true);
    forall i, j | 0 <= i < j < |r| ensures Before(r[j], r[i]) {
      assert InOrder(r[i], r[j], true);
      assert r[i] != r[j];
    }
  }

  // ---------------------------------------------------------------------
  // Night totals.

  /** The summed durations of the records, overlaps counted twice. */
  function TotalDuration(s: seq<SleepEntry>): (r: int)
    ensures |s| <= r <= 1440 * |s|
  {
    if s == [] then 0 else TotalDuration(s[..|s| - 1]) + EntryDuration(s[|s| - 1])
  }

  /** The total shown on a night's header. */
  function NightTotal(entries: seq<SleepEntry>, d: Date): int
  {
    TotalDuration(EntriesOfNight(entries, d))
  }

  /** Night totals summed over `keys`. */
  function SumNightTotals(entries: seq<SleepEntry>, keys: seq<Date>): int
  {
    if keys == [] then 0 else SumNightTotals(entries, keys[..|keys| - 1]) + NightTotal(entries, keys[|keys| - 1])
  }

  /** Group sizes summed over `keys`. */
  function SumGroupSizes(entries: seq<SleepEntry>, keys: seq<Date>): int
  {
    if keys == [] then 0 else SumGroupSizes(entries, keys[..|keys| - 1]) + |EntriesOfNight(entries, keys[|keys| - 1])|
  }

  lemma {:induction false} SumStep(s: seq<SleepEntry>, e: SleepEntry, keys: seq<Date>)
    requires Distinct(keys)
    ensures SumNightTotals(s + [e], keys) == SumNightTotals(s, keys) + (if NightOf(e) in keys then EntryDuration(e) else 0)
    ensures SumGroupSizes(s + [e], keys) == SumGroupSizes(s, keys) + (if NightOf(e) in keys then 1 else 0)
    decreases |keys|
  {
    if keys != [] {
      var keys', d := keys[..|keys| - 1], keys[|keys| - 1];
      assert keys == keys' + [d];
      assert Distinct(keys') by {
        forall i, j | 0 <= i < j < |keys'| ensures keys'[i] != keys'[j] { assert keys'[i] == keys[i] && keys'[j] == keys[j]; }
      }
      assert d !in keys' by {
        forall i | 0 <= i < |keys'| ensures keys'[i] != d { assert keys'[i] == keys[i]; }
      }
      SumStep(s, e, keys');
      SnocNight(s, e, d);
      if NightOf(e) == d {
        TotalDurationSnoc(EntriesOfNight(s, d), e);
      } else {
        assert EntriesOfNight(s, d) + [] == EntriesOfNight(s, d);
      }
    }
  }

  /** Every record lands in exactly one night: the group sizes add up to the number of records. */
  lemma {:induction false} GroupSizesAddUp(s: seq<SleepEntry>)
    ensures SumGroupSizes(s, NightKeys(s)) == |s|
    decreases |s|
  {
    if s != [] {
      var s', e := s[..|s| - 1], s[|s| - 1];
      assert s == s' + [e];
      var keys, d := NightKeys(s'), NightOf(e);
      GroupSizesAddUp(s');
      SumStep(s', e, keys);
      SnocNight(s', e, d);
      if d !in keys {
        NewNightGroupSize(s', e);
      }
    }
  }

  /** A record opening a new night adds a group of one. */
  lemma NewNightGroupSize(s: seq<SleepEntry>, e: SleepEntry)
    requires NightOf(e) !in NightKeys(s)
    ensures SumGroupSizes(s + [e], NightKeys(s) + [NightOf(e)]) == SumGroupSizes(s + [e], NightKeys(s)) + 1
  {
    var keys, d := NightKeys(s), NightOf(e);
    EntriesOfUnseenNight(s, d);
    SnocNight(s, e, d);
    assert (keys + [d])[..|keys|] == keys;
    assert EntriesOfNight(s + [e], d) == [e];
  }

  /** The night totals add up to the total of all records. */
  lemma {:induction false} NightTotalsAddUp(s: seq<SleepEntry>)
    ensures SumNightTotals(s, NightKeys(s)) == TotalDuration(s)
    decreases |s|
  {
    if s != [] {
      var s', e := s[..|s| - 1], s[|s| - 1];
      assert s == s' + [e];
      var keys, d := NightKeys(s'), NightOf(e);
      NightTotalsAddUp(s');
      SumStep(s', e, keys);
      SnocNight(s', e, d);
      TotalDurationSnoc(s', e);
      if d !in keys {
        NewNightTotal(s', e);
      }
    }
  }

  /** A record opening a new night adds a night whose total is its own duration. */
  lemma NewNightTotal(s: seq<SleepEntry>, e: SleepEntry)
    requires NightOf(e) !in NightKeys(s)
    ensures SumNightTotals(s + [e], NightKeys(s) + [NightOf(e)]) == SumNightTotals(s + [e], NightKeys(s)) + EntryDuration(e)
  {
    var keys, d := NightKeys(s), NightOf(e);
    EntriesOfUnseenNight(s, d);
    SnocNight(s, e, d);
    assert (keys + [d])[..|keys|] == keys;
    assert EntriesOfNight(s + [e], d) == [] + [e];
    TotalDurationSnoc([], e);
  }

  // ---------------------------------------------------------------------
  // What the list shows.

  datatype ListScreen = EmptyState | NightCards(nights: seq<Date>)

  /** No records: the empty-state card; otherwise one card per night, newest first. */
  function Screen(entries: seq<SleepEntry>): (r: ListScreen)
    ensures r.EmptyState? <==> entries == []
    ensures r.NightCards? ==> |r.nights| > 0 && r.nights == Nights(entries)
  {
    if |entries| == 0 then EmptyState
    else
      assert NightOf(entries[0]) in SortDates(NightKeys(entries), true) by {
        NightKeysMembers(entries);
        assert NightOf(entries[0]) in multiset(NightKeys(entries));
      }
      NightCards(Nights(entries))
  }

  /** `expanded` with `d` added when absent and removed when present. */
  function Toggled(expanded: set<Date>, d: Date): (r: set<Date>)
    ensures d in r <==> d !in expanded
    ensures forall x :: x != d ==> (x in r <==> x in expanded)
  {
    if d in expanded then expanded - {d} else expanded + {d}
  }

  /** Toggling the same night twice restores the expanded set. */
  lemma ToggleTwice(expanded: set<Date>, d: Date)
    ensures Toggled(Toggled(expanded, d), d) == expanded
  {
  }

  /** The edit form sends one record per form row; editing forwards the first row, or an empty patch when none was sent. */
  function FirstRowPatch(submitted: seq<SleepData>): (p: SleepPatch)
    ensures |submitted| > 0 ==> p == PatchOf(submitted[0])
    ensures |submitted| == 0 ==> p.date.None? && p.bedTime.None? && p.wakeTime.None?
  {
    if |submitted| > 0 then PatchOf(submitted[0])
    else SleepPatch(None, None, None, None, None, None, None, None, None)
  }

  /** The list's own state: expanded nights and the record being edited. */
  class ListView {
    var expanded: set<Date>
    var editingId: Option<string>

    constructor ()
      ensures expanded == {} && editingId == None
    {
      expanded, editingId := {}, None;
    }

    method ToggleDate(date: Date)
      modifies this
      ensures expanded == Toggled(old(expanded), date)
      ensures editingId == old(editingId)
    {
      var newExpanded := expanded;
      if date in newExpanded {
        newExpanded := newExpanded - {date};
      } else {
        newExpanded := newExpanded + {date};
      }
      expanded := newExpanded;
    }

    /** Saves an edit: the first submitted row is merged into the record `id`, then editing ends. */
    method HandleUpdate(id: string, submitted: seq<SleepData>, store: RecordStore, now: string)
      modifies this, store
      ensures editingId == None && expanded == old(expanded)
      ensures IndexOfId(old(store.sleepEntries), SleepEntryId, id) == -1 ==> store.sleepEntries == old(store.sleepEntries)
      ensures var i := IndexOfId(old(store.sleepEntries), SleepEntryId, id);
        i >= 0 ==> store.sleepEntries == old(store.sleepEntries)[i := MergeSleep(old(store.sleepEntries)[i], FirstRowPatch(submitted), now)]
      ensures store.moodEntries == old(store.moodEntries) && store.agendaEntries == old(store.agendaEntries)
    {
      var entry := FirstRowPatch(submitted);
      store.UpdateSleep(id, entry, now);
      editingId := None;
    }
  }
}
