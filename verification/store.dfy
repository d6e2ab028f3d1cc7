/**
 * The persisted record lists: one list per record kind, each with append,
 * merge-update of the first record with an id, delete-by-id, and (for sleep
 * records) an inclusive date-range query. The encrypted file behind the lists
 * is a field of the store.
 */
module Store {
  import opened Options
  import opened Text
  import opened Calendar
  import opened Types

  // ---------------------------------------------------------------------
  // List operations shared by the three kinds.

  /** `findIndex(e => e.id === id)`: the first position holding the id, or -1. */
  function IndexOfId<T>(s: seq<T>, idOf: T -> string, id: string): (r: int)
    ensures -1 <= r < |s|
    ensures r == -1 <==> forall k :: 0 <= k < |s| ==> idOf(s[k]) != id
    ensures r >= 0 ==> idOf(s[r]) == id && forall k :: 0 <= k < r ==> idOf(s[k]) != id
  {
    if s == [] then -1
    else if idOf(s[0]) == id then 0
    else
      var r := IndexOfId(s[1..], idOf, id);
      if r == -1 then -1 else r + 1
  }

  /** `filter(e => e.id !== id)`. */
  function RemoveId<T>(s: seq<T>, idOf: T -> string, id: string): (r: seq<T>)
    ensures |r| <= |s|
    ensures forall k :: 0 <= k < |r| ==> r[k] in s && idOf(r[k]) != id
    ensures forall k :: 0 <= k < |s| && idOf(s[k]) != id ==> s[k] in r
  {
    if s == [] then []
    else if idOf(s[0]) == id then RemoveId(s[1..], idOf, id)
    else [s[0]] + RemoveId(s[1..], idOf, id)
  }

  /** Removing an id that no record carries changes nothing. */
  lemma {:induction false} RemoveAbsentId<T>(s: seq<T>, idOf: T -> string, id: string)
    requires forall k :: 0 <= k < |s| ==> idOf(s[k]) != id
    ensures RemoveId(s, idOf, id) == s
    decreases |s|
  {
    if s != [] {
      RemoveAbsentId(s[1..], idOf, id);
      assert [s[0]] + s[1..] == s;
    }
  }

  /** Removal works piecewise, so the records that remain keep their relative order. */
  lemma {:induction false} RemoveIdAppend<T>(a: seq<T>, b: seq<T>, idOf: T -> string, id: string)
    ensures RemoveId(a + b, idOf, id) == RemoveId(a, idOf, id) + RemoveId(b, idOf, id)
    decreases |a|
  {
    if a == [] {
      assert a + b == b;
    } else {
      assert (a + b)[0] == a[0] && (a + b)[1..] == a[1..] + b;
      RemoveIdAppend(a[1..], b, idOf, id);
    }
  }

  /** Deleting twice is deleting once. */
  lemma RemoveIdIdempotent<T>(s: seq<T>, idOf: T -> string, id: string)
    ensures RemoveId(RemoveId(s, idOf, id), idOf, id) == RemoveId(s, idOf, id)
  {
    RemoveAbsentId(RemoveId(s, idOf, id), idOf, id);
  }

  /** Deleting a freshly saved record by its new id gives back the list as it was before the save. */
  lemma DeleteUndoesSave<T>(s: seq<T>, x: T, idOf: T -> string)
    requires forall k :: 0 <= k < |s| ==> idOf(s[k]) != idOf(x)
    ensures RemoveId(s + [x], idOf, idOf(x)) == s
  {
    RemoveIdAppend(s, [x], idOf, idOf(x));
    RemoveAbsentId(s, idOf, idOf(x));
    assert RemoveId([x], idOf, idOf(x)) == [];
  }

  /** `{ ...current, ...patch }` for one field: a field the patch carries wins. */
  function Pick<T>(patch: Option<T>, current: T): T
  {
    if patch.Some? then patch.value else current
  }

  // ---------------------------------------------------------------------
  // Patches (`Partial<…>`): every field optional.

  datatype SleepPatch = SleepPatch(
    id: Option<string>,
    date: Option<Date>,
    sleepType: Option<SleepType>,
    bedTime: Option<Time>,
    wakeTime: Option<Time>,
    sleepQuality: Option<QualityLevel>,
    wakeQuality: Option<QualityLevel>,
    createdAt: Option<string>,
    updatedAt: Option<string>)

  datatype MoodPatch = MoodPatch(
    id: Option<string>,
    date: Option<string>,
    mood: Option<QualityLevel>,
    fatigue: Option<QualityLevel>,
    notes: Option<string>,
    createdAt: Option<string>,
    updatedAt: Option<string>)

  datatype AgendaPatch = AgendaPatch(
    id: Option<string>,
    date: Option<string>,
    title: Option<string>,
    description: Option<string>,
    completed: Option<bool>,
    createdAt: Option<string>,
    updatedAt: Option<string>)

  /** The patch the edit form sends: the six form fields, nothing else. */
  function PatchOf(d: SleepData): (p: SleepPatch)
    ensures p.id.None? && p.createdAt.None? && p.updatedAt.None?
  {
    SleepPatch(None, Some(d.date), Some(d.sleepType), Some(d.bedTime), Some(d.wakeTime),
      Some(d.sleepQuality), Some(d.wakeQuality), None, None)
  }

  /** `{ ...e, ...p, updatedAt: now }`. */
  function MergeSleep(e: SleepEntry, p: SleepPatch, now: string): (r: SleepEntry)
    ensures r.updatedAt == now
  {
    SleepEntry(Pick(p.id, e.id), Pick(p.date, e.date), Pick(p.sleepType, e.sleepType),
      Pick(p.bedTime, e.bedTime), Pick(p.wakeTime, e.wakeTime), Pick(p.sleepQuality, e.sleepQuality),
      Pick(p.wakeQuality, e.wakeQuality), Pick(p.createdAt, e.createdAt), now)
  }

  function MergeMood(e: MoodEntry, p: MoodPatch, now: string): (r: MoodEntry)
    ensures r.updatedAt == now
  {
    MoodEntry(Pick(p.id, e.id), Pick(p.date, e.date), Pick(p.mood, e.mood), Pick(p.fatigue, e.fatigue),
      if p.notes.Some? then p.notes else e.notes, Pick(p.createdAt, e.createdAt), now)
  }

  function MergeAgenda(e: AgendaEntry, p: AgendaPatch, now: string): (r: AgendaEntry)
    ensures r.updatedAt == now
  {
    AgendaEntry(Pick(p.id, e.id), Pick(p.date, e.date), Pick(p.title, e.title),
      if p.description.Some? then p.description else e.description,
      Pick(p.completed, e.completed), Pick(p.createdAt, e.createdAt), now)
  }

  /**
   * A merge takes every field the patch carries and keeps every other field,
   * except `updatedAt`, which is the update time even when the patch
   * carries one.
   */
  lemma MergeSleepFields(e: SleepEntry, p: SleepPatch, now: string)
    ensures var r := MergeSleep(e, p, now);
      (p.id.Some? ==> r.id == p.id.value) && (p.id.None? ==> r.id == e.id)
    ensures var r := MergeSleep(e, p, now);
      (p.date.Some? ==> r.date == p.date.value) && (p.date.None? ==> r.date == e.date)
    ensures var r := MergeSleep(e, p, now);
      (p.sleepType.Some? ==> r.sleepType == p.sleepType.value) && (p.sleepType.None? ==> r.sleepType == e.sleepType)
    ensures var r := MergeSleep(e, p, now);
      (p.bedTime.Some? ==> r.bedTime == p.bedTime.value) && (p.bedTime.None? ==> r.bedTime == e.bedTime)
    ensures var r := MergeSleep(e, p, now);
      (p.wakeTime.Some? ==> r.wakeTime == p.wakeTime.value) && (p.wakeTime.None? ==> r.wakeTime == e.wakeTime)
    ensures var r := MergeSleep(e, p, now);
      (p.sleepQuality.Some? ==> r.sleepQuality == p.sleepQuality.value) &&
      (p.sleepQuality.None? ==> r.sleepQuality == e.sleepQuality)
    ensures var r := MergeSleep(e, p, now);
      (p.wakeQuality.Some? ==> r.wakeQuality == p.wakeQuality.value) &&
      (p.wakeQuality.None? ==> r.wakeQuality == e.wakeQuality)
    ensures var r := MergeSleep(e, p, now);
      (p.createdAt.Some? ==> r.createdAt == p.createdAt.value) && (p.createdAt.None? ==> r.createdAt == e.createdAt)
    ensures MergeSleep(e, p, now).updatedAt == now
  {
  }

  /** The same for mood records; `notes` is itself optional, so a patch that carries notes replaces them. */
  lemma MergeMoodFields(e: MoodEntry, p: MoodPatch, now: string)
    ensures var r := MergeMood(e, p, now);
      (p.id.Some? ==> r.id == p.id.value) && (p.id.None? ==> r.id == e.id)
    ensures var r := MergeMood(e, p, now);
      (p.date.Some? ==> r.date == p.date.value) && (p.date.None? ==> r.date == e.date)
    ensures var r := MergeMood(e, p, now);
      (p.mood.Some? ==> r.mood == p.mood.value) && (p.mood.None? ==> r.mood == e.mood)
    ensures var r := MergeMood(e, p, now);
      (p.fatigue.Some? ==> r.fatigue == p.fatigue.value) && (p.fatigue.None? ==> r.fatigue == e.fatigue)
    ensures var r := MergeMood(e, p, now);
      (p.notes.Some? ==> r.notes == p.notes) && (p.notes.None? ==> r.notes == e.notes)
    ensures var r := MergeMood(e, p, now);
      (p.createdAt.Some? ==> r.createdAt == p.createdAt.value) && (p.createdAt.None? ==> r.createdAt == e.createdAt)
    ensures MergeMood(e, p, now).updatedAt == now
  {
  }

  /** The same for agenda records; `description` is itself optional. */
  lemma MergeAgendaFields(e: AgendaEntry, p: AgendaPatch, now: string)
    ensures var r := MergeAgenda(e, p, now);
      (p.id.Some? ==> r.id == p.id.value) && (p.id.None? ==> r.id == e.id)
    ensures var r := MergeAgenda(e, p, now);
      (p.date.Some? ==> r.date == p.date.value) && (p.date.None? ==> r.date == e.date)
    ensures var r := MergeAgenda(e, p, now);
      (p.title.Some? ==> r.title == p.title.value) && (p.title.None? ==> r.title == e.title)
    ensures var r := MergeAgenda(e, p, now);
      (p.description.Some? ==> r.description == p.description) &&
      (p.description.None? ==> r.description == e.description)
    ensures var r := MergeAgenda(e, p, now);
      (p.completed.Some? ==> r.completed == p.completed.value) && (p.completed.None? ==> r.completed == e.completed)
    ensures var r := MergeAgenda(e, p, now);
      (p.createdAt.Some? ==> r.createdAt == p.createdAt.value) && (p.createdAt.None? ==> r.createdAt == e.createdAt)
    ensures MergeAgenda(e, p, now).updatedAt == now
  {
  }

  /** Applying the edit form's patch replaces the recorded data and keeps the record's identity and creation time. */
  lemma MergeFormPatch(e: SleepEntry, d: SleepData, now: string)
    ensures DataOf(MergeSleep(e, PatchOf(d), now)) == d
    ensures MergeSleep(e, PatchOf(d), now).id == e.id
    ensures MergeSleep(e, PatchOf(d), now).createdAt == e.createdAt
  {
  }

  /** Applying the same patch again at the same time changes nothing more. */
  lemma MergeIdempotent(e: SleepEntry, m: MoodEntry, a: AgendaEntry, p: SleepPatch, q: MoodPatch, r: AgendaPatch, now: string)
    ensures MergeSleep(MergeSleep(e, p, now), p, now) == MergeSleep(e, p, now)
    ensures MergeMood(MergeMood(m, q, now), q, now) == MergeMood(m, q, now)
    ensures MergeAgenda(MergeAgenda(a, r, now), r, now) == MergeAgenda(a, r, now)
  {
  }

  // ---------------------------------------------------------------------
  // The date-range query.

  /** `e.date >= start && e.date <= end`, as JavaScript compares the date strings. */
  predicate InRange(e: SleepEntry, startDate: string, endDate: string)
  {
    StrLe(startDate, FormatDate(e.date)) && StrLe(FormatDate(e.date), endDate)
  }

  /** `s.filter(keep)`: the elements `keep` accepts, in order. */
  function Filter<T>(s: seq<T>, keep: T -> bool): (r: seq<T>)
    ensures |r| <= |s|
  {
    if s == [] then []
    else if keep(s[0]) then [s[0]] + Filter(s[1..], keep)
    else Filter(s[1..], keep)
  }

  /** Filtering works piecewise, so the kept elements stay in their order. */
  lemma {:induction false} FilterAppend<T>(a: seq<T>, b: seq<T>, keep: T -> bool)
    ensures Filter(a + b, keep) == Filter(a, keep) + Filter(b, keep)
    decreases |a|
  {
    if a == [] {
      assert a + b == b;
    } else {
      assert (a + b)[0] == a[0] && (a + b)[1..] == a[1..] + b;
      FilterAppend(a[1..], b, keep);
    }
  }

  /** The kept elements are exactly the accepted ones. */
  lemma {:induction false} FilterMembers<T>(s: seq<T>, keep: T -> bool)
    ensures forall x :: x in Filter(s, keep) <==> x in s && keep(x)
    decreases |s|
  {
    if s != [] {
      FilterMembers(s[1..], keep);
      assert s == [s[0]] + s[1..];
    }
  }

  function InRangeOf(startDate: string, endDate: string): SleepEntry -> bool
  {
    e => InRange(e, startDate, endDate)
  }

  /** The records whose date string lies in `[startDate, endDate]`, in stored order. */
  function FilterDateRange(s: seq<SleepEntry>, startDate: string, endDate: string): (r: seq<SleepEntry>)
    ensures |r| <= |s|
  {
    Filter(s, InRangeOf(startDate, endDate))
  }

  /** The query works piecewise, so the selected records keep their stored order. */
  lemma FilterDateRangeAppend(a: seq<SleepEntry>, b: seq<SleepEntry>, startDate: string, endDate: string)
    ensures FilterDateRange(a + b, startDate, endDate) == FilterDateRange(a, startDate, endDate) + FilterDateRange(b, startDate, endDate)
  {
    FilterAppend(a, b, InRangeOf(startDate, endDate));
  }

  /** The selected records are exactly the stored records in range. */
  lemma FilterDateRangeMembers(s: seq<SleepEntry>, startDate: string, endDate: string)
    ensures forall x :: x in FilterDateRange(s, startDate, endDate) <==> x in s && InRange(x, startDate, endDate)
  {
    FilterMembers(s, InRangeOf(startDate, endDate));
  }

  /**
   * With bounds given as formatted dates and four-digit years throughout,
   * the string comparison selects exactly the records dated from `first` to
   * `last` inclusive. The recorded date is used, not the night date.
   */
  lemma InRangeIsChronological(e: SleepEntry, first: Date, last: Date)
    requires FourDigitYear(first) && FourDigitYear(last) && FourDigitYear(e.date)
    ensures InRange(e, FormatDate(first), FormatDate(last)) <==> NotAfter(first, e.date) && NotAfter(e.date, last)
  {
    FormatDateOrder(first, e.date);
    FormatDateOrder(e.date, last);
  }

  // ---------------------------------------------------------------------
  // The store.

  class RecordStore {
    var sleepEntries: seq<SleepEntry>
    var moodEntries: seq<MoodEntry>
    var agendaEntries: seq<AgendaEntry>

    /** A new store holds three empty lists. */
    constructor ()
      ensures sleepEntries == [] && moodEntries == [] && agendaEntries == []
    {
      sleepEntries, moodEntries, agendaEntries := [], [], [];
    }

    method GetAllSleep() returns (entries: seq<SleepEntry>)
      ensures entries == sleepEntries
    {
      entries := sleepEntries;
    }

    method SaveSleep(entry: SleepEntry)
      modifies this
      ensures sleepEntries == old(sleepEntries) + [entry]
      ensures moodEntries == old(moodEntries) && agendaEntries == old(agendaEntries)
    {
      var entries := sleepEntries;
      entries := entries + [entry];
      sleepEntries := entries;
    }

    /** Merges `data` into the first record with the id and stamps it with `now`; no record with the id, no change. */
    method UpdateSleep(id: string, data: SleepPatch, now: string)
      modifies this
      ensures IndexOfId(old(sleepEntries), SleepEntryId, id) == -1 ==> sleepEntries == old(sleepEntries)
      ensures var i := IndexOfId(old(sleepEntries), SleepEntryId, id);
        i >= 0 ==>
          |sleepEntries| == |old(sleepEntries)| &&
          sleepEntries[i] == MergeSleep(old(sleepEntries)[i], data, now) &&
          forall k :: 0 <= k < |sleepEntries| && k != i ==> sleepEntries[k] == old(sleepEntries)[k]
      ensures moodEntries == old(moodEntries) && agendaEntries == old(agendaEntries)
    {
      var entries := sleepEntries;
      var index := IndexOfId(entries, SleepEntryId, id);
      if index != -1 {
        entries := entries[index := MergeSleep(entries[index], data, now)];
        sleepEntries := entries;
      }
    }

    method DeleteSleep(id: string)
      modifies this
      ensures sleepEntries == RemoveId(old(sleepEntries), SleepEntryId, id)
      ensures moodEntries == old(moodEntries) && agendaEntries == old(agendaEntries)
    {
      sleepEntries := RemoveId(sleepEntries, SleepEntryId, id);
    }

    /** The stored sleep records dated within `[startDate, endDate]` by string order; the store is not changed. */
    method GetByDateRange(startDate: string, endDate: string) returns (entries: seq<SleepEntry>)
      ensures forall x :: x in entries <==> x in sleepEntries && InRange(x, startDate, endDate)
      ensures entries == FilterDateRange(sleepEntries, startDate, endDate)
    {
      entries := FilterDateRange(sleepEntries, startDate, endDate);
      FilterDateRangeMembers(sleepEntries, startDate, endDate);
    }

    method GetAllMood() returns (entries: seq<MoodEntry>)
      ensures entries == moodEntries
    {
      entries := moodEntries;
    }

    method SaveMood(entry: MoodEntry)
      modifies this
      ensures moodEntries == old(moodEntries) + [entry]
      ensures sleepEntries == old(sleepEntries) && agendaEntries == old(agendaEntries)
    {
      var entries := moodEntries;
      entries := entries + [entry];
      moodEntries := entries;
    }

    method UpdateMood(id: string, data: MoodPatch, now: string)
      modifies this
      ensures IndexOfId(old(moodEntries), MoodEntryId, id) == -1 ==> moodEntries == old(moodEntries)
      ensures var i := IndexOfId(old(moodEntries), MoodEntryId, id);
        i >= 0 ==>
          |moodEntries| == |old(moodEntries)| &&
          moodEntries[i] == MergeMood(old(moodEntries)[i], data, now) &&
          forall k :: 0 <= k < |moodEntries| && k != i ==> moodEntries[k] == old(moodEntries)[k]
      ensures sleepEntries == old(sleepEntries) && agendaEntries == old(agendaEntries)
    {
      var entries := moodEntries;
      var index := IndexOfId(entries, MoodEntryId, id);
      if index != -1 {
        entries := entries[index := MergeMood(entries[index], data, now)];
        moodEntries := entries;
      }
    }

    method DeleteMood(id: string)
      modifies this
      ensures moodEntries == RemoveId(old(moodEntries), MoodEntryId, id)
      ensures sleepEntries == old(sleepEntries) && agendaEntries == old(agendaEntries)
    {
      moodEntries := RemoveId(moodEntries, MoodEntryId, id);
    }

    method GetAllAgenda() returns (entries: seq<AgendaEntry>)
      ensures entries == agendaEntries
    {
      entries := agendaEntries;
    }

    method SaveAgenda(entry: AgendaEntry)
      modifies this
      ensures agendaEntries == old(agendaEntries) + [entry]
      ensures sleepEntries == old(sleepEntries) && moodEntries == old(moodEntries)
    {
      var entries := agendaEntries;
      entries := entries + [entry];
      agendaEntries := entries;
    }

    method UpdateAgenda(id: string, data: AgendaPatch, now: string)
      modifies this
      ensures IndexOfId(old(agendaEntries), AgendaEntryId, id) == -1 ==> agendaEntries == old(agendaEntries)
      ensures var i := IndexOfId(old(agendaEntries), AgendaEntryId, id);
        i >= 0 ==>
          |agendaEntries| == |old(agendaEntries)| &&
          agendaEntries[i] == MergeAgenda(old(agendaEntries)[i], data, now) &&
          forall k :: 0 <= k < |agendaEntries| && k != i ==> agendaEntries[k] == old(agendaEntries)[k]
      ensures sleepEntries == old(sleepEntries) && moodEntries == old(moodEntries)
    {
      var entries := agendaEntries;
      var index := IndexOfId(entries, AgendaEntryId, id);
      if index != -1 {
        entries := entries[index := MergeAgenda(entries[index], data, now)];
        agendaEntries := entries;
      }
    }

    method DeleteAgenda(id: string)
      modifies this
      ensures agendaEntries == RemoveId(old(agendaEntries), AgendaEntryId, id)
      ensures sleepEntries == old(sleepEntries) && moodEntries == old(moodEntries)
    {
      agendaEntries := RemoveId(agendaEntries, AgendaEntryId, id);
    }
  }
}
