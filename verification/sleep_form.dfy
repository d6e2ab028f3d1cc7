/**
 * The entry form: a shared night date and a never-empty list of form rows,
 * each row one sleep period; submitting turns the rows into sleep records.
 */
module SleepForm {
  import opened Options
  import opened Calendar
  import opened Types
  import opened DateUtils
  import opened Store

  // ---------------------------------------------------------------------
  // Quality buttons.

  function BaseQualityColor(level: QualityLevel): (r: string)
    ensures |r| > 3
  {
    match level
    case 1 => "bg-red-600 hover:bg-red-700 text-white"
    case 2 => "bg-orange-600 hover:bg-orange-700 text-white"
    case 3 => "bg-yellow-600 hover:bg-yellow-700 text-white"
    case 4 => "bg-lime-600 hover:bg-lime-700 text-white"
    case 5 => "bg-green-600 hover:bg-green-700 text-white"
  }

  /** The five base styles differ in their fourth character, the colour's initial. */
  lemma BaseColorsDiffer(l: QualityLevel, m: QualityLevel)
    requires l != m
    ensures BaseQualityColor(l)[3] != BaseQualityColor(m)[3]
  {
    assert BaseQualityColor(1)[3] == 'r';
    assert BaseQualityColor(2)[3] == 'o';
    assert BaseQualityColor(3)[3] == 'y';
    assert BaseQualityColor(4)[3] == 'l';
    assert BaseQualityColor(5)[3] == 'g';
  }

  const SelectedSuffix: string := " scale-125 border-2 border-grey shadow-lg"

  /** The level's base style, with the emphasis classes appended when the button is selected. */
  function QualityColor(level: QualityLevel, isSelected: bool): (r: string)
    ensures |r| >= |BaseQualityColor(level)| && r[..|BaseQualityColor(level)|] == BaseQualityColor(level)
    ensures isSelected <==> |r| > |BaseQualityColor(level)|
  {
    if isSelected then BaseQualityColor(level) + SelectedSuffix else BaseQualityColor(level)
  }

  /** Each (level, selected) pair has its own style. */
  lemma QualityColorInjective(a: QualityLevel, s: bool, b: QualityLevel, t: bool)
    requires QualityColor(a, s) == QualityColor(b, t)
    ensures a == b && s == t
  {
    var r, x, y := QualityColor(a, s), BaseQualityColor(a), BaseQualityColor(b);
    assert r[3] == r[..|x|][3] == x[3];
    assert r[3] == r[..|y|][3] == y[3];
    if a != b {
      BaseColorsDiffer(a, b);
    }
  }

  // ---------------------------------------------------------------------
  // Form rows.

  datatype FormEntry = FormEntry(
    tempId: string,
    sleepType: SleepType,
    bedTime: Time,
    wakeTime: Time,
    sleepQuality: QualityLevel,
    wakeQuality: QualityLevel)

  /** A new row: a night's sleep from 22:00 to 07:00, both qualities average. */
  function DefaultEntry(tempId: string): (r: FormEntry)
    ensures r.tempId == tempId
    ensures SleepDuration(r.bedTime, r.wakeTime) == 540
  {
    FormEntry(tempId, Nocturne, HM(22, 0), HM(7, 0), 3, 3)
  }

  /** A row holding a record's data (the form opened to edit a record). */
  function FromData(d: SleepData, tempId: string): (r: FormEntry)
    ensures r.tempId == tempId
  {
    FormEntry(tempId, d.sleepType, d.bedTime, d.wakeTime, d.sleepQuality, d.wakeQuality)
  }

  /** The record a row becomes, dated with the shared form date. */
  function ToRecord(date: Date, e: FormEntry): (r: SleepData)
    ensures r.date == date
  {
    SleepData(date, e.sleepType, e.bedTime, e.wakeTime, e.sleepQuality, e.wakeQuality)
  }

  /** Opening a record and submitting unchanged gives the same data back; a row survives the trip through a record. */
  lemma RecordRoundTrip(d: SleepData, e: FormEntry, date: Date, tempId: string)
    ensures ToRecord(d.date, FromData(d, tempId)) == d
    ensures FromData(ToRecord(date, e), e.tempId) == e
  {
  }

  /** `entries.map(entry => ({ date, ...fields of entry }))`. */
  function Records(date: Date, entries: seq<FormEntry>): (r: seq<SleepData>)
    ensures |r| == |entries|
    ensures forall i :: 0 <= i < |r| ==> r[i].date == date && FromData(r[i], entries[i].tempId) == entries[i]
  {
    seq(|entries|, i requires 0 <= i < |entries| => ToRecord(date, entries[i]))
  }

  /** The field kinds a row exposes to `updateEntry`. */
  datatype Field = SleepTypeField | BedTimeField | WakeTimeField | SleepQualityField | WakeQualityField

  /** A field together with its new value. */
  datatype FieldValue =
    | SleepTypeValue(sleepType: SleepType)
    | BedTimeValue(bedTime: Time)
    | WakeTimeValue(wakeTime: Time)
    | SleepQualityValue(sleepQuality: QualityLevel)
    | WakeQualityValue(wakeQuality: QualityLevel)

  function FieldOf(v: FieldValue): Field
  {
    match v
    case SleepTypeValue(_) => SleepTypeField
    case BedTimeValue(_) => BedTimeField
    case WakeTimeValue(_) => WakeTimeField
    case SleepQualityValue(_) => SleepQualityField
    case WakeQualityValue(_) => WakeQualityField
  }

  /** Reads one field of a row. */
  function Get(e: FormEntry, f: Field): (v: FieldValue)
    ensures FieldOf(v) == f
  {
    match f
    case SleepTypeField => SleepTypeValue(e.sleepType)
    case BedTimeField => BedTimeValue(e.bedTime)
    case WakeTimeField => WakeTimeValue(e.wakeTime)
    case SleepQualityField => SleepQualityValue(e.sleepQuality)
    case WakeQualityField => WakeQualityValue(e.wakeQuality)
  }

  /** `{ ...e, [field]: value }`. */
  function WithField(e: FormEntry, v: FieldValue): (r: FormEntry)
    ensures r.tempId == e.tempId
  {
    match v
    case SleepTypeValue(t) => e.(sleepType := t)
    case BedTimeValue(t) => e.(bedTime := t)
    case WakeTimeValue(t) => e.(wakeTime := t)
    case SleepQualityValue(q) => e.(sleepQuality := q)
    case WakeQualityValue(q) => e.(wakeQuality := q)
  }

  /** Setting a field then reading it gives the new value; every other field, and the row id, keep their values. */
  lemma WithFieldOnlyThatField(e: FormEntry, v: FieldValue, f: Field)
    ensures Get(WithField(e, v), FieldOf(v)) == v
    ensures f != FieldOf(v) ==> Get(WithField(e, v), f) == Get(e, f)
    ensures WithField(e, Get(e, f)) == e
  {
  }

  function TempIdOf(e: FormEntry): string { e.tempId }

  predicate TempIdsDistinct(s: seq<FormEntry>)
  {
    forall i, j :: 0 <= i < j < |s| ==> s[i].tempId != s[j].tempId
  }

  /** `entries.map(e => e.tempId === tempId ? { ...e, [field]: value } : e)`. */
  function UpdateRow(s: seq<FormEntry>, tempId: string, v: FieldValue): (r: seq<FormEntry>)
    ensures |r| == |s|
    ensures forall i :: 0 <= i < |s| ==> r[i].tempId == s[i].tempId
    ensures forall i :: 0 <= i < |s| && s[i].tempId != tempId ==> r[i] == s[i]
    ensures forall i :: 0 <= i < |s| && s[i].tempId == tempId ==> Get(r[i], FieldOf(v)) == v
    ensures forall i, f :: 0 <= i < |s| && s[i].tempId == tempId && f != FieldOf(v) ==> Get(r[i], f) == Get(s[i], f)
  {
    seq(|s|, i requires 0 <= i < |s| => if s[i].tempId == tempId then WithField(s[i], v) else s[i])
  }

  /** With distinct row ids, removing one id drops at most one row, and the ids left are still distinct. */
  lemma {:induction false} RemoveDistinctTempId(s: seq<FormEntry>, tempId: string)
    requires TempIdsDistinct(s)
    ensures |RemoveId(s, TempIdOf, tempId)| >= |s| - 1
    ensures TempIdsDistinct(RemoveId(s, TempIdOf, tempId))
    decreases |s|
  {
    if s != [] {
      var t := s[1..];
      assert TempIdsDistinct(t) by {
        forall i, j | 0 <= i < j < |t| ensures t[i].tempId != t[j].tempId { assert t[i] == s[i + 1] && t[j] == s[j + 1]; }
      }
      RemoveDistinctTempId(t, tempId);
      forall k | 0 <= k < |t| ensures TempIdOf(t[k]) != s[0].tempId { assert t[k] == s[k + 1]; }
      if s[0].tempId == tempId {
        RemoveAbsentId(t, TempIdOf, tempId);
      } else {
        var rt := RemoveId(t, TempIdOf, tempId);
        assert RemoveId(s, TempIdOf, tempId) == [s[0]] + rt;
        forall k | 0 <= k < |rt| ensures rt[k].tempId != s[0].tempId {
          assert rt[k] in t;
        }
      }
    }
  }

  const SuccessOne: string := "Entrée enregistrée avec succès !"
  const SuccessMany: string := "Entrées enregistrées avec succès !"

  /** The plural message exactly when more than one row was saved. */
  function SuccessMessage(rowCount: int): (r: string)
    ensures r == SuccessMany <==> rowCount > 1
    ensures r == SuccessOne <==> rowCount <= 1
  {
    if rowCount > 1 then SuccessMany else SuccessOne
  }

  // ---------------------------------------------------------------------
  // The form state.

  class FormState {
    var date: Date
    var entries: seq<FormEntry>
    var isSubmitting: bool
    var successMessage: Option<string>
    /** The record being edited, if the form was opened from one. */
    const initialEntry: Option<SleepEntry>

    /** The form always shows at least one row, and rows have distinct ids. */
    ghost predicate Valid()
      reads this
    {
      |entries| >= 1 && TempIdsDistinct(entries)
    }

    /** A new form: the edited record's date and data, or the default night date and one default row. */
    constructor (initialEntry: Option<SleepEntry>, now: LocalDateTime, tempId: string)
      ensures Valid()
      ensures this.initialEntry == initialEntry
      ensures initialEntry.Some? ==> date == initialEntry.value.date && entries == [FromData(DataOf(initialEntry.value), tempId)]
      ensures initialEntry.None? ==> date == GetDefaultNightDate(now) && entries == [DefaultEntry(tempId)]
      ensures !isSubmitting && successMessage == None
    {
      this.initialEntry := initialEntry;
      date := if initialEntry.Some? then initialEntry.value.date else GetDefaultNightDate(now);
      entries := if initialEntry.Some? then [FromData(DataOf(initialEntry.value), tempId)] else [DefaultEntry(tempId)];
      isSubmitting := false;
      successMessage := None;
    }

    /** Appends one default row under a new id. */
    method AddEntry(tempId: string)
      requires Valid()
      requires forall i :: 0 <= i < |entries| ==> entries[i].tempId != tempId
      modifies this
      ensures Valid()
      ensures entries == old(entries) + [DefaultEntry(tempId)]
      ensures date == old(date) && successMessage == old(successMessage) && isSubmitting == old(isSubmitting)
    {
      entries := entries + [DefaultEntry(tempId)];
    }

    /** Removes the row with the id, unless it is the only row. */
    method RemoveEntry(tempId: string)
      requires Valid()
      modifies this
      ensures Valid()
      ensures |old(entries)| > 1 ==> entries == RemoveId(old(entries), TempIdOf, tempId)
      ensures |old(entries)| <= 1 ==> entries == old(entries)
      ensures date == old(date) && successMessage == old(successMessage) && isSubmitting == old(isSubmitting)
    {
      if |entries| > 1 {
        RemoveDistinctTempId(entries, tempId);
        entries := RemoveId(entries, TempIdOf, tempId);
      }
    }

    /** Sets one field of the row with the id. */
    method UpdateEntry(tempId: string, value: FieldValue)
      requires Valid()
      modifies this
      ensures Valid()
      ensures entries == UpdateRow(old(entries), tempId, value)
      ensures date == old(date) && successMessage == old(successMessage) && isSubmitting == old(isSubmitting)
    {
      entries := UpdateRow(entries, tempId, value);
    }

    /**
     * Submits the rows. `records` is what is handed to the save callback;
     * `saved` is whether that callback succeeded. After a success a new-entry
     * form starts over (one default row under `newTempId`, default night
     * date at `now`) while an edit form keeps its rows, and the message
     * counts the rows that were submitted. After a failure nothing but the
     * cleared message changes.
     */
    method HandleSubmit(saved: bool, now: LocalDateTime, newTempId: string) returns (records: seq<SleepData>)
      requires Valid()
      modifies this
      ensures Valid()
      ensures records == Records(old(date), old(entries))
      ensures !isSubmitting
      ensures saved && initialEntry.None? ==> entries == [DefaultEntry(newTempId)] && date == GetDefaultNightDate(now)
      ensures !(saved && initialEntry.None?) ==> entries == old(entries) && date == old(date)
      ensures saved ==> successMessage == Some(SuccessMessage(|old(entries)|))
      ensures !saved ==> successMessage == None
    {
      isSubmitting := true;
      successMessage := None;
      var submitted := entries;
      records := Records(date, entries);
      if saved {
        if initialEntry.None? {
          entries := [DefaultEntry(newTempId)];
          date := GetDefaultNightDate(now);
        }
        successMessage := Some(SuccessMessage(|submitted|));
      }
      isSubmitting := false;
    }
  }
}
