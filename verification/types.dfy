/** The records of the tracker and their fixed label and colour tables. */
module Types {
  import opened Options
  import opened Calendar

  /** The four kinds of sleep period. */
  datatype SleepType = Nocturne | Sieste | Somnolence | Rattrapage

  /** Every sleep type, in the key order of the label and colour tables. */
  const SleepTypes: seq<SleepType> := [Nocturne, Sieste, Somnolence, Rattrapage]

  /** A quality rating, 1 (very bad) to 5 (very good). */
  type QualityLevel = q: int | 1 <= q <= 5 witness 3

  const QualityLevels: seq<QualityLevel> := [1, 2, 3, 4, 5]

  /** A stored sleep record. */
  datatype SleepEntry = SleepEntry(
    id: string,
    date: Date,
    sleepType: SleepType,
    bedTime: Time,
    wakeTime: Time,
    sleepQuality: QualityLevel,
    wakeQuality: QualityLevel,
    createdAt: string,
    updatedAt: string)

  /** A sleep record before the store gives it an id and timestamps. */
  datatype SleepData = SleepData(
    date: Date,
    sleepType: SleepType,
    bedTime: Time,
    wakeTime: Time,
    sleepQuality: QualityLevel,
    wakeQuality: QualityLevel)

  function DataOf(e: SleepEntry): SleepData
  {
    SleepData(e.date, e.sleepType, e.bedTime, e.wakeTime, e.sleepQuality, e.wakeQuality)
  }

  /** A mood record (kept by the store, not yet used by any screen). */
  datatype MoodEntry = MoodEntry(
    id: string,
    date: string,
    mood: QualityLevel,
    fatigue: QualityLevel,
    notes: Option<string>,
    createdAt: string,
    updatedAt: string)

  /** An agenda record (kept by the store, not yet used by any screen). */
  datatype AgendaEntry = AgendaEntry(
    id: string,
    date: string,
    title: string,
    description: Option<string>,
    completed: bool,
    createdAt: string,
    updatedAt: string)

  function SleepEntryId(e: SleepEntry): string { e.id }
  function MoodEntryId(e: MoodEntry): string { e.id }
  function AgendaEntryId(e: AgendaEntry): string { e.id }

  function SleepTypeLabel(t: SleepType): string
  {
    match t
    case Nocturne => "Sommeil nocturne"
    case Sieste => "Sieste"
    case Somnolence => "Somnolence"
    case Rattrapage => "Rattrapage nocturne"
  }

  function QualityLabel(q: QualityLevel): string
  {
    match q
    case 1 => "Très mauvais"
    case 2 => "Mauvais"
    case 3 => "Moyen"
    case 4 => "Bon"
    case 5 => "Très bon"
  }

  function SleepTypeColor(t: SleepType): string
  {
    match t
    case Nocturne => "#6366f1"
    case Sieste => "#22c55e"
    case Somnolence => "#f59e0b"
    case Rattrapage => "#8b5cf6"
  }

  /** The type list names each sleep type exactly once. */
  lemma SleepTypesComplete(t: SleepType)
    ensures |SleepTypes| == 4
    ensures t in SleepTypes
    ensures forall i, j :: 0 <= i < j < |SleepTypes| ==> SleepTypes[i] != SleepTypes[j]
  {
  }

  /** Quality levels are exactly 1..5, listed once each in ascending order. */
  lemma QualityLevelsComplete(q: int)
    ensures q in QualityLevels <==> 1 <= q <= 5
    ensures forall i :: 0 <= i < |QualityLevels| ==> QualityLevels[i] == i + 1
  {
  }

  /** Distinct sleep types get distinct labels and distinct chart colours. */
  lemma LabelsAndColorsDistinct(s: SleepType, t: SleepType)
    requires s != t
    ensures SleepTypeLabel(s) != SleepTypeLabel(t)
    ensures SleepTypeColor(s) != SleepTypeColor(t)
  {
  }

  /** Distinct quality levels get distinct non-empty labels. */
  lemma QualityLabelsDistinct(p: QualityLevel, q: QualityLevel)
    requires p != q
    ensures QualityLabel(p) != QualityLabel(q)
    ensures |QualityLabel(p)| > 0
  {
  }
}
