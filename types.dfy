/** The entities of the health dashboard: health records and reminders as the
    client holds them after a fetch, with timestamps already parsed to integers. */
module Types {

  datatype Option<+T> = None | Some(value: T)

  datatype Result<+R, +E> = Success(value: R) | Failure(error: E)

  /** The six categories a health record can have. */
  datatype RecordType = Allergy | Vital | Prescription | Visit | Vaccination | Other
  {
    /** The string the remote store and the editors use for this category. */
    function Name(): string
    {
      match this
      case Allergy => "allergy"
      case Vital => "vital"
      case Prescription => "prescription"
      case Visit => "visit"
      case Vaccination => "vaccination"
      case Other => "other"
    }

    /** The third letter of `Name()`, which differs between any two categories. */
    function ThirdLetter(): char
    {
      match this
      case Allergy => 'l' case Vital => 't' case Prescription => 'e'
      case Visit => 's' case Vaccination => 'c' case Other => 'h'
    }
  }

  /** The four repeat policies of a reminder. */
  datatype RepeatPolicy = NoRepeat | Daily | Weekly | Monthly
  {
    function Name(): string
    {
      match this
      case NoRepeat => "none"
      case Daily => "daily"
      case Weekly => "weekly"
      case Monthly => "monthly"
    }

    /** The second letter of `Name()`; only "none" and "monthly" share it. */
    function SecondLetter(): char
    {
      match this
      case NoRepeat => 'o' case Daily => 'a' case Weekly => 'e' case Monthly => 'o'
    }
  }

  /** A JSON-compatible document; notes and metadata are free-form documents
      whose schema lives on the server. */
  datatype Json =
    | JNull
    | JBool(b: bool)
    | JNumber(n: int)
    | JString(s: string)
    | JArray(items: seq<Json>)
    | JObject(fields: map<string, Json>)

  const EmptyObject: Json := JObject(map[])

  /** JavaScript truthiness of a document: objects and arrays are always truthy. */
  predicate Truthy(j: Json)
  {
    match j
    case JNull => false
    case JBool(b) => b
    case JNumber(n) => n != 0
    case JString(s) => s != ""
    case JArray(_) => true
    case JObject(_) => true
  }

  /** A timestamp in milliseconds since the epoch. */
  type Timestamp = int

  datatype HealthRecord = HealthRecord(
    id: string,
    kind: RecordType,
    title: string,
    notes: Json,
    meta: Option<Json>,
    createdAt: Timestamp)

  datatype Reminder = Reminder(
    id: string,
    title: string,
    message: Option<string>,
    remindAt: Timestamp,
    repeat: RepeatPolicy,
    done: bool,
    createdAt: Timestamp)
}
