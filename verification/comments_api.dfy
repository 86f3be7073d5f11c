/**
 * The comments REST routes: relative timestamps, the GET listing and the
 * POST validation and normalisation. The database is an abstract sequence
 * of rows; its ordering and failures are inputs.
 */
module CommentsApi {
  import opened Common
  import opened Text
  import opened Comments

  const MsPerMinute: int := 60000
  const MsPerHour: int := 3600000
  const MsPerDay: int := 86400000

  /** The bucket `formatTimestamp` puts an age in. */
  datatype Age = JustNow | MinutesAgo(n: nat) | HoursAgo(n: nat) | DaysAgo(n: nat) | OnDate

  /**
   * The age bucket of a millisecond difference. `Math.floor(diffMs / k)` for
   * a positive `k` is Dafny's `/` on integers, so negative differences (a
   * creation time in the future) floor below zero.
   */
  function Classify(diffMs: int): (a: Age)
    ensures a == JustNow <==> diffMs < MsPerMinute
    ensures a.MinutesAgo? <==> MsPerMinute <= diffMs < MsPerHour
    ensures a.HoursAgo? <==> MsPerHour <= diffMs < MsPerDay
    ensures a.DaysAgo? <==> MsPerDay <= diffMs < 7 * MsPerDay
    ensures a == OnDate <==> 7 * MsPerDay <= diffMs
    ensures a.MinutesAgo? ==> 1 <= a.n <= 59 && a.n * MsPerMinute <= diffMs < (a.n + 1) * MsPerMinute
    ensures a.HoursAgo? ==> 1 <= a.n <= 23 && a.n * MsPerHour <= diffMs < (a.n + 1) * MsPerHour
    ensures a.DaysAgo? ==> 1 <= a.n <= 6 && a.n * MsPerDay <= diffMs < (a.n + 1) * MsPerDay
  {
    var mins := diffMs / MsPerMinute;
    var hours := diffMs / MsPerHour;
    var days := diffMs / MsPerDay;
    if mins < 1 then JustNow
    else if mins < 60 then MinutesAgo(mins)
    else if hours < 24 then HoursAgo(hours)
    else if days < 7 then DaysAgo(days)
    else OnDate
  }

  /** How coarse an age bucket's unit is. */
  function Coarseness(a: Age): nat {
    match a
    case JustNow => 0
    case MinutesAgo(_) => 1
    case HoursAgo(_) => 2
    case DaysAgo(_) => 3
    case OnDate => 4
  }

  /** An older comment never gets a finer unit than a newer one. */
  lemma ClassifyMonotone(d1: int, d2: int)
    requires d1 <= d2
    ensures Coarseness(Classify(d1)) <= Coarseness(Classify(d2))
  {
  }

  /** `n unit` or `n units`, then ` ago`. */
  function Ago(n: nat, unit: string): string {
    NatToString(n) + " " + (if n == 1 then unit else unit + "s") + " ago"
  }

  /** The text of an age bucket; `date` stands for `toLocaleDateString`, whose output is not modelled. */
  function Phrase(a: Age, date: string): string {
    match a
    case JustNow => "Just now"
    case MinutesAgo(n) => Ago(n, "minute")
    case HoursAgo(n) => Ago(n, "hour")
    case DaysAgo(n) => Ago(n, "day")
    case OnDate => date
  }

  /** The singular unit appears exactly when the count is 1. */
  lemma SingularOnlyForOne(n: nat, unit: string)
    ensures Ago(n, unit) == "1 " + unit + " ago" <==> n == 1
  {
    if n != 1 {
      if n < 10 {
        assert NatToString(n) != "1";
        assert Ago(n, unit)[0] == NatToString(n)[0];
      } else {
        assert |Ago(n, unit)| > |"1 " + unit + " ago"|;
      }
    }
  }

  /** `formatTimestamp(createdAt)` evaluated at time `now`. */
  function FormatTimestamp(now: int, createdAt: int, localeDate: int -> string): string {
    Phrase(Classify(now - createdAt), localeDate(createdAt))
  }

  /** A comment created less than a minute ago, or in the future, reads "Just now". */
  lemma RecentIsJustNow(now: int, createdAt: int, localeDate: int -> string)
    requires now - createdAt < MsPerMinute
    ensures FormatTimestamp(now, createdAt, localeDate) == "Just now"
  {
  }

  /** The record the routes return for a row. */
  function ToRecord(row: Row, now: int, localeDate: int -> string): Record {
    Record(row.id, row.name, row.message, FormatTimestamp(now, row.createdAt, localeDate), row.isPinned, row.profilePhoto)
  }

  /** What the database hands back to a query. */
  datatype Query<T> = Rows(rows: T) | DbError

  datatype GetResponse = Listing(records: seq<Record>) | GetFailed

  /** `GET /`: one record per row, in the database's order; a database failure becomes a 500. */
  function Get(q: Query<seq<Row>>, now: int, localeDate: int -> string): (r: GetResponse)
    ensures q.DbError? <==> r.GetFailed?
    ensures q.Rows? ==> |r.records| == |q.rows|
    ensures q.Rows? ==> forall i :: 0 <= i < |q.rows| ==>
      var rec := r.records[i];
      var row := q.rows[i];
      && rec.id == row.id && rec.name == row.name && rec.message == row.message
      && rec.isPinned == row.isPinned && rec.profilePhoto == row.profilePhoto
      && rec.timestamp == FormatTimestamp(now, row.createdAt, localeDate)
  {
    match q
    case DbError => GetFailed
    case Rows(rows) => Listing(seq(|rows|, i requires 0 <= i < |rows| => ToRecord(rows[i], now, localeDate)))
  }

  /** A POST body; absent (or null) fields are None. */
  datatype Body = Body(name: Option<string>, message: Option<string>, profilePhoto: Option<string>, isPinned: Option<bool>)

  /** JavaScript falsiness of an optional string: absent or empty. */
  predicate Falsy(v: Option<string>) {
    v.None? || v.value == ""
  }

  datatype PostResponse = BadRequest | Created(record: Record) | PostFailed

  /** The data handed to `prisma.comment.create`. */
  datatype NewComment = NewComment(name: string, message: string, profilePhoto: Option<string>, isPinned: bool)

  /** The normalisation of an accepted body: trimmed text, `profilePhoto || null`, `isPinned || false`. */
  function Normalise(b: Body): (c: NewComment)
    requires !Falsy(b.name) && !Falsy(b.message)
    ensures c.name == Trim(b.name.value) && c.message == Trim(b.message.value)
    ensures c.profilePhoto.Some? <==> !Falsy(b.profilePhoto)
    ensures c.profilePhoto.Some? ==> c.profilePhoto == b.profilePhoto
    ensures c.isPinned <==> b.isPinned == Some(true)
  {
    NewComment(
      Trim(b.name.value),
      Trim(b.message.value),
      if Falsy(b.profilePhoto) then None else b.profilePhoto,
      b.isPinned.GetOr(false))
  }

  /**
   * `POST /`: 400 when name or message is missing or empty (before trimming);
   * otherwise the normalised row is created. The database assigns the `id`
   * and the creation time `stamp`; the response's timestamp is formatted
   * against the handler's own clock reading `now`. `dbOk` is whether the
   * insert succeeds.
   */
  function Post(store: seq<Row>, b: Body, id: string, stamp: int, now: int, dbOk: bool, localeDate: int -> string): (r: (seq<Row>, PostResponse))
    ensures r.1.BadRequest? <==> Falsy(b.name) || Falsy(b.message)
    ensures r.1.PostFailed? <==> !Falsy(b.name) && !Falsy(b.message) && !dbOk
    ensures !r.1.Created? ==> r.0 == store
    ensures r.1.Created? ==>
      var c := Normalise(b);
      && r.0 == store + [Row(id, c.name, c.message, c.profilePhoto, c.isPinned, stamp)]
      && r.1.record == Record(id, c.name, c.message, FormatTimestamp(now, stamp, localeDate), c.isPinned, c.profilePhoto)
    // read back within a minute of the database's stamp, the new comment says "Just now"
    ensures r.1.Created? && now - stamp < MsPerMinute ==> r.1.record.timestamp == "Just now"
  {
    if Falsy(b.name) || Falsy(b.message) then (store, BadRequest)
    else if !dbOk then (store, PostFailed)
    else
      var c := Normalise(b);
      var row := Row(id, c.name, c.message, c.profilePhoto, c.isPinned, stamp);
      (store + [row], Created(ToRecord(row, now, localeDate)))
  }

  /** A white-space-only name is accepted and stored as the empty string. */
  lemma BlankNameStoredEmpty(store: seq<Row>, b: Body, id: string, stamp: int, now: int, localeDate: int -> string)
    requires b.name.Some? && b.name.value != "" && AllSpace(b.name.value)
    requires !Falsy(b.message)
    ensures Post(store, b, id, stamp, now, true, localeDate).1.Created?
    ensures Post(store, b, id, stamp, now, true, localeDate).0[|store|].name == ""
  {
    TrimEmptyIff(b.name.value);
  }
}
