/**
 * The usage report (`usageHandler` in apiHelpers/requestHandlers.ts): the
 * download records and the "initiate" upload records of the record store
 * are tallied into one row per `userId:zoneName:day` key. Rows appear in
 * the order their key is first met, downloads before uploads; a row counts
 * its records and sums their sizes, separately for downloads and uploads.
 *
 * The calendar day of a timestamp (a local-time `yyyy-mm-dd` formatting) is
 * the function-typed parameter `day`.
 */
module Usage {
  import opened Wrappers
  import opened Core

  /** The calendar day of a millisecond timestamp. */
  type DayOf = int -> string

  /** A `UserZoneDayUsage` row. */
  datatype UsageRow = UsageRow(
    userId: string, zoneName: string, day: string,
    numDownloads: int, numBytesDownloaded: int, numUploads: int, numBytesUploaded: int)

  /** Which pair of counters a record feeds. */
  datatype Kind = Downloads | Uploads

  /** What the tally reads from one record. */
  datatype Event = Event(userId: string, zoneName: string, timestamp: int, size: int)

  /** `${userId}:${zoneName}:${day}` */
  function UsageKey(userId: string, zoneName: string, day: string): string {
    userId + ":" + zoneName + ":" + day
  }

  function RowKey(r: UsageRow): string {
    UsageKey(r.userId, r.zoneName, r.day)
  }

  function EventKey(e: Event, day: DayOf): string {
    UsageKey(e.userId, e.zoneName, day(e.timestamp))
  }

  function RowKeys(rows: seq<UsageRow>): (r: seq<string>)
    ensures |r| == |rows| && forall i | 0 <= i < |rows| :: r[i] == RowKey(rows[i])
  {
    if rows == [] then [] else RowKeys(rows[..|rows| - 1]) + [RowKey(rows[|rows| - 1])]
  }

  function EventKeys(events: seq<Event>, day: DayOf): (r: seq<string>)
    ensures |r| == |events| && forall i | 0 <= i < |events| :: r[i] == EventKey(events[i], day)
  {
    if events == [] then [] else EventKeys(events[..|events| - 1], day) + [EventKey(events[|events| - 1], day)]
  }

  /** The downloads the report reads, in store order. */
  function DownloadEvents(records: seq<DownloadRecord>): (r: seq<Event>)
    ensures |r| == |records|
    ensures forall i | 0 <= i < |records| ::
      r[i] == Event(records[i].userId, records[i].zoneName, records[i].timestamp, records[i].size)
  {
    if records == [] then []
    else
      var d := records[|records| - 1];
      DownloadEvents(records[..|records| - 1]) + [Event(d.userId, d.zoneName, d.timestamp, d.size)]
  }

  /** The uploads the report reads: only the "initiate" records, in store order. */
  function UploadEvents(records: seq<UploadRecord>): (r: seq<Event>)
    ensures |r| <= |records|
    ensures forall e | e in r :: exists i :: (0 <= i < |records| && records[i].stage == Initiate &&
      e == Event(records[i].userId, records[i].zoneName, records[i].timestamp, records[i].size))
  {
    if records == [] then []
    else
      var u := records[|records| - 1];
      var front := UploadEvents(records[..|records| - 1]);
      if u.stage == Initiate then front + [Event(u.userId, u.zoneName, u.timestamp, u.size)] else front
  }

  /**
   * Reading two runs of records reads the "initiate" records of the first run
   * and then those of the second, so the events keep store order and every
   * "initiate" record yields exactly one event.
   */
  lemma {:induction false} UploadEventsConcat(a: seq<UploadRecord>, b: seq<UploadRecord>)
    ensures UploadEvents(a + b) == UploadEvents(a) + UploadEvents(b)
    decreases |b|
  {
    if b == [] {
      assert a + b == a;
    } else {
      var front, last := b[..|b| - 1], b[|b| - 1];
      var tail := if last.stage == Initiate then [Event(last.userId, last.zoneName, last.timestamp, last.size)] else [];
      var x, y := UploadEvents(a), UploadEvents(front);
      calc {
        UploadEvents(a + b);
        { assert (a + b)[..|a + b| - 1] == a + front && (a + b)[|a + b| - 1] == last; }
        UploadEvents(a + front) + tail;
        { UploadEventsConcat(a, front); }
        (x + y) + tail;
        x + (y + tail);
      }
    }
  }

  /** A single record yields one event when it is an "initiate" record and none otherwise. */
  lemma UploadEventsSingle(u: UploadRecord)
    ensures UploadEvents([u]) == if u.stage == Initiate then [Event(u.userId, u.zoneName, u.timestamp, u.size)] else []
  {
    assert [u][..0] == [];
  }

  /** No two rows share a key. */
  predicate DistinctKeys(rows: seq<UsageRow>) {
    forall i, j | 0 <= i < j < |rows| :: RowKey(rows[i]) != RowKey(rows[j])
  }

  /** The first row with key `k`. */
  function FindRow(rows: seq<UsageRow>, k: string): (r: Option<nat>)
    ensures r.Some? ==> r.value < |rows| && RowKey(rows[r.value]) == k
    ensures r.Some? ==> forall j | 0 <= j < r.value :: RowKey(rows[j]) != k
    ensures r.None? <==> forall j | 0 <= j < |rows| :: RowKey(rows[j]) != k
    decreases |rows|
  {
    if |rows| == 0 then None
    else if RowKey(rows[0]) == k then Some(0)
    else
      match FindRow(rows[1..], k)
      case None => None
      case Some(i) => Some(i + 1)
  }

  /** A row of `kind` is counted once more and grows by `size` bytes. */
  function Bump(r: UsageRow, kind: Kind, size: int): UsageRow {
    match kind
    case Downloads => r.(numDownloads := r.numDownloads + 1, numBytesDownloaded := r.numBytesDownloaded + size)
    case Uploads => r.(numUploads := r.numUploads + 1, numBytesUploaded := r.numBytesUploaded + size)
  }

  /** The row pushed on first sight of a key. */
  function NewRow(e: Event, kind: Kind, day: DayOf): UsageRow {
    match kind
    case Downloads => UsageRow(e.userId, e.zoneName, day(e.timestamp), 1, e.size, 0, 0)
    case Uploads => UsageRow(e.userId, e.zoneName, day(e.timestamp), 0, 0, 1, e.size)
  }

  /** One iteration of either loop: bump the row of the record's key, or push a new one. */
  function AddEvent(rows: seq<UsageRow>, kind: Kind, e: Event, day: DayOf): seq<UsageRow> {
    match FindRow(rows, EventKey(e, day))
    case Some(i) => rows[i := Bump(rows[i], kind, e.size)]
    case None => rows + [NewRow(e, kind, day)]
  }

  /** A whole loop over `events`, starting from `rows`. */
  function Tally(rows: seq<UsageRow>, kind: Kind, events: seq<Event>, day: DayOf): seq<UsageRow> {
    if events == [] then rows
    else AddEvent(Tally(rows, kind, events[..|events| - 1], day), kind, events[|events| - 1], day)
  }

  /** The report: the download loop, then the upload loop over the same rows. */
  function UsageRows(downloads: seq<Event>, uploads: seq<Event>, day: DayOf): seq<UsageRow> {
    Tally(Tally([], Downloads, downloads, day), Uploads, uploads, day)
  }

  /** The lookup table of the loop: each key names the index of its row. */
  predicate LookupMatches(lookup: map<string, nat>, rows: seq<UsageRow>) {
    && (forall k | k in lookup :: lookup[k] < |rows| && RowKey(rows[lookup[k]]) == k)
    && (forall i | 0 <= i < |rows| :: RowKey(rows[i]) in lookup)
  }

  // ---------------------------------------------------------------- the loops

  /** One loop of the handler, on the shared rows and lookup table. */
  method TallyInto(rows0: seq<UsageRow>, lookup0: map<string, nat>, kind: Kind, events: seq<Event>, day: DayOf)
    returns (rows: seq<UsageRow>, lookup: map<string, nat>)
    requires DistinctKeys(rows0) && LookupMatches(lookup0, rows0)
    ensures rows == Tally(rows0, kind, events, day)
    ensures DistinctKeys(rows) && LookupMatches(lookup, rows)
  {
    rows, lookup := rows0, lookup0;
    for n := 0 to |events|
      invariant rows == Tally(rows0, kind, events[..n], day)
      invariant DistinctKeys(rows) && LookupMatches(lookup, rows)
    {
      var e := events[n];
      assert events[..n + 1][..n] == events[..n];
      var key := EventKey(e, day);
      LookupStep(lookup, rows, kind, e, day);
      if key in lookup {
        var i := lookup[key];
        rows := rows[i := Bump(rows[i], kind, e.size)];
      } else {
        lookup := lookup[key := |rows|];
        rows := rows + [NewRow(e, kind, day)];
      }
    }
    assert events[..|events|] == events;
  }

  /** `usageHandler`'s two loops over the records it fetched. */
  method AggregateUsage(downloads: seq<DownloadRecord>, uploads: seq<UploadRecord>, day: DayOf)
    returns (rows: seq<UsageRow>)
    ensures rows == UsageRows(DownloadEvents(downloads), UploadEvents(uploads), day)
  {
    var lookup: map<string, nat> := map[];
    rows, lookup := TallyInto([], lookup, Downloads, DownloadEvents(downloads), day);
    rows, lookup := TallyInto(rows, lookup, Uploads, UploadEvents(uploads), day);
  }

  // ---------------------------------------------------------------- the lookup table

  /** With distinct keys the lookup table and the first-match search agree. */
  lemma LookupFindsRow(lookup: map<string, nat>, rows: seq<UsageRow>, k: string)
    requires DistinctKeys(rows) && LookupMatches(lookup, rows)
    ensures k in lookup <==> FindRow(rows, k).Some?
    ensures k in lookup ==> FindRow(rows, k) == Some(lookup[k])
  {
    if k in lookup {
      var i := lookup[k];
      var f := FindRow(rows, k);
      assert f.Some? && f.value == i;
    } else {
      assert forall j | 0 <= j < |rows| :: RowKey(rows[j]) != k;
    }
  }

  /** One loop iteration, read through the lookup table, is `AddEvent`, and the table stays right. */
  lemma LookupStep(lookup: map<string, nat>, rows: seq<UsageRow>, kind: Kind, e: Event, day: DayOf)
    requires DistinctKeys(rows) && LookupMatches(lookup, rows)
    ensures DistinctKeys(AddEvent(rows, kind, e, day))
    ensures EventKey(e, day) in lookup ==>
      && lookup[EventKey(e, day)] < |rows|
      && AddEvent(rows, kind, e, day) == rows[lookup[EventKey(e, day)] := Bump(rows[lookup[EventKey(e, day)]], kind, e.size)]
      && LookupMatches(lookup, AddEvent(rows, kind, e, day))
    ensures EventKey(e, day) !in lookup ==>
      && AddEvent(rows, kind, e, day) == rows + [NewRow(e, kind, day)]
      && LookupMatches(lookup[EventKey(e, day) := |rows|], AddEvent(rows, kind, e, day))
  {
    var key := EventKey(e, day);
    AddEventKeepsDistinct(rows, kind, e, day);
    LookupFindsRow(lookup, rows, key);
    if key in lookup {
      BumpKeepsLookup(lookup, rows, lookup[key], Bump(rows[lookup[key]], kind, e.size));
    } else {
      PushKeepsLookup(lookup, rows, NewRow(e, kind, day));
    }
  }

  lemma BumpKeepsLookup(lookup: map<string, nat>, rows: seq<UsageRow>, i: nat, r: UsageRow)
    requires LookupMatches(lookup, rows) && i < |rows| && RowKey(r) == RowKey(rows[i])
    ensures LookupMatches(lookup, rows[i := r])
  {
    var rows' := rows[i := r];
    assert forall j | 0 <= j < |rows| :: RowKey(rows'[j]) == RowKey(rows[j]);
  }

  lemma PushKeepsLookup(lookup: map<string, nat>, rows: seq<UsageRow>, r: UsageRow)
    requires LookupMatches(lookup, rows)
    ensures LookupMatches(lookup[RowKey(r) := |rows|], rows + [r])
  {
    var rows' := rows + [r];
    assert forall j | 0 <= j < |rows| :: rows'[j] == rows[j];
  }

  // ---------------------------------------------------------------- distinct keys

  lemma AddEventKeepsDistinct(rows: seq<UsageRow>, kind: Kind, e: Event, day: DayOf)
    requires DistinctKeys(rows)
    ensures DistinctKeys(AddEvent(rows, kind, e, day))
    ensures RowKeys(AddEvent(rows, kind, e, day)) ==
      if EventKey(e, day) in RowKeys(rows) then RowKeys(rows) else RowKeys(rows) + [EventKey(e, day)]
  {
    var k := EventKey(e, day);
    var rows' := AddEvent(rows, kind, e, day);
    match FindRow(rows, k)
    case Some(i) =>
      assert forall j | 0 <= j < |rows| :: RowKey(rows'[j]) == RowKey(rows[j]);
      assert k in RowKeys(rows) by { assert RowKeys(rows)[i] == k; }
    case None =>
      assert RowKey(NewRow(e, kind, day)) == k;
      assert RowKeys(rows') == RowKeys(rows) + [k];
      assert k !in RowKeys(rows);
  }

  lemma {:induction false} TallyKeepsDistinct(rows: seq<UsageRow>, kind: Kind, events: seq<Event>, day: DayOf)
    requires DistinctKeys(rows)
    ensures DistinctKeys(Tally(rows, kind, events, day))
  {
    if events != [] {
      TallyKeepsDistinct(rows, kind, events[..|events| - 1], day);
      AddEventKeepsDistinct(Tally(rows, kind, events[..|events| - 1], day), kind, events[|events| - 1], day);
    }
  }

  /** The report has one row per key. */
  lemma UsageKeysDistinct(downloads: seq<Event>, uploads: seq<Event>, day: DayOf)
    ensures DistinctKeys(UsageRows(downloads, uploads, day))
  {
    TallyKeepsDistinct([], Downloads, downloads, day);
    TallyKeepsDistinct(Tally([], Downloads, downloads, day), Uploads, uploads, day);
  }

  // ---------------------------------------------------------------- order of first appearance

  /** `seen` followed by the keys of `s` not seen before, each at its first appearance. */
  function AppendNew(seen: seq<string>, s: seq<string>): seq<string> {
    if s == [] then seen
    else
      var front := AppendNew(seen, s[..|s| - 1]);
      if s[|s| - 1] in front then front else front + [s[|s| - 1]]
  }

  /** The distinct elements of `s` in order of first appearance. */
  function FirstAppearances(s: seq<string>): seq<string> {
    AppendNew([], s)
  }

  lemma {:induction false} AppendNewConcat(seen: seq<string>, a: seq<string>, b: seq<string>)
    ensures AppendNew(AppendNew(seen, a), b) == AppendNew(seen, a + b)
  {
    if b == [] {
      assert a + b == a;
    } else {
      assert (a + b)[..|a + b| - 1] == a + b[..|b| - 1];
      assert (a + b)[|a + b| - 1] == b[|b| - 1];
      AppendNewConcat(seen, a, b[..|b| - 1]);
    }
  }

  lemma {:induction false} TallyKeys(rows: seq<UsageRow>, kind: Kind, events: seq<Event>, day: DayOf)
    requires DistinctKeys(rows)
    ensures RowKeys(Tally(rows, kind, events, day)) == AppendNew(RowKeys(rows), EventKeys(events, day))
  {
    if events != [] {
      var front := events[..|events| - 1];
      TallyKeys(rows, kind, front, day);
      TallyKeepsDistinct(rows, kind, front, day);
      AddEventKeepsDistinct(Tally(rows, kind, front, day), kind, events[|events| - 1], day);
      assert EventKeys(events, day)[..|events| - 1] == EventKeys(front, day);
    }
  }

  /**
   * The rows' keys are the keys of the downloads and then of the uploads,
   * each taken once, in order of first appearance.
   */
  lemma UsageRowOrder(downloads: seq<Event>, uploads: seq<Event>, day: DayOf)
    ensures RowKeys(UsageRows(downloads, uploads, day)) ==
      FirstAppearances(EventKeys(downloads, day) + EventKeys(uploads, day))
  {
    assert RowKeys([]) == [];
    TallyKeys([], Downloads, downloads, day);
    TallyKeepsDistinct([], Downloads, downloads, day);
    TallyKeys(Tally([], Downloads, downloads, day), Uploads, uploads, day);
    AppendNewConcat([], EventKeys(downloads, day), EventKeys(uploads, day));
  }

  // ---------------------------------------------------------------- counts and sums

  /** How many of `events` carry key `k`. */
  function CountKey(events: seq<Event>, k: string, day: DayOf): nat {
    if events == [] then 0
    else CountKey(events[..|events| - 1], k, day) + (if EventKey(events[|events| - 1], day) == k then 1 else 0)
  }

  /** The total size of the `events` that carry key `k`. */
  function SumKey(events: seq<Event>, k: string, day: DayOf): int {
    if events == [] then 0
    else SumKey(events[..|events| - 1], k, day) + (if EventKey(events[|events| - 1], day) == k then events[|events| - 1].size else 0)
  }

  /** The counter pair of `kind` in the row with key `k` (zeros when there is none). */
  function Count(rows: seq<UsageRow>, k: string, kind: Kind): int {
    match FindRow(rows, k)
    case None => 0
    case Some(i) => if kind == Downloads then rows[i].numDownloads else rows[i].numUploads
  }

  function Bytes(rows: seq<UsageRow>, k: string, kind: Kind): int {
    match FindRow(rows, k)
    case None => 0
    case Some(i) => if kind == Downloads then rows[i].numBytesDownloaded else rows[i].numBytesUploaded
  }

  lemma AddEventCounts(rows: seq<UsageRow>, kind: Kind, e: Event, day: DayOf, k: string, kind': Kind)
    requires DistinctKeys(rows)
    ensures Count(AddEvent(rows, kind, e, day), k, kind') ==
      Count(rows, k, kind') + (if kind' == kind && EventKey(e, day) == k then 1 else 0)
    ensures Bytes(AddEvent(rows, kind, e, day), k, kind') ==
      Bytes(rows, k, kind') + (if kind' == kind && EventKey(e, day) == k then e.size else 0)
  {
    if FindRow(rows, EventKey(e, day)).Some? {
      BumpCounts(rows, kind, e, day, k, kind');
    } else {
      PushCounts(rows, kind, e, day, k, kind');
    }
  }

  /** The record's key already has a row: that row, and only it, grows. */
  lemma BumpCounts(rows: seq<UsageRow>, kind: Kind, e: Event, day: DayOf, k: string, kind': Kind)
    requires DistinctKeys(rows) && FindRow(rows, EventKey(e, day)).Some?
    ensures Count(AddEvent(rows, kind, e, day), k, kind') ==
      Count(rows, k, kind') + (if kind' == kind && EventKey(e, day) == k then 1 else 0)
    ensures Bytes(AddEvent(rows, kind, e, day), k, kind') ==
      Bytes(rows, k, kind') + (if kind' == kind && EventKey(e, day) == k then e.size else 0)
  {
    var i := FindRow(rows, EventKey(e, day)).value;
    var rows' := rows[i := Bump(rows[i], kind, e.size)];
    assert forall j | 0 <= j < |rows| :: RowKey(rows'[j]) == RowKey(rows[j]);
    FindRowSameKeys(rows, rows', k);
    if FindRow(rows, k).Some? && FindRow(rows, k).value != i {
      assert RowKey(rows[FindRow(rows, k).value]) != RowKey(rows[i]);
    }
  }

  /** The record's key is new: the pushed row holds its first count. */
  lemma PushCounts(rows: seq<UsageRow>, kind: Kind, e: Event, day: DayOf, k: string, kind': Kind)
    requires FindRow(rows, EventKey(e, day)).None?
    ensures Count(AddEvent(rows, kind, e, day), k, kind') ==
      Count(rows, k, kind') + (if kind' == kind && EventKey(e, day) == k then 1 else 0)
    ensures Bytes(AddEvent(rows, kind, e, day), k, kind') ==
      Bytes(rows, k, kind') + (if kind' == kind && EventKey(e, day) == k then e.size else 0)
  {
    var key := EventKey(e, day);
    var r := NewRow(e, kind, day);
    var rows' := rows + [r];
    assert RowKey(r) == key;
    if k == key {
      FindRowOfNewKey(rows, r, k);
    } else {
      FindRowAfterPush(rows, r, k);
    }
  }

  /** Rows with the same keys, position by position, are searched alike. */
  lemma {:induction false} FindRowSameKeys(a: seq<UsageRow>, b: seq<UsageRow>, k: string)
    requires |a| == |b| && forall j | 0 <= j < |a| :: RowKey(a[j]) == RowKey(b[j])
    ensures FindRow(a, k) == FindRow(b, k)
    decreases |a|
  {
    if |a| > 0 && RowKey(a[0]) != k {
      FindRowSameKeys(a[1..], b[1..], k);
    }
  }

  /** A row whose key is new is found where it was pushed. */
  lemma FindRowOfNewKey(rows: seq<UsageRow>, r: UsageRow, k: string)
    requires FindRow(rows, k).None? && RowKey(r) == k
    ensures FindRow(rows + [r], k) == Some(|rows|)
  {
    var rows' := rows + [r];
    assert forall j | 0 <= j < |rows| :: rows'[j] == rows[j];
    assert rows'[|rows|] == r;
    var f := FindRow(rows', k);
    assert f.Some?;
    assert f.value == |rows|;
  }

  /** Pushing a row with another key leaves the search for `k` as it was. */
  lemma FindRowAfterPush(rows: seq<UsageRow>, r: UsageRow, k: string)
    requires RowKey(r) != k
    ensures FindRow(rows + [r], k) == FindRow(rows, k)
  {
    var rows' := rows + [r];
    assert forall j | 0 <= j < |rows| :: rows'[j] == rows[j];
    match FindRow(rows, k)
    case Some(i) =>
      var f := FindRow(rows', k);
      assert f.Some?;
      assert f.value == i;
    case None =>
      assert forall j | 0 <= j < |rows'| :: RowKey(rows'[j]) != k;
  }

  lemma {:induction false} TallyCounts(rows: seq<UsageRow>, kind: Kind, events: seq<Event>, day: DayOf, k: string, kind': Kind)
    requires DistinctKeys(rows)
    ensures Count(Tally(rows, kind, events, day), k, kind') ==
      Count(rows, k, kind') + (if kind' == kind then CountKey(events, k, day) else 0)
    ensures Bytes(Tally(rows, kind, events, day), k, kind') ==
      Bytes(rows, k, kind') + (if kind' == kind then SumKey(events, k, day) else 0)
  {
    if events != [] {
      var front := events[..|events| - 1];
      TallyCounts(rows, kind, front, day, k, kind');
      TallyKeepsDistinct(rows, kind, front, day);
      AddEventCounts(Tally(rows, kind, front, day), kind, events[|events| - 1], day, k, kind');
    }
  }

  /**
   * Every key's row counts exactly the downloads and the uploads with that
   * key and sums their sizes, each kind on its own counters.
   */
  lemma UsageCounts(downloads: seq<Event>, uploads: seq<Event>, day: DayOf, k: string)
    ensures Count(UsageRows(downloads, uploads, day), k, Downloads) == CountKey(downloads, k, day)
    ensures Bytes(UsageRows(downloads, uploads, day), k, Downloads) == SumKey(downloads, k, day)
    ensures Count(UsageRows(downloads, uploads, day), k, Uploads) == CountKey(uploads, k, day)
    ensures Bytes(UsageRows(downloads, uploads, day), k, Uploads) == SumKey(uploads, k, day)
  {
    var mid := Tally([], Downloads, downloads, day);
    TallyKeepsDistinct([], Downloads, downloads, day);
    TallyCounts([], Downloads, downloads, day, k, Downloads);
    TallyCounts([], Downloads, downloads, day, k, Uploads);
    TallyCounts(mid, Uploads, uploads, day, k, Downloads);
    TallyCounts(mid, Uploads, uploads, day, k, Uploads);
  }

  /** Only "initiate" upload records are tallied: a finalize record changes nothing. */
  lemma FinalizeRecordsNotCounted(downloads: seq<DownloadRecord>, uploads: seq<UploadRecord>, u: UploadRecord, day: DayOf)
    requires u.stage == Finalize
    ensures UsageRows(DownloadEvents(downloads), UploadEvents(uploads + [u]), day) ==
            UsageRows(DownloadEvents(downloads), UploadEvents(uploads), day)
  {
    assert (uploads + [u])[..|uploads|] == uploads;
  }

  // ---------------------------------------------------------------- where rows come from

  /** The row names the user, zone and day of one of `events`. */
  predicate FromSome(r: UsageRow, events: seq<Event>, day: DayOf) {
    exists e | e in events :: r.userId == e.userId && r.zoneName == e.zoneName && r.day == day(e.timestamp)
  }

  lemma {:induction false} TallyOrigins(rows: seq<UsageRow>, kind: Kind, events: seq<Event>, day: DayOf, all: seq<Event>)
    requires forall e | e in events :: e in all
    requires forall i | 0 <= i < |rows| :: FromSome(rows[i], all, day)
    ensures forall i | 0 <= i < |Tally(rows, kind, events, day)| :: FromSome(Tally(rows, kind, events, day)[i], all, day)
  {
    if events != [] {
      var front := events[..|events| - 1];
      var e := events[|events| - 1];
      assert forall x | x in front :: x in events;
      TallyOrigins(rows, kind, front, day, all);
      var t := Tally(rows, kind, front, day);
      var t' := AddEvent(t, kind, e, day);
      forall i | 0 <= i < |t'| ensures FromSome(t'[i], all, day) {
        if i < |t| && t'[i] != t[i] {
          assert t'[i] == Bump(t[i], kind, e.size);
          assert FromSome(t[i], all, day);
        } else if i >= |t| {
          assert t'[i] == NewRow(e, kind, day);
          assert e in all;
        }
      }
    }
  }

  /** Every row names the user, zone and day of some tallied record. */
  lemma UsageRowOrigins(downloads: seq<Event>, uploads: seq<Event>, day: DayOf)
    ensures forall i | 0 <= i < |UsageRows(downloads, uploads, day)| ::
      FromSome(UsageRows(downloads, uploads, day)[i], downloads + uploads, day)
  {
    var all := downloads + uploads;
    assert forall e | e in downloads :: e in all;
    assert forall e | e in uploads :: e in all;
    TallyOrigins([], Downloads, downloads, day, all);
    TallyOrigins(Tally([], Downloads, downloads, day), Uploads, uploads, day, all);
  }

  /** A report over one user's records holds rows for that user only. */
  lemma ReportForOneUser(downloads: seq<Event>, uploads: seq<Event>, day: DayOf, userId: string)
    requires forall e | e in downloads + uploads :: e.userId == userId
    ensures forall r | r in UsageRows(downloads, uploads, day) :: r.userId == userId
  {
    UsageRowOrigins(downloads, uploads, day);
  }

  // ---------------------------------------------------------------- keys

  /** The position of the first ':' in `s` (`|s|` when there is none). */
  function FirstColon(s: string): nat {
    if s == [] then 0 else if s[0] == ':' then 0 else 1 + FirstColon(s[1..])
  }

  /** The position of the last ':' in `s` (-1 when there is none). */
  function LastColon(s: string): int {
    if s == [] then -1 else if s[|s| - 1] == ':' then |s| - 1 else LastColon(s[..|s| - 1])
  }

  lemma {:induction false} FirstColonOf(a: string, b: string)
    requires ':' !in a
    ensures FirstColon(a + ":" + b) == |a|
  {
    if a != [] {
      assert (a + ":" + b)[1..] == a[1..] + ":" + b;
      FirstColonOf(a[1..], b);
    }
  }

  lemma {:induction false} LastColonOf(a: string, b: string)
    requires ':' !in b
    ensures LastColon(a + ":" + b) == |a|
  {
    if b != [] {
      var s := a + ":" + b;
      assert s[..|s| - 1] == a + ":" + b[..|b| - 1];
      assert s[|s| - 1] == b[|b| - 1];
      LastColonOf(a, b[..|b| - 1]);
    }
  }

  /** Splitting at the first ':' recovers the part before it when that part has none. */
  lemma SplitAtColon(a: string, b: string, a': string, b': string)
    requires ':' !in a && ':' !in a'
    requires a + ":" + b == a' + ":" + b'
    ensures a == a' && b == b'
  {
    var s := a + ":" + b;
    FirstColonOf(a, b);
    FirstColonOf(a', b');
    assert a == s[..|a|] && a' == (a' + ":" + b')[..|a'|];
    assert b == s[|a| + 1..] && b' == (a' + ":" + b')[|a'| + 1..];
  }

  /** Splitting at the last ':' recovers the part after it when that part has none. */
  lemma SplitAtLastColon(a: string, b: string, a': string, b': string)
    requires ':' !in b && ':' !in b'
    requires a + ":" + b == a' + ":" + b'
    ensures a == a' && b == b'
  {
    var s := a + ":" + b;
    var s' := a' + ":" + b';
    LastColonOf(a, b);
    LastColonOf(a', b');
    assert a == s[..|a|] && a' == s'[..|a'|];
    assert b == s[|a| + 1..] && b' == s'[|a'| + 1..];
  }

  /**
   * The report's key tells the user, zone and day apart whenever user ids
   * and days contain no ':' (as with GitHub-derived user ids and
   * `yyyy-mm-dd` days): one row per (user, zone, day).
   */
  lemma UsageKeyInjective(u: string, z: string, d: string, u': string, z': string, d': string)
    requires ':' !in u && ':' !in u' && ':' !in d && ':' !in d'
    requires UsageKey(u, z, d) == UsageKey(u', z', d')
    ensures u == u' && z == z' && d == d'
  {
    assert UsageKey(u, z, d) == u + ":" + (z + ":" + d);
    assert UsageKey(u', z', d') == u' + ":" + (z' + ":" + d');
    SplitAtColon(u, z + ":" + d, u', z' + ":" + d');
    SplitAtLastColon(z, d, z', d');
  }

  // ---------------------------------------------------------------- access

  /**
   * Who may read a report: a report for one user is open to that user and
   * to the site administrator; the report over all users only to the site
   * administrator.
   */
  predicate MayReadUsage(callerId: string, userId: Option<string>, isSiteAdmin: string -> bool) {
    if userId.Some? && userId.value != "" then userId.value == callerId || isSiteAdmin(callerId)
    else isSiteAdmin(callerId)
  }

  /** A caller who is not the site administrator reads only a report about themselves. */
  lemma UsageAccessRule(callerId: string, userId: Option<string>, isSiteAdmin: string -> bool)
    ensures isSiteAdmin(callerId) ==> MayReadUsage(callerId, userId, isSiteAdmin)
    ensures MayReadUsage(callerId, userId, isSiteAdmin) && !isSiteAdmin(callerId) ==>
      userId == Some(callerId) && callerId != ""
    ensures !isSiteAdmin(callerId) && userId == Some(callerId) && callerId != "" ==>
      MayReadUsage(callerId, userId, isSiteAdmin)
  {
  }
}
