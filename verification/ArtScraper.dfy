/** The art scraper's negative cache: tombstone rows, and scans as a retry discipline over any number of passes. */
module ArtScraper {
  import opened Bytes
  import opened Options

  const MAX_FETCHES_PER_SCAN: nat := 40
  const MISS_RETRY_MS: nat := 604_800_000
  const ERR_RETRY_MS: nat := 3_600_000
  const MISS: Byte := 77    // 'M'
  const ERR: Byte := 69     // 'E'

  /** What sacad hands back: a return code and, sometimes, a buffer. */
  datatype Fetch = Fetch(rc: int, buf: Option<Text>)

  datatype Outcome = Got(image: Text) | Missed | Failed

  /** One finished network attempt, stamped with the time its scan began; `from` and `to` are the steps of the
      run at which the album was checked and the outcome stored. */
  datatype Attempt = Attempt(key: string, at: UInt64, outcome: Outcome, from: nat, to: nat)

  /** A contributed cover accepted by art.put at step `from` and not stored yet. */
  datatype Upload = Upload(key: string, image: Text, moderator: bool, from: nat)

  /** The scraper thread: between scans, inside one, or waiting for the network about one album. */
  datatype Worker =
    | Sleeping
    | Scanning(now: UInt64, attempts: nat)
    | Fetching(now: UInt64, attempts: nat, key: string, from: nat)

  /** `steps`, `log`, `puts` and `covers` are history; the last two hold the latest upload stored and the first
      cover stored, by either writer, for each album. */
  datatype State = State(
    db: map<string, Text>,
    worker: Worker,
    uploads: set<Upload>,
    steps: nat,
    log: seq<Attempt>,
    puts: map<string, nat>,
    covers: map<string, nat>)

  /** Visit is the scan's look at one album; a scan ends when its albums or its budget are used up, by stop(), or
      by an exception. Uploads are checked and stored by the API thread. */
  datatype Event =
    | BeginScan(now: UInt64)
    | Visit(key: string)
    | Store(fetch: Fetch)
    | EndScan
    | CheckUpload(key: string, image: Text, moderator: bool)
    | StoreUpload(upload: Upload, written: bool)

  function BlobKey(key: string): string { "art:" + key }
  function StatusKey(key: string): string { "arts:" + key }

  // ---- Tombstones --------------------------------------------------------------------

  function StatusRow(st: Byte, ts: UInt64): Text { [st] + Le(ts, 8) }

  function RetryMs(st: Byte): nat { if st == MISS then MISS_RETRY_MS else ERR_RETRY_MS }

  function StampOf(row: Text): nat
    requires |row| >= 9
  {
    FromLe(row[1..9])
  }

  predicate NegativeCached(row: Text, now: UInt64) {
    |row| >= 9 && now >= StampOf(row) && now - StampOf(row) < RetryMs(row[0])
  }

  /** status_row pushes the stamp byte by byte. */
  method BuildStatusRow(st: Byte, ts: UInt64) returns (row: Text)
    ensures row == StatusRow(st, ts)
  {
    row := AppendU64Le([st], ts);
  }

  /** negative_cached reads it back by shifting bytes in. */
  method IsNegativeCached(row: Text, now: UInt64) returns (hit: bool)
    ensures hit == NegativeCached(row, now)
  {
    if |row| < 9 {
      return false;
    }
    var ts: nat := 0;
    for i := 0 to 8
      invariant ts == FromLe(row[1..1 + i])
    {
      FromLeSnoc(row[1..1 + i], row[1 + i]);
      assert row[1..1 + (i + 1)] == row[1..1 + i] + [row[1 + i]];
      ts := ts + row[1 + i] * Pow256(i);
    }
    hit := now >= ts && now - ts < RetryMs(row[0]);
  }

  /** The 9-byte round trip: a tombstone holds a fetch back for exactly its retry time. */
  lemma TombstoneRoundTrip(st: Byte, ts: UInt64, now: UInt64)
    ensures |StatusRow(st, ts)| == 9 && StampOf(StatusRow(st, ts)) == ts
    ensures NegativeCached(StatusRow(st, ts), now) <==> ts <= now < ts + RetryMs(st)
    ensures RetryMs(st) == if st == 77 then 7 * 24 * 3600 * 1000 else 3600 * 1000
  {
    Pow256Of8();
    LeRoundTrip(ts, 8);
    assert StatusRow(st, ts)[1..9] == Le(ts, 8);
  }

  // ---- Steps ----------------------------------------------------------------------------

  predicate Skips(db: map<string, Text>, key: string, now: UInt64) {
    BlobKey(key) in db || (StatusKey(key) in db && NegativeCached(db[StatusKey(key)], now))
  }

  predicate Delivers(f: Fetch) { f.rc == 0 && f.buf.Some? && f.buf.value != [] }

  function OutcomeOf(f: Fetch): Outcome {
    if Delivers(f) then Got(f.buf.value) else if f.rc == 1 then Missed else Failed
  }

  function Covered(db: map<string, Text>, key: string, image: Text): map<string, Text> {
    db[BlobKey(key) := image] - {StatusKey(key)}
  }

  function Recorded(db: map<string, Text>, key: string, f: Fetch, now: UInt64): map<string, Text> {
    if Delivers(f) then Covered(db, key, f.buf.value)
    else db[StatusKey(key) := StatusRow(if f.rc == 1 then MISS else ERR, now)]
  }

  function FirstCover(s: State, key: string): map<string, nat> {
    if key in s.covers then s.covers else s.covers[key := s.steps]
  }

  function AfterVisit(s: State, key: string): State {
    if s.worker.Scanning? && s.worker.attempts < MAX_FETCHES_PER_SCAN && !Skips(s.db, key, s.worker.now)
    then s.(worker := Fetching(s.worker.now, s.worker.attempts, key, s.steps)) else s
  }

  function AfterStore(s: State, f: Fetch): State
    requires s.worker.Fetching?
  {
    var w := s.worker;
    s.(db := Recorded(s.db, w.key, f, w.now), worker := Scanning(w.now, w.attempts + 1),
       log := s.log + [Attempt(w.key, w.now, OutcomeOf(f), w.from, s.steps)],
       covers := if Delivers(f) then FirstCover(s, w.key) else s.covers)
  }

  predicate HaveArt(db: map<string, Text>, key: string) { BlobKey(key) in db && db[BlobKey(key)] != [] }

  /** art.put up to its write: an album with art is left alone unless a moderator asks. */
  function AfterCheckUpload(s: State, key: string, image: Text, moderator: bool): State {
    if image == [] || (HaveArt(s.db, key) && !moderator) then s
    else s.(uploads := s.uploads + {Upload(key, image, moderator, s.steps)})
  }

  function AfterStoreUpload(s: State, u: Upload, written: bool): State {
    var t := s.(uploads := s.uploads - {u});
    if !written then t
    else t.(db := Covered(s.db, u.key, u.image), puts := s.puts[u.key := s.steps], covers := FirstCover(s, u.key))
  }

  function Effect(s: State, e: Event): State {
    match e
    case BeginScan(now) => if s.worker.Sleeping? then s.(worker := Scanning(now, 0)) else s
    case Visit(key) => AfterVisit(s, key)
    case Store(f) => if s.worker.Fetching? then AfterStore(s, f) else s
    case EndScan => s.(worker := Sleeping)
    case CheckUpload(key, image, moderator) => AfterCheckUpload(s, key, image, moderator)
    case StoreUpload(u, written) => if u in s.uploads then AfterStoreUpload(s, u, written) else s
  }

  function Next(s: State, e: Event): State { Effect(s, e).(steps := s.steps + 1) }

  function Init(db: map<string, Text>): State { State(db, Sleeping, {}, 0, [], map[], map[]) }

  function RunFrom(s: State, es: seq<Event>): State {
    if es == [] then s else Next(RunFrom(s, es[..|es| - 1]), es[|es| - 1])
  }

  function Run(db: map<string, Text>, es: seq<Event>): State { RunFrom(Init(db), es) }

  /** The wall clock read by the scans never steps back. */
  ghost predicate Ordered(es: seq<Event>) {
    forall i, j :: 0 <= i <= j < |es| && es[i].BeginScan? && es[j].BeginScan? ==> es[i].now <= es[j].now
  }

  /** The time of the latest scan. */
  function LastScan(es: seq<Event>): UInt64 {
    if es == [] then 0
    else if es[|es| - 1].BeginScan? then es[|es| - 1].now
    else LastScan(es[..|es| - 1])
  }

  lemma KeysApart(k: string, l: string)
    ensures BlobKey(k) != StatusKey(l)
    ensures BlobKey(k) == BlobKey(l) <==> k == l
    ensures StatusKey(k) == StatusKey(l) <==> k == l
  {
    assert BlobKey(k)[3] == ':' && StatusKey(l)[3] == 's';
    assert BlobKey(k)[4..] == k && BlobKey(l)[4..] == l;
    assert StatusKey(k)[5..] == k && StatusKey(l)[5..] == l;
  }

  // ---- The invariant of one album ---------------------------------------------------------

  function LastAttempt(log: seq<Attempt>, key: string): Option<Attempt> {
    if log == [] then None
    else if log[|log| - 1].key == key then Some(log[|log| - 1])
    else LastAttempt(log[..|log| - 1], key)
  }

  /** The latest attempt failed, and no upload has been stored for the album since. */
  predicate Failing(s: State, key: string) {
    var last := LastAttempt(s.log, key);
    last.Some? && !last.value.outcome.Got? && (key in s.puts ==> s.puts[key] < last.value.to)
  }

  /** The rows of an album tell its history. */
  ghost predicate RowsTell(s: State, key: string) {
    && (BlobKey(key) in s.db <==> key in s.covers)
    && (BlobKey(key) in s.db ==> s.db[BlobKey(key)] != [])
    && (StatusKey(key) in s.db <==> Failing(s, key))
    && (Failing(s, key) ==>
          var a := LastAttempt(s.log, key).value;
          s.db[StatusKey(key)] == StatusRow(if a.outcome.Missed? then MISS else ERR, a.at))
  }

  function RetryAfter(o: Outcome): nat { if o.Missed? then MISS_RETRY_MS else ERR_RETRY_MS }

  /** No attempt after a cover was fetched, and none before the retry time of an earlier one was over. */
  ghost predicate Spaced(s: State, key: string) {
    forall i, j :: 0 <= i < j < |s.log| && s.log[i].key == key && s.log[j].key == key ==>
      !s.log[i].outcome.Got? && s.log[i].at + RetryAfter(s.log[i].outcome) <= s.log[j].at
  }

  /** An attempt begun at step `from` for a scan of time `at` was due and met no cover. */
  ghost predicate Begun(s: State, key: string, at: UInt64, from: nat) {
    && (key in s.covers ==> from < s.covers[key])
    && forall i :: 0 <= i < |s.log| && s.log[i].key == key ==>
         !s.log[i].outcome.Got? && s.log[i].at + RetryAfter(s.log[i].outcome) <= at && s.log[i].to < from
  }

  predicate GotAt(log: seq<Attempt>, i: nat, key: string) { i < |log| && log[i].key == key && log[i].outcome.Got? }

  ghost predicate PastOk(s: State, key: string, now: UInt64) {
    && (key in s.covers ==> s.covers[key] < s.steps)
    && (key in s.puts ==> key in s.covers && s.covers[key] <= s.puts[key] < s.steps)
    && (key in s.covers && key !in s.puts ==> exists i :: 0 <= i < |s.log| && GotAt(s.log, i, key))
    && (forall i :: 0 <= i < |s.log| ==> s.log[i].at <= now && s.log[i].from < s.log[i].to < s.steps)
    && (forall i :: 0 <= i < |s.log| && s.log[i].key == key ==>
          && (key in s.covers ==> s.log[i].from < s.covers[key])
          && (s.log[i].outcome.Got? ==> key in s.covers && s.covers[key] <= s.log[i].to))
    && (!s.worker.Sleeping? ==> s.worker.now <= now && forall i :: 0 <= i < |s.log| ==> s.log[i].at <= s.worker.now)
  }

  ghost predicate UploadsOk(s: State, key: string) {
    forall u :: u in s.uploads && u.key == key ==>
      u.image != [] && u.from < s.steps && (!u.moderator && key in s.covers ==> u.from < s.covers[key])
  }

  ghost predicate Inv(s: State, key: string, now: UInt64) {
    && RowsTell(s, key)
    && Spaced(s, key)
    && PastOk(s, key, now)
    && UploadsOk(s, key)
    && (s.worker.Fetching? ==> s.worker.from < s.steps)
    && (s.worker.Fetching? && s.worker.key == key ==> Begun(s, key, s.worker.now, s.worker.from))
  }

  lemma {:induction false} LastAttemptIsLast(log: seq<Attempt>, key: string, i: nat) returns (j: nat)
    requires i < |log| && log[i].key == key
    ensures i <= j < |log| && log[j].key == key && LastAttempt(log, key) == Some(log[j])
    ensures forall k :: j < k < |log| ==> log[k].key != key
  {
    var n := |log| - 1;
    if log[n].key == key {
      j := n;
    } else {
      j := LastAttemptIsLast(log[..n], key, i);
      assert forall k :: j < k < n ==> log[..n][k] == log[k];
    }
  }

  lemma {:induction false} LastAttemptOccurs(log: seq<Attempt>, key: string) returns (i: nat)
    requires LastAttempt(log, key).Some?
    ensures i < |log| && log[i].key == key && LastAttempt(log, key) == Some(log[i])
  {
    i := |log| - 1;
    if log[i].key != key {
      var n := i;
      i := LastAttemptOccurs(log[..n], key);
    }
  }

  /** Without a cover the last attempt on an album failed, and its tombstone stands. */
  lemma UncoveredIsFailing(s: State, key: string, now: UInt64)
    requires Inv(s, key, now) && key !in s.covers && LastAttempt(s.log, key).Some?
    ensures Failing(s, key)
  {
    var i := LastAttemptOccurs(s.log, key);
  }

  /** The check lets an album through only when its latest attempt is due. */
  lemma VisitBegins(s: State, key: string, now: UInt64)
    requires Inv(s, key, now) && s.worker.Scanning? && !Skips(s.db, key, s.worker.now)
    ensures Begun(s, key, s.worker.now, s.steps)
  {
    forall i | 0 <= i < |s.log| && s.log[i].key == key
      ensures !s.log[i].outcome.Got? && s.log[i].at + RetryAfter(s.log[i].outcome) <= s.worker.now && s.log[i].to < s.steps
    {
      var j := LastAttemptIsLast(s.log, key, i);
      UncoveredIsFailing(s, key, now);
      var last := s.log[j];
      TombstoneRoundTrip(if last.outcome.Missed? then MISS else ERR, last.at, s.worker.now);
      assert last.at + RetryAfter(last.outcome) <= s.worker.now;
    }
  }

  lemma VisitKeepsInv(s: State, visited: string, key: string, now: UInt64)
    requires Inv(s, key, now)
    ensures Inv(Next(s, Visit(visited)), key, now)
  {
    var t := Next(s, Visit(visited));
    if s.worker.Scanning? && visited == key && !Skips(s.db, key, s.worker.now) {
      VisitBegins(s, key, now);
    }
    assert t == s.(worker := t.worker, steps := s.steps + 1);
    WorkerMoves(s, t, key, now);
  }

  lemma WorkerMoves(s: State, t: State, key: string, now: UInt64)
    requires Inv(s, key, now) && t == s.(worker := t.worker, steps := s.steps + 1)
    requires t.worker == s.worker
          || (t.worker.Fetching? && s.worker.Scanning? && t.worker.now == s.worker.now && t.worker.from == s.steps
              && (t.worker.key == key ==> Begun(s, key, t.worker.now, s.steps)))
    ensures Inv(t, key, now)
  {
  }

  lemma StoreKeepsRows(s: State, f: Fetch, key: string, now: UInt64)
    requires Inv(s, key, now) && s.worker.Fetching?
    ensures RowsTell(Next(s, Store(f)), key)
  {
    var t := Next(s, Store(f));
    KeysApart(key, s.worker.key);
    KeysApart(s.worker.key, key);
    KeysApart(key, key);
    assert t.log[..|t.log| - 1] == s.log;
    if s.worker.key != key {
      assert LastAttempt(t.log, key) == LastAttempt(s.log, key);
    }
  }

  lemma StoreKeepsSpaced(s: State, f: Fetch, key: string, now: UInt64)
    requires Inv(s, key, now) && s.worker.Fetching?
    ensures Spaced(Next(s, Store(f)), key)
  {
  }

  lemma StoreKeepsCovers(s: State, f: Fetch, key: string, now: UInt64)
    requires Inv(s, key, now) && s.worker.Fetching?
    ensures
      var t := Next(s, Store(f));
      key in t.covers && key !in t.puts ==> exists i :: 0 <= i < |t.log| && GotAt(t.log, i, key)
  {
    var t := Next(s, Store(f));
    if key in s.covers && key !in s.puts {
      var i :| 0 <= i < |s.log| && GotAt(s.log, i, key);
      assert GotAt(t.log, i, key);
    } else if key in t.covers && key !in t.puts {
      assert GotAt(t.log, |s.log|, key);
    }
  }

  lemma StoreKeepsInv(s: State, f: Fetch, key: string, now: UInt64)
    requires Inv(s, key, now) && s.worker.Fetching?
    ensures Inv(Next(s, Store(f)), key, now)
  {
    StoreKeepsRows(s, f, key, now);
    StoreKeepsSpaced(s, f, key, now);
    StoreKeepsCovers(s, f, key, now);
  }

  lemma UploadKeepsRows(s: State, u: Upload, key: string, now: UInt64)
    requires Inv(s, key, now) && u in s.uploads
    ensures RowsTell(Next(s, StoreUpload(u, true)), key)
  {
    KeysApart(key, u.key);
    KeysApart(u.key, key);
    KeysApart(key, key);
    if LastAttempt(s.log, key).Some? {
      var i := LastAttemptOccurs(s.log, key);
    }
  }

  lemma UploadKeepsInv(s: State, u: Upload, written: bool, key: string, now: UInt64)
    requires Inv(s, key, now) && u in s.uploads
    ensures Inv(Next(s, StoreUpload(u, written)), key, now)
  {
    if written {
      UploadKeepsRows(s, u, key, now);
    } else {
      HistoryStays(s, Next(s, StoreUpload(u, written)), key, now, now);
    }
  }

  /** Steps that touch neither rows nor history keep the invariant if they leave a sound worker and sound uploads. */
  lemma HistoryStays(s: State, t: State, key: string, was: UInt64, now: UInt64)
    requires Inv(s, key, was) && was <= now
    requires t == s.(worker := t.worker, uploads := t.uploads, steps := s.steps + 1)
    requires t.worker == s.worker || t.worker.Sleeping? || t.worker == Scanning(now, 0)
    requires UploadsOk(t, key)
    ensures Inv(t, key, now)
  {
  }

  lemma CheckedUploadOk(s: State, e: Event, key: string, now: UInt64)
    requires Inv(s, key, now) && e.CheckUpload?
    ensures UploadsOk(Next(s, e), key)
  {
    var t := Next(s, e);
    forall u | u in t.uploads && u.key == key
      ensures u.image != [] && u.from < t.steps && (!u.moderator && key in t.covers ==> u.from < t.covers[key])
    {
      if u !in s.uploads {
        assert u == Upload(e.key, e.image, e.moderator, s.steps);
      }
    }
  }

  lemma NextKeepsInv(s: State, e: Event, key: string, was: UInt64, now: UInt64)
    requires Inv(s, key, was) && was <= now && (if e.BeginScan? then e.now == now else was == now)
    ensures Inv(Next(s, e), key, now)
  {
    match e
    case BeginScan(at) => HistoryStays(s, Next(s, e), key, was, now);
    case Visit(k) => VisitKeepsInv(s, k, key, now);
    case Store(f) =>
      if s.worker.Fetching? { StoreKeepsInv(s, f, key, now); } else { HistoryStays(s, Next(s, e), key, was, now); }
    case EndScan => HistoryStays(s, Next(s, e), key, was, now);
    case CheckUpload(_, _, _) =>
      CheckedUploadOk(s, e, key, now);
      HistoryStays(s, Next(s, e), key, was, now);
    case StoreUpload(u, written) =>
      if u in s.uploads { UploadKeepsInv(s, u, written, key, now); } else { HistoryStays(s, Next(s, e), key, was, now); }
  }

  lemma {:induction false} LastScanOccurs(es: seq<Event>)
    requires LastScan(es) > 0
    ensures exists i :: 0 <= i < |es| && es[i].BeginScan? && es[i].now == LastScan(es)
  {
    var n := |es| - 1;
    if !es[n].BeginScan? {
      LastScanOccurs(es[..n]);
      var i :| 0 <= i < n && es[..n][i].BeginScan? && es[..n][i].now == LastScan(es);
      assert es[i].BeginScan?;
    }
  }

  lemma {:induction false} RunKeepsInv(db: map<string, Text>, es: seq<Event>, key: string)
    requires BlobKey(key) !in db && StatusKey(key) !in db && Ordered(es)
    ensures Inv(Run(db, es), key, LastScan(es))
  {
    if es != [] {
      var n := |es| - 1;
      RunKeepsInv(db, es[..n], key);
      if LastScan(es[..n]) > 0 {
        LastScanOccurs(es[..n]);
        var i :| 0 <= i < n && es[..n][i].BeginScan? && es[..n][i].now == LastScan(es[..n]);
        assert es[i].BeginScan?;
      }
      NextKeepsInv(Run(db, es[..n]), es[n], key, LastScan(es[..n]), LastScan(es));
    }
  }

  // ---- What holds over any run ----------------------------------------------------------------

  /** From an empty keyspace and on a non-decreasing clock, over any interleaving of scans and uploads: an album is
      never fetched again after a fetch that found its cover, a miss is retried no sooner than 7 days and an error
      no sooner than 1 hour after the scan that met it, and no fetch begins once either writer has stored a cover. */
  lemma RetryDiscipline(db: map<string, Text>, es: seq<Event>, key: string)
    requires BlobKey(key) !in db && StatusKey(key) !in db && Ordered(es)
    ensures
      var s := Run(db, es);
      && Spaced(s, key)
      && (forall i, j :: 0 <= i < j < |s.log| && s.log[i].key == key && s.log[j].key == key ==>
            s.log[i].at + (if s.log[i].outcome.Missed? then 604_800_000 else 3_600_000) <= s.log[j].at)
      && (BlobKey(key) in s.db <==> key in s.covers)
      && (key in s.covers ==>
            && (forall i :: 0 <= i < |s.log| && s.log[i].key == key ==> s.log[i].from < s.covers[key])
            && (s.worker.Fetching? && s.worker.key == key ==> s.worker.from < s.covers[key]))
  {
    RunKeepsInv(db, es, key);
  }

  /** A cover and a tombstone stand together if and only if the latest fetch of the album failed and the latest
      upload stored for it fell between that fetch's check and its store. */
  lemma CoexistIff(db: map<string, Text>, es: seq<Event>, key: string)
    requires BlobKey(key) !in db && StatusKey(key) !in db && Ordered(es)
    ensures
      var s := Run(db, es);
      var last := LastAttempt(s.log, key);
      BlobKey(key) in s.db && StatusKey(key) in s.db <==>
        && last.Some? && !last.value.outcome.Got?
        && key in s.puts && last.value.from < s.puts[key] < last.value.to
  {
    RunKeepsInv(db, es, key);
    var s := Run(db, es);
    if key in s.covers && Failing(s, key) {
      var l := LastAttemptOccurs(s.log, key);
      if key !in s.puts {
        var i :| 0 <= i < |s.log| && GotAt(s.log, i, key);
        var j := LastAttemptIsLast(s.log, key, i);
      }
    }
  }

  /** The step stores a cover for the album. */
  predicate Covers(s: State, e: Event, key: string) {
    || (e.Store? && s.worker.Fetching? && s.worker.key == key && Delivers(e.fetch))
    || (e.StoreUpload? && e.upload in s.uploads && e.written && e.upload.key == key)
  }

  /** The step at which the writer of a cover looked whether there was one. */
  function CheckedAt(s: State, e: Event): nat
    requires (e.Store? && s.worker.Fetching?) || e.StoreUpload?
  {
    if e.Store? then s.worker.from else e.upload.from
  }

  /** First writer wins, except across a check: a scraped cover or an ordinary upload overwrites an existing cover
      if and only if that album's first cover was stored between its own check and its own store. A moderator's
      upload overwrites any. Whatever is overwritten, the new image is what the album shows. */
  lemma OverwritesIff(db: map<string, Text>, es: seq<Event>, e: Event, key: string)
    requires BlobKey(key) !in db && StatusKey(key) !in db && Ordered(es) && Covers(Run(db, es), e, key)
    ensures
      var s := Run(db, es);
      BlobKey(key) in s.db <==>
        key in s.covers && (CheckedAt(s, e) < s.covers[key] < s.steps || (e.StoreUpload? && e.upload.moderator))
    ensures
      var s := Run(db, es);
      var t := Next(s, e);
      BlobKey(key) in t.db && t.db[BlobKey(key)] == (if e.Store? then e.fetch.buf.value else e.upload.image)
  {
    RunKeepsInv(db, es, key);
    KeysApart(key, key);
  }

  /** An album is passed over if and only if it has a cover from either writer or its latest attempt is not due. */
  lemma PassedOverIff(db: map<string, Text>, es: seq<Event>, key: string, now: UInt64)
    requires BlobKey(key) !in db && StatusKey(key) !in db && Ordered(es) && LastScan(es) <= now
    ensures
      var s := Run(db, es);
      var last := LastAttempt(s.log, key);
      Skips(s.db, key, now) <==>
        key in s.covers || (last.Some? && now < last.value.at + RetryAfter(last.value.outcome))
  {
    RunKeepsInv(db, es, key);
    var s := Run(db, es);
    var last := LastAttempt(s.log, key);
    if last.Some? {
      var i := LastAttemptOccurs(s.log, key);
      TombstoneRoundTrip(if last.value.outcome.Missed? then MISS else ERR, last.value.at, now);
      if key !in s.covers {
        UncoveredIsFailing(s, key, LastScan(es));
      }
    }
  }

  /** A scan with budget left fetches an album if and only if nobody has stored a cover for it and its latest attempt, if
      there was one, is due. */
  lemma FetchedIff(db: map<string, Text>, es: seq<Event>, key: string)
    requires BlobKey(key) !in db && StatusKey(key) !in db && Ordered(es)
    requires Run(db, es).worker.Scanning?
    ensures
      var s, t := Run(db, es), Next(Run(db, es), Visit(key));
      var last := LastAttempt(s.log, key);
      var due := last.None? || last.value.at + RetryAfter(last.value.outcome) <= s.worker.now;
      && (t.worker == Fetching(s.worker.now, s.worker.attempts, key, s.steps) <==>
            s.worker.attempts < 40 && key !in s.covers && due)
      && (t.worker == s.worker <==> !(s.worker.attempts < 40 && key !in s.covers && due))
      && t.db == s.db && t.log == s.log
  {
    RunKeepsInv(db, es, key);
    ScanSkipsIff(Run(db, es), key, LastScan(es));
  }

  lemma ScanSkipsIff(s: State, key: string, now: UInt64)
    requires Inv(s, key, now) && s.worker.Scanning?
    ensures
      var last := LastAttempt(s.log, key);
      Skips(s.db, key, s.worker.now) <==>
        key in s.covers || (last.Some? && s.worker.now < last.value.at + RetryAfter(last.value.outcome))
  {
    var last := LastAttempt(s.log, key);
    if last.Some? {
      var i := LastAttemptOccurs(s.log, key);
      TombstoneRoundTrip(if last.value.outcome.Missed? then MISS else ERR, last.value.at, s.worker.now);
      if key !in s.covers {
        UncoveredIsFailing(s, key, now);
      }
    }
  }

  /** The outcome of a fetch: code 0 with a nonempty image stores that image as the cover and clears the tombstone;
      code 1 leaves a miss and anything else an error, stamped with the start of the scan. */
  lemma OutcomeIsStored(s: State, f: Fetch)
    requires s.worker.Fetching?
    ensures
      var t, key, now := Next(s, Store(f)), s.worker.key, s.worker.now;
      && t.worker == Scanning(now, s.worker.attempts + 1)
      && (f.rc == 0 && f.buf.Some? && f.buf.value != [] ==>
            && BlobKey(key) in t.db && t.db[BlobKey(key)] == f.buf.value && StatusKey(key) !in t.db
            && t.log == s.log + [Attempt(key, now, Got(f.buf.value), s.worker.from, s.steps)])
      && (!(f.rc == 0 && f.buf.Some? && f.buf.value != []) ==>
            && StatusKey(key) in t.db && t.db[StatusKey(key)] == [if f.rc == 1 then 77 else 69] + Le(now, 8)
            && (BlobKey(key) in t.db <==> BlobKey(key) in s.db)
            && t.log == s.log + [Attempt(key, now, if f.rc == 1 then Missed else Failed, s.worker.from, s.steps)])
      && (forall k :: k != BlobKey(key) && k != StatusKey(key) ==> (k in t.db <==> k in s.db) && (k in s.db ==> t.db[k] == s.db[k]))
  {
    KeysApart(s.worker.key, s.worker.key);
  }

  /** A nonempty upload is accepted if and only if the album has no cover or a moderator asks, and once written it is
      the cover, with no tombstone beside it. */
  lemma UploadIsStoredIff(db: map<string, Text>, es: seq<Event>, key: string, image: Text, moderator: bool)
    requires BlobKey(key) !in db && StatusKey(key) !in db && Ordered(es) && image != []
    ensures
      var s := Run(db, es);
      var u := Upload(key, image, moderator, s.steps);
      var t := Next(s, CheckUpload(key, image, moderator));
      var w := Next(t, StoreUpload(u, true));
      && (u in t.uploads <==> key !in s.covers || moderator)
      && (u in t.uploads ==> BlobKey(key) in w.db && w.db[BlobKey(key)] == image && StatusKey(key) !in w.db)
      && (u !in t.uploads ==> w.db == s.db)
  {
    RunKeepsInv(db, es, key);
    KeysApart(key, key);
    var s := Run(db, es);
    assert forall u :: u in s.uploads && u.key == key ==> u.from < s.steps;
  }

  /** A sleeping scraper starts a scan with its whole budget, and every scan can end. */
  lemma ScanStartsAndEnds(s: State, now: UInt64)
    ensures s.worker.Sleeping? ==> Next(s, BeginScan(now)).worker == Scanning(now, 0)
    ensures Next(s, EndScan).worker.Sleeping? && Next(s, EndScan).db == s.db
  {
  }

  /** The history kept in the state is the events': every attempt runs from its Visit to its Store, and the latest
      stored upload is the one at its position. */
  ghost predicate AttemptTold(es: seq<Event>, a: Attempt) {
    a.from < a.to < |es| && es[a.from] == Visit(a.key) && es[a.to].Store? && OutcomeOf(es[a.to].fetch) == a.outcome
  }

  ghost predicate PutTold(es: seq<Event>, key: string, i: nat) {
    i < |es| && es[i].StoreUpload? && es[i].written && es[i].upload.key == key
  }

  ghost predicate UploadTold(es: seq<Event>, u: Upload) {
    u.from < |es| && es[u.from] == CheckUpload(u.key, u.image, u.moderator)
  }

  ghost predicate Told(es: seq<Event>, s: State) {
    && s.steps == |es|
    && (forall a :: a in s.log ==> AttemptTold(es, a))
    && (forall k :: k in s.puts ==> PutTold(es, k, s.puts[k]))
    && (forall u :: u in s.uploads ==> UploadTold(es, u))
    && (s.worker.Fetching? ==> s.worker.from < |es| && es[s.worker.from] == Visit(s.worker.key))
  }

  lemma PrefixTells(es: seq<Event>, e: Event)
    ensures forall a :: AttemptTold(es, a) ==> AttemptTold(es + [e], a)
    ensures forall k, i :: PutTold(es, k, i) ==> PutTold(es + [e], k, i)
    ensures forall u :: UploadTold(es, u) ==> UploadTold(es + [e], u)
  {
  }

  lemma NextIsTold(es: seq<Event>, s: State, e: Event)
    requires Told(es, s)
    ensures Told(es + [e], Next(s, e))
  {
    PrefixTells(es, e);
    AttemptsAreTold(es, s, e);
    match e
    case BeginScan(_) =>
    case Visit(key) =>
    case Store(f) =>
    case EndScan =>
    case CheckUpload(key, image, moderator) =>
      assert UploadTold(es + [e], Upload(key, image, moderator, s.steps));
    case StoreUpload(u, written) =>
      assert written ==> PutTold(es + [e], u.key, s.steps);
  }

  lemma AttemptsAreTold(es: seq<Event>, s: State, e: Event)
    requires Told(es, s)
    ensures forall a :: a in Next(s, e).log ==> AttemptTold(es + [e], a)
  {
    PrefixTells(es, e);
    if e.Store? && s.worker.Fetching? {
      var a := Attempt(s.worker.key, s.worker.now, OutcomeOf(e.fetch), s.worker.from, s.steps);
      assert AttemptTold(es + [e], a) && Next(s, e).log == s.log + [a];
    } else {
      assert Next(s, e).log == s.log;
    }
  }

  lemma {:induction false} HistoryIsTold(db: map<string, Text>, es: seq<Event>)
    ensures Told(es, Run(db, es))
  {
    if es != [] {
      var n := |es| - 1;
      HistoryIsTold(db, es[..n]);
      NextIsTold(es[..n], Run(db, es[..n]), es[n]);
      assert es == es[..n] + [es[n]];
    }
  }

  // ---- The budget of a scan ---------------------------------------------------------------------

  ghost predicate WithinBudget(s: State, base: nat) {
    match s.worker
    case Sleeping => |s.log| <= base + MAX_FETCHES_PER_SCAN
    case Scanning(_, attempts) => |s.log| == base + attempts && attempts <= MAX_FETCHES_PER_SCAN
    case Fetching(_, attempts, _, _) => |s.log| == base + attempts && attempts < MAX_FETCHES_PER_SCAN
  }

  /** Each scan adds at most 40 attempts, whatever the API does meanwhile. */
  lemma {:induction false} AtMostFortyFetches(s: State, now: UInt64, es: seq<Event>)
    requires s.worker.Sleeping? && forall e :: e in es ==> !e.BeginScan?
    ensures WithinBudget(RunFrom(Next(s, BeginScan(now)), es), |s.log|)
    ensures |RunFrom(Next(s, BeginScan(now)), es).log| <= |s.log| + 40
  {
    if es != [] {
      var n := |es| - 1;
      assert forall e :: e in es[..n] ==> e in es;
      AtMostFortyFetches(s, now, es[..n]);
      assert es[n] in es;
    }
  }

  // ---- The database, updated in place ---------------------------------------------------------

  /** One album of a scan's list, with what its fetch will return and what the API does before the scan looks at it
      and while it waits for the network. */
  datatype Album = Album(key: string, fetch: Fetch, before: seq<Event>, meanwhile: seq<Event>)

  predicate FromApi(es: seq<Event>) { forall e :: e in es ==> e.CheckUpload? || e.StoreUpload? }

  function VisitTrace(a: Album): seq<Event> { a.before + [Visit(a.key)] + a.meanwhile + [Store(a.fetch)] }

  /** The steps of a scan over these albums, up to where its budget runs out. */
  function Trace(s: State, albums: seq<Album>): seq<Event>
    decreases |albums|
  {
    if albums == [] || !s.worker.Scanning? || s.worker.attempts >= MAX_FETCHES_PER_SCAN then []
    else VisitTrace(albums[0]) + Trace(RunFrom(s, VisitTrace(albums[0])), albums[1..])
  }

  lemma {:induction false} RunFromAppend(s: State, a: seq<Event>, b: seq<Event>)
    ensures RunFrom(s, a + b) == RunFrom(RunFrom(s, a), b)
  {
    if b == [] {
      assert a + b == a;
    } else {
      var n := |b| - 1;
      RunFromAppend(s, a, b[..n]);
      assert (a + b)[..|a + b| - 1] == a + b[..n];
    }
  }

  lemma RunFromOne(s: State, e: Event)
    ensures RunFrom(s, [e]) == Next(s, e)
  {
    assert [e][..0] == [] && RunFrom(s, []) == s;
  }

  lemma VisitRuns(s: State, a: Album)
    ensures RunFrom(s, VisitTrace(a))
            == Next(RunFrom(Next(RunFrom(s, a.before), Visit(a.key)), a.meanwhile), Store(a.fetch))
  {
    RunFromAppend(s, a.before, [Visit(a.key)]);
    RunFromOne(RunFrom(s, a.before), Visit(a.key));
    RunFromAppend(s, a.before + [Visit(a.key)], a.meanwhile);
    RunFromAppend(s, a.before + [Visit(a.key)] + a.meanwhile, [Store(a.fetch)]);
    RunFromOne(RunFrom(s, a.before + [Visit(a.key)] + a.meanwhile), Store(a.fetch));
  }

  /** How the scan will have left things when it gets from album i to album `stopAt`. */
  ghost function Outlook(s: State, albums: seq<Album>, i: nat, stopAt: nat): State
    requires i <= stopAt <= |albums|
  {
    RunFrom(s, Trace(s, albums[i..stopAt]))
  }

  ghost function Visited(s: State, a: Album): State {
    Next(RunFrom(Next(RunFrom(s, a.before), Visit(a.key)), a.meanwhile), Store(a.fetch))
  }

  lemma OutlookGoesOn(s: State, albums: seq<Album>, i: nat, stopAt: nat)
    requires i < stopAt <= |albums| && s.worker.Scanning? && s.worker.attempts < MAX_FETCHES_PER_SCAN
    ensures Outlook(s, albums, i, stopAt) == Outlook(Visited(s, albums[i]), albums, i + 1, stopAt)
  {
    var left := albums[i..stopAt];
    assert left[0] == albums[i] && left[1..] == albums[i + 1..stopAt];
    VisitRuns(s, albums[i]);
    RunFromAppend(s, VisitTrace(albums[i]), Trace(RunFrom(s, VisitTrace(albums[i])), left[1..]));
  }

  lemma OutlookEnds(s: State, albums: seq<Album>, i: nat, stopAt: nat)
    requires i <= stopAt <= |albums| && s.worker.Scanning?
    requires i == stopAt || s.worker.attempts >= MAX_FETCHES_PER_SCAN
    ensures Outlook(s, albums, i, stopAt) == s
  {
  }

  class Scraper {
    var db: map<string, Text>
    var uploads: set<Upload>   // requests inside art.put
    var steps: nat             // how often either thread has moved
    ghost var rest: State      // the scraper thread and the history

    ghost function View(): State
      reads this
    {
      rest.(db := db, uploads := uploads, steps := steps)
    }

    constructor (db: map<string, Text>)
      ensures View() == Run(db, [])
    {
      this.db, uploads, steps := db, {}, 0;
      rest := Init(db);
    }

    /** art.put up to its write. */
    method CheckUpload(key: string, image: Text, moderator: bool) returns (accepted: bool)
      modifies this
      ensures View() == Next(old(View()), Event.CheckUpload(key, image, moderator)) && rest.worker == old(rest.worker)
      ensures accepted <==> image != [] && (HaveArt(db, key) ==> moderator)
    {
      accepted := false;
      if image != [] {
        var haveArt := BlobKey(key) in db && |db[BlobKey(key)]| > 0;
        accepted := !haveArt || moderator;
      }
      if accepted {
        uploads := uploads + {Upload(key, image, moderator, steps)};
      }
      steps := steps + 1;
    }

    /** The write of art.put: the blob first, then the tombstone goes. */
    method StoreUpload(u: Upload, written: bool)
      modifies this
      ensures View() == Next(old(View()), Event.StoreUpload(u, written)) && rest.worker == old(rest.worker)
    {
      ghost var was := View();
      if u in uploads {
        uploads := uploads - {u};
        if written {
          db := db[BlobKey(u.key) := u.image];
          db := db - {StatusKey(u.key)};
        }
      }
      steps := steps + 1;
      rest := Next(was, Event.StoreUpload(u, written));
    }

    /** What the API thread does while the scraper is not looking. */
    method Meanwhile(es: seq<Event>)
      requires FromApi(es)
      modifies this
      ensures View() == RunFrom(old(View()), es) && rest.worker == old(rest.worker)
    {
      for i := 0 to |es|
        invariant View() == RunFrom(old(View()), es[..i]) && rest.worker == old(rest.worker)
      {
        assert es[..i + 1][..i] == es[..i] && es[i] in es;
        match es[i] {
          case CheckUpload(key, image, moderator) =>
            var _ := CheckUpload(key, image, moderator);
          case StoreUpload(u, written) =>
            StoreUpload(u, written);
        }
      }
      assert es[..|es|] == es;
    }

    /** The two lookups before a fetch. */
    method CheckAlbum(key: string, now: UInt64, ghost attempts: nat) returns (skip: bool)
      requires rest.worker == Scanning(now, attempts) && attempts < MAX_FETCHES_PER_SCAN
      modifies this`steps, this`rest
      ensures View() == Next(old(View()), Visit(key))
      ensures rest.worker == if skip then Scanning(now, attempts) else Fetching(now, attempts, key, old(steps))
    {
      skip := BlobKey(key) in db;
      if !skip && StatusKey(key) in db {
        skip := IsNegativeCached(db[StatusKey(key)], now);
      }
      rest := Next(View(), Visit(key));
      steps := steps + 1;
    }

    /** What follows a fetch. */
    method StoreOutcome(key: string, fetch: Fetch, now: UInt64)
      requires rest.worker.Fetching? && rest.worker.key == key && rest.worker.now == now
      modifies this
      ensures View() == Next(old(View()), Store(fetch))
      ensures rest.worker == Scanning(now, old(rest.worker.attempts) + 1)
    {
      rest := Next(View(), Store(fetch));
      steps := steps + 1;
      if fetch.rc == 0 && fetch.buf.Some? && |fetch.buf.value| > 0 {
        db := db[BlobKey(key) := fetch.buf.value];
        db := db - {StatusKey(key)};
      } else {
        var row := BuildStatusRow(if fetch.rc == 1 then MISS else ERR, now);
        db := db[StatusKey(key) := row];
      }
    }

    /** The body of the loop for one album: check, fetch, store. */
    method VisitAlbum(a: Album, now: UInt64, attempts: nat) returns (spent: nat)
      requires rest.worker == Scanning(now, attempts) && attempts < MAX_FETCHES_PER_SCAN && FromApi(a.meanwhile)
      modifies this
      ensures View() == Next(RunFrom(Next(old(View()), Visit(a.key)), a.meanwhile), Store(a.fetch))
      ensures rest.worker == Scanning(now, spent) && spent <= attempts + 1
    {
      var skip := CheckAlbum(a.key, now, attempts);
      Meanwhile(a.meanwhile);
      if skip {
        rest := Next(View(), Store(a.fetch));   // no fetch, nothing to store
        steps := steps + 1;
        return attempts;
      }
      StoreOutcome(a.key, a.fetch, now);
      spent := attempts + 1;
    }

    /** scan_once from the clock reading on; `stopAt` is the album before which running_ is first seen false. */
    method ScanOnce(albums: seq<Album>, now: UInt64, stopAt: nat)
      requires stopAt <= |albums| && rest.worker.Sleeping?
      requires forall a :: a in albums ==> FromApi(a.before) && FromApi(a.meanwhile)
      modifies this
      ensures
        var begun := Next(old(View()), BeginScan(now));
        View() == Next(RunFrom(begun, Trace(begun, albums[..stopAt])), EndScan)
    {
      Begin(now);
      ghost var begun := View();
      var attempts: nat := 0;
      for i := 0 to |albums|
        invariant i <= stopAt && attempts <= MAX_FETCHES_PER_SCAN && rest.worker == Scanning(now, attempts)
        invariant Outlook(View(), albums, i, stopAt) == Outlook(begun, albums, 0, stopAt)
      {
        if i == stopAt || attempts >= MAX_FETCHES_PER_SCAN {
          OutlookEnds(View(), albums, i, stopAt);
          break;
        }
        OutlookGoesOn(View(), albums, i, stopAt);
        assert albums[i] in albums;
        Meanwhile(albums[i].before);
        attempts := VisitAlbum(albums[i], now, attempts);
      }
      OutlookEnds(View(), albums, stopAt, stopAt);
      assert albums[0..stopAt] == albums[..stopAt];
      End();
    }

    method Begin(now: UInt64)
      requires rest.worker.Sleeping?
      modifies this`steps, this`rest
      ensures View() == Next(old(View()), BeginScan(now)) && rest.worker == Scanning(now, 0)
    {
      rest := Next(View(), BeginScan(now));
      steps := steps + 1;
    }

    method End()
      modifies this`steps, this`rest
      ensures View() == Next(old(View()), EndScan)
    {
      rest := Next(View(), EndScan);
      steps := steps + 1;
    }
  }
}
