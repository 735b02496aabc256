/**
 * The batch save of the score-entry grid (POST of
 * app/api/penilaian/batch/route.ts).  The body carries one row per
 * employee: the employee id and one `sub_<id>` property per sub-criterion.
 * The route takes the latest assessment period (creating a default one
 * when there is none), finds or creates the employee's assessment for
 * that period, and for every acceptable `sub_` value upserts one detail:
 * the actual value, its gap to the sub-criterion's standard value, and the
 * weight the gap table gives the rounded gap.
 *
 * The database is a class holding one map per table; the functions on the
 * value `Db` say what each step does to it, and the methods of the class
 * are proved against them.
 */
module PenilaianBatch {
  import opened JsBuiltins

  // ---------------------------------------------------------------------
  // Tables and requests
  // ---------------------------------------------------------------------

  /** A `penilaianDetail` row.  `bobotGap` is `null` (`None`) when the gap
      table has no usable weight. */
  datatype Detail = Detail(nilaiAktual: real, gap: real, bobotGap: Option<real>)

  /** The tables the route reads and writes.
      - `standar`: sub-criterion id to its standard value (`nilaiStandar`);
      - `gapBobot`: the gap table, integer gap to weight (`nilaiGap` is
        unique there);
      - `latestPeriode`: the id of the period with the highest id, if any,
        and `nextPeriodeId` the id the next created period gets;
      - `penilaian`: (employee id, period id) to assessment id (the
        compound unique key `karyawanId_periodeId`), and
        `nextPenilaianId` the id the next created assessment gets;
      - `detail`: (assessment id, sub-criterion id) to detail (the
        compound unique key `penilaianId_subkriteriaId`). */
  datatype Db = Db(
    standar: map<int, real>,
    gapBobot: map<int, real>,
    latestPeriode: Option<int>,
    nextPeriodeId: int,
    penilaian: map<(int, int), int>,
    nextPenilaianId: int,
    detail: map<(int, int), Detail>)

  /** A row of `penilaianData`: `karyawanId` and the remaining properties
      (`...subkriteriaValues`) in their order, each value already read by
      `parseFloat` (`None` for NaN). */
  datatype Entry = Entry(karyawanId: int, values: seq<(string, Option<real>)>)

  /** The `penilaianData` property of the body: absent or falsy, present
      but not an array, or an array of rows. */
  datatype Payload = Missing | NotArray | Rows(rows: seq<Entry>)

  datatype SaveResult = SaveResult(karyawanId: int, penilaianId: int, success: bool)

  /** Status 400 with an error message, or status 200 with the results. */
  datatype Response = BadRequest | Ok(results: seq<SaveResult>)

  /** A database state together with the id a step found or created. */
  datatype Step = Step(db: Db, id: int)

  datatype Saved = Saved(db: Db, results: seq<SaveResult>)

  datatype Outcome = Outcome(db: Db, response: Response)

  /** Ids are below the next id to hand out, and no two assessments share
      an id. */
  ghost predicate Valid(db: Db) {
    && (db.latestPeriode.Some? ==> db.latestPeriode.value < db.nextPeriodeId)
    && (forall k :: k in db.penilaian ==> db.penilaian[k] < db.nextPenilaianId)
    && (forall k1, k2 :: k1 in db.penilaian && k2 in db.penilaian && k1 != k2 ==>
          db.penilaian[k1] != db.penilaian[k2])
  }

  // ---------------------------------------------------------------------
  // One `sub_` property (app/api/penilaian/batch/route.ts:69-113)
  // ---------------------------------------------------------------------

  predicate IsSubKey(key: string) {
    |key| >= 4 && key[..4] == "sub_"
  }

  /** `parseInt(key.replace('sub_', ''))` for a key that starts with
      `sub_`: the first occurrence of `sub_` is the prefix. */
  function SubkriteriaId(key: string): Option<int>
    requires IsSubKey(key)
  {
    ParseInt(key[4..])
  }

  /** The key the score grid writes for sub-criterion `id`: `sub_${id}`. */
  function SubKey(id: int): string {
    "sub_" + IntToDecimal(id)
  }

  /** `gapBobot?.bobot || null` for the row whose `nilaiGap` is
      `Math.round(gap)`: no row, or a weight of 0, gives `null`. */
  function BobotGap(gapBobot: map<int, real>, gap: real): Option<real> {
    var k := MathRound(gap);
    if k in gapBobot && gapBobot[k] != 0.0 then Some(gapBobot[k]) else None
  }

  /** The upsert one property makes: none for a key without the `sub_`
      prefix, a NaN value, a value outside [1, 5] or a sub-criterion id
      that is NaN or unknown; otherwise one, keyed by the assessment and
      the sub-criterion. */
  function FieldWrite(standar: map<int, real>, gapBobot: map<int, real>, pid: int, kv: (string, Option<real>))
    : seq<((int, int), Detail)>
  {
    var key := kv.0;
    var value := kv.1;
    if !IsSubKey(key) then []
    else if value.None? || value.value < 1.0 || value.value > 5.0 then []
    else
      var sid := SubkriteriaId(key);
      if sid.None? || sid.value !in standar then []
      else
        var gap := value.value - standar[sid.value];
        [((pid, sid.value), Detail(value.value, gap, BobotGap(gapBobot, gap)))]
  }

  /** The upserts of a row's properties, in property order. */
  function FieldWrites(standar: map<int, real>, gapBobot: map<int, real>, pid: int, values: seq<(string, Option<real>)>)
    : seq<((int, int), Detail)>
  {
    if |values| == 0 then []
    else FieldWrites(standar, gapBobot, pid, values[..|values| - 1]) +
         FieldWrite(standar, gapBobot, pid, values[|values| - 1])
  }

  /** A sequence of upserts on the detail table, each overwriting the row
      with its key or creating it. */
  function ApplyWrites(m: map<(int, int), Detail>, ws: seq<((int, int), Detail)>): map<(int, int), Detail> {
    if |ws| == 0 then m
    else ApplyWrites(m, ws[..|ws| - 1])[ws[|ws| - 1].0 := ws[|ws| - 1].1]
  }

  // ---------------------------------------------------------------------
  // Find-or-create (app/api/penilaian/batch/route.ts:15-66)
  // ---------------------------------------------------------------------

  /** The latest period, or a new default one when the table is empty. */
  function FindPeriode(db: Db): Step {
    match db.latestPeriode
    case Some(p) => Step(db, p)
    case None => Step(db.(latestPeriode := Some(db.nextPeriodeId), nextPeriodeId := db.nextPeriodeId + 1), db.nextPeriodeId)
  }

  /** The employee's assessment for the period, created when absent. */
  function FindPenilaian(db: Db, karyawanId: int, periodeId: int): Step {
    var key := (karyawanId, periodeId);
    if key in db.penilaian then Step(db, db.penilaian[key])
    else Step(db.(penilaian := db.penilaian[key := db.nextPenilaianId], nextPenilaianId := db.nextPenilaianId + 1),
              db.nextPenilaianId)
  }

  // ---------------------------------------------------------------------
  // The whole request (app/api/penilaian/batch/route.ts:4-126)
  // ---------------------------------------------------------------------

  /** One turn of the outer loop: find or create the assessment, upsert
      the details, report success. */
  function SaveRow(db: Db, periodeId: int, e: Entry): Step {
    var s := FindPenilaian(db, e.karyawanId, periodeId);
    Step(s.db.(detail := ApplyWrites(s.db.detail, FieldWrites(db.standar, db.gapBobot, s.id, e.values))), s.id)
  }

  function SaveAll(db: Db, periodeId: int, rows: seq<Entry>): Saved {
    if |rows| == 0 then Saved(db, [])
    else
      var before := SaveAll(db, periodeId, rows[..|rows| - 1]);
      var e := rows[|rows| - 1];
      var s := SaveRow(before.db, periodeId, e);
      Saved(s.db, before.results + [SaveResult(e.karyawanId, s.id, true)])
  }

  /** What the route writes and answers. */
  function PostResult(db: Db, payload: Payload): Outcome {
    match payload
    case Missing => Outcome(db, BadRequest)
    case NotArray => Outcome(db, BadRequest)
    case Rows(rows) =>
      var p := FindPeriode(db);
      var s := SaveAll(p.db, p.id, rows);
      Outcome(s.db, Ok(s.results))
  }

  // ---------------------------------------------------------------------
  // Properties of one property's upsert
  // ---------------------------------------------------------------------

  /** `parseInt` after dropping the prefix reads back the id the score
      grid wrote into the key, for every integer id. */
  lemma {:induction false} SubKeyRoundTrip(id: int)
    ensures IsSubKey(SubKey(id)) && SubkriteriaId(SubKey(id)) == Some(id)
  {
    var key := SubKey(id);
    assert key[..4] == "sub_";
    assert key[4..] == IntToDecimal(id);
    ParseIntOfDecimal(id);
  }

  /** The employee id travels under its own key, which is never read as a
      score. */
  lemma KaryawanIdIsNoScore(standar: map<int, real>, gapBobot: map<int, real>, pid: int, v: Option<real>)
    ensures FieldWrite(standar, gapBobot, pid, ("karyawanId", v)) == []
  {
    assert "karyawanId"[..4] != "sub_" by { assert "karyawanId"[0] == 'k'; }
  }

  /** A property is written exactly when it is a `sub_` key naming a known
      sub-criterion and its value is a number in [1, 5]; the detail then
      holds the value, its unrounded gap and the weight of the rounded
      gap. */
  lemma FieldWriteSpec(standar: map<int, real>, gapBobot: map<int, real>, pid: int, key: string, v: Option<real>)
    ensures var ws := FieldWrite(standar, gapBobot, pid, (key, v));
      && |ws| <= 1
      && (|ws| == 1 <==>
            IsSubKey(key) && v.Some? && 1.0 <= v.value <= 5.0 &&
            SubkriteriaId(key).Some? && SubkriteriaId(key).value in standar)
      && (|ws| == 1 ==>
            var sid := SubkriteriaId(key).value;
            && ws[0].0 == (pid, sid)
            && ws[0].1.nilaiAktual == v.value
            && ws[0].1.gap == v.value - standar[sid]
            && ws[0].1.bobotGap == BobotGap(gapBobot, v.value - standar[sid]))
  {
  }

  /** Every upsert goes to assessment `pid` and a known sub-criterion,
      and holds a value in [1, 5] with its unrounded gap and the weight of
      the rounded gap. */
  ghost predicate SoundWrites(standar: map<int, real>, gapBobot: map<int, real>, pid: int, ws: seq<((int, int), Detail)>) {
    forall j :: 0 <= j < |ws| ==>
      && ws[j].0.0 == pid
      && ws[j].0.1 in standar
      && 1.0 <= ws[j].1.nilaiAktual <= 5.0
      && ws[j].1.gap == ws[j].1.nilaiAktual - standar[ws[j].0.1]
      && ws[j].1.bobotGap == BobotGap(gapBobot, ws[j].1.gap)
  }

  /** Every upsert of a row is sound. */
  lemma {:induction false} FieldWritesSound(standar: map<int, real>, gapBobot: map<int, real>, pid: int,
                                            values: seq<(string, Option<real>)>)
    ensures SoundWrites(standar, gapBobot, pid, FieldWrites(standar, gapBobot, pid, values))
  {
    if |values| > 0 {
      var n := |values| - 1;
      FieldWritesSound(standar, gapBobot, pid, values[..n]);
      FieldWriteSpec(standar, gapBobot, pid, values[n].0, values[n].1);
      var w0 := FieldWrites(standar, gapBobot, pid, values[..n]);
      var w1 := FieldWrite(standar, gapBobot, pid, values[n]);
      assert w1 == FieldWrite(standar, gapBobot, pid, (values[n].0, values[n].1));
      var ws := FieldWrites(standar, gapBobot, pid, values);
      assert ws == w0 + w1;
      forall j | 0 <= j < |ws|
        ensures ws[j].0.0 == pid && ws[j].0.1 in standar && 1.0 <= ws[j].1.nilaiAktual <= 5.0
        ensures ws[j].1.gap == ws[j].1.nilaiAktual - standar[ws[j].0.1]
        ensures ws[j].1.bobotGap == BobotGap(gapBobot, ws[j].1.gap)
      {
        if j < |w0| {
          assert ws[j] == w0[j];
        } else {
          assert ws[j] == w1[0];
        }
      }
    }
  }

  /** The weight lookup rounds halves up, so a gap of -2.5 reads the row
      of gap -2 and a gap of 2.5 the row of gap 3; a stored weight of 0
      is saved as `null`. */
  lemma BobotGapRounding(gapBobot: map<int, real>)
    ensures -2 in gapBobot && gapBobot[-2] != 0.0 ==> BobotGap(gapBobot, -2.5) == Some(gapBobot[-2])
    ensures 3 in gapBobot && gapBobot[3] != 0.0 ==> BobotGap(gapBobot, 2.5) == Some(gapBobot[3])
    ensures forall gap: real :: MathRound(gap) in gapBobot && gapBobot[MathRound(gap)] == 0.0 ==>
      BobotGap(gapBobot, gap) == None
    ensures forall gap: real :: MathRound(gap) !in gapBobot ==> BobotGap(gapBobot, gap) == None
  {
    MathRoundIsUnique(-2.5, -2);
    MathRoundIsUnique(2.5, 3);
  }

  // ---------------------------------------------------------------------
  // Upsert sequences
  // ---------------------------------------------------------------------

  lemma {:induction false} ApplyWritesAppend(m: map<(int, int), Detail>, a: seq<((int, int), Detail)>, b: seq<((int, int), Detail)>)
    ensures ApplyWrites(m, a + b) == ApplyWrites(ApplyWrites(m, a), b)
  {
    if |b| > 0 {
      var n := |b| - 1;
      ApplyWritesAppend(m, a, b[..n]);
      assert (a + b)[..|a + b| - 1] == a + b[..n];
      assert (a + b)[|a + b| - 1] == b[n];
    } else {
      assert a + b == a;
    }
  }

  /** Upserts only override: the result is the old table overridden by
      the table the upserts alone would build. */
  lemma {:induction false} ApplyWritesOverride(m: map<(int, int), Detail>, ws: seq<((int, int), Detail)>)
    ensures ApplyWrites(m, ws) == m + ApplyWrites(map[], ws)
  {
    if |ws| > 0 {
      ApplyWritesOverride(m, ws[..|ws| - 1]);
    }
  }

  /** Repeating the same upserts changes nothing more. */
  lemma ApplyWritesTwice(m: map<(int, int), Detail>, ws: seq<((int, int), Detail)>)
    ensures ApplyWrites(ApplyWrites(m, ws), ws) == ApplyWrites(m, ws)
  {
    ApplyWritesOverride(m, ws);
    ApplyWritesOverride(ApplyWrites(m, ws), ws);
    var w := ApplyWrites(map[], ws);
    assert (m + w) + w == m + w;
  }

  /** After the upserts, a key holds the detail of the last upsert to it,
      or its old detail when no upsert names it. */
  lemma {:induction false} ApplyWritesLastWins(m: map<(int, int), Detail>, ws: seq<((int, int), Detail)>, key: (int, int))
    ensures key in ApplyWrites(m, ws) <==> key in m || exists j :: 0 <= j < |ws| && ws[j].0 == key
    ensures (forall j :: 0 <= j < |ws| ==> ws[j].0 != key) && key in m ==> ApplyWrites(m, ws)[key] == m[key]
    ensures forall j :: 0 <= j < |ws| && ws[j].0 == key && (forall k :: j < k < |ws| ==> ws[k].0 != key) ==>
      ApplyWrites(m, ws)[key] == ws[j].1
  {
    if |ws| > 0 {
      var n := |ws| - 1;
      ApplyWritesLastWins(m, ws[..n], key);
      assert forall j :: 0 <= j < n ==> ws[..n][j] == ws[j];
    }
  }

  // ---------------------------------------------------------------------
  // Properties of the whole request
  // ---------------------------------------------------------------------

  /** The upserts of the whole request, given the assessment id each row
      was saved under. */
  function AllWrites(standar: map<int, real>, gapBobot: map<int, real>, rows: seq<Entry>, pids: seq<int>)
    : seq<((int, int), Detail)>
    requires |pids| == |rows|
  {
    if |rows| == 0 then []
    else AllWrites(standar, gapBobot, rows[..|rows| - 1], pids[..|rows| - 1]) +
         FieldWrites(standar, gapBobot, pids[|rows| - 1], rows[|rows| - 1].values)
  }

  function PenilaianIds(results: seq<SaveResult>): seq<int> {
    seq(|results|, i requires 0 <= i < |results| => results[i].penilaianId)
  }

  /** The loop over the rows leaves the read-only tables and the periods
      alone and keeps every existing assessment. */
  lemma {:induction false} SaveAllKeeps(db: Db, periodeId: int, rows: seq<Entry>)
    ensures var s := SaveAll(db, periodeId, rows);
      && s.db.standar == db.standar && s.db.gapBobot == db.gapBobot
      && s.db.latestPeriode == db.latestPeriode && s.db.nextPeriodeId == db.nextPeriodeId
      && (forall k :: k in db.penilaian ==> k in s.db.penilaian && s.db.penilaian[k] == db.penilaian[k])
  {
    if |rows| > 0 {
      SaveAllKeeps(db, periodeId, rows[..|rows| - 1]);
    }
  }

  lemma {:induction false} SaveAllLength(db: Db, periodeId: int, rows: seq<Entry>)
    ensures |SaveAll(db, periodeId, rows).results| == |rows|
  {
    if |rows| > 0 {
      SaveAllLength(db, periodeId, rows[..|rows| - 1]);
    }
  }

  /** Row i's answer names row i's employee, reports success, and carries
      the id the employee's assessment for the period has after the loop. */
  lemma {:induction false} SaveAllAt(db: Db, periodeId: int, rows: seq<Entry>, i: nat)
    requires i < |rows|
    ensures var s := SaveAll(db, periodeId, rows);
      && |s.results| == |rows|
      && s.results[i].karyawanId == rows[i].karyawanId
      && s.results[i].success
      && (rows[i].karyawanId, periodeId) in s.db.penilaian
      && s.db.penilaian[(rows[i].karyawanId, periodeId)] == s.results[i].penilaianId
  {
    var n := |rows| - 1;
    var before := SaveAll(db, periodeId, rows[..n]);
    var s := SaveAll(db, periodeId, rows);
    SaveAllLength(db, periodeId, rows[..n]);
    var f := FindPenilaian(before.db, rows[n].karyawanId, periodeId);
    assert s.db.penilaian == f.db.penilaian;
    if i < n {
      SaveAllAt(db, periodeId, rows[..n], i);
      assert rows[..n][i] == rows[i];
      assert s.results[i] == before.results[i];
      var key := (rows[i].karyawanId, periodeId);
      assert key in f.db.penilaian && f.db.penilaian[key] == before.db.penilaian[key];
    } else {
      assert s.results[i] == SaveResult(rows[n].karyawanId, f.id, true);
    }
  }

  /** The loop answers once per row, in row order, and leaves each row's
      employee with an assessment for the period whose id is the one
      reported. */
  lemma {:induction false} SaveAllShape(db: Db, periodeId: int, rows: seq<Entry>)
    ensures var s := SaveAll(db, periodeId, rows);
      && |s.results| == |rows|
      && (forall i :: 0 <= i < |rows| ==>
            && s.results[i].karyawanId == rows[i].karyawanId
            && s.results[i].success
            && (rows[i].karyawanId, periodeId) in s.db.penilaian
            && s.db.penilaian[(rows[i].karyawanId, periodeId)] == s.results[i].penilaianId)
  {
    SaveAllLength(db, periodeId, rows);
    forall i | 0 <= i < |rows|
      ensures var s := SaveAll(db, periodeId, rows);
        && s.results[i].karyawanId == rows[i].karyawanId
        && s.results[i].success
        && (rows[i].karyawanId, periodeId) in s.db.penilaian
        && s.db.penilaian[(rows[i].karyawanId, periodeId)] == s.results[i].penilaianId
    {
      SaveAllAt(db, periodeId, rows, i);
    }
  }

  /** The details after the loop are the old ones with the upserts of
      every row applied in order. */
  lemma {:induction false} SaveAllDetail(db: Db, periodeId: int, rows: seq<Entry>)
    ensures var s := SaveAll(db, periodeId, rows);
      && |s.results| == |rows|
      && s.db.detail == ApplyWrites(db.detail, AllWrites(db.standar, db.gapBobot, rows, PenilaianIds(s.results)))
  {
    if |rows| > 0 {
      var n := |rows| - 1;
      var before := SaveAll(db, periodeId, rows[..n]);
      var s := SaveAll(db, periodeId, rows);
      SaveAllDetail(db, periodeId, rows[..n]);
      SaveAllKeeps(db, periodeId, rows[..n]);
      var pids := PenilaianIds(s.results);
      assert pids[..n] == PenilaianIds(before.results);
      assert rows[..n][..n] == rows[..n];
      ApplyWritesAppend(db.detail, AllWrites(db.standar, db.gapBobot, rows[..n], pids[..n]),
                        FieldWrites(db.standar, db.gapBobot, pids[n], rows[n].values));
    }
  }

  /** When every row's employee already has an assessment for the period,
      no assessment is created and each row reports the existing one. */
  lemma {:induction false} SaveAllFindsExisting(db: Db, periodeId: int, rows: seq<Entry>)
    requires forall i :: 0 <= i < |rows| ==> (rows[i].karyawanId, periodeId) in db.penilaian
    ensures var s := SaveAll(db, periodeId, rows);
      && s.db.penilaian == db.penilaian && s.db.nextPenilaianId == db.nextPenilaianId
      && |s.results| == |rows|
      && forall i :: 0 <= i < |rows| ==> s.results[i].penilaianId == db.penilaian[(rows[i].karyawanId, periodeId)]
  {
    if |rows| > 0 {
      var n := |rows| - 1;
      var before := SaveAll(db, periodeId, rows[..n]);
      var s := SaveAll(db, periodeId, rows);
      assert forall i :: 0 <= i < n ==> rows[..n][i] == rows[i];
      SaveAllFindsExisting(db, periodeId, rows[..n]);
      var key := (rows[n].karyawanId, periodeId);
      assert key in before.db.penilaian;
      var f := FindPenilaian(before.db, rows[n].karyawanId, periodeId);
      assert f == Step(before.db, db.penilaian[key]);
      assert s.db.penilaian == db.penilaian && s.db.nextPenilaianId == db.nextPenilaianId;
      assert s.results == before.results + [SaveResult(rows[n].karyawanId, db.penilaian[key], true)];
    }
  }

  /** A body without a `penilaianData` array is answered with status 400
      and nothing is written; an array, even an empty one, is answered
      with one success entry per row, in row order. */
  lemma PostResponds(db: Db, payload: Payload)
    ensures var o := PostResult(db, payload);
      && (o.response.BadRequest? <==> !payload.Rows?)
      && (o.response.BadRequest? ==> o.db == db)
      && (o.response.Ok? ==>
            && |o.response.results| == |payload.rows|
            && forall i :: 0 <= i < |payload.rows| ==>
                 o.response.results[i].karyawanId == payload.rows[i].karyawanId && o.response.results[i].success)
  {
    if payload.Rows? {
      var p := FindPeriode(db);
      SaveAllShape(p.db, p.id, payload.rows);
    }
  }

  /** Saving the same body twice leaves the database as saving it once,
      and gives the same answer. */
  lemma PostIdempotent(db: Db, payload: Payload)
    ensures var once := PostResult(db, payload);
      PostResult(once.db, payload) == once
  {
    if payload.Rows? {
      var rows := payload.rows;
      var p := FindPeriode(db);
      var s1 := SaveAll(p.db, p.id, rows);
      SaveAllShape(p.db, p.id, rows);
      SaveAllKeeps(p.db, p.id, rows);
      assert FindPeriode(s1.db) == Step(s1.db, p.id);
      SaveAllFindsExisting(s1.db, p.id, rows);
      var s2 := SaveAll(s1.db, p.id, rows);
      SaveAllKeeps(s1.db, p.id, rows);
      SaveAllShape(s1.db, p.id, rows);
      forall i | 0 <= i < |rows| ensures s2.results[i] == s1.results[i] { }
      assert s2.results == s1.results;
      SaveAllDetail(p.db, p.id, rows);
      SaveAllDetail(s1.db, p.id, rows);
      ApplyWritesTwice(p.db.detail, AllWrites(p.db.standar, p.db.gapBobot, rows, PenilaianIds(s1.results)));
      assert s2.db == s1.db;
    }
  }

  lemma FindPenilaianValid(db: Db, karyawanId: int, periodeId: int)
    requires Valid(db)
    ensures var s := FindPenilaian(db, karyawanId, periodeId);
      && Valid(s.db)
      && (karyawanId, periodeId) in s.db.penilaian && s.db.penilaian[(karyawanId, periodeId)] == s.id
  {
  }

  lemma {:induction false} SaveAllValid(db: Db, periodeId: int, rows: seq<Entry>)
    requires Valid(db)
    ensures Valid(SaveAll(db, periodeId, rows).db)
  {
    if |rows| > 0 {
      var n := |rows| - 1;
      SaveAllValid(db, periodeId, rows[..n]);
      FindPenilaianValid(SaveAll(db, periodeId, rows[..n]).db, rows[n].karyawanId, periodeId);
    }
  }

  /** The route keeps ids fresh: at most one assessment per employee and
      period (the map's key), and no id shared by two of them. */
  lemma PostValid(db: Db, payload: Payload)
    requires Valid(db)
    ensures Valid(PostResult(db, payload).db)
  {
    if payload.Rows? {
      var p := FindPeriode(db);
      SaveAllValid(p.db, p.id, payload.rows);
    }
  }

  // ---------------------------------------------------------------------
  // The store
  // ---------------------------------------------------------------------

  class PenilaianStore {
    var standar: map<int, real>
    var gapBobot: map<int, real>
    var latestPeriode: Option<int>
    var nextPeriodeId: int
    var penilaian: map<(int, int), int>
    var nextPenilaianId: int
    var detail: map<(int, int), Detail>

    function Snapshot(): Db
      reads this
    {
      Db(standar, gapBobot, latestPeriode, nextPeriodeId, penilaian, nextPenilaianId, detail)
    }

    /** A database with the given sub-criteria and gap table and no
        periods, assessments or details. */
    constructor (standar: map<int, real>, gapBobot: map<int, real>)
      ensures Snapshot() == Db(standar, gapBobot, None, 1, map[], 1, map[])
      ensures Valid(Snapshot())
    {
      this.standar := standar;
      this.gapBobot := gapBobot;
      latestPeriode := None;
      nextPeriodeId := 1;
      penilaian := map[];
      nextPenilaianId := 1;
      detail := map[];
    }

    method FindOrCreatePeriode() returns (periodeId: int)
      modifies this
      ensures Snapshot() == FindPeriode(old(Snapshot())).db
      ensures periodeId == FindPeriode(old(Snapshot())).id
    {
      if latestPeriode.Some? {
        periodeId := latestPeriode.value;
      } else {
        periodeId := nextPeriodeId;
        latestPeriode := Some(periodeId);
        nextPeriodeId := nextPeriodeId + 1;
      }
    }

    method FindOrCreatePenilaian(karyawanId: int, periodeId: int) returns (penilaianId: int)
      modifies this
      ensures Snapshot() == FindPenilaian(old(Snapshot()), karyawanId, periodeId).db
      ensures penilaianId == FindPenilaian(old(Snapshot()), karyawanId, periodeId).id
    {
      var key := (karyawanId, periodeId);
      if key in penilaian {
        penilaianId := penilaian[key];
      } else {
        penilaianId := nextPenilaianId;
        penilaian := penilaian[key := penilaianId];
        nextPenilaianId := nextPenilaianId + 1;
      }
    }

    /** The inner loop: one upsert per acceptable property. */
    method SaveValues(penilaianId: int, values: seq<(string, Option<real>)>)
      modifies this
      ensures Snapshot() == old(Snapshot()).(detail := ApplyWrites(old(detail), FieldWrites(standar, gapBobot, penilaianId, values)))
    {
      var i := 0;
      while i < |values|
        invariant 0 <= i <= |values|
        invariant Snapshot() == old(Snapshot()).(detail := ApplyWrites(old(detail), FieldWrites(standar, gapBobot, penilaianId, values[..i])))
      {
        assert values[..i + 1][..i] == values[..i];
        var key := values[i].0;
        var value := values[i].1;
        ghost var ws0 := FieldWrites(standar, gapBobot, penilaianId, values[..i]);
        assert FieldWrites(standar, gapBobot, penilaianId, values[..i + 1]) ==
               ws0 + FieldWrite(standar, gapBobot, penilaianId, values[i]);
        if IsSubKey(key) && value.Some? && 1.0 <= value.value <= 5.0 {
          var subkriteriaId := SubkriteriaId(key);
          if subkriteriaId.Some? && subkriteriaId.value in standar {
            var nilaiAktual := value.value;
            var gap := nilaiAktual - standar[subkriteriaId.value];
            var w := ((penilaianId, subkriteriaId.value), Detail(nilaiAktual, gap, BobotGap(gapBobot, gap)));
            detail := detail[w.0 := w.1];
            assert ApplyWrites(old(detail), ws0 + [w]) == ApplyWrites(old(detail), ws0)[w.0 := w.1] by {
              assert (ws0 + [w])[..|ws0|] == ws0;
            }
          } else {
            assert ws0 + [] == ws0;
          }
        } else {
          assert ws0 + [] == ws0;
        }
        i := i + 1;
      }
      assert values[..i] == values;
    }

    /** `POST /api/penilaian/batch`. */
    method Post(payload: Payload) returns (response: Response)
      modifies this
      ensures Snapshot() == PostResult(old(Snapshot()), payload).db
      ensures response == PostResult(old(Snapshot()), payload).response
    {
      if !payload.Rows? {
        return BadRequest;
      }
      var rows := payload.rows;
      var periodeId := FindOrCreatePeriode();
      ghost var start := Snapshot();
      var results: seq<SaveResult> := [];
      var i := 0;
      while i < |rows|
        invariant 0 <= i <= |rows|
        invariant Saved(Snapshot(), results) == SaveAll(start, periodeId, rows[..i])
      {
        assert rows[..i + 1][..i] == rows[..i];
        var data := rows[i];
        ghost var before := Snapshot();
        var penilaianId := FindOrCreatePenilaian(data.karyawanId, periodeId);
        SaveValues(penilaianId, data.values);
        assert standar == before.standar && gapBobot == before.gapBobot;
        results := results + [SaveResult(data.karyawanId, penilaianId, true)];
        i := i + 1;
      }
      assert rows[..i] == rows;
      response := Ok(results);
    }
  }
}
