/**
 * The employee service (services/karyawan.service.ts): creating an
 * employee together with the per-sub-criterion scores, whose mean, scaled
 * to 100, becomes the performance score; importing a batch of such
 * employees one by one, counting successes and failures; and averaging
 * the employees' figures.
 *
 * Employees are stored by `nip`.  The service looks employees up with
 * `findUnique({ where: { nip } })`, so `nip` is a unique key, and creating
 * a second employee with a stored `nip` fails; that is the failure the
 * model gives `create`.
 */
module KaryawanService {
  import opened JsBuiltins

  datatype PenilaianInput = PenilaianInput(subKriteriaId: string, nilai: real)

  /** `CreateKaryawanWithPenilaianInput`. */
  datatype CreateInput = CreateInput(nip: string, nama: string, jabatan: string, departemen: string, penilaian: seq<PenilaianInput>)

  datatype DetailRow = DetailRow(subKriteriaId: string, nilai: real)

  /** A stored employee with its score details. */
  datatype Karyawan = Karyawan(
    nip: string, nama: string, jabatan: string, departemen: string,
    nilaiKinerja: real, kehadiran: real, produktivitas: real, kualitasKerja: real,
    details: seq<DetailRow>)

  // ---------------------------------------------------------------------
  // Performance score (services/karyawan.service.ts:128-130)
  // ---------------------------------------------------------------------

  /** `penilaian.reduce((sum, p) => sum + p.nilai, 0)`. */
  function TotalNilai(ps: seq<PenilaianInput>): real {
    if |ps| == 0 then 0.0 else TotalNilai(ps[..|ps| - 1]) + ps[|ps| - 1].nilai
  }

  /** The mean score over 5, times 100; 0 for no scores. */
  function PerformanceScore(ps: seq<PenilaianInput>): real {
    var avg := if |ps| > 0 then TotalNilai(ps) / |ps| as real else 0.0;
    avg / 5.0 * 100.0
  }

  /** A total of n scores in [lo, hi] lies in [n lo, n hi]. */
  lemma {:induction false} TotalNilaiBounds(ps: seq<PenilaianInput>, lo: real, hi: real)
    requires forall i :: 0 <= i < |ps| ==> lo <= ps[i].nilai <= hi
    ensures |ps| as real * lo <= TotalNilai(ps) <= |ps| as real * hi
  {
    if |ps| > 0 {
      TotalNilaiBounds(ps[..|ps| - 1], lo, hi);
    }
  }

  /** A quotient t / n with n lo <= t <= n hi lies in [lo, hi]. */
  lemma DivBounds(t: real, n: real, lo: real, hi: real)
    requires n > 0.0 && n * lo <= t <= n * hi
    ensures lo <= t / n <= hi
  {
    var q := t / n;
    assert q * n == t;
  }

  /** With no scores the performance score is 0; with scores all in
      [1, 5] it lies in [20, 100]; and equal scores c give 20 c. */
  lemma PerformanceScoreBounds(ps: seq<PenilaianInput>)
    ensures |ps| == 0 ==> PerformanceScore(ps) == 0.0
    ensures |ps| > 0 && (forall i :: 0 <= i < |ps| ==> 1.0 <= ps[i].nilai <= 5.0) ==>
      20.0 <= PerformanceScore(ps) <= 100.0
  {
    if |ps| > 0 && (forall i :: 0 <= i < |ps| ==> 1.0 <= ps[i].nilai <= 5.0) {
      TotalNilaiBounds(ps, 1.0, 5.0);
      var n := |ps| as real;
      DivBounds(TotalNilai(ps), n, 1.0, 5.0);
    }
  }

  lemma PerformanceScoreOfEqual(ps: seq<PenilaianInput>, c: real)
    requires |ps| > 0
    requires forall i :: 0 <= i < |ps| ==> ps[i].nilai == c
    ensures PerformanceScore(ps) == 20.0 * c
  {
    TotalNilaiBounds(ps, c, c);
    assert TotalNilai(ps) == |ps| as real * c;
  }

  // ---------------------------------------------------------------------
  // Creation (services/karyawan.service.ts:125-163)
  // ---------------------------------------------------------------------

  /** The record `prisma.karyawan.create` stores. */
  function NewKaryawan(input: CreateInput): Karyawan {
    Karyawan(input.nip, input.nama, input.jabatan, input.departemen,
             PerformanceScore(input.penilaian), 0.0, 0.0, 0.0,
             seq(|input.penilaian|, i requires 0 <= i < |input.penilaian| =>
               DetailRow(input.penilaian[i].subKriteriaId, input.penilaian[i].nilai)))
  }

  /** The created employee has exactly one detail per input score, with the
      same sub-criterion id and value, the input's identity fields, the
      performance score of its scores, and 0 attendance, productivity and
      work quality. */
  lemma NewKaryawanSpec(input: CreateInput)
    ensures var k := NewKaryawan(input);
      && k.nip == input.nip && k.nama == input.nama
      && k.jabatan == input.jabatan && k.departemen == input.departemen
      && k.kehadiran == 0.0 && k.produktivitas == 0.0 && k.kualitasKerja == 0.0
      && k.nilaiKinerja == PerformanceScore(input.penilaian)
      && |k.details| == |input.penilaian|
      && forall i :: 0 <= i < |input.penilaian| ==>
           k.details[i].subKriteriaId == input.penilaian[i].subKriteriaId && k.details[i].nilai == input.penilaian[i].nilai
  {
  }

  /** `createKaryawanWithPenilaian` on the table `db`: `None` when it
      throws because the `nip` is taken. */
  function Create(db: map<string, Karyawan>, input: CreateInput): (r: Option<map<string, Karyawan>>)
    ensures r.None? <==> input.nip in db
    ensures r.Some? ==> r.value == db[input.nip := NewKaryawan(input)]
  {
    if input.nip in db then None else Some(db[input.nip := NewKaryawan(input)])
  }

  // ---------------------------------------------------------------------
  // Batch import (services/karyawan.service.ts:168-191)
  // ---------------------------------------------------------------------

  /** `results`. */
  datatype ImportResults = ImportResults(success: nat, failed: nat, errors: seq<string>)

  /** The message of a failed item; `error` is the text of the thrown
      error. */
  function ErrorMessage(item: CreateInput, error: string): string {
    "Failed to import " + item.nip + " - " + item.nama + ": " + error
  }

  /** The message shows the item's nip, then its name. */
  lemma ErrorMessageNames(item: CreateInput, error: string)
    ensures var m := ErrorMessage(item, error);
      && |m| >= 17 + |item.nip| + 3 + |item.nama|
      && m[17..17 + |item.nip|] == item.nip
      && m[17 + |item.nip| + 3..17 + |item.nip| + 3 + |item.nama|] == item.nama
  {
  }

  datatype Imported = Imported(db: map<string, Karyawan>, results: ImportResults)

  /** The batch import, item after item: a failure is counted and
      reported, and the loop goes on. */
  function ImportAll(db: map<string, Karyawan>, data: seq<CreateInput>, error: string): (r: Imported)
    ensures r.results.success + r.results.failed == |data|
    ensures |r.results.errors| == r.results.failed
  {
    if |data| == 0 then Imported(db, ImportResults(0, 0, []))
    else
      var prev := ImportAll(db, data[..|data| - 1], error);
      var item := data[|data| - 1];
      match Create(prev.db, item)
      case Some(db') => Imported(db', prev.results.(success := prev.results.success + 1))
      case None => Imported(prev.db, prev.results.(failed := prev.results.failed + 1,
                                                  errors := prev.results.errors + [ErrorMessage(item, error)]))
  }

  /** Item i fails when its nip was stored before the batch or belongs to
      an earlier item (which then either was stored or failed for the same
      reason). */
  predicate Fails(db: map<string, Karyawan>, data: seq<CreateInput>, i: int)
    requires 0 <= i < |data|
  {
    data[i].nip in db || exists j :: 0 <= j < i && data[j].nip == data[i].nip
  }

  /** The messages of the failing items, in input order. */
  function FailureMessages(db: map<string, Karyawan>, data: seq<CreateInput>, error: string): seq<string> {
    if |data| == 0 then []
    else
      var last := if Fails(db, data, |data| - 1) then [ErrorMessage(data[|data| - 1], error)] else [];
      FailureMessages(db, data[..|data| - 1], error) + last
  }

  /** Whether an earlier item fails does not depend on the items after it. */
  lemma FailsPrefix(db: map<string, Karyawan>, data: seq<CreateInput>, n: int, i: int)
    requires 0 <= i < n <= |data|
    ensures Fails(db, data[..n], i) == Fails(db, data, i)
  {
    var p := data[..n];
    assert p[i] == data[i];
    if exists j :: 0 <= j < i && data[j].nip == data[i].nip {
      var j :| 0 <= j < i && data[j].nip == data[i].nip;
      assert p[j] == data[j];
    }
    if exists j :: 0 <= j < i && p[j].nip == p[i].nip {
      var j :| 0 <= j < i && p[j].nip == p[i].nip;
      assert p[j] == data[j];
    }
  }

  /** The nips stored after the batch: the old ones and those of the items. */
  lemma {:induction false} ImportAllKeys(db: map<string, Karyawan>, data: seq<CreateInput>, error: string, k: string)
    ensures k in ImportAll(db, data, error).db <==> k in db || exists i :: 0 <= i < |data| && data[i].nip == k
  {
    if |data| > 0 {
      var n := |data| - 1;
      var p := data[..n];
      ImportAllKeys(db, p, error, k);
      if exists i :: 0 <= i < |p| && p[i].nip == k {
        var i :| 0 <= i < |p| && p[i].nip == k;
        assert data[i] == p[i];
      }
      if exists i :: 0 <= i < |data| && data[i].nip == k {
        var i :| 0 <= i < |data| && data[i].nip == k;
        if i < n {
          assert p[i] == data[i];
        }
      }
    }
  }

  /** An employee stored before the batch is left as it was. */
  lemma {:induction false} ImportAllKeeps(db: map<string, Karyawan>, data: seq<CreateInput>, error: string, k: string)
    requires k in db
    ensures k in ImportAll(db, data, error).db && ImportAll(db, data, error).db[k] == db[k]
  {
    if |data| > 0 {
      ImportAllKeeps(db, data[..|data| - 1], error, k);
    }
  }

  /** The last item fails exactly when its nip is stored by then. */
  lemma FailsLast(db: map<string, Karyawan>, data: seq<CreateInput>, error: string)
    requires |data| > 0
    ensures Fails(db, data, |data| - 1) <==> data[|data| - 1].nip in ImportAll(db, data[..|data| - 1], error).db
  {
    var n := |data| - 1;
    var p := data[..n];
    ImportAllKeys(db, p, error, data[n].nip);
    if exists j :: 0 <= j < n && data[j].nip == data[n].nip {
      var j :| 0 <= j < n && data[j].nip == data[n].nip;
      assert p[j] == data[j];
    }
    if exists j :: 0 <= j < |p| && p[j].nip == data[n].nip {
      var j :| 0 <= j < |p| && p[j].nip == data[n].nip;
      assert data[j] == p[j];
    }
  }

  /** An item that does not fail is stored, and no later item replaces it. */
  lemma {:induction false} ImportAllStores(db: map<string, Karyawan>, data: seq<CreateInput>, error: string, i: int)
    requires 0 <= i < |data| && !Fails(db, data, i)
    ensures data[i].nip in ImportAll(db, data, error).db
    ensures ImportAll(db, data, error).db[data[i].nip] == NewKaryawan(data[i])
  {
    var n := |data| - 1;
    var p := data[..n];
    FailsLast(db, data, error);
    if i < n {
      assert p[i] == data[i];
      FailsPrefix(db, data, n, i);
      ImportAllStores(db, p, error, i);
      assert data[n].nip != data[i].nip || Fails(db, data, n);
    }
  }

  /** The errors are exactly the failing items' messages, in order. */
  lemma {:induction false} ImportAllErrors(db: map<string, Karyawan>, data: seq<CreateInput>, error: string)
    ensures ImportAll(db, data, error).results.errors == FailureMessages(db, data, error)
  {
    if |data| > 0 {
      ImportAllErrors(db, data[..|data| - 1], error);
      FailsLast(db, data, error);
    }
  }

  /** After the batch the table holds the old employees unchanged and one
      employee per new nip: the first item with that nip, whatever failed
      before or after it; the errors are exactly the failing items'
      messages, in order. */
  lemma ImportAllSpec(db: map<string, Karyawan>, data: seq<CreateInput>, error: string)
    ensures var r := ImportAll(db, data, error);
      && (forall k :: k in r.db <==> k in db || exists i :: 0 <= i < |data| && data[i].nip == k)
      && (forall k :: k in db ==> r.db[k] == db[k])
      && (forall i :: 0 <= i < |data| && !Fails(db, data, i) ==> r.db[data[i].nip] == NewKaryawan(data[i]))
      && r.results.errors == FailureMessages(db, data, error)
  {
    var r := ImportAll(db, data, error);
    forall k ensures k in r.db <==> k in db || exists i :: 0 <= i < |data| && data[i].nip == k {
      ImportAllKeys(db, data, error, k);
    }
    forall k | k in db ensures r.db[k] == db[k] {
      ImportAllKeeps(db, data, error, k);
    }
    forall i | 0 <= i < |data| && !Fails(db, data, i) ensures r.db[data[i].nip] == NewKaryawan(data[i]) {
      ImportAllStores(db, data, error, i);
    }
    ImportAllErrors(db, data, error);
  }

  /** When no nip is taken and the batch's nips are distinct, every item
      is stored and nothing fails. */
  lemma ImportAllFreshSucceeds(db: map<string, Karyawan>, data: seq<CreateInput>, error: string)
    requires forall i :: 0 <= i < |data| ==> data[i].nip !in db
    requires forall i, j :: 0 <= i < j < |data| ==> data[i].nip != data[j].nip
    ensures ImportAll(db, data, error).results == ImportResults(|data|, 0, [])
  {
    ImportAllErrors(db, data, error);
    NoFailureMessages(db, data, error);
  }

  lemma {:induction false} NoFailureMessages(db: map<string, Karyawan>, data: seq<CreateInput>, error: string)
    requires forall i :: 0 <= i < |data| ==> data[i].nip !in db
    requires forall i, j :: 0 <= i < j < |data| ==> data[i].nip != data[j].nip
    ensures FailureMessages(db, data, error) == []
  {
    if |data| > 0 {
      var n := |data| - 1;
      var p := data[..n];
      assert !Fails(db, data, n);
      NoFailureMessages(db, p, error);
    }
  }

  /** The employee table, updated in place. */
  class KaryawanStore {
    var byNip: map<string, Karyawan>

    constructor(initial: map<string, Karyawan>)
      ensures byNip == initial
    {
      byNip := initial;
    }

    /** `createKaryawanWithPenilaian`: `ok` is false when it throws. */
    method CreateKaryawanWithPenilaian(input: CreateInput) returns (ok: bool)
      modifies this
      ensures ok <==> Create(old(byNip), input).Some?
      ensures byNip == if ok then Create(old(byNip), input).value else old(byNip)
    {
      if input.nip in byNip {
        ok := false;
      } else {
        byNip := byNip[input.nip := NewKaryawan(input)];
        ok := true;
      }
    }

    /** `importKaryawanBatch`; `error` is the text a failing creation
        throws. */
    method ImportKaryawanBatch(data: seq<CreateInput>, error: string) returns (results: ImportResults)
      modifies this
      ensures Imported(byNip, results) == ImportAll(old(byNip), data, error)
      ensures results.success + results.failed == |data| && |results.errors| == results.failed
    {
      results := ImportResults(0, 0, []);
      var i := 0;
      while i < |data|
        invariant 0 <= i <= |data|
        invariant Imported(byNip, results) == ImportAll(old(byNip), data[..i], error)
      {
        var item := data[i];
        assert data[..i + 1][..i] == data[..i];
        var ok := CreateKaryawanWithPenilaian(item);
        if ok {
          results := results.(success := results.success + 1);
        } else {
          results := results.(failed := results.failed + 1, errors := results.errors + [ErrorMessage(item, error)]);
        }
        i := i + 1;
      }
      assert data[..|data|] == data;
    }
  }

  // ---------------------------------------------------------------------
  // Statistics (services/karyawan.service.ts:89-120)
  // ---------------------------------------------------------------------

  datatype KaryawanStats = KaryawanStats(
    total: nat, averageKinerja: real, averageKehadiran: real, averageProduktivitas: real, averageKualitasKerja: real)

  /** The four averaged figures of an employee. */
  datatype Figure = Kinerja | Kehadiran | Produktivitas | KualitasKerja

  function FigureOf(k: Karyawan, f: Figure): real {
    match f
    case Kinerja => k.nilaiKinerja
    case Kehadiran => k.kehadiran
    case Produktivitas => k.produktivitas
    case KualitasKerja => k.kualitasKerja
  }

  /** `karyawan.reduce((acc, k) => acc + k.<figure>, 0)`. */
  function SumOf(ks: seq<Karyawan>, f: Figure): real {
    if |ks| == 0 then 0.0 else SumOf(ks[..|ks| - 1], f) + FigureOf(ks[|ks| - 1], f)
  }

  /** `sum / karyawan.length`. */
  function Average(ks: seq<Karyawan>, f: Figure): real
    requires |ks| > 0
  {
    SumOf(ks, f) / |ks| as real
  }

  /** `getKaryawanStats` over the employee list; `getAllKaryawan` gives
      the empty list when its query fails, so `None` (a failed query)
      gives the same all-zero statistics as no employees. */
  function Stats(fetched: Option<seq<Karyawan>>): KaryawanStats {
    var ks := if fetched.Some? then fetched.value else [];
    if |ks| == 0 then KaryawanStats(0, 0.0, 0.0, 0.0, 0.0)
    else KaryawanStats(|ks|,
      Average(ks, Kinerja), Average(ks, Kehadiran), Average(ks, Produktivitas), Average(ks, KualitasKerja))
  }

  lemma {:induction false} SumOfBounds(ks: seq<Karyawan>, f: Figure, lo: real, hi: real)
    requires forall i :: 0 <= i < |ks| ==> lo <= FigureOf(ks[i], f) <= hi
    ensures |ks| as real * lo <= SumOf(ks, f) <= |ks| as real * hi
  {
    if |ks| > 0 {
      SumOfBounds(ks[..|ks| - 1], f, lo, hi);
    }
  }

  /** No employees, or a failed query, give all zeros; otherwise `total` is
      the number of employees and each average lies between the smallest
      and the largest value of its figure, so employees all created with
      scores in [1, 5] average a performance score in [20, 100]. */
  lemma StatsSpec(fetched: Option<seq<Karyawan>>, f: Figure, lo: real, hi: real)
    ensures fetched.None? || |fetched.value| == 0 ==> Stats(fetched) == KaryawanStats(0, 0.0, 0.0, 0.0, 0.0)
    ensures fetched.Some? ==> Stats(fetched).total == |fetched.value|
    ensures (&& fetched.Some? && |fetched.value| > 0
             && forall i :: 0 <= i < |fetched.value| ==> lo <= FigureOf(fetched.value[i], f) <= hi)
      ==> lo <= Average(fetched.value, f) <= hi
    ensures fetched.Some? && |fetched.value| > 0 ==>
      && Stats(fetched).averageKinerja == Average(fetched.value, Kinerja)
      && Stats(fetched).averageKehadiran == Average(fetched.value, Kehadiran)
      && Stats(fetched).averageProduktivitas == Average(fetched.value, Produktivitas)
      && Stats(fetched).averageKualitasKerja == Average(fetched.value, KualitasKerja)
  {
    if && fetched.Some? && |fetched.value| > 0
       && forall i :: 0 <= i < |fetched.value| ==> lo <= FigureOf(fetched.value[i], f) <= hi
    {
      var ks := fetched.value;
      SumOfBounds(ks, f, lo, hi);
      DivBounds(SumOf(ks, f), |ks| as real, lo, hi);
    }
  }
}
