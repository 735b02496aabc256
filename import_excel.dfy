/**
 * The row transform of the Excel import dialog (`handleImport` and
 * `downloadTemplate` of components/ImportExcel.tsx).  A sheet row, as
 * `sheet_to_json` delivers it, maps column headers to text or numbers;
 * each row becomes one employee record whose fields fall back through
 * alternative headers, and whose scores, one per sub-criterion, are read
 * from the column named by the sub-criterion's code, defaulted to 3 and
 * clamped into [1, 5].
 */
module ImportExcel {
  import opened JsBuiltins

  /** A cell: `string | number`. */
  datatype CellValue = Str(s: string) | Num(n: real)

  /** A sheet row: header to cell; a header the row has no cell under is
      absent. */
  type ExcelRow = map<string, CellValue>

  /** A sub-criterion as the dialog receives it. */
  datatype SubRef = SubRef(id: string, kode: string, namaSubKriteria: string)

  datatype Score = Score(subKriteriaId: string, nilai: real)

  datatype Record = Record(nip: CellValue, nama: CellValue, jabatan: CellValue, departemen: CellValue, penilaian: seq<Score>)

  // ---------------------------------------------------------------------
  // JavaScript helpers
  // ---------------------------------------------------------------------

  /** The empty string and 0 are falsy. */
  predicate Truthy(c: CellValue) {
    match c
    case Str(s) => s != ""
    case Num(n) => n != 0.0
  }

  /** `row[key]`. */
  function Get(row: ExcelRow, key: string): Option<CellValue> {
    if key in row then Some(row[key]) else None
  }

  /** `v || d`: the cell itself or the default, and never a falsy cell
      in place of the default, so a chain of `||` that ends in a truthy
      default is truthy. */
  function OrElse(v: Option<CellValue>, d: CellValue): (r: CellValue)
    ensures r == d || v == Some(r)
    ensures r == d || Truthy(r)
    ensures Truthy(d) ==> Truthy(r)
  {
    if v.Some? && Truthy(v.value) then v.value else d
  }

  /** `s.replace(pat, rep)` with a string pattern: the first occurrence is
      replaced. */
  function ReplaceFirst(s: string, pat: string, rep: string): string
    decreases |s|
  {
    if |pat| <= |s| && s[..|pat|] == pat then rep + s[|pat|..]
    else if |s| == 0 then s
    else [s[0]] + ReplaceFirst(s[1..], pat, rep)
  }

  /** Replacing a pattern by itself changes nothing, so
      `sk.kode.replace('KRT', 'KRT')` is `sk.kode`. */
  lemma {:induction false} ReplaceBySelf(s: string, pat: string)
    ensures ReplaceFirst(s, pat, pat) == s
    decreases |s|
  {
    if |pat| <= |s| && s[..|pat|] == pat {
      assert s[..|pat|] + s[|pat|..] == s;
    } else if |s| > 0 {
      ReplaceBySelf(s[1..], pat);
      assert [s[0]] + s[1..] == s;
    }
  }

  /** `Math.min(Math.max(n, 1), 5)`. */
  function Clamp(n: real): (r: real)
    ensures 1.0 <= r <= 5.0
  {
    if n < 1.0 then 1.0 else if n > 5.0 then 5.0 else n
  }

  /** The clamp keeps a value already in [1, 5], sends anything below to 1
      and anything above to 5, and so applying it twice is applying it
      once. */
  lemma ClampSpec(n: real)
    ensures 1.0 <= n <= 5.0 ==> Clamp(n) == n
    ensures n < 1.0 ==> Clamp(n) == 1.0
    ensures n > 5.0 ==> Clamp(n) == 5.0
    ensures Clamp(Clamp(n)) == Clamp(n)
  {
  }

  // ---------------------------------------------------------------------
  // One row (components/ImportExcel.tsx:67-85)
  // ---------------------------------------------------------------------

  /** `typeof raw === 'number' ? raw : parseInt(String(raw))`, `None` for
      NaN. */
  function NumberOf(raw: CellValue): Option<real> {
    match raw
    case Num(n) => Some(n)
    case Str(s) => match ParseInt(s) case None => None case Some(k) => Some(k as real)
  }

  /** The score of one sub-criterion: the cell under its code
      (`row[kolom] || row[sk.kode] || 3`), NaN read as 3, then clamped. */
  function ScoreOf(row: ExcelRow, kode: string): (v: real)
    ensures 1.0 <= v <= 5.0
  {
    var kolom := ReplaceFirst(kode, "KRT", "KRT");
    var raw := OrElse(Get(row, kolom), OrElse(Get(row, kode), Num(3.0)));
    var nilai := NumberOf(raw);
    if nilai.None? then 3.0 else Clamp(nilai.value)
  }

  function TransformRow(row: ExcelRow, subs: seq<SubRef>): Record {
    Record(
      OrElse(Get(row, "Alternatif"), OrElse(Get(row, "NIP"), Str(""))),
      OrElse(Get(row, "Nama"), OrElse(Get(row, "alternatif"), OrElse(Get(row, "Alternatif"), Str("")))),
      OrElse(Get(row, "Jabatan"), Str("Staff")),
      OrElse(Get(row, "Departemen"), OrElse(Get(row, "Department"), Str("Umum"))),
      seq(|subs|, j requires 0 <= j < |subs| => Score(subs[j].id, ScoreOf(row, subs[j].kode))))
  }

  /** `jsonData.map(...)`. */
  function Transform(rows: seq<ExcelRow>, subs: seq<SubRef>): seq<Record> {
    seq(|rows|, i requires 0 <= i < |rows| => TransformRow(rows[i], subs))
  }

  /** What a score is, case by case: a missing or falsy cell gives 3, a
      number is clamped, a text is read by `parseInt` and clamped, and a
      text `parseInt` cannot read gives 3. */
  lemma ScoreCases(row: ExcelRow, kode: string)
    ensures kode !in row || !Truthy(row[kode]) ==> ScoreOf(row, kode) == 3.0
    ensures kode in row && row[kode].Num? && Truthy(row[kode]) ==> ScoreOf(row, kode) == Clamp(row[kode].n)
    ensures kode in row && row[kode].Str? && Truthy(row[kode]) ==>
      ScoreOf(row, kode) == match ParseInt(row[kode].s) case None => 3.0 case Some(k) => Clamp(k as real)
  {
    ReplaceBySelf(kode, "KRT");
  }

  /** A score written as the decimal text of an integer in [1, 5] reads
      back as that integer, as does the number itself. */
  lemma ScoreReadsBack(row: ExcelRow, kode: string, k: int)
    requires 1 <= k <= 5
    ensures ScoreOf(row[kode := Str(IntToDecimal(k))], kode) == k as real
    ensures ScoreOf(row[kode := Num(k as real)], kode) == k as real
  {
    ReplaceBySelf(kode, "KRT");
    ParseIntOfDecimal(k);
    assert IntToDecimal(k) != "" by {
      assert |IntToDecimal(k)| >= 1;
    }
  }

  /** Each sheet row gives one record, in order; its scores follow the
      sub-criteria one for one, carry their ids, and lie in [1, 5]. */
  lemma TransformShape(rows: seq<ExcelRow>, subs: seq<SubRef>)
    ensures |Transform(rows, subs)| == |rows|
    ensures forall i :: 0 <= i < |rows| ==>
      && |Transform(rows, subs)[i].penilaian| == |subs|
      && forall j :: 0 <= j < |subs| ==>
           && Transform(rows, subs)[i].penilaian[j].subKriteriaId == subs[j].id
           && 1.0 <= Transform(rows, subs)[i].penilaian[j].nilai <= 5.0
  {
  }

  /** Field fallbacks: `nip` is the Alternatif cell, else the NIP cell,
      else ""; `jabatan` defaults to "Staff" and `departemen` to the
      Department cell, else "Umum"; and a row without a usable Nama (and
      no lower-case `alternatif`) takes its Alternatif code as name. */
  lemma FieldFallbacks(row: ExcelRow, subs: seq<SubRef>)
    ensures var r := TransformRow(row, subs);
      && ("Alternatif" in row && Truthy(row["Alternatif"]) ==> r.nip == row["Alternatif"])
      && ("Alternatif" !in row || !Truthy(row["Alternatif"]) ==>
            r.nip == if "NIP" in row && Truthy(row["NIP"]) then row["NIP"] else Str(""))
      && ("Jabatan" !in row || !Truthy(row["Jabatan"]) ==> r.jabatan == Str("Staff"))
      && ("Departemen" !in row || !Truthy(row["Departemen"]) ==>
            r.departemen == if "Department" in row && Truthy(row["Department"]) then row["Department"] else Str("Umum"))
      && ("Nama" in row && Truthy(row["Nama"]) ==> r.nama == row["Nama"])
      && (&& ("Nama" !in row || !Truthy(row["Nama"]))
          && ("alternatif" !in row || !Truthy(row["alternatif"]))
          && "Alternatif" in row && Truthy(row["Alternatif"])
          ==> r.nama == r.nip)
  {
  }

  /** Because their chains end in "Staff" and "Umum", no record ever has
      an empty position or department. */
  lemma TransformRowDefaults(row: ExcelRow, subs: seq<SubRef>)
    ensures Truthy(TransformRow(row, subs).jabatan)
    ensures Truthy(TransformRow(row, subs).departemen)
  {
  }

  // ---------------------------------------------------------------------
  // The template row (components/ImportExcel.tsx:122-129)
  // ---------------------------------------------------------------------

  /** The four fixed columns of the template. */
  const TemplateBase: ExcelRow :=
    map["Alternatif" := Str("A01"), "Nama" := Str("Contoh Karyawan"), "Jabatan" := Str("Staff IT"), "Departemen" := Str("IT")]

  /** `Object.fromEntries(subKriteriaList.map(sk => [sk.kode, 3]))` spread
      over the four fixed columns: a later entry overwrites an earlier one
      under the same header. */
  function TemplateRow(subs: seq<SubRef>): ExcelRow {
    if |subs| == 0 then TemplateBase
    else TemplateRow(subs[..|subs| - 1])[subs[|subs| - 1].kode := Num(3.0)]
  }

  /** Every code holds the number 3. */
  lemma {:induction false} TemplateRowCodes(subs: seq<SubRef>)
    ensures forall j :: 0 <= j < |subs| ==> subs[j].kode in TemplateRow(subs) && TemplateRow(subs)[subs[j].kode] == Num(3.0)
  {
    if |subs| > 0 {
      var n := |subs| - 1;
      var p := subs[..n];
      TemplateRowCodes(p);
      forall j | 0 <= j < |subs| ensures subs[j].kode in TemplateRow(subs) && TemplateRow(subs)[subs[j].kode] == Num(3.0) {
        if j < n {
          assert p[j] == subs[j];
        }
      }
    }
  }

  /** A header that is no code keeps its fixed cell. */
  lemma {:induction false} TemplateRowFixed(subs: seq<SubRef>, h: string)
    requires forall j :: 0 <= j < |subs| ==> subs[j].kode != h
    ensures Get(TemplateRow(subs), h) == Get(TemplateBase, h)
  {
    if |subs| > 0 {
      var n := |subs| - 1;
      var p := subs[..n];
      assert subs[n].kode != h;
      forall j | 0 <= j < |p| ensures p[j].kode != h {
        assert p[j] == subs[j];
      }
      TemplateRowFixed(p, h);
    }
  }

  /** Importing the template row gives every sub-criterion the score 3. */
  lemma TemplateScores(subs: seq<SubRef>)
    ensures forall j :: 0 <= j < |subs| ==> TransformRow(TemplateRow(subs), subs).penilaian[j] == Score(subs[j].id, 3.0)
  {
    var t := TemplateRow(subs);
    TemplateRowCodes(subs);
    forall j | 0 <= j < |subs| ensures TransformRow(t, subs).penilaian[j] == Score(subs[j].id, 3.0) {
      ScoreCases(t, subs[j].kode);
    }
  }

  /** No code coincides with a fixed header of the template. */
  predicate CodesAvoidHeaders(subs: seq<SubRef>) {
    forall j :: 0 <= j < |subs| ==>
      subs[j].kode != "Alternatif" && subs[j].kode != "Nama" && subs[j].kode != "Jabatan" && subs[j].kode != "Departemen"
  }

  /** When no code coincides with a fixed header, the template row imports
      as nip "A01", name "Contoh Karyawan", position "Staff IT" and
      department "IT". */
  lemma TemplateFields(subs: seq<SubRef>)
    requires CodesAvoidHeaders(subs)
    ensures var r := TransformRow(TemplateRow(subs), subs);
      && r.nip == Str("A01") && r.nama == Str("Contoh Karyawan")
      && r.jabatan == Str("Staff IT") && r.departemen == Str("IT")
  {
    var t := TemplateRow(subs);
    TemplateRowFixed(subs, "Alternatif");
    TemplateRowFixed(subs, "Nama");
    TemplateRowFixed(subs, "Jabatan");
    TemplateRowFixed(subs, "Departemen");
    assert Get(t, "Alternatif") == Some(Str("A01"));
    assert Get(t, "Nama") == Some(Str("Contoh Karyawan"));
    assert Get(t, "Jabatan") == Some(Str("Staff IT"));
    assert Get(t, "Departemen") == Some(Str("IT"));
  }
}
