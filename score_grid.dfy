/**
 * The score-entry grid (app/penilaian/page.tsx): one row per employee with
 * one `sub_<id>` property per sub-criterion, initialised to the standard
 * values, edited one cell at a time, shown grouped by criterion and
 * exported as CSV text.
 *
 * A row's properties are an association list in their insertion order
 * (the order a JavaScript object keeps for keys that are not integer-like,
 * which `sub_<id>` never is).  A cell value that may be NaN is
 * `Option<real>`, `None` standing for NaN.
 */
module ScoreGrid {
  import opened JsBuiltins
  import opened KriteriaTypes
  import PenilaianBatch

  /** An employee as the grid page receives it; `nama` may be `null`. */
  datatype Karyawan = Karyawan(id: int, kode: string, nama: Option<string>)

  /** A `PenilaianData` row: `karyawanId` and the `sub_<id>` properties. */
  datatype GridRow = GridRow(karyawanId: int, cells: seq<(string, Option<real>)>)

  // ---------------------------------------------------------------------
  // Properties of one row
  // ---------------------------------------------------------------------

  /** `data[key]`: `None` when the property is undefined. */
  function Lookup(cells: seq<(string, Option<real>)>, key: string): (r: Option<Option<real>>)
    ensures r.None? <==> forall i :: 0 <= i < |cells| ==> cells[i].0 != key
  {
    if |cells| == 0 then None
    else if cells[0].0 == key then Some(cells[0].1)
    else Lookup(cells[1..], key)
  }

  /** No two properties share a key, as in any JavaScript object. */
  predicate DistinctKeys(cells: seq<(string, Option<real>)>) {
    forall i, j :: 0 <= i < j < |cells| ==> cells[i].0 != cells[j].0
  }

  /** `{ ...data, [key]: v }`: an existing property keeps its place and
      takes the new value; a new one is added at the end.  Exactly that key
      changes, and only its value. */
  function SetCell(cells: seq<(string, Option<real>)>, key: string, v: Option<real>): (r: seq<(string, Option<real>)>)
    ensures Lookup(r, key) == Some(v)
    ensures forall k :: k != key ==> Lookup(r, k) == Lookup(cells, k)
    ensures |r| == if Lookup(cells, key).Some? then |cells| else |cells| + 1
    ensures DistinctKeys(cells) ==> DistinctKeys(r)
  {
    if |cells| == 0 then [(key, v)]
    else if cells[0].0 == key then [(key, v)] + cells[1..]
    else
      var rest := SetCell(cells[1..], key, v);
      var r := [cells[0]] + rest;
      assert DistinctKeys(cells) ==> DistinctKeys(r) by {
        if DistinctKeys(cells) {
          assert Lookup(cells[1..], cells[0].0).None?;
          assert Lookup(rest, cells[0].0).None?;
          forall i, j | 0 <= i < j < |r| ensures r[i].0 != r[j].0 {
            if i == 0 {
              assert r[j] == rest[j - 1];
            }
          }
        }
      }
      r
  }

  // ---------------------------------------------------------------------
  // Initial data (app/penilaian/page.tsx:47-53)
  // ---------------------------------------------------------------------

  /** `sub.nilaiStandar || 3`: a standard of 0 is replaced by 3. */
  function StandardOrThree(nilaiStandar: real): (v: real)
    ensures v != 0.0
    ensures v == nilaiStandar || v == 3.0
    ensures 1.0 <= nilaiStandar <= 5.0 || nilaiStandar == 0.0 ==> 1.0 <= v <= 5.0
  {
    if nilaiStandar == 0.0 then 3.0 else nilaiStandar
  }

  /** The properties a sequence of assignments `data[key] = v` leaves in
      a row that starts empty. */
  function Assign(ps: seq<(string, Option<real>)>): seq<(string, Option<real>)> {
    if |ps| == 0 then []
    else SetCell(Assign(ps[..|ps| - 1]), ps[|ps| - 1].0, ps[|ps| - 1].1)
  }

  /** `subkriteria.forEach(sub => data[`sub_${sub.id}`] = sub.nilaiStandar || 3)`. */
  function InitWrites(subs: seq<Subkriteria>): seq<(string, Option<real>)> {
    seq(|subs|, j requires 0 <= j < |subs| => (PenilaianBatch.SubKey(subs[j].id), Some(StandardOrThree(subs[j].nilaiStandar))))
  }

  /** The properties of a fresh row. */
  function InitCells(subs: seq<Subkriteria>): seq<(string, Option<real>)> {
    Assign(InitWrites(subs))
  }

  /** `karyawan.map(k => ...)`: one row per employee, in order. */
  function InitialData(karyawan: seq<Karyawan>, subs: seq<Subkriteria>): seq<GridRow> {
    seq(|karyawan|, i requires 0 <= i < |karyawan| => GridRow(karyawan[i].id, InitCells(subs)))
  }

  /** After a run of assignments no key is held twice. */
  lemma {:induction false} AssignDistinct(ps: seq<(string, Option<real>)>)
    ensures DistinctKeys(Assign(ps))
  {
    if |ps| > 0 {
      AssignDistinct(ps[..|ps| - 1]);
    }
  }

  /** The keys of the row are exactly the assigned ones. */
  lemma {:induction false} AssignKeys(ps: seq<(string, Option<real>)>, k: string)
    ensures Lookup(Assign(ps), k).Some? <==> exists j :: 0 <= j < |ps| && ps[j].0 == k
  {
    if |ps| > 0 {
      var n := |ps| - 1;
      var p := ps[..n];
      AssignKeys(p, k);
      assert Assign(ps) == SetCell(Assign(p), ps[n].0, ps[n].1);
      if k != ps[n].0 {
        assert Lookup(Assign(ps), k) == Lookup(Assign(p), k);
        if Lookup(Assign(p), k).Some? {
          var j :| 0 <= j < |p| && p[j].0 == k;
          assert ps[j] == p[j];
        }
        if exists j :: 0 <= j < |ps| && ps[j].0 == k {
          var j :| 0 <= j < |ps| && ps[j].0 == k;
          assert j != n by {
            if j == n {
              assert false;
            }
          }
          assert p[j] == ps[j];
        }
      }
    }
  }

  /** A key holds the value of its last assignment. */
  lemma {:induction false} AssignValue(ps: seq<(string, Option<real>)>, i: int)
    requires 0 <= i < |ps|
    requires forall j :: i < j < |ps| ==> ps[j].0 != ps[i].0
    ensures Lookup(Assign(ps), ps[i].0) == Some(ps[i].1)
  {
    var n := |ps| - 1;
    var p := ps[..n];
    assert Assign(ps) == SetCell(Assign(p), ps[n].0, ps[n].1);
    if i < n {
      assert p[i] == ps[i];
      forall j | i < j < |p| ensures p[j].0 != p[i].0 {
        assert p[j] == ps[j];
      }
      AssignValue(p, i);
      assert ps[n].0 != ps[i].0;
      assert Lookup(Assign(ps), ps[i].0) == Lookup(Assign(p), ps[i].0);
      assert Lookup(Assign(p), ps[i].0) == Some(ps[i].1);
    } else {
      assert i == n;
      assert Lookup(Assign(ps), ps[n].0) == Some(ps[n].1);
    }
  }

  /** `subs[i]` is the last sub-criterion with its id, so its write is the
      one that stays. */
  predicate LastOfId(subs: seq<Subkriteria>, i: int)
    requires 0 <= i < |subs|
  {
    forall j :: i < j < |subs| ==> subs[j].id != subs[i].id
  }

  lemma SubKeyInjective(a: int, b: int)
    requires PenilaianBatch.SubKey(a) == PenilaianBatch.SubKey(b)
    ensures a == b
  {
    PenilaianBatch.SubKeyRoundTrip(a);
    PenilaianBatch.SubKeyRoundTrip(b);
  }

  /** Each `sub_<id>` property of a fresh row holds the standard value (or
      3) of the last sub-criterion with that id. */
  lemma InitCellsValue(subs: seq<Subkriteria>, i: int)
    requires 0 <= i < |subs| && LastOfId(subs, i)
    ensures Lookup(InitCells(subs), PenilaianBatch.SubKey(subs[i].id)) == Some(Some(StandardOrThree(subs[i].nilaiStandar)))
  {
    var ps := InitWrites(subs);
    forall j | i < j < |ps| ensures ps[j].0 != ps[i].0 {
      if ps[j].0 == ps[i].0 {
        SubKeyInjective(subs[j].id, subs[i].id);
      }
    }
    AssignValue(ps, i);
  }

  /** Exactly one row per employee, in employee order, each with the
      employee's id and a `sub_<id>` property for every sub-criterion
      holding its standard value, or 3 when the standard is 0. */
  lemma InitialDataSpec(karyawan: seq<Karyawan>, subs: seq<Subkriteria>)
    ensures |InitialData(karyawan, subs)| == |karyawan|
    ensures forall i :: 0 <= i < |karyawan| ==>
      && InitialData(karyawan, subs)[i].karyawanId == karyawan[i].id
      && DistinctKeys(InitialData(karyawan, subs)[i].cells)
    ensures forall i, j :: 0 <= i < |karyawan| && 0 <= j < |subs| && LastOfId(subs, j) ==>
      Lookup(InitialData(karyawan, subs)[i].cells, PenilaianBatch.SubKey(subs[j].id)) ==
        Some(Some(StandardOrThree(subs[j].nilaiStandar)))
    ensures forall i, k :: 0 <= i < |karyawan| ==>
      (Lookup(InitialData(karyawan, subs)[i].cells, k).Some? <==>
        exists j :: 0 <= j < |subs| && PenilaianBatch.SubKey(subs[j].id) == k)
  {
    var ps := InitWrites(subs);
    AssignDistinct(ps);
    forall k ensures Lookup(InitCells(subs), k).Some? <==>
      exists j :: 0 <= j < |subs| && PenilaianBatch.SubKey(subs[j].id) == k
    {
      AssignKeys(ps, k);
      if exists j :: 0 <= j < |subs| && PenilaianBatch.SubKey(subs[j].id) == k {
        var j :| 0 <= j < |subs| && PenilaianBatch.SubKey(subs[j].id) == k;
        assert ps[j].0 == k;
      }
    }
    forall j | 0 <= j < |subs| && LastOfId(subs, j)
      ensures Lookup(InitCells(subs), PenilaianBatch.SubKey(subs[j].id)) == Some(Some(StandardOrThree(subs[j].nilaiStandar)))
    {
      InitCellsValue(subs, j);
    }
  }

  // ---------------------------------------------------------------------
  // One cell edit (app/penilaian/page.tsx:63-74)
  // ---------------------------------------------------------------------

  /** `numValue < 1 || numValue > 5`: both comparisons are false for NaN,
      so NaN is not rejected. */
  predicate Rejected(numValue: Option<real>) {
    numValue.Some? && (numValue.value < 1.0 || numValue.value > 5.0)
  }

  /** `handleValueChange`, with `parseFloat(value)` given as `numValue`. */
  function HandleValueChange(data: seq<GridRow>, karyawanId: int, subkriteriaId: int, numValue: Option<real>): seq<GridRow> {
    if Rejected(numValue) then data
    else
      seq(|data|, i requires 0 <= i < |data| =>
        if data[i].karyawanId == karyawanId
        then GridRow(karyawanId, SetCell(data[i].cells, PenilaianBatch.SubKey(subkriteriaId), numValue))
        else data[i])
  }

  /** A value below 1 or above 5 leaves the grid as it was.  Otherwise
      (NaN included) the row count and every row's employee stay; a row of
      another employee is unchanged; in the employee's row(s) the
      `sub_<id>` property now holds the value, every other property keeps
      its value, and keys stay distinct. */
  lemma HandleValueChangeSpec(data: seq<GridRow>, karyawanId: int, subkriteriaId: int, numValue: Option<real>)
    ensures Rejected(numValue) ==> HandleValueChange(data, karyawanId, subkriteriaId, numValue) == data
    ensures var r := HandleValueChange(data, karyawanId, subkriteriaId, numValue);
      && |r| == |data|
      && forall i :: 0 <= i < |data| ==> r[i].karyawanId == data[i].karyawanId
    ensures !Rejected(numValue) ==>
      var r := HandleValueChange(data, karyawanId, subkriteriaId, numValue);
      var key := PenilaianBatch.SubKey(subkriteriaId);
      && (forall i :: 0 <= i < |data| && data[i].karyawanId != karyawanId ==> r[i] == data[i])
      && (forall i :: 0 <= i < |data| && data[i].karyawanId == karyawanId ==>
            && Lookup(r[i].cells, key) == Some(numValue)
            && (forall k :: k != key ==> Lookup(r[i].cells, k) == Lookup(data[i].cells, k))
            && (DistinctKeys(data[i].cells) ==> DistinctKeys(r[i].cells)))
  {
  }

  /** The one case the guard lets through although it is no score: an
      unparsable input is stored as NaN. */
  lemma NaNIsStored(data: seq<GridRow>, karyawanId: int, subkriteriaId: int, i: int)
    requires 0 <= i < |data| && data[i].karyawanId == karyawanId
    ensures Lookup(HandleValueChange(data, karyawanId, subkriteriaId, None)[i].cells,
                   PenilaianBatch.SubKey(subkriteriaId)) == Some(None)
  {
  }

  // ---------------------------------------------------------------------
  // Grouping by criterion (app/penilaian/page.tsx:129-139)
  // ---------------------------------------------------------------------

  datatype Group = Group(nama: string, subkriteria: seq<Subkriteria>)

  /** `sub.kriteria?.kode || "Unknown"`. */
  function GroupKey(s: Subkriteria): string {
    if s.kriteria.Some? && s.kriteria.value.kode != "" then s.kriteria.value.kode else "Unknown"
  }

  /** `sub.kriteria?.nama || "Unknown"`. */
  function GroupNama(s: Subkriteria): string {
    if s.kriteria.Some? && s.kriteria.value.nama != "" then s.kriteria.value.nama else "Unknown"
  }

  /** The sub-criteria with key `k`, in list order. */
  function Members(subs: seq<Subkriteria>, k: string): seq<Subkriteria> {
    if |subs| == 0 then []
    else
      var s := subs[|subs| - 1];
      Members(subs[..|subs| - 1], k) + if GroupKey(s) == k then [s] else []
  }

  /** The keys in the order the accumulator first receives them. */
  function KeyOrder(subs: seq<Subkriteria>): seq<string> {
    if |subs| == 0 then []
    else
      var prev := KeyOrder(subs[..|subs| - 1]);
      var k := GroupKey(subs[|subs| - 1]);
      if k in prev then prev else prev + [k]
  }

  /** The keys are distinct and are exactly the keys of the sub-criteria;
      a key has members exactly when it is listed. */
  lemma {:induction false} KeyOrderSpec(subs: seq<Subkriteria>)
    ensures forall i, j :: 0 <= i < j < |KeyOrder(subs)| ==> KeyOrder(subs)[i] != KeyOrder(subs)[j]
    ensures forall k :: k in KeyOrder(subs) <==> exists i :: 0 <= i < |subs| && GroupKey(subs[i]) == k
    ensures forall k :: |Members(subs, k)| > 0 <==> k in KeyOrder(subs)
  {
    if |subs| > 0 {
      var p := subs[..|subs| - 1];
      KeyOrderSpec(p);
      forall k ensures k in KeyOrder(subs) <==> exists i :: 0 <= i < |subs| && GroupKey(subs[i]) == k {
        if k in KeyOrder(p) {
          var i :| 0 <= i < |p| && GroupKey(p[i]) == k;
          assert subs[i] == p[i];
        }
        if exists i :: 0 <= i < |subs| && GroupKey(subs[i]) == k {
          var i :| 0 <= i < |subs| && GroupKey(subs[i]) == k;
          if i < |p| {
            assert p[i] == subs[i];
          }
        }
      }
    }
  }

  /** Every sub-criterion is in the group of its own key and in no other,
      and a group holds nothing else: each sub-criterion is in exactly one
      group. */
  lemma {:induction false} MembersSpec(subs: seq<Subkriteria>, k: string)
    ensures forall m :: m in Members(subs, k) ==> m in subs && GroupKey(m) == k
    ensures forall i :: 0 <= i < |subs| && GroupKey(subs[i]) == k ==> subs[i] in Members(subs, k)
  {
    if |subs| > 0 {
      var p := subs[..|subs| - 1];
      MembersSpec(p, k);
      forall i | 0 <= i < |subs| && GroupKey(subs[i]) == k ensures subs[i] in Members(subs, k) {
        if i < |p| {
          assert subs[i] == p[i];
        }
      }
    }
  }

  /** One more sub-criterion: its key is listed if it was not, and it
      joins the end of its own group only. */
  lemma GroupStep(subs: seq<Subkriteria>, i: int)
    requires 0 <= i < |subs|
    ensures var key := GroupKey(subs[i]);
      KeyOrder(subs[..i + 1]) == if key in KeyOrder(subs[..i]) then KeyOrder(subs[..i]) else KeyOrder(subs[..i]) + [key]
    ensures forall k :: Members(subs[..i + 1], k) == Members(subs[..i], k) + if GroupKey(subs[i]) == k then [subs[i]] else []
  {
    assert subs[..i + 1][..i] == subs[..i];
  }

  /** The accumulator after the sub-criteria `p`: its keys in insertion
      order, each key's group holding that key's members under the name of
      its first member. */
  ghost predicate GroupedAs(p: seq<Subkriteria>, keys: seq<string>, groups: map<string, Group>) {
    && keys == KeyOrder(p)
    && (forall k :: k in groups <==> k in keys)
    && (forall k :: k in groups ==>
          && groups[k].subkriteria == Members(p, k)
          && |Members(p, k)| > 0
          && groups[k].nama == GroupNama(Members(p, k)[0]))
  }

  /** The accumulator after one turn of the `reduce`: the group of a new
      key is opened, then the sub-criterion is pushed into its group. */
  function Pushed(groups: map<string, Group>, s: Subkriteria): map<string, Group> {
    var key := GroupKey(s);
    var withKey := if key in groups then groups else groups[key := Group(GroupNama(s), [])];
    withKey[key := Group(withKey[key].nama, withKey[key].subkriteria + [s])]
  }

  function PushedKeys(keys: seq<string>, groups: map<string, Group>, s: Subkriteria): seq<string> {
    if GroupKey(s) in groups then keys else keys + [GroupKey(s)]
  }

  lemma PushedDomain(keys: seq<string>, groups: map<string, Group>, s: Subkriteria)
    requires forall k :: k in groups <==> k in keys
    ensures forall k :: k in Pushed(groups, s) <==> k in PushedKeys(keys, groups, s)
  {
    var key := GroupKey(s);
    forall k ensures k in Pushed(groups, s) <==> k in PushedKeys(keys, groups, s) {
      if k != key {
        assert k in Pushed(groups, s) <==> k in groups;
        assert k in PushedKeys(keys, groups, s) <==> k in keys;
      }
    }
  }

  lemma PushedContents(subs: seq<Subkriteria>, i: int, keys: seq<string>, groups: map<string, Group>, k: string)
    requires 0 <= i < |subs|
    requires GroupedAs(subs[..i], keys, groups)
    requires k in Pushed(groups, subs[i])
    ensures Pushed(groups, subs[i])[k].subkriteria == Members(subs[..i + 1], k)
    ensures |Members(subs[..i + 1], k)| > 0
    ensures Pushed(groups, subs[i])[k].nama == GroupNama(Members(subs[..i + 1], k)[0])
  {
    var s := subs[i];
    var key := GroupKey(s);
    var after := Pushed(groups, s);
    GroupStep(subs, i);
    if k == key {
      if key in groups {
        assert (Members(subs[..i], key) + [s])[0] == Members(subs[..i], key)[0];
      } else {
        KeyOrderSpec(subs[..i]);
        assert key !in KeyOrder(subs[..i]);
        assert Members(subs[..i], key) == [];
      }
    } else {
      assert after[k] == groups[k];
    }
  }

  /** One turn of the `reduce` keeps the accumulator's description. */
  lemma GroupStepKeeps(subs: seq<Subkriteria>, i: int, keys: seq<string>, groups: map<string, Group>)
    requires 0 <= i < |subs|
    requires GroupedAs(subs[..i], keys, groups)
    ensures GroupedAs(subs[..i + 1], PushedKeys(keys, groups, subs[i]), Pushed(groups, subs[i]))
  {
    GroupStep(subs, i);
    PushedDomain(keys, groups, subs[i]);
    forall k | k in Pushed(groups, subs[i])
      ensures Pushed(groups, subs[i])[k].subkriteria == Members(subs[..i + 1], k)
      ensures |Members(subs[..i + 1], k)| > 0
      ensures Pushed(groups, subs[i])[k].nama == GroupNama(Members(subs[..i + 1], k)[0])
    {
      PushedContents(subs, i, keys, groups, k);
    }
  }

  /** The `reduce` of `groupedSubkriteria`: `keys` is the insertion order
      of the accumulator's keys. */
  method GroupByKriteria(subs: seq<Subkriteria>) returns (keys: seq<string>, groups: map<string, Group>)
    ensures keys == KeyOrder(subs)
    ensures forall k :: k in groups <==> k in keys
    ensures forall k :: k in groups ==>
      && groups[k].subkriteria == Members(subs, k)
      && |Members(subs, k)| > 0
      && groups[k].nama == GroupNama(Members(subs, k)[0])
  {
    keys := [];
    groups := map[];
    var i := 0;
    while i < |subs|
      invariant 0 <= i <= |subs|
      invariant GroupedAs(subs[..i], keys, groups)
    {
      var s := subs[i];
      var key := GroupKey(s);
      GroupStepKeeps(subs, i, keys, groups);
      if key !in groups {
        groups := groups[key := Group(GroupNama(s), [])];
        keys := keys + [key];
      }
      groups := groups[key := Group(groups[key].nama, groups[key].subkriteria + [s])];
      i := i + 1;
    }
    assert subs[..|subs|] == subs;
  }

  // ---------------------------------------------------------------------
  // CSV export (app/penilaian/page.tsx:103-118)
  // ---------------------------------------------------------------------

  /** `karyawanList.find(k => k.id === id)`. */
  function FindKaryawan(ks: seq<Karyawan>, id: int): (r: Option<Karyawan>)
    ensures r.Some? ==> r.value in ks && r.value.id == id
    ensures r.None? <==> forall i :: 0 <= i < |ks| ==> ks[i].id != id
  {
    if |ks| == 0 then None
    else if ks[0].id == id then Some(ks[0])
    else FindKaryawan(ks[1..], id)
  }

  /** `data[key] || 0`: undefined, NaN and 0 are all written as 0. */
  function CellOrZero(cells: seq<(string, Option<real>)>, key: string): (v: real)
    ensures v == 0.0 || Lookup(cells, key) == Some(Some(v))
    ensures Lookup(cells, key).Some? && Lookup(cells, key).value.Some? ==> v == Lookup(cells, key).value.value
  {
    match Lookup(cells, key)
    case Some(Some(v)) => v
    case _ => 0.0
  }

  function Headers(subs: seq<Subkriteria>): seq<string> {
    ["Kode", "Nama"] + seq(|subs|, j requires 0 <= j < |subs| => subs[j].kode)
  }

  /** One exported row; `fmt` is how `join` writes a number. */
  function ExportRow(ks: seq<Karyawan>, subs: seq<Subkriteria>, row: GridRow, fmt: real -> string): seq<string> {
    var k := FindKaryawan(ks, row.karyawanId);
    [if k.Some? then k.value.kode else "",
     if k.Some? && k.value.nama.Some? then k.value.nama.value else ""] +
    seq(|subs|, j requires 0 <= j < |subs| => fmt(CellOrZero(row.cells, PenilaianBatch.SubKey(subs[j].id))))
  }

  function ExportLines(ks: seq<Karyawan>, subs: seq<Subkriteria>, data: seq<GridRow>, fmt: real -> string): seq<string> {
    [Join(Headers(subs), ',')] + seq(|data|, i requires 0 <= i < |data| => Join(ExportRow(ks, subs, data[i], fmt), ','))
  }

  /** `csvContent`. */
  function CsvContent(ks: seq<Karyawan>, subs: seq<Subkriteria>, data: seq<GridRow>, fmt: real -> string): string {
    Join(ExportLines(ks, subs, data, fmt), '\n')
  }

  /** No field text of the export holds a separator. */
  ghost predicate PlainFields(ks: seq<Karyawan>, subs: seq<Subkriteria>, fmt: real -> string) {
    && (forall x: real :: ',' !in fmt(x) && '\n' !in fmt(x))
    && (forall i :: 0 <= i < |ks| ==> ',' !in ks[i].kode && '\n' !in ks[i].kode)
    && (forall i :: 0 <= i < |ks| && ks[i].nama.Some? ==> ',' !in ks[i].nama.value && '\n' !in ks[i].nama.value)
    && (forall j :: 0 <= j < |subs| ==> ',' !in subs[j].kode && '\n' !in subs[j].kode)
  }

  lemma {:induction false} JoinAvoids(parts: seq<string>, sep: char, c: char)
    requires c != sep
    requires forall i :: 0 <= i < |parts| ==> c !in parts[i]
    ensures c !in Join(parts, sep)
  {
    if |parts| > 1 {
      JoinAvoids(parts[1..], sep, c);
    }
  }

  /** The header is "Kode", "Nama", then the sub-criterion codes; a row
      has 2 + |subs| fields: the employee's code and name ("" when the
      employee is not found) and each `sub_<id>` value, a missing or NaN
      value written as 0. */
  lemma ExportShape(ks: seq<Karyawan>, subs: seq<Subkriteria>, row: GridRow, fmt: real -> string)
    ensures |Headers(subs)| == 2 + |subs| && Headers(subs)[..2] == ["Kode", "Nama"]
    ensures forall j :: 0 <= j < |subs| ==> Headers(subs)[j + 2] == subs[j].kode
    ensures var r := ExportRow(ks, subs, row, fmt);
      var k := FindKaryawan(ks, row.karyawanId);
      && |r| == 2 + |subs|
      && r[0] == (if k.Some? then k.value.kode else "")
      && r[1] == (if k.Some? && k.value.nama.Some? then k.value.nama.value else "")
      && (forall j :: 0 <= j < |subs| ==> r[j + 2] == fmt(CellOrZero(row.cells, PenilaianBatch.SubKey(subs[j].id))))
  {
    var r := ExportRow(ks, subs, row, fmt);
    forall j | 0 <= j < |subs| ensures r[j + 2] == fmt(CellOrZero(row.cells, PenilaianBatch.SubKey(subs[j].id))) {
    }
  }

  lemma RowFieldsPlain(ks: seq<Karyawan>, subs: seq<Subkriteria>, row: GridRow, fmt: real -> string)
    requires PlainFields(ks, subs, fmt)
    ensures forall f :: 0 <= f < |ExportRow(ks, subs, row, fmt)| ==>
      ',' !in ExportRow(ks, subs, row, fmt)[f] && '\n' !in ExportRow(ks, subs, row, fmt)[f]
  {
    var r := ExportRow(ks, subs, row, fmt);
    var k := FindKaryawan(ks, row.karyawanId);
    if k.Some? {
      var a :| 0 <= a < |ks| && ks[a] == k.value;
    }
  }

  /** A data line splits back into its row's fields and holds no line
      break. */
  lemma RowLineReadsBack(ks: seq<Karyawan>, subs: seq<Subkriteria>, row: GridRow, fmt: real -> string)
    requires PlainFields(ks, subs, fmt)
    ensures '\n' !in Join(ExportRow(ks, subs, row, fmt), ',')
    ensures Split(Join(ExportRow(ks, subs, row, fmt), ','), ',') == ExportRow(ks, subs, row, fmt)
  {
    RowFieldsPlain(ks, subs, row, fmt);
    JoinAvoids(ExportRow(ks, subs, row, fmt), ',', '\n');
    SplitJoin(ExportRow(ks, subs, row, fmt), ',');
  }

  /** The header line splits back into the headers and holds no line
      break. */
  lemma HeaderLineReadsBack(ks: seq<Karyawan>, subs: seq<Subkriteria>, fmt: real -> string)
    requires PlainFields(ks, subs, fmt)
    ensures '\n' !in Join(Headers(subs), ',')
    ensures Split(Join(Headers(subs), ','), ',') == Headers(subs)
  {
    JoinAvoids(Headers(subs), ',', '\n');
    SplitJoin(Headers(subs), ',');
  }

  /** Reading the CSV back: splitting on line breaks gives the header line
      and one line per data row, and splitting a line on commas gives back
      the header or that row's fields. */
  lemma CsvReadsBack(ks: seq<Karyawan>, subs: seq<Subkriteria>, data: seq<GridRow>, fmt: real -> string)
    requires PlainFields(ks, subs, fmt)
    ensures var lines := Split(CsvContent(ks, subs, data, fmt), '\n');
      && |lines| == |data| + 1
      && Split(lines[0], ',') == Headers(subs)
      && forall i :: 0 <= i < |data| ==> Split(lines[i + 1], ',') == ExportRow(ks, subs, data[i], fmt)
  {
    var lines := ExportLines(ks, subs, data, fmt);
    assert |lines| == |data| + 1 && lines[0] == Join(Headers(subs), ',');
    forall i | 0 <= i < |data| ensures lines[i + 1] == Join(ExportRow(ks, subs, data[i], fmt), ',') {
    }
    HeaderLineReadsBack(ks, subs, fmt);
    forall l | 0 <= l < |lines| ensures '\n' !in lines[l] {
      if l > 0 {
        RowLineReadsBack(ks, subs, data[l - 1], fmt);
      }
    }
    SplitJoin(lines, '\n');
    assert Split(CsvContent(ks, subs, data, fmt), '\n') == lines;
    forall i | 0 <= i < |data| ensures Split(lines[i + 1], ',') == ExportRow(ks, subs, data[i], fmt) {
      RowLineReadsBack(ks, subs, data[i], fmt);
    }
  }

  /** Exporting the untouched grid: with distinct employee and
      sub-criterion ids, row i carries employee i's code and every column
      the sub-criterion's standard value, or 3 when that is 0. */
  lemma ExportInitialData(ks: seq<Karyawan>, subs: seq<Subkriteria>, fmt: real -> string, i: int, j: int)
    requires forall a, b :: 0 <= a < b < |ks| ==> ks[a].id != ks[b].id
    requires forall a, b :: 0 <= a < b < |subs| ==> subs[a].id != subs[b].id
    requires 0 <= i < |ks| && 0 <= j < |subs|
    ensures |InitialData(ks, subs)| == |ks|
    ensures ExportRow(ks, subs, InitialData(ks, subs)[i], fmt)[0] == ks[i].kode
    ensures ExportRow(ks, subs, InitialData(ks, subs)[i], fmt)[j + 2] == fmt(StandardOrThree(subs[j].nilaiStandar))
  {
    var row := InitialData(ks, subs)[i];
    assert row == GridRow(ks[i].id, InitCells(subs));
    FindFirst(ks, i);
    assert LastOfId(subs, j);
    InitCellsValue(subs, j);
    var key := PenilaianBatch.SubKey(subs[j].id);
    assert CellOrZero(row.cells, key) == StandardOrThree(subs[j].nilaiStandar);
    ExportShape(ks, subs, row, fmt);
  }

  lemma {:induction false} FindFirst(ks: seq<Karyawan>, i: int)
    requires 0 <= i < |ks|
    requires forall a, b :: 0 <= a < b < |ks| ==> ks[a].id != ks[b].id
    ensures FindKaryawan(ks, ks[i].id) == Some(ks[i])
  {
    if i > 0 {
      assert ks[0].id != ks[i].id;
      assert ks[1..][i - 1] == ks[i];
      FindFirst(ks[1..], i - 1);
    }
  }
}
