/**
 * The final ranking page (app/perankingan/page.tsx): criteria weights come
 * from the AHP weight list, per-criterion scores from the Profile-Matching
 * results; each employee's total is the weighted sum of their criterion
 * scores, and the employees are sorted by total, highest first, and
 * numbered 1, 2, 3, ... in that order.
 *
 * The page works step by step: it fills a `Map` with `set`, accumulates a
 * total with `+=`, pushes results onto an array, sorts that array in place
 * and writes each result's `ranking` field.  The methods below do the
 * same, and each is proved against the functions that specify it.
 */
module Ranking {
  import opened JsBuiltins

  // ---------------------------------------------------------------------
  // Data (app/perankingan/page.tsx:8-38)
  // ---------------------------------------------------------------------

  datatype Karyawan = Karyawan(id: int, kode: string, nama: string)

  datatype Kriteria = Kriteria(id: int, kode: string, nama: string, bobot: Option<real>)

  /** One Profile-Matching result: the score of one employee (through the
      assessment it belongs to) on one criterion.  The score may be absent
      (JSON `null`). */
  datatype HasilProfile = HasilProfile(
    penilaianId: int,
    kriteriaId: int,
    nilaiKriteria: Option<real>,
    karyawanId: int,
    karyawan: Karyawan)

  /** One entry of the AHP weight list. */
  datatype BobotKriteria = BobotKriteria(kriteriaId: int, bobot: real)

  datatype RankingResult = RankingResult(
    karyawanId: int,
    karyawanKode: string,
    karyawanNama: string,
    nilaiPerKriteria: map<int, real>,
    nilaiTotal: real,
    ranking: int)

  // ---------------------------------------------------------------------
  // The weight map (app/perankingan/page.tsx:62-72)
  // ---------------------------------------------------------------------

  /** The `Map` that `bobot.forEach(b => bobotMap.set(b.kriteriaId, b.bobot))`
      leaves behind. */
  function BobotMap(bobot: seq<BobotKriteria>): map<int, real> {
    if |bobot| == 0 then map[]
    else BobotMap(bobot[..|bobot| - 1])[bobot[|bobot| - 1].kriteriaId := bobot[|bobot| - 1].bobot]
  }

  /** `bobotMap.get(id) || 0`. */
  function WeightOf(bobotMap: map<int, real>, id: int): real {
    if id in bobotMap then bobotMap[id] else 0.0
  }

  method BuildBobotMap(bobot: seq<BobotKriteria>) returns (bobotMap: map<int, real>)
    ensures bobotMap == BobotMap(bobot)
  {
    bobotMap := map[];
    var i := 0;
    while i < |bobot|
      invariant 0 <= i <= |bobot|
      invariant bobotMap == BobotMap(bobot[..i])
    {
      assert bobot[..i + 1][..i] == bobot[..i];
      bobotMap := bobotMap[bobot[i].kriteriaId := bobot[i].bobot];
      i := i + 1;
    }
    assert bobot[..i] == bobot;
  }

  /** A criterion id has a weight exactly when some entry carries it, and
      then the weight of the last such entry: later entries overwrite
      earlier ones. */
  lemma {:induction false} BobotMapLastWins(bobot: seq<BobotKriteria>, id: int)
    ensures id in BobotMap(bobot) <==> exists j :: 0 <= j < |bobot| && bobot[j].kriteriaId == id
    ensures forall j :: 0 <= j < |bobot| && bobot[j].kriteriaId == id &&
                        (forall k :: j < k < |bobot| ==> bobot[k].kriteriaId != id)
                        ==> id in BobotMap(bobot) && BobotMap(bobot)[id] == bobot[j].bobot
  {
    if |bobot| > 0 {
      var n := |bobot| - 1;
      var init := bobot[..n];
      BobotMapLastWins(init, id);
      assert forall j :: 0 <= j < n ==> init[j] == bobot[j];
    }
  }

  /** `kriteria.map(k => ({...k, bobot: bobotMap.get(k.id) || 0}))`. */
  function KriteriaWithBobot(kriteria: seq<Kriteria>, bobotMap: map<int, real>): seq<Kriteria> {
    seq(|kriteria|, i requires 0 <= i < |kriteria| =>
      kriteria[i].(bobot := Some(WeightOf(bobotMap, kriteria[i].id))))
  }

  /** Every criterion keeps its fields and gets the weight of the last
      weight entry for its id, or 0 when no entry has its id. */
  lemma KriteriaGetTheirWeight(kriteria: seq<Kriteria>, bobot: seq<BobotKriteria>, i: int)
    requires 0 <= i < |kriteria|
    ensures var kw := KriteriaWithBobot(kriteria, BobotMap(bobot));
      && |kw| == |kriteria|
      && kw[i].id == kriteria[i].id && kw[i].kode == kriteria[i].kode && kw[i].nama == kriteria[i].nama
      && ((forall j :: 0 <= j < |bobot| ==> bobot[j].kriteriaId != kriteria[i].id) ==> kw[i].bobot == Some(0.0))
      && (forall j :: 0 <= j < |bobot| && bobot[j].kriteriaId == kriteria[i].id &&
                      (forall k :: j < k < |bobot| ==> bobot[k].kriteriaId != kriteria[i].id)
                      ==> kw[i].bobot == Some(bobot[j].bobot))
  {
    BobotMapLastWins(bobot, kriteria[i].id);
  }

  // ---------------------------------------------------------------------
  // Grouping the results per employee (app/perankingan/page.tsx:91-108)
  // ---------------------------------------------------------------------

  /** One entry of `karyawanMap`: the employee record taken from their first
      result, and their criterion scores. */
  datatype Group = Group(karyawanId: int, karyawan: Karyawan, nilai: map<int, real>)

  /** `hasil.nilaiKriteria || 0`. */
  function ScoreOf(h: HasilProfile): real {
    match h.nilaiKriteria
    case Some(v) => v
    case None => 0.0
  }

  /** Where `karyawanMap` holds employee `id`, or -1 (`!karyawanMap.has(id)`). */
  function FindGroup(groups: seq<Group>, id: int): (i: int)
    ensures -1 <= i < |groups|
    ensures 0 <= i ==> groups[i].karyawanId == id
    ensures i == -1 ==> forall j :: 0 <= j < |groups| ==> groups[j].karyawanId != id
  {
    if |groups| == 0 then -1
    else if groups[|groups| - 1].karyawanId == id then |groups| - 1
    else FindGroup(groups[..|groups| - 1], id)
  }

  /** One turn of the `forEach`: a new employee is appended with an empty
      score map, then the result's score is set in that employee's map. */
  function AddHasil(groups: seq<Group>, h: HasilProfile): seq<Group> {
    var i := FindGroup(groups, h.karyawanId);
    if i < 0 then groups + [Group(h.karyawanId, h.karyawan, map[h.kriteriaId := ScoreOf(h)])]
    else groups[i := groups[i].(nilai := groups[i].nilai[h.kriteriaId := ScoreOf(h)])]
  }

  /** `karyawanMap` after the whole `forEach`, in the Map's insertion order. */
  function Groups(hasil: seq<HasilProfile>): seq<Group> {
    if |hasil| == 0 then [] else AddHasil(Groups(hasil[..|hasil| - 1]), hasil[|hasil| - 1])
  }

  ghost predicate Appears(hasil: seq<HasilProfile>, id: int) {
    exists j :: 0 <= j < |hasil| && hasil[j].karyawanId == id
  }

  /** Position of the first result of employee `id`. */
  function FirstIndex(hasil: seq<HasilProfile>, id: int): (j: nat)
    requires Appears(hasil, id)
    ensures j < |hasil| && hasil[j].karyawanId == id
    ensures forall k :: 0 <= k < j ==> hasil[k].karyawanId != id
  {
    if hasil[0].karyawanId == id then 0
    else
      assert Appears(hasil[1..], id) by {
        var j :| 0 <= j < |hasil| && hasil[j].karyawanId == id;
        assert hasil[1..][j - 1] == hasil[j];
      }
      1 + FirstIndex(hasil[1..], id)
  }

  /** The scores of employee `id`: every result of theirs sets its
      criterion, a later result for the same criterion overwriting an
      earlier one. */
  function NilaiFor(hasil: seq<HasilProfile>, id: int): map<int, real> {
    if |hasil| == 0 then map[]
    else
      var h := hasil[|hasil| - 1];
      var m := NilaiFor(hasil[..|hasil| - 1], id);
      if h.karyawanId == id then m[h.kriteriaId := ScoreOf(h)] else m
  }

  ghost predicate DistinctGroups(groups: seq<Group>) {
    forall p, q :: 0 <= p < q < |groups| ==> groups[p].karyawanId != groups[q].karyawanId
  }

  lemma FirstIndexOfPrefix(hasil: seq<HasilProfile>, n: nat, id: int)
    requires n <= |hasil|
    requires Appears(hasil[..n], id)
    ensures Appears(hasil, id)
    ensures FirstIndex(hasil, id) == FirstIndex(hasil[..n], id)
  {
    var j :| 0 <= j < n && hasil[..n][j].karyawanId == id;
    assert hasil[j].karyawanId == id;
    var a := FirstIndex(hasil, id);
    var b := FirstIndex(hasil[..n], id);
    assert hasil[b].karyawanId == id;
    assert a <= b;
    assert hasil[..n][a] == hasil[a];
  }

  /** One turn of the grouping keeps every entry's employee and appends
      one entry exactly when the employee is new. */
  lemma AddHasilShape(groups: seq<Group>, h: HasilProfile)
    ensures var gs := AddHasil(groups, h);
      && (FindGroup(groups, h.karyawanId) < 0 ==>
            |gs| == |groups| + 1 && gs[|groups|].karyawanId == h.karyawanId && gs[|groups|].karyawan == h.karyawan)
      && (FindGroup(groups, h.karyawanId) >= 0 ==> |gs| == |groups|)
      && forall p :: 0 <= p < |groups| ==>
           gs[p].karyawanId == groups[p].karyawanId && gs[p].karyawan == groups[p].karyawan
  {
  }

  lemma {:induction false} GroupsDistinct(hasil: seq<HasilProfile>)
    ensures DistinctGroups(Groups(hasil))
  {
    if |hasil| > 0 {
      var n := |hasil| - 1;
      var h := hasil[n];
      var old_ := Groups(hasil[..n]);
      var gs := Groups(hasil);
      GroupsDistinct(hasil[..n]);
      AddHasilShape(old_, h);
      assert gs == AddHasil(old_, h);
      forall p, q | 0 <= p < q < |gs| ensures gs[p].karyawanId != gs[q].karyawanId {
        assert gs[p].karyawanId == old_[p].karyawanId;
        if q < |old_| {
          assert gs[q].karyawanId == old_[q].karyawanId;
        } else {
          assert FindGroup(old_, h.karyawanId) < 0;
          assert gs[q].karyawanId == h.karyawanId;
        }
      }
    }
  }

  /** One turn of the grouping keeps an employee's group and adds the
      result's own employee. */
  lemma AddHasilFinds(groups: seq<Group>, h: HasilProfile, id: int)
    requires FindGroup(groups, id) >= 0 || h.karyawanId == id
    ensures FindGroup(AddHasil(groups, h), id) >= 0
  {
    var gs := AddHasil(groups, h);
    AddHasilShape(groups, h);
    if FindGroup(groups, id) >= 0 {
      assert gs[FindGroup(groups, id)].karyawanId == id;
    } else {
      assert gs[|groups|].karyawanId == id;
    }
  }

  lemma {:induction false} GroupsFindAppearing(hasil: seq<HasilProfile>, id: int)
    requires Appears(hasil, id)
    ensures FindGroup(Groups(hasil), id) >= 0
  {
    var n := |hasil| - 1;
    var init := hasil[..n];
    assert Groups(hasil) == AddHasil(Groups(init), hasil[n]);
    var j :| 0 <= j < |hasil| && hasil[j].karyawanId == id;
    if j < n {
      assert init[j] == hasil[j];
      GroupsFindAppearing(init, id);
    }
    AddHasilFinds(Groups(init), hasil[n], id);
  }

  lemma {:induction false} GroupsHasAppearing(hasil: seq<HasilProfile>, id: int)
    requires Appears(hasil, id)
    ensures exists p :: 0 <= p < |Groups(hasil)| && Groups(hasil)[p].karyawanId == id
  {
    GroupsFindAppearing(hasil, id);
    var p := FindGroup(Groups(hasil), id);
    assert Groups(hasil)[p].karyawanId == id;
  }

  lemma {:induction false} GroupsOnlyAppearing(hasil: seq<HasilProfile>, p: nat)
    requires p < |Groups(hasil)|
    ensures Appears(hasil, Groups(hasil)[p].karyawanId)
  {
    var n := |hasil| - 1;
    var init := hasil[..n];
    var h := hasil[n];
    var old_ := Groups(init);
    var gs := Groups(hasil);
    assert gs == AddHasil(old_, h);
    AddHasilShape(old_, h);
    if p < |old_| {
      GroupsOnlyAppearing(init, p);
      var j :| 0 <= j < n && init[j].karyawanId == old_[p].karyawanId;
      assert hasil[j] == init[j];
    } else {
      assert hasil[n].karyawanId == gs[p].karyawanId;
    }
  }

  /** Exactly the employees that have a result get an entry in
      `karyawanMap`, each one entry. */
  lemma {:induction false} GroupsCover(hasil: seq<HasilProfile>)
    ensures DistinctGroups(Groups(hasil))
    ensures forall id :: Appears(hasil, id) <==>
      exists p :: 0 <= p < |Groups(hasil)| && Groups(hasil)[p].karyawanId == id
  {
    var gs := Groups(hasil);
    GroupsDistinct(hasil);
    forall id | Appears(hasil, id) ensures exists p :: 0 <= p < |gs| && gs[p].karyawanId == id {
      GroupsHasAppearing(hasil, id);
    }
    forall id | exists p :: 0 <= p < |gs| && gs[p].karyawanId == id ensures Appears(hasil, id) {
      var p :| 0 <= p < |gs| && gs[p].karyawanId == id;
      GroupsOnlyAppearing(hasil, p);
    }
  }

  /** Appending a result keeps the first result of every employee who
      already had one. */
  lemma FirstIndexOfOlder(hasil: seq<HasilProfile>, old_: seq<Group>)
    requires |hasil| > 0
    requires forall p :: 0 <= p < |old_| ==> Appears(hasil[..|hasil| - 1], old_[p].karyawanId)
    ensures forall p :: 0 <= p < |old_| ==>
      && Appears(hasil, old_[p].karyawanId)
      && FirstIndex(hasil, old_[p].karyawanId) == FirstIndex(hasil[..|hasil| - 1], old_[p].karyawanId)
  {
    forall p | 0 <= p < |old_|
      ensures Appears(hasil, old_[p].karyawanId)
      ensures FirstIndex(hasil, old_[p].karyawanId) == FirstIndex(hasil[..|hasil| - 1], old_[p].karyawanId)
    {
      FirstIndexOfPrefix(hasil, |hasil| - 1, old_[p].karyawanId);
    }
  }

  /** The first result of an employee who had none so far is the last. */
  lemma FirstIndexOfNewcomer(hasil: seq<HasilProfile>)
    requires |hasil| > 0
    requires !Appears(hasil[..|hasil| - 1], hasil[|hasil| - 1].karyawanId)
    ensures Appears(hasil, hasil[|hasil| - 1].karyawanId)
    ensures FirstIndex(hasil, hasil[|hasil| - 1].karyawanId) == |hasil| - 1
  {
    var n := |hasil| - 1;
    var id := hasil[n].karyawanId;
    assert hasil[n].karyawanId == id;
    forall k | 0 <= k < n ensures hasil[k].karyawanId != id {
      assert hasil[..n][k] == hasil[k];
    }
  }

  /** Each entry of `karyawanMap` carries the employee record of that
      employee's first result. */
  lemma {:induction false} GroupsFirstKaryawan(hasil: seq<HasilProfile>)
    ensures forall p :: 0 <= p < |Groups(hasil)| ==>
      && Appears(hasil, Groups(hasil)[p].karyawanId)
      && Groups(hasil)[p].karyawan == hasil[FirstIndex(hasil, Groups(hasil)[p].karyawanId)].karyawan
  {
    if |hasil| > 0 {
      var n := |hasil| - 1;
      var init := hasil[..n];
      var h := hasil[n];
      var old_ := Groups(init);
      var gs := Groups(hasil);
      var i := FindGroup(old_, h.karyawanId);
      GroupsCover(init);
      GroupsFirstKaryawan(init);
      assert gs == AddHasil(old_, h);
      forall p | 0 <= p < |gs|
        ensures Appears(hasil, gs[p].karyawanId)
        ensures gs[p].karyawan == hasil[FirstIndex(hasil, gs[p].karyawanId)].karyawan
      {
        if p < |old_| {
          var id := old_[p].karyawanId;
          assert gs[p].karyawanId == id && gs[p].karyawan == old_[p].karyawan;
          FirstIndexOfPrefix(hasil, n, id);
          assert init[FirstIndex(init, id)] == hasil[FirstIndex(init, id)];
        } else {
          assert i < 0;
          assert !Appears(init, h.karyawanId);
          FirstIndexOfNewcomer(hasil);
        }
      }
    }
  }

  /** One turn of the grouping keeps the groups in first-result order. */
  lemma {:induction false} OrderAfterAdd(hasil: seq<HasilProfile>, old_: seq<Group>, gs: seq<Group>)
    requires |hasil| > 0
    requires gs == AddHasil(old_, hasil[|hasil| - 1])
    requires forall p :: 0 <= p < |old_| ==> Appears(hasil[..|hasil| - 1], old_[p].karyawanId)
    requires FindGroup(old_, hasil[|hasil| - 1].karyawanId) < 0 ==>
      !Appears(hasil[..|hasil| - 1], hasil[|hasil| - 1].karyawanId)
    requires forall p, q :: 0 <= p < q < |old_| ==>
      FirstIndex(hasil[..|hasil| - 1], old_[p].karyawanId) < FirstIndex(hasil[..|hasil| - 1], old_[q].karyawanId)
    ensures forall p :: 0 <= p < |gs| ==> Appears(hasil, gs[p].karyawanId)
    ensures forall p, q :: 0 <= p < q < |gs| ==>
      FirstIndex(hasil, gs[p].karyawanId) < FirstIndex(hasil, gs[q].karyawanId)
  {
    var n := |hasil| - 1;
    var h := hasil[n];
    FirstIndexOfOlder(hasil, old_);
    var fresh_ := FindGroup(old_, h.karyawanId) < 0;
    if fresh_ {
      FirstIndexOfNewcomer(hasil);
    }
    assert forall p :: 0 <= p < |old_| ==> gs[p].karyawanId == old_[p].karyawanId;
    assert |gs| == |old_| + (if fresh_ then 1 else 0);
    assert fresh_ ==> gs[|old_|].karyawanId == h.karyawanId;
  }

  /** `karyawanMap` lists the employees in the order of their first
      results. */
  lemma {:induction false} GroupsFirstAppearance(hasil: seq<HasilProfile>)
    ensures forall p :: 0 <= p < |Groups(hasil)| ==> Appears(hasil, Groups(hasil)[p].karyawanId)
    ensures forall p, q :: 0 <= p < q < |Groups(hasil)| ==>
      FirstIndex(hasil, Groups(hasil)[p].karyawanId) < FirstIndex(hasil, Groups(hasil)[q].karyawanId)
  {
    if |hasil| > 0 {
      var init := hasil[..|hasil| - 1];
      GroupsFirstAppearance(init);
      GroupsCover(init);
      OrderAfterAdd(hasil, Groups(init), Groups(hasil));
    }
  }

  /** Each entry of `karyawanMap` holds the scores `NilaiFor` gives. */
  lemma {:induction false} GroupsNilai(hasil: seq<HasilProfile>)
    ensures forall p :: 0 <= p < |Groups(hasil)| ==>
      Groups(hasil)[p].nilai == NilaiFor(hasil, Groups(hasil)[p].karyawanId)
  {
    if |hasil| > 0 {
      var n := |hasil| - 1;
      var init := hasil[..n];
      var h := hasil[n];
      var old_ := Groups(init);
      var gs := Groups(hasil);
      GroupsCover(init);
      GroupsNilai(init);
      assert gs == AddHasil(old_, h);
      var i := FindGroup(old_, h.karyawanId);
      if i < 0 {
        assert !Appears(init, h.karyawanId);
        NilaiForAbsent(init, h.karyawanId);
      }
    }
  }

  lemma {:induction false} NilaiForAbsent(hasil: seq<HasilProfile>, id: int)
    requires !Appears(hasil, id)
    ensures NilaiFor(hasil, id) == map[]
  {
    if |hasil| > 0 {
      var init := hasil[..|hasil| - 1];
      forall j | 0 <= j < |init| ensures init[j].karyawanId != id {
        assert hasil[j] == init[j];
      }
      NilaiForAbsent(init, id);
    }
  }

  /** An employee's score on a criterion is that of their last result for
      it, and only criteria they have a result for get a score. */
  lemma {:induction false} NilaiForLastWins(hasil: seq<HasilProfile>, id: int, kid: int)
    ensures kid in NilaiFor(hasil, id) <==>
      exists j :: 0 <= j < |hasil| && hasil[j].karyawanId == id && hasil[j].kriteriaId == kid
    ensures forall j :: 0 <= j < |hasil| && hasil[j].karyawanId == id && hasil[j].kriteriaId == kid &&
                        (forall k :: j < k < |hasil| ==> !(hasil[k].karyawanId == id && hasil[k].kriteriaId == kid))
                        ==> kid in NilaiFor(hasil, id) && NilaiFor(hasil, id)[kid] == ScoreOf(hasil[j])
  {
    if |hasil| > 0 {
      var n := |hasil| - 1;
      var init := hasil[..n];
      NilaiForLastWins(init, id, kid);
      assert forall j :: 0 <= j < n ==> init[j] == hasil[j];
    }
  }

  // ---------------------------------------------------------------------
  // Totals (app/perankingan/page.tsx:110-135)
  // ---------------------------------------------------------------------

  /** `data.nilai.get(id) || 0`. */
  function NilaiOf(nilai: map<int, real>, id: int): real {
    if id in nilai then nilai[id] else 0.0
  }

  /** Σ (criterion score × criterion weight) over the criteria list, in
      list order. */
  function TotalScore(nilai: map<int, real>, kriteria: seq<Kriteria>, bobotMap: map<int, real>): real {
    if |kriteria| == 0 then 0.0
    else
      var k := kriteria[|kriteria| - 1];
      TotalScore(nilai, kriteria[..|kriteria| - 1], bobotMap) + NilaiOf(nilai, k.id) * WeightOf(bobotMap, k.id)
  }

  /** `nilaiPerKriteria` after the `forEach`. */
  function PerKriteria(nilai: map<int, real>, kriteria: seq<Kriteria>): map<int, real> {
    if |kriteria| == 0 then map[]
    else
      var k := kriteria[|kriteria| - 1];
      PerKriteria(nilai, kriteria[..|kriteria| - 1])[k.id := NilaiOf(nilai, k.id)]
  }

  /** `data.karyawan.nama || data.karyawan.kode`. */
  function DisplayName(k: Karyawan): string {
    if k.nama != "" then k.nama else k.kode
  }

  function ResultOf(g: Group, kriteria: seq<Kriteria>, bobotMap: map<int, real>): RankingResult {
    RankingResult(g.karyawanId, g.karyawan.kode, DisplayName(g.karyawan),
                  PerKriteria(g.nilai, kriteria), TotalScore(g.nilai, kriteria, bobotMap), 0)
  }

  /** `results` before sorting: one result per group, in group order. */
  function Unranked(groups: seq<Group>, kriteria: seq<Kriteria>, bobotMap: map<int, real>): seq<RankingResult> {
    seq(|groups|, p requires 0 <= p < |groups| => ResultOf(groups[p], kriteria, bobotMap))
  }

  /** The per-criterion map has an entry for exactly the listed criteria,
      each holding the employee's score or 0 when they have none. */
  lemma {:induction false} PerKriteriaEntries(nilai: map<int, real>, kriteria: seq<Kriteria>)
    ensures forall id :: id in PerKriteria(nilai, kriteria) <==>
      exists i :: 0 <= i < |kriteria| && kriteria[i].id == id
    ensures forall id :: id in PerKriteria(nilai, kriteria) ==>
      PerKriteria(nilai, kriteria)[id] == (if id in nilai then nilai[id] else 0.0)
  {
    if |kriteria| > 0 {
      var n := |kriteria| - 1;
      PerKriteriaEntries(nilai, kriteria[..n]);
      assert forall i :: 0 <= i < n ==> kriteria[..n][i] == kriteria[i];
    }
  }

  /** The criteria that have both a score and a weight entry. */
  function Scored(nilai: map<int, real>, kriteria: seq<Kriteria>, bobotMap: map<int, real>): (r: seq<Kriteria>)
    ensures forall i :: 0 <= i < |r| ==> r[i].id in nilai && r[i].id in bobotMap
  {
    if |kriteria| == 0 then []
    else
      var k := kriteria[|kriteria| - 1];
      Scored(nilai, kriteria[..|kriteria| - 1], bobotMap) +
        (if k.id in nilai && k.id in bobotMap then [k] else [])
  }

  /** Exactly the listed criteria that have both a score and a weight
      are kept. */
  lemma {:induction false} ScoredMembers(nilai: map<int, real>, kriteria: seq<Kriteria>, bobotMap: map<int, real>, x: Kriteria)
    ensures x in Scored(nilai, kriteria, bobotMap) <==> x in kriteria && x.id in nilai && x.id in bobotMap
  {
    if |kriteria| > 0 {
      var n := |kriteria| - 1;
      ScoredMembers(nilai, kriteria[..n], bobotMap, x);
      assert kriteria == kriteria[..n] + [kriteria[n]];
    }
  }

  /** One criterion more adds its term to the total over the scored
      criteria: itself when it is scored, 0 in the total when it is not. */
  lemma {:induction false} ScoredStep(nilai: map<int, real>, kriteria: seq<Kriteria>, bobotMap: map<int, real>)
    requires |kriteria| > 0
    ensures var k := kriteria[|kriteria| - 1];
      TotalScore(nilai, Scored(nilai, kriteria, bobotMap), bobotMap)
      == TotalScore(nilai, Scored(nilai, kriteria[..|kriteria| - 1], bobotMap), bobotMap)
         + NilaiOf(nilai, k.id) * WeightOf(bobotMap, k.id)
  {
    var n := |kriteria| - 1;
    var k := kriteria[n];
    var s := Scored(nilai, kriteria[..n], bobotMap);
    if k.id in nilai && k.id in bobotMap {
      assert Scored(nilai, kriteria, bobotMap) == s + [k];
      assert (s + [k])[..|s|] == s;
    } else {
      assert Scored(nilai, kriteria, bobotMap) == s;
      assert NilaiOf(nilai, k.id) == 0.0 || WeightOf(bobotMap, k.id) == 0.0;
    }
  }

  /** A criterion without a score or without a weight adds nothing: the
      total over all criteria is the total over those that have both. */
  lemma {:induction false} TotalIgnoresUnscored(nilai: map<int, real>, kriteria: seq<Kriteria>, bobotMap: map<int, real>)
    ensures TotalScore(nilai, kriteria, bobotMap) == TotalScore(nilai, Scored(nilai, kriteria, bobotMap), bobotMap)
  {
    if |kriteria| > 0 {
      TotalIgnoresUnscored(nilai, kriteria[..|kriteria| - 1], bobotMap);
      ScoredStep(nilai, kriteria, bobotMap);
    }
  }

  /** With non-negative weights, an employee who scores at least as well
      on every listed criterion gets at least the same total. */
  lemma {:induction false} TotalScoreMonotone(a: map<int, real>, b: map<int, real>, kriteria: seq<Kriteria>, bobotMap: map<int, real>)
    requires forall i :: 0 <= i < |kriteria| ==> WeightOf(bobotMap, kriteria[i].id) >= 0.0
    requires forall i :: 0 <= i < |kriteria| ==> NilaiOf(a, kriteria[i].id) <= NilaiOf(b, kriteria[i].id)
    ensures TotalScore(a, kriteria, bobotMap) <= TotalScore(b, kriteria, bobotMap)
  {
    if |kriteria| > 0 {
      var n := |kriteria| - 1;
      var k := kriteria[n];
      assert forall i :: 0 <= i < n ==> kriteria[..n][i] == kriteria[i];
      TotalScoreMonotone(a, b, kriteria[..n], bobotMap);
      var w := WeightOf(bobotMap, k.id);
      assert w >= 0.0 && NilaiOf(a, k.id) <= NilaiOf(b, k.id) by {
        assert kriteria[n] == k;
      }
      ProductMonotone(NilaiOf(a, k.id), NilaiOf(b, k.id), w);
      assert TotalScore(a, kriteria, bobotMap) == TotalScore(a, kriteria[..n], bobotMap) + NilaiOf(a, k.id) * w;
      assert TotalScore(b, kriteria, bobotMap) == TotalScore(b, kriteria[..n], bobotMap) + NilaiOf(b, k.id) * w;
    }
  }

  lemma ProductMonotone(x: real, y: real, w: real)
    requires x <= y && w >= 0.0
    ensures x * w <= y * w
  {
  }

  // ---------------------------------------------------------------------
  // Sorting (app/perankingan/page.tsx:137-138)
  // ---------------------------------------------------------------------

  /** Insertion into a list sorted by total, highest first: `x` goes after
      every element whose total is at least its own, so ties keep their
      order. */
  function Insert(x: RankingResult, s: seq<RankingResult>): seq<RankingResult> {
    if |s| == 0 then [x]
    else if s[|s| - 1].nilaiTotal >= x.nilaiTotal then s + [x]
    else Insert(x, s[..|s| - 1]) + [s[|s| - 1]]
  }

  /** The stable sort by `b.nilaiTotal - a.nilaiTotal` that `Array.sort`
      performs (its stability is required since ECMAScript 2019). */
  function StableSortDesc(s: seq<RankingResult>): seq<RankingResult> {
    if |s| == 0 then [] else Insert(s[|s| - 1], StableSortDesc(s[..|s| - 1]))
  }

  ghost predicate SortedDesc(s: seq<RankingResult>) {
    forall i, j :: 0 <= i < j < |s| ==> s[i].nilaiTotal >= s[j].nilaiTotal
  }

  /** The results whose total is `t`, in their order. */
  function Ties(s: seq<RankingResult>, t: real): seq<RankingResult> {
    if |s| == 0 then []
    else Ties(s[..|s| - 1], t) + (if s[|s| - 1].nilaiTotal == t then [s[|s| - 1]] else [])
  }

  lemma TiesAppend(s: seq<RankingResult>, y: RankingResult, t: real)
    ensures Ties(s + [y], t) == Ties(s, t) + (if y.nilaiTotal == t then [y] else [])
  {
    assert (s + [y])[..|s|] == s;
  }

  lemma {:induction false} InsertPermutes(x: RankingResult, s: seq<RankingResult>)
    ensures |Insert(x, s)| == |s| + 1
    ensures multiset(Insert(x, s)) == multiset(s) + multiset{x}
  {
    if |s| > 0 && s[|s| - 1].nilaiTotal < x.nilaiTotal {
      var n := |s| - 1;
      InsertPermutes(x, s[..n]);
      assert s[..n] + [s[n]] == s;
    }
  }

  lemma {:induction false} InsertSorted(x: RankingResult, s: seq<RankingResult>)
    requires SortedDesc(s)
    ensures SortedDesc(Insert(x, s))
  {
    if |s| > 0 && s[|s| - 1].nilaiTotal < x.nilaiTotal {
      var n := |s| - 1;
      var last := s[n];
      var init := s[..n];
      InsertSorted(x, init);
      InsertPermutes(x, init);
      var r := Insert(x, init);
      forall i | 0 <= i < |r| ensures r[i].nilaiTotal >= last.nilaiTotal {
        assert r[i] in multiset(r);
        assert r[i] in multiset(init) || r[i] == x;
        if r[i] != x {
          var k :| 0 <= k < n && init[k] == r[i];
        }
      }
    }
  }

  lemma {:induction false} InsertTies(x: RankingResult, s: seq<RankingResult>, t: real)
    ensures Ties(Insert(x, s), t) == Ties(s, t) + (if x.nilaiTotal == t then [x] else [])
  {
    if |s| > 0 {
      var n := |s| - 1;
      var last := s[n];
      var init := s[..n];
      assert init + [last] == s;
      if last.nilaiTotal >= x.nilaiTotal {
        TiesAppend(s, x, t);
      } else {
        InsertTies(x, init, t);
        TiesAppend(Insert(x, init), last, t);
        TiesAppend(init, last, t);
      }
    }
  }

  lemma {:induction false} StableSortPermutes(s: seq<RankingResult>)
    ensures |StableSortDesc(s)| == |s|
    ensures multiset(StableSortDesc(s)) == multiset(s)
  {
    if |s| > 0 {
      var n := |s| - 1;
      StableSortPermutes(s[..n]);
      InsertPermutes(s[n], StableSortDesc(s[..n]));
      assert s[..n] + [s[n]] == s;
    }
  }

  lemma {:induction false} StableSortSorted(s: seq<RankingResult>)
    ensures SortedDesc(StableSortDesc(s))
  {
    if |s| > 0 {
      StableSortSorted(s[..|s| - 1]);
      InsertSorted(s[|s| - 1], StableSortDesc(s[..|s| - 1]));
    }
  }

  lemma {:induction false} StableSortTies(s: seq<RankingResult>, t: real)
    ensures Ties(StableSortDesc(s), t) == Ties(s, t)
  {
    if |s| > 0 {
      var n := |s| - 1;
      StableSortTies(s[..n], t);
      InsertTies(s[n], StableSortDesc(s[..n]), t);
      TiesAppend(s[..n], s[n], t);
      assert s[..n] + [s[n]] == s;
    }
  }

  /** The sort returns a permutation of its input, sorted by total with
      the highest first, in which the results of any one total appear in
      the same order as in the input (stability). */
  lemma {:induction false} StableSortSpec(s: seq<RankingResult>)
    ensures |StableSortDesc(s)| == |s|
    ensures multiset(StableSortDesc(s)) == multiset(s)
    ensures SortedDesc(StableSortDesc(s))
    ensures forall t :: Ties(StableSortDesc(s), t) == Ties(s, t)
  {
    StableSortPermutes(s);
    StableSortSorted(s);
    forall t ensures Ties(StableSortDesc(s), t) == Ties(s, t) {
      StableSortTies(s, t);
    }
  }

  ghost predicate DistinctIds(s: seq<RankingResult>) {
    forall i, j :: 0 <= i < j < |s| ==> s[i].karyawanId != s[j].karyawanId
  }

  /** Results of equal total are in increasing order of `key`. */
  ghost predicate TiesOrdered(s: seq<RankingResult>, key: RankingResult -> int) {
    forall i, j :: 0 <= i < j < |s| && s[i].nilaiTotal == s[j].nilaiTotal ==> key(s[i]) < key(s[j])
  }

  /** Every element of `Insert(x, s)` is `x` or an element of `s`. */
  lemma InsertMembers(x: RankingResult, s: seq<RankingResult>, i: int)
    requires 0 <= i < |Insert(x, s)|
    ensures Insert(x, s)[i] == x || exists k :: 0 <= k < |s| && s[k] == Insert(x, s)[i]
  {
    InsertPermutes(x, s);
    var r := Insert(x, s);
    assert r[i] in multiset(r);
    if r[i] != x {
      assert r[i] in multiset(s);
      assert r[i] in s;
    }
  }

  lemma {:induction false} InsertDistinct(x: RankingResult, s: seq<RankingResult>)
    requires DistinctIds(s)
    requires forall k :: 0 <= k < |s| ==> s[k].karyawanId != x.karyawanId
    ensures DistinctIds(Insert(x, s))
  {
    if |s| > 0 && s[|s| - 1].nilaiTotal < x.nilaiTotal {
      var n := |s| - 1;
      var init := s[..n];
      var last := s[n];
      InsertDistinct(x, init);
      var r := Insert(x, init);
      InsertPermutes(x, init);
      forall i | 0 <= i < |r| ensures r[i].karyawanId != last.karyawanId {
        InsertMembers(x, init, i);
      }
      assert Insert(x, s) == r + [last];
    }
  }

  lemma {:induction false} InsertTiesOrdered(x: RankingResult, s: seq<RankingResult>, key: RankingResult -> int)
    requires TiesOrdered(s, key)
    requires forall k :: 0 <= k < |s| ==> key(s[k]) < key(x)
    ensures TiesOrdered(Insert(x, s), key)
  {
    if |s| > 0 && s[|s| - 1].nilaiTotal < x.nilaiTotal {
      var n := |s| - 1;
      var init := s[..n];
      var last := s[n];
      InsertTiesOrdered(x, init, key);
      var r := Insert(x, init);
      InsertPermutes(x, init);
      forall i | 0 <= i < |r| && r[i].nilaiTotal == last.nilaiTotal ensures key(r[i]) < key(last) {
        InsertMembers(x, init, i);
      }
      assert Insert(x, s) == r + [last];
    }
  }

  /** Sorting keeps the employee ids distinct. */
  lemma {:induction false} StableSortDistinct(u: seq<RankingResult>)
    requires DistinctIds(u)
    ensures DistinctIds(StableSortDesc(u))
  {
    if |u| > 0 {
      var n := |u| - 1;
      var sorted := StableSortDesc(u[..n]);
      StableSortDistinct(u[..n]);
      StableSortSpec(u[..n]);
      forall k | 0 <= k < |sorted| ensures sorted[k].karyawanId != u[n].karyawanId {
        assert sorted[k] in multiset(u[..n]);
      }
      InsertDistinct(u[n], sorted);
    }
  }

  /** Stability, stated through a key: when the input is in increasing
      key order, results of equal total leave the sort in that order. */
  lemma {:induction false} StableSortTiesOrdered(u: seq<RankingResult>, key: RankingResult -> int)
    requires forall i, j :: 0 <= i < j < |u| ==> key(u[i]) < key(u[j])
    ensures TiesOrdered(StableSortDesc(u), key)
  {
    if |u| > 0 {
      var n := |u| - 1;
      var sorted := StableSortDesc(u[..n]);
      StableSortTiesOrdered(u[..n], key);
      StableSortSpec(u[..n]);
      forall k | 0 <= k < |sorted| ensures key(sorted[k]) < key(u[n]) {
        assert sorted[k] in multiset(u[..n]);
      }
      InsertTiesOrdered(u[n], sorted, key);
    }
  }

  /** Inserting `x` before a tail of smaller totals: `x` passes all of
      them. */
  lemma {:induction false} InsertPastSmaller(x: RankingResult, s: seq<RankingResult>, j: int)
    requires 0 <= j <= |s|
    requires forall k :: j <= k < |s| ==> s[k].nilaiTotal < x.nilaiTotal
    ensures Insert(x, s) == Insert(x, s[..j]) + s[j..]
    decreases |s|
  {
    if |s| > j {
      var n := |s| - 1;
      InsertPastSmaller(x, s[..n], j);
      assert s[..n][..j] == s[..j];
      assert s[..n][j..] + [s[n]] == s[j..];
    } else {
      assert s[..j] == s;
    }
  }

  /** Where the insertion loop stops, `x` goes: before it the sorted
      prefix, after it the rest, each element one place to the right. */
  lemma InsertStops(x: RankingResult, sorted: seq<RankingResult>, j: int, target: seq<RankingResult>)
    requires 0 <= j <= |sorted| && (j == 0 || sorted[j - 1].nilaiTotal >= x.nilaiTotal)
    requires target == Insert(x, sorted[..j]) + sorted[j..]
    ensures |target| == |sorted| + 1 && target[j] == x
    ensures forall k :: 0 <= k < j ==> target[k] == sorted[k]
    ensures forall k :: j < k <= |sorted| ==> target[k] == sorted[k - 1]
  {
    assert Insert(x, sorted[..j]) == sorted[..j] + [x];
  }

  /** The shifting loop of one insertion pass: the elements before
      position `i` whose total is below that of `x` move one place right,
      and the returned `j` is the gap they leave. */
  method ShiftSmaller(a: array<RankingResult>, i: int, x: RankingResult) returns (j: int)
    requires 0 <= i < a.Length
    modifies a
    ensures 0 <= j <= i
    ensures j == 0 || old(a[j - 1]).nilaiTotal >= x.nilaiTotal
    ensures forall k :: j <= k < i ==> old(a[k]).nilaiTotal < x.nilaiTotal
    ensures forall k :: 0 <= k < j ==> a[k] == old(a[k])
    ensures forall k :: j < k <= i ==> a[k] == old(a[k - 1])
    ensures forall k :: i < k < a.Length ==> a[k] == old(a[k])
  {
    j := i;
    while j > 0 && a[j - 1].nilaiTotal < x.nilaiTotal
      invariant 0 <= j <= i
      invariant forall k :: 0 <= k < j ==> a[k] == old(a[k])
      invariant forall k :: j < k <= i ==> a[k] == old(a[k - 1])
      invariant forall k :: i < k < a.Length ==> a[k] == old(a[k])
      invariant forall k :: j <= k < i ==> old(a[k]).nilaiTotal < x.nilaiTotal
    {
      a[j] := a[j - 1];
      j := j - 1;
    }
  }

  /** One pass of the insertion sort: `a[i]` moves left past the elements
      of smaller total, which shift one place right. */
  method InsertInPlace(a: array<RankingResult>, i: int)
    requires 0 <= i < a.Length
    modifies a
    ensures a[..i + 1] == Insert(old(a[i]), old(a[..i]))
    ensures forall k :: i < k < a.Length ==> a[k] == old(a[k])
  {
    ghost var sorted := a[..i];
    var x := a[i];
    ghost var target := Insert(x, sorted);
    var j := ShiftSmaller(a, i, x);
    InsertPastSmaller(x, sorted, j);
    InsertStops(x, sorted, j, target);
    a[j] := x;
    assert forall k :: 0 <= k <= i ==> a[k] == target[k];
    assert a[..i + 1] == target;
  }

  /** `results.sort((a, b) => b.nilaiTotal - a.nilaiTotal)`, in place, as a
      stable insertion sort. */
  method SortByTotalDesc(a: array<RankingResult>)
    modifies a
    ensures a[..] == StableSortDesc(old(a[..]))
  {
    ghost var input := a[..];
    var i := 0;
    while i < a.Length
      invariant 0 <= i <= a.Length
      invariant a[..i] == StableSortDesc(input[..i])
      invariant a[i..] == input[i..]
    {
      assert a[i] == input[i];
      InsertInPlace(a, i);
      assert input[..i + 1][..i] == input[..i];
      assert a[i + 1..] == input[i + 1..];
      i := i + 1;
    }
    assert input[..a.Length] == input;
  }

  // ---------------------------------------------------------------------
  // Rank numbers (app/perankingan/page.tsx:139-141)
  // ---------------------------------------------------------------------

  /** `results.forEach((result, index) => result.ranking = index + 1)`. */
  function WithRanks(s: seq<RankingResult>): seq<RankingResult> {
    seq(|s|, i requires 0 <= i < |s| => s[i].(ranking := i + 1))
  }

  method AssignRanks(a: array<RankingResult>)
    modifies a
    ensures a[..] == WithRanks(old(a[..]))
  {
    var i := 0;
    while i < a.Length
      invariant 0 <= i <= a.Length
      invariant forall k :: 0 <= k < i ==> a[k] == old(a[k]).(ranking := k + 1)
      invariant forall k :: i <= k < a.Length ==> a[k] == old(a[k])
    {
      a[i] := a[i].(ranking := i + 1);
      i := i + 1;
    }
  }

  // ---------------------------------------------------------------------
  // calculateRanking and fetchData (app/perankingan/page.tsx:50-145)
  // ---------------------------------------------------------------------

  /** What `calculateRanking` hands to `setRankingResults`. */
  function Ranking(hasil: seq<HasilProfile>, kriteria: seq<Kriteria>, bobotMap: map<int, real>): seq<RankingResult> {
    WithRanks(StableSortDesc(Unranked(Groups(hasil), kriteria, bobotMap)))
  }

  /** The result an employee should get, read straight off the input: the
      record of their first result, their last score per criterion, and
      the weighted total of those scores. */
  function ResultFor(hasil: seq<HasilProfile>, id: int, kriteria: seq<Kriteria>, bobotMap: map<int, real>): RankingResult
    requires Appears(hasil, id)
  {
    var k := hasil[FirstIndex(hasil, id)].karyawan;
    var nilai := NilaiFor(hasil, id);
    RankingResult(id, k.kode, DisplayName(k), PerKriteria(nilai, kriteria), TotalScore(nilai, kriteria, bobotMap), 0)
  }

  /** The unsorted results are the per-employee results, one per group. */
  lemma UnrankedEntries(hasil: seq<HasilProfile>, kriteria: seq<Kriteria>, bobotMap: map<int, real>)
    ensures var gs := Groups(hasil);
      var u := Unranked(gs, kriteria, bobotMap);
      && |u| == |gs|
      && forall p :: 0 <= p < |u| ==>
           u[p].karyawanId == gs[p].karyawanId && Appears(hasil, gs[p].karyawanId) &&
           u[p] == ResultFor(hasil, gs[p].karyawanId, kriteria, bobotMap)
  {
    GroupsFirstKaryawan(hasil);
    GroupsNilai(hasil);
  }

  /** The ranking numbers its results 1, 2, ..., n, one per employee
      with a result, with totals that never increase down the list. */
  lemma RankingShape(hasil: seq<HasilProfile>, kriteria: seq<Kriteria>, bobotMap: map<int, real>)
    ensures var r := Ranking(hasil, kriteria, bobotMap);
      && |r| == |Groups(hasil)|
      && (forall i :: 0 <= i < |r| ==> r[i].ranking == i + 1)
      && (forall i, j :: 0 <= i < j < |r| ==> r[i].nilaiTotal >= r[j].nilaiTotal)
  {
    StableSortSpec(Unranked(Groups(hasil), kriteria, bobotMap));
  }

  /** Every ranked result is the one `ResultFor` gives its employee, with
      its position plus one as rank. */
  lemma RankingEntries(hasil: seq<HasilProfile>, kriteria: seq<Kriteria>, bobotMap: map<int, real>)
    ensures var r := Ranking(hasil, kriteria, bobotMap);
      forall i :: 0 <= i < |r| ==>
        Appears(hasil, r[i].karyawanId) &&
        r[i] == ResultFor(hasil, r[i].karyawanId, kriteria, bobotMap).(ranking := i + 1)
  {
    var gs := Groups(hasil);
    var u := Unranked(gs, kriteria, bobotMap);
    var sorted := StableSortDesc(u);
    StableSortSpec(u);
    UnrankedEntries(hasil, kriteria, bobotMap);
    forall i | 0 <= i < |sorted|
      ensures Appears(hasil, sorted[i].karyawanId)
      ensures sorted[i] == ResultFor(hasil, sorted[i].karyawanId, kriteria, bobotMap)
    {
      assert sorted[i] in multiset(u);
      var p :| 0 <= p < |u| && u[p] == sorted[i];
    }
  }

  /** No employee is ranked twice. */
  lemma RankingDistinct(hasil: seq<HasilProfile>, kriteria: seq<Kriteria>, bobotMap: map<int, real>)
    ensures var r := Ranking(hasil, kriteria, bobotMap);
      forall i, j :: 0 <= i < j < |r| ==> r[i].karyawanId != r[j].karyawanId
  {
    var u := Unranked(Groups(hasil), kriteria, bobotMap);
    GroupsCover(hasil);
    StableSortDistinct(u);
  }

  /** Exactly the employees with a result are ranked. */
  lemma RankingCoversEmployees(hasil: seq<HasilProfile>, kriteria: seq<Kriteria>, bobotMap: map<int, real>, id: int)
    ensures var r := Ranking(hasil, kriteria, bobotMap);
      Appears(hasil, id) <==> exists i :: 0 <= i < |r| && r[i].karyawanId == id
  {
    var gs := Groups(hasil);
    var u := Unranked(gs, kriteria, bobotMap);
    var sorted := StableSortDesc(u);
    var r := Ranking(hasil, kriteria, bobotMap);
    StableSortSpec(u);
    if Appears(hasil, id) {
      GroupsCover(hasil);
      var p :| 0 <= p < |gs| && gs[p].karyawanId == id;
      assert u[p] in multiset(sorted);
      var i :| 0 <= i < |sorted| && sorted[i] == u[p];
      assert r[i].karyawanId == id;
    }
    if exists i :: 0 <= i < |r| && r[i].karyawanId == id {
      RankingEntries(hasil, kriteria, bobotMap);
    }
  }

  /** Ties keep first-appearance order: of two results with the same
      total, the one ranked higher belongs to the employee whose first
      result came first. */
  lemma RankingTieOrder(hasil: seq<HasilProfile>, kriteria: seq<Kriteria>, bobotMap: map<int, real>)
    ensures var r := Ranking(hasil, kriteria, bobotMap);
      forall i, j :: 0 <= i < j < |r| && r[i].nilaiTotal == r[j].nilaiTotal ==>
        Appears(hasil, r[i].karyawanId) && Appears(hasil, r[j].karyawanId) &&
        FirstIndex(hasil, r[i].karyawanId) < FirstIndex(hasil, r[j].karyawanId)
  {
    var gs := Groups(hasil);
    var u := Unranked(gs, kriteria, bobotMap);
    var key := (e: RankingResult) => if Appears(hasil, e.karyawanId) then FirstIndex(hasil, e.karyawanId) else -1;
    UnrankedEntries(hasil, kriteria, bobotMap);
    GroupsFirstAppearance(hasil);
    assert forall p, q :: 0 <= p < q < |u| ==> key(u[p]) < key(u[q]);
    StableSortTiesOrdered(u, key);
    RankingEntries(hasil, kriteria, bobotMap);
  }

  // The concrete tie below: employee 2 ("K02", no name) has the first
  // result, employee 1 ("Ani") the second, both scoring 4 on the one
  // criterion of weight 0.5.

  const TieA := Karyawan(1, "K01", "Ani")
  const TieB := Karyawan(2, "K02", "")
  const TieHasil := [HasilProfile(7, 10, Some(4.0), 2, TieB), HasilProfile(8, 10, Some(4.0), 1, TieA)]
  const TieKriteria := [Kriteria(10, "C1", "Kinerja", None)]
  const TieBobot := map[10 := 0.5]

  lemma TieGroups()
    ensures Groups(TieHasil) == [Group(2, TieB, map[10 := 4.0]), Group(1, TieA, map[10 := 4.0])]
  {
    assert TieHasil[..1] == [TieHasil[0]];
    assert [TieHasil[0]][..0] == [];
    var g1 := [Group(2, TieB, map[10 := 4.0])];
    assert Groups([TieHasil[0]]) == g1;
    assert FindGroup(g1, 1) == -1;
  }

  lemma TieUnranked()
    ensures Unranked(Groups(TieHasil), TieKriteria, TieBobot)
      == [RankingResult(2, "K02", "K02", map[10 := 4.0], 2.0, 0),
          RankingResult(1, "K01", "Ani", map[10 := 4.0], 2.0, 0)]
  {
    TieGroups();
    var m := map[10 := 4.0];
    assert TieKriteria[..0] == [];
    assert TotalScore(m, TieKriteria, TieBobot) == 2.0;
    assert PerKriteria(m, TieKriteria) == m;
    assert ResultOf(Group(2, TieB, m), TieKriteria, TieBobot) == RankingResult(2, "K02", "K02", m, 2.0, 0);
    assert ResultOf(Group(1, TieA, m), TieKriteria, TieBobot) == RankingResult(1, "K01", "Ani", m, 2.0, 0);
  }

  lemma TieSorted(u: seq<RankingResult>)
    requires |u| == 2 && u[0].nilaiTotal == u[1].nilaiTotal
    ensures StableSortDesc(u) == u
  {
    assert u[..1] == [u[0]];
    assert [u[0]][..0] == [];
    assert StableSortDesc(u[..1]) == [u[0]];
  }

  /** Two employees with the same total get ranks 1 and 2, in the order
      of their first results: tied totals still get distinct ranks. */
  lemma TiedEmployeesGetConsecutiveRanks()
    ensures var r := Ranking(TieHasil, TieKriteria, TieBobot);
      && |r| == 2
      && r[0].karyawanId == 2 && r[0].karyawanNama == "K02" && r[0].nilaiTotal == 2.0 && r[0].ranking == 1
      && r[1].karyawanId == 1 && r[1].karyawanNama == "Ani" && r[1].nilaiTotal == 2.0 && r[1].ranking == 2
  {
    TieUnranked();
    var u := Unranked(Groups(TieHasil), TieKriteria, TieBobot);
    TieSorted(u);
  }

  /** The grouping `forEach` of `calculateRanking` over `karyawanMap`. */
  method GroupByKaryawan(hasilData: seq<HasilProfile>) returns (karyawanMap: seq<Group>)
    ensures karyawanMap == Groups(hasilData)
  {
    karyawanMap := [];
    var i := 0;
    while i < |hasilData|
      invariant 0 <= i <= |hasilData|
      invariant karyawanMap == Groups(hasilData[..i])
    {
      assert hasilData[..i + 1][..i] == hasilData[..i];
      var hasil := hasilData[i];
      var g := FindGroup(karyawanMap, hasil.karyawanId);
      if g < 0 {
        karyawanMap := karyawanMap + [Group(hasil.karyawanId, hasil.karyawan, map[])];
        g := |karyawanMap| - 1;
      }
      karyawanMap := karyawanMap[g := karyawanMap[g].(nilai := karyawanMap[g].nilai[hasil.kriteriaId := ScoreOf(hasil)])];
      i := i + 1;
    }
    assert hasilData[..i] == hasilData;
  }

  /** The inner loop over the criteria for one employee: the
      per-criterion map and the `nilaiTotal +=` accumulation. */
  method ResultOfGroup(data: Group, kriteriaData: seq<Kriteria>, bobotMap: map<int, real>) returns (r: RankingResult)
    ensures r == ResultOf(data, kriteriaData, bobotMap)
  {
    var nilaiTotal := 0.0;
    var nilaiPerKriteria: map<int, real> := map[];
    var j := 0;
    while j < |kriteriaData|
      invariant 0 <= j <= |kriteriaData|
      invariant nilaiTotal == TotalScore(data.nilai, kriteriaData[..j], bobotMap)
      invariant nilaiPerKriteria == PerKriteria(data.nilai, kriteriaData[..j])
    {
      assert kriteriaData[..j + 1][..j] == kriteriaData[..j];
      var kriteria := kriteriaData[j];
      var nilaiKriteria := NilaiOf(data.nilai, kriteria.id);
      var bobot := WeightOf(bobotMap, kriteria.id);
      nilaiPerKriteria := nilaiPerKriteria[kriteria.id := nilaiKriteria];
      nilaiTotal := nilaiTotal + nilaiKriteria * bobot;
      j := j + 1;
    }
    assert kriteriaData[..j] == kriteriaData;
    r := RankingResult(data.karyawanId, data.karyawan.kode, DisplayName(data.karyawan), nilaiPerKriteria, nilaiTotal, 0);
  }

  method CalculateRanking(hasilData: seq<HasilProfile>, kriteriaData: seq<Kriteria>, bobotMap: map<int, real>)
    returns (results: seq<RankingResult>)
    ensures results == Ranking(hasilData, kriteriaData, bobotMap)
  {
    // Group by employee.
    var karyawanMap := GroupByKaryawan(hasilData);

    // Total score of each employee.
    var pushed: seq<RankingResult> := [];
    var p := 0;
    while p < |karyawanMap|
      invariant 0 <= p <= |karyawanMap|
      invariant |pushed| == p
      invariant forall q :: 0 <= q < p ==> pushed[q] == ResultOf(karyawanMap[q], kriteriaData, bobotMap)
    {
      var r := ResultOfGroup(karyawanMap[p], kriteriaData, bobotMap);
      pushed := pushed + [r];
      p := p + 1;
    }
    assert pushed == Unranked(karyawanMap, kriteriaData, bobotMap);

    // Sort and number.
    var a := new RankingResult[|pushed|](k requires 0 <= k < |pushed| => pushed[k]);
    assert a[..] == pushed;
    SortByTotalDesc(a);
    AssignRanks(a);
    results := a[..];
  }

  /** `fetchData` once the three responses are in: the criteria list with
      their weights, and the ranking, which is computed only when there is
      at least one Profile-Matching result (otherwise it stays empty). */
  method FetchData(kriteria: seq<Kriteria>, bobot: seq<BobotKriteria>, hasil: seq<HasilProfile>)
    returns (kriteriaList: seq<Kriteria>, rankingResults: seq<RankingResult>)
    ensures kriteriaList == KriteriaWithBobot(kriteria, BobotMap(bobot))
    ensures |hasil| == 0 ==> rankingResults == []
    ensures |hasil| > 0 ==> rankingResults == Ranking(hasil, kriteriaList, BobotMap(bobot))
  {
    var bobotMap := BuildBobotMap(bobot);
    kriteriaList := KriteriaWithBobot(kriteria, bobotMap);
    rankingResults := [];
    if |hasil| > 0 {
      rankingResults := CalculateRanking(hasil, kriteriaList, bobotMap);
    }
  }
}
