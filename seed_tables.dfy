/**
 * The constant tables the database seed installs (prisma/seed.ts): the
 * Profile-Matching gap-to-weight table, the eleven sub-criteria under the
 * three criteria, each sub-criterion's profile target (ideal value and
 * CORE/SECONDARY factor), and the per-criterion 60/40 split between core
 * and secondary factors.
 */
module SeedTables {
  import opened JsBuiltins
  import opened KriteriaTypes
  import PenilaianBatch

  // ---------------------------------------------------------------------
  // The gap table (prisma/seed.ts:223-236)
  // ---------------------------------------------------------------------

  datatype GapRow = GapRow(nilaiGap: int, bobot: real, deskripsi: string)

  const GapData: seq<GapRow> := [
    GapRow(0, 5.0, "Sesuai profil"),
    GapRow(1, 4.5, "1 tingkat di atas profil"),
    GapRow(-1, 4.0, "1 tingkat di bawah profil"),
    GapRow(2, 3.5, "2 tingkat di atas profil"),
    GapRow(-2, 3.0, "2 tingkat di bawah profil"),
    GapRow(3, 2.5, "3 tingkat di atas profil"),
    GapRow(-3, 2.0, "3 tingkat di bawah profil")
  ]

  /** The `gapBobot` table after `createMany` with `skipDuplicates`: a row
      whose gap is already present is skipped, so the first row of a gap
      wins. */
  function GapTable(rows: seq<GapRow>): map<int, real> {
    if |rows| == 0 then map[]
    else
      var m := GapTable(rows[..|rows| - 1]);
      var r := rows[|rows| - 1];
      if r.nilaiGap in m then m else m[r.nilaiGap := r.bobot]
  }

  /** The seeded gap table as a map: gap to weight. */
  function SeededGapTable(): map<int, real> {
    GapTable(GapData)
  }

  function GapsOf(rows: seq<GapRow>): set<int> {
    set i | 0 <= i < |rows| :: rows[i].nilaiGap
  }

  /** Seven rows with pairwise distinct gaps, covering exactly -3..3. */
  lemma GapDataShape()
    ensures |GapData| == 7
    ensures forall i, j :: 0 <= i < j < |GapData| ==> GapData[i].nilaiGap != GapData[j].nilaiGap
    ensures GapsOf(GapData) == {-3, -2, -1, 0, 1, 2, 3}
  {
    forall i | 0 <= i < |GapData| ensures -3 <= GapData[i].nilaiGap <= 3 {
      if i == 0 {} else if i == 1 {} else if i == 2 {} else if i == 3 {} else if i == 4 {} else if i == 5 {} else {}
    }
    assert GapData[0].nilaiGap == 0 && GapData[1].nilaiGap == 1 && GapData[2].nilaiGap == -1;
    assert GapData[3].nilaiGap == 2 && GapData[4].nilaiGap == -2 && GapData[5].nilaiGap == 3;
    assert GapData[6].nilaiGap == -3;
  }

  /** The seeded table, gap by gap: a row is never skipped. */
  lemma SeededGapTableIs()
    ensures SeededGapTable() == map[0 := 5.0, 1 := 4.5, -1 := 4.0, 2 := 3.5, -2 := 3.0, 3 := 2.5, -3 := 2.0]
  {
    var d := GapData;
    assert d[..0] == [];
    assert d[..1][..0] == d[..0];
    assert GapTable(d[..1]) == map[0 := 5.0];
    assert d[..2][..1] == d[..1];
    assert GapTable(d[..2]) == map[0 := 5.0, 1 := 4.5];
    assert d[..3][..2] == d[..2];
    assert GapTable(d[..3]) == map[0 := 5.0, 1 := 4.5, -1 := 4.0];
    assert d[..4][..3] == d[..3];
    assert GapTable(d[..4]) == map[0 := 5.0, 1 := 4.5, -1 := 4.0, 2 := 3.5];
    assert d[..5][..4] == d[..4];
    assert GapTable(d[..5]) == map[0 := 5.0, 1 := 4.5, -1 := 4.0, 2 := 3.5, -2 := 3.0];
    assert d[..6][..5] == d[..5];
    assert GapTable(d[..6]) == map[0 := 5.0, 1 := 4.5, -1 := 4.0, 2 := 3.5, -2 := 3.0, 3 := 2.5];
    assert d[..7][..6] == d[..6];
    assert d[..7] == d;
  }

  /** The weight the seeded table gives a gap, 0 when it has none. */
  function GapWeight(g: int): real {
    var t := SeededGapTable();
    if g in t then t[g] else 0.0
  }

  /** The table holds a weight for exactly the gaps -3..3: 5 for a perfect
      match; for a gap of k = 1..3 above the profile 5.5 - k and below it
      5 - k, so an excess scores half a point more than the same shortfall
      and the weight falls as the gap widens on either side.  Every weight
      lies in [2, 5], and 5 is the largest. */
  lemma SeededGapWeights()
    ensures forall g: int :: g in SeededGapTable() <==> -3 <= g <= 3
    ensures GapWeight(0) == 5.0
    ensures forall k: int :: 1 <= k <= 3 ==> GapWeight(k) == 5.5 - k as real
    ensures forall g: int :: -3 <= g <= -1 ==> GapWeight(g) == 5.0 + g as real
    ensures forall k: int :: 1 <= k <= 3 ==> GapWeight(k) == GapWeight(-k) + 0.5
    ensures forall g: int :: g in SeededGapTable() ==> 2.0 <= GapWeight(g) <= GapWeight(0) == 5.0
    ensures forall g: int :: 0 <= g < 3 ==> GapWeight(g + 1) < GapWeight(g)
    ensures forall g: int :: -3 < g <= 0 ==> GapWeight(g - 1) < GapWeight(g)
  {
    SeededGapTableIs();
  }

  /** With the ideal value 3 every seeded profile target uses, every actual
      value in [1, 5] rounds to a gap in the table and so gets a weight
      (never the `null` of a missing row or of a zero weight). */
  lemma IdealThreeAlwaysWeighted(nilaiAktual: real)
    requires 1.0 <= nilaiAktual <= 5.0
    ensures -2 <= MathRound(nilaiAktual - 3.0) <= 2
    ensures PenilaianBatch.BobotGap(SeededGapTable(), nilaiAktual - 3.0) == Some(GapWeight(MathRound(nilaiAktual - 3.0)))
  {
    SeededGapTableIs();
  }

  // ---------------------------------------------------------------------
  // Criteria and sub-criteria (prisma/seed.ts:66-218)
  // ---------------------------------------------------------------------

  datatype SubSeed = SubSeed(kode: string, nama: string, urutan: int)

  /** A seeded criterion together with the sub-criteria created under it. */
  datatype KriteriaSeedRow = KriteriaSeedRow(kode: string, nama: string, urutan: int, subs: seq<SubSeed>)

  const KriteriaSeed: seq<KriteriaSeedRow> := [
    KriteriaSeedRow("KRT1", "Sikap", 1, [
      SubSeed("KRT1", "Tanggung jawab", 1),
      SubSeed("KRT2", "Disiplin", 2),
      SubSeed("KRT3", "Jujur", 3)]),
    KriteriaSeedRow("KRT2", "Kecerdasan", 2, [
      SubSeed("KRT4", "Komunikatif", 1),
      SubSeed("KRT5", "Logika", 2),
      SubSeed("KRT6", "Inisiatif", 3),
      SubSeed("KRT7", "Kreativitas", 4),
      SubSeed("KRT8", "Ide", 5)]),
    KriteriaSeedRow("KRT3", "Kepribadian", 3, [
      SubSeed("KRT9", "Kepatuhan", 1),
      SubSeed("KRT10", "Perilaku", 2),
      SubSeed("KRT11", "penampilan", 3)])
  ]

  /** A created sub-criterion with the code of the criterion it belongs to. */
  datatype SeededSub = SeededSub(kriteriaKode: string, kode: string, nama: string, urutan: int)

  function Tagged(k: KriteriaSeedRow): seq<SeededSub> {
    seq(|k.subs|, j requires 0 <= j < |k.subs| => SeededSub(k.kode, k.subs[j].kode, k.subs[j].nama, k.subs[j].urutan))
  }

  /** `[...subSikap, ...subKecerdasan, ...subKepribadian]`: the sub-criteria
      of every criterion, criterion by criterion. */
  function Flatten(ks: seq<KriteriaSeedRow>): seq<SeededSub> {
    if |ks| == 0 then [] else Tagged(ks[0]) + Flatten(ks[1..])
  }

  /** Every flattened sub-criterion names a criterion of the list it came from. */
  lemma {:induction false} FlattenParents(ks: seq<KriteriaSeedRow>)
    ensures forall i :: 0 <= i < |Flatten(ks)| ==>
      exists c :: 0 <= c < |ks| && ks[c].kode == Flatten(ks)[i].kriteriaKode
  {
    if |ks| > 0 {
      FlattenParents(ks[1..]);
      var head := Tagged(ks[0]);
      forall i | 0 <= i < |Flatten(ks)|
        ensures exists c :: 0 <= c < |ks| && ks[c].kode == Flatten(ks)[i].kriteriaKode
      {
        if i < |head| {
          assert ks[0].kode == Flatten(ks)[i].kriteriaKode;
        } else {
          var c :| 0 <= c < |ks[1..]| && ks[1..][c].kode == Flatten(ks[1..])[i - |head|].kriteriaKode;
          assert ks[c + 1].kode == Flatten(ks)[i].kriteriaKode;
        }
      }
    } else {
      assert Flatten(ks) == [];
    }
  }

  function SubkriteriaSeed(): seq<SeededSub> {
    Flatten(KriteriaSeed)
  }

  lemma SubkriteriaSeedIs()
    ensures SubkriteriaSeed() == [
      SeededSub("KRT1", "KRT1", "Tanggung jawab", 1),
      SeededSub("KRT1", "KRT2", "Disiplin", 2),
      SeededSub("KRT1", "KRT3", "Jujur", 3),
      SeededSub("KRT2", "KRT4", "Komunikatif", 1),
      SeededSub("KRT2", "KRT5", "Logika", 2),
      SeededSub("KRT2", "KRT6", "Inisiatif", 3),
      SeededSub("KRT2", "KRT7", "Kreativitas", 4),
      SeededSub("KRT2", "KRT8", "Ide", 5),
      SeededSub("KRT3", "KRT9", "Kepatuhan", 1),
      SeededSub("KRT3", "KRT10", "Perilaku", 2),
      SeededSub("KRT3", "KRT11", "penampilan", 3)]
  {
    var ks := KriteriaSeed;
    assert ks[1..][1..][1..] == [];
    assert Tagged(ks[0]) == [
      SeededSub("KRT1", "KRT1", "Tanggung jawab", 1),
      SeededSub("KRT1", "KRT2", "Disiplin", 2),
      SeededSub("KRT1", "KRT3", "Jujur", 3)];
    assert Tagged(ks[1]) == [
      SeededSub("KRT2", "KRT4", "Komunikatif", 1),
      SeededSub("KRT2", "KRT5", "Logika", 2),
      SeededSub("KRT2", "KRT6", "Inisiatif", 3),
      SeededSub("KRT2", "KRT7", "Kreativitas", 4),
      SeededSub("KRT2", "KRT8", "Ide", 5)];
    assert Tagged(ks[2]) == [
      SeededSub("KRT3", "KRT9", "Kepatuhan", 1),
      SeededSub("KRT3", "KRT10", "Perilaku", 2),
      SeededSub("KRT3", "KRT11", "penampilan", 3)];
  }

  /** `KRT` followed by the decimal digits of `n`. */
  function KrtCode(n: nat): string {
    "KRT" + NatToDecimal(n)
  }

  lemma KrtCodeInjective(a: nat, b: nat)
    requires KrtCode(a) == KrtCode(b)
    ensures a == b
  {
    assert NatToDecimal(a) == KrtCode(a)[3..];
    assert NatToDecimal(b) == KrtCode(b)[3..];
    DigitsValueOfDecimal(a);
    DigitsValueOfDecimal(b);
  }

  lemma SubkriteriaAt(i: int)
    requires 0 <= i < 11
    ensures |SubkriteriaSeed()| == 11
    ensures SubkriteriaSeed()[i].kode == KrtCode(i + 1)
  {
    SubkriteriaSeedIs();
    assert NatToDecimal(10) == "10" && NatToDecimal(11) == "11";
    if i == 0 {} else if i == 1 {} else if i == 2 {} else if i == 3 {} else if i == 4 {}
    else if i == 5 {} else if i == 6 {} else if i == 7 {} else if i == 8 {} else if i == 9 {} else {}
  }

  /** The sub-criteria are KRT1, ..., KRT11 in that order, each under one
      of the three seeded criteria; so their codes are pairwise distinct and
      a lookup by code finds at most one. */
  lemma SubkriteriaCodes()
    ensures |SubkriteriaSeed()| == 11
    ensures forall i :: 0 <= i < 11 ==> SubkriteriaSeed()[i].kode == KrtCode(i + 1)
    ensures forall i, j :: 0 <= i < j < |SubkriteriaSeed()| ==> SubkriteriaSeed()[i].kode != SubkriteriaSeed()[j].kode
    ensures forall i :: 0 <= i < |SubkriteriaSeed()| ==>
      exists c :: 0 <= c < |KriteriaSeed| && KriteriaSeed[c].kode == SubkriteriaSeed()[i].kriteriaKode
  {
    SubkriteriaAt(0);
    forall i | 0 <= i < 11 ensures SubkriteriaSeed()[i].kode == KrtCode(i + 1) {
      SubkriteriaAt(i);
    }
    forall i, j | 0 <= i < j < 11 ensures SubkriteriaSeed()[i].kode != SubkriteriaSeed()[j].kode {
      if SubkriteriaSeed()[i].kode == SubkriteriaSeed()[j].kode {
        KrtCodeInjective(i + 1, j + 1);
      }
    }
    FlattenParents(KriteriaSeed);
  }

  // ---------------------------------------------------------------------
  // Profile targets (prisma/seed.ts:244-277)
  // ---------------------------------------------------------------------

  datatype ProfileTarget = ProfileTarget(kode: string, nilaiIdeal: real, faktor: FaktorType)

  const ProfileTargetData: seq<ProfileTarget> := [
    ProfileTarget("KRT1", 3.0, Core),
    ProfileTarget("KRT2", 3.0, Core),
    ProfileTarget("KRT3", 3.0, Core),
    ProfileTarget("KRT4", 3.0, Secondary),
    ProfileTarget("KRT5", 3.0, Core),
    ProfileTarget("KRT6", 3.0, Core),
    ProfileTarget("KRT7", 3.0, Secondary),
    ProfileTarget("KRT8", 3.0, Secondary),
    ProfileTarget("KRT9", 3.0, Core),
    ProfileTarget("KRT10", 3.0, Core),
    ProfileTarget("KRT11", 3.0, Secondary)
  ]

  /** The numbers n of the sub-criteria KRTn that are core factors. */
  const CoreNumbers: set<int> := {1, 2, 3, 5, 6, 9, 10}

  lemma ProfileTargetAt(i: int)
    requires 0 <= i < 11
    ensures |ProfileTargetData| == 11
    ensures ProfileTargetData[i].kode == KrtCode(i + 1)
    ensures ProfileTargetData[i].nilaiIdeal == 3.0
    ensures ProfileTargetData[i].faktor == Core <==> i + 1 in CoreNumbers
  {
    assert NatToDecimal(10) == "10" && NatToDecimal(11) == "11";
    if i == 0 {} else if i == 1 {} else if i == 2 {} else if i == 3 {} else if i == 4 {}
    else if i == 5 {} else if i == 6 {} else if i == 7 {} else if i == 8 {} else if i == 9 {} else {}
  }

  /** `subkriteria.find((s) => s.kode === code)`: the index of the first
      sub-criterion with that code. */
  function FindByCode(subs: seq<SeededSub>, code: string): (r: Option<nat>)
    ensures r.Some? ==>
      && r.value < |subs| && subs[r.value].kode == code
      && forall k :: 0 <= k < r.value ==> subs[k].kode != code
    ensures r.None? <==> forall k :: 0 <= k < |subs| ==> subs[k].kode != code
  {
    if |subs| == 0 then None
    else if subs[0].kode == code then Some(0)
    else match FindByCode(subs[1..], code)
      case None => None
      case Some(k) => Some(k + 1)
  }

  /** Every target finds the sub-criterion at its own position, so each of
      the eleven sub-criteria gets exactly one target (none is skipped by
      the `if (!sub) return` branch), with ideal value 3; the core factors
      are KRT1, 2, 3, 5, 6, 9, 10 and the secondary ones KRT4, 7, 8, 11. */
  lemma ProfileTargetsPartition()
    ensures |ProfileTargetData| == |SubkriteriaSeed()|
    ensures forall i :: 0 <= i < |ProfileTargetData| ==>
      FindByCode(SubkriteriaSeed(), ProfileTargetData[i].kode) == Some(i)
    ensures forall i :: 0 <= i < |ProfileTargetData| ==> ProfileTargetData[i].nilaiIdeal == 3.0
    ensures forall i :: 0 <= i < |ProfileTargetData| ==>
      (ProfileTargetData[i].faktor == Core <==> i + 1 in CoreNumbers)
  {
    SubkriteriaCodes();
    ProfileTargetAt(0);
    forall i | 0 <= i < 11
      ensures FindByCode(SubkriteriaSeed(), ProfileTargetData[i].kode) == Some(i)
      ensures ProfileTargetData[i].nilaiIdeal == 3.0
      ensures ProfileTargetData[i].faktor == Core <==> i + 1 in CoreNumbers
    {
      ProfileTargetAt(i);
      var r := FindByCode(SubkriteriaSeed(), ProfileTargetData[i].kode);
      assert SubkriteriaSeed()[i].kode == ProfileTargetData[i].kode;
      assert r.Some?;
      assert r.value == i;
    }
  }

  // ---------------------------------------------------------------------
  // Core / secondary percentages (prisma/seed.ts:282-296)
  // ---------------------------------------------------------------------

  datatype ProfileSetting = ProfileSetting(kriteriaKode: string, persenCore: real, persenSecondary: real)

  /** `kriteria.map(k => ({ kriteriaId: k.id, persenCore: 0.6, persenSecondary: 0.4 }))`. */
  function ProfileSettings(kriteria: seq<KriteriaSeedRow>): seq<ProfileSetting> {
    seq(|kriteria|, i requires 0 <= i < |kriteria| => ProfileSetting(kriteria[i].kode, 0.6, 0.4))
  }

  /** Each seeded criterion gets one setting, weighting core factors 60 %
      and secondary factors 40 %, which sum to 1. */
  lemma ProfileSettingsSplit()
    ensures var ps := ProfileSettings(KriteriaSeed);
      && |ps| == |KriteriaSeed|
      && forall i :: 0 <= i < |ps| ==>
           ps[i].kriteriaKode == KriteriaSeed[i].kode &&
           ps[i].persenCore == 0.6 && ps[i].persenSecondary == 0.4 &&
           ps[i].persenCore + ps[i].persenSecondary == 1.0
  {
  }
}
