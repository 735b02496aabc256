/**
 * The criterion service (services/kriteria.service.ts) over the legacy
 * record shapes of types/kriteria.ts, where ids are strings, a criterion
 * is named by `namaKriteria` and a sub-criterion's `faktor` is free text:
 * flattening all sub-criteria into one list that carries each parent's
 * name, and counting criteria, sub-criteria and core / secondary factors.
 */
module KriteriaService {
  import opened JsBuiltins

  datatype SubKriteria = SubKriteria(id: string, kode: string, namaSubKriteria: string, faktor: string, nilaiStandar: real)

  datatype Kriteria = Kriteria(id: string, kode: string, namaKriteria: string, subKriteria: seq<SubKriteria>)

  /** `{ ...sk, namaKriteria: k.namaKriteria }`. */
  datatype FlatSub = FlatSub(sub: SubKriteria, namaKriteria: string)

  /** `getAllKriteria`: the fetched list, or `[]` when the query fails
      (`None`). */
  function AllKriteria(fetched: Option<seq<Kriteria>>): seq<Kriteria> {
    if fetched.Some? then fetched.value else []
  }

  // ---------------------------------------------------------------------
  // Flattening (services/kriteria.service.ts:88-107)
  // ---------------------------------------------------------------------

  /** The entries one criterion contributes. */
  function Tagged(k: Kriteria): seq<FlatSub> {
    seq(|k.subKriteria|, j requires 0 <= j < |k.subKriteria| => FlatSub(k.subKriteria[j], k.namaKriteria))
  }

  /** The flat list: each criterion's entries, criterion after criterion. */
  function Flat(ks: seq<Kriteria>): seq<FlatSub> {
    if |ks| == 0 then [] else Flat(ks[..|ks| - 1]) + Tagged(ks[|ks| - 1])
  }

  /** The number of sub-criteria under the criteria. */
  function SubCount(ks: seq<Kriteria>): nat {
    if |ks| == 0 then 0 else SubCount(ks[..|ks| - 1]) + |ks[|ks| - 1].subKriteria|
  }

  /** The length of the flat list is the sum of the group sizes. */
  lemma {:induction false} FlatLength(ks: seq<Kriteria>)
    ensures |Flat(ks)| == SubCount(ks)
  {
    if |ks| > 0 {
      FlatLength(ks[..|ks| - 1]);
    }
  }

  /** The j-th sub-criterion of criterion i sits at position
      `SubCount(ks[..i]) + j` of the flat list, with its own fields and its
      parent's name. */
  lemma {:induction false} FlatAt(ks: seq<Kriteria>, i: nat, j: nat)
    requires i < |ks| && j < |ks[i].subKriteria|
    ensures SubCount(ks[..i]) + j < |Flat(ks)|
    ensures Flat(ks)[SubCount(ks[..i]) + j] == FlatSub(ks[i].subKriteria[j], ks[i].namaKriteria)
  {
    var n := |ks| - 1;
    var p := ks[..n];
    FlatLength(p);
    assert Flat(ks) == Flat(p) + Tagged(ks[n]);
    if i < n {
      FlatAt(p, i, j);
      assert p[..i] == ks[..i];
    } else {
      assert ks[..i] == p;
    }
  }

  /** `getAllSubKriteriaFlat`: the nested `forEach` pushing one entry per
      sub-criterion; a failed query gives `[]`. */
  method GetAllSubKriteriaFlat(fetched: Option<seq<Kriteria>>) returns (all: seq<FlatSub>)
    ensures all == Flat(AllKriteria(fetched))
    ensures fetched.None? ==> all == []
  {
    var ks := AllKriteria(fetched);
    all := [];
    var i := 0;
    while i < |ks|
      invariant 0 <= i <= |ks|
      invariant all == Flat(ks[..i])
    {
      var k := ks[i];
      var j := 0;
      while j < |k.subKriteria|
        invariant 0 <= j <= |k.subKriteria|
        invariant all == Flat(ks[..i]) + Tagged(k)[..j]
      {
        all := all + [FlatSub(k.subKriteria[j], k.namaKriteria)];
        j := j + 1;
      }
      assert Tagged(k)[..j] == Tagged(k);
      assert ks[..i + 1][..i] == ks[..i];
      i := i + 1;
    }
    assert ks[..|ks|] == ks;
  }

  // ---------------------------------------------------------------------
  // Statistics (services/kriteria.service.ts:112-135)
  // ---------------------------------------------------------------------

  datatype KriteriaStats = KriteriaStats(totalKriteria: nat, totalSubKriteria: nat, coreFactors: nat, secondaryFactors: nat)

  /** `filter(sk => sk.faktor === f).length`. */
  function CountFaktor(flat: seq<FlatSub>, f: string): nat {
    if |flat| == 0 then 0
    else CountFaktor(flat[..|flat| - 1], f) + if flat[|flat| - 1].sub.faktor == f then 1 else 0
  }

  function GetKriteriaStats(fetched: Option<seq<Kriteria>>): KriteriaStats {
    var ks := AllKriteria(fetched);
    var flat := Flat(ks);
    KriteriaStats(|ks|, |flat|, CountFaktor(flat, "core factor"), CountFaktor(flat, "secondary factor"))
  }

  /** Two different factor texts never count the same entry, so together
      they count at most all entries. */
  lemma {:induction false} CountFaktorDisjoint(flat: seq<FlatSub>, f: string, g: string)
    requires f != g
    ensures CountFaktor(flat, f) + CountFaktor(flat, g) <= |flat|
  {
    if |flat| > 0 {
      CountFaktorDisjoint(flat[..|flat| - 1], f, g);
    }
  }

  /** A text no entry carries counts 0. */
  lemma {:induction false} CountFaktorAbsent(flat: seq<FlatSub>, f: string)
    requires forall i :: 0 <= i < |flat| ==> flat[i].sub.faktor != f
    ensures CountFaktor(flat, f) == 0
  {
    if |flat| > 0 {
      CountFaktorAbsent(flat[..|flat| - 1], f);
    }
  }

  /** `totalKriteria` and `totalSubKriteria` count the criteria and their
      sub-criteria, and the core and secondary counts together are at most
      the latter; with a failed query all four figures are 0. */
  lemma KriteriaStatsSpec(fetched: Option<seq<Kriteria>>)
    ensures var st := GetKriteriaStats(fetched);
      && st.totalKriteria == |AllKriteria(fetched)|
      && st.totalSubKriteria == SubCount(AllKriteria(fetched))
      && st.coreFactors + st.secondaryFactors <= st.totalSubKriteria
    ensures fetched.None? ==> GetKriteriaStats(fetched) == KriteriaStats(0, 0, 0, 0)
  {
    var flat := Flat(AllKriteria(fetched));
    FlatLength(AllKriteria(fetched));
    CountFaktorDisjoint(flat, "core factor", "secondary factor");
  }

  /** Sub-criteria labelled with the texts "CORE" / "SECONDARY" that the
      schema's `FaktorType` uses fall under neither count, which compare
      against "core factor" / "secondary factor". */
  lemma EnumFaktorsCountAsNeither(fetched: Option<seq<Kriteria>>)
    requires forall i :: 0 <= i < |Flat(AllKriteria(fetched))| ==>
      Flat(AllKriteria(fetched))[i].sub.faktor == "CORE" || Flat(AllKriteria(fetched))[i].sub.faktor == "SECONDARY"
    ensures GetKriteriaStats(fetched).coreFactors == 0 && GetKriteriaStats(fetched).secondaryFactors == 0
  {
    var flat := Flat(AllKriteria(fetched));
    forall i | 0 <= i < |flat|
      ensures flat[i].sub.faktor != "core factor" && flat[i].sub.faktor != "secondary factor"
    {
      var t := flat[i].sub.faktor;
      assert |t| == 4 || |t| == 9;
    }
    CountFaktorAbsent(flat, "core factor");
    CountFaktorAbsent(flat, "secondary factor");
  }
}
