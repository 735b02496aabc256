/**
 * The criterion and sub-criterion records the client pages exchange with
 * the API (types/kriteria.d.ts).  A sub-criterion belongs to one criterion,
 * is classed as a CORE or a SECONDARY factor, and carries the standard
 * (ideal) value its actual scores are compared with.
 */
module KriteriaTypes {
  import opened JsBuiltins

  datatype FaktorType = Core | Secondary

  /** The `kriteria` summary a sub-criterion may carry: code and name of
      its parent criterion. */
  datatype KriteriaRef = KriteriaRef(kode: string, nama: string)

  datatype Subkriteria = Subkriteria(
    id: int,
    kriteriaId: int,
    kriteria: Option<KriteriaRef>,
    kode: string,
    nama: string,
    deskripsi: Option<string>,
    faktor: FaktorType,
    nilaiStandar: real)

  datatype Kriteria = Kriteria(
    id: int,
    kode: string,
    nama: string,
    deskripsi: Option<string>,
    urutan: Option<int>,
    subkriteria: Option<seq<Subkriteria>>)
}
