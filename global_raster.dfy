/**
 The NR global frequency raster of section 5.4.2.1 of 3GPP TS 38.101-1
 (Table 5.4.2.1-1), for frequency range 1: an NR-ARFCN N_REF in a row's range
 denotes F_REF = F_REF-Offs + ΔF_Global * (N_REF - N_REF-Offs). All values in kHz.
 */
module GlobalRaster {
  import opened Wrappers

  datatype RasterRow = RasterRow(minArfcn: int, maxArfcn: int, deltaFGlobal: int, fRefOffs: int, nRefOffs: int)

  /** 0–3000 MHz on a 5 kHz raster, then 3000–24250 MHz on a 15 kHz raster. */
  const Rows: seq<RasterRow> := [
    RasterRow(0, 599_999, 5, 0, 0),
    RasterRow(600_000, 2_016_666, 15, 3_000_000, 600_000)
  ]

  /** The first row whose N_REF range holds `arfcn`. */
  function FindRow(rows: seq<RasterRow>, arfcn: int): (r: Option<RasterRow>)
    ensures r.Some? ==> r.value in rows && r.value.minArfcn <= arfcn <= r.value.maxArfcn
    ensures r.None? ==> forall row :: row in rows ==> !(row.minArfcn <= arfcn <= row.maxArfcn)
  {
    if rows == [] then None
    else if rows[0].minArfcn <= arfcn <= rows[0].maxArfcn then Some(rows[0])
    else FindRow(rows[1..], arfcn)
  }

  /** F_REF for an NR-ARFCN of frequency range 1, absent outside the table. */
  function ReferenceFrequency(arfcn: int): (r: Option<int>)
    ensures r.Some? <==> 0 <= arfcn <= 2_016_666
  {
    match FindRow(Rows, arfcn)
    case Some(row) => Some(row.fRefOffs + row.deltaFGlobal * (arfcn - row.nRefOffs))
    case None => None
  }
}
