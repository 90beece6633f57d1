/**
 The NR band table and resolver: maps an NR-ARFCN to its downlink frequency and
 to the band (name, 3GPP number) that claims it, disambiguating the many
 overlapping bands of 3GPP release 16 by priority, by the 5 MHz channel raster
 and finally by collapsing same-named bands into a name-only answer.
 */
module BandTableNr {
  import opened Wrappers
  import opened Collections
  import opened BandEntities

  /** The smallest channel bandwidth assumed by the raster test, in kHz. */
  const SmallestBandwidth: int := 5_000

  /** Every known NR band with a downlink; the comment is the row's index. */
  const Bands: seq<BandEntity> := [
    /*  0 */ BandEntity(IntRange(123_400, 130_400), "600", Some(71), 0),
    /*  1 */ BandEntity(IntRange(143_400, 145_600), "700", Some(29), 0),
    /*  2 */ BandEntity(IntRange(145_800, 149_200), "700", Some(12), 0),
    /*  3 */ BandEntity(IntRange(151_600, 160_600), "700", Some(28), 1),
    /*  4 */ BandEntity(IntRange(151_600, 153_600), "700", Some(14), 0),
    /*  5 */ BandEntity(IntRange(158_200, 164_200), "800", Some(20), 1),
    /*  6 */ BandEntity(IntRange(171_800, 178_800), "850", Some(26), 0),
    /*  7 */ BandEntity(IntRange(172_000, 175_000), "800", Some(18), 0),
    /*  8 */ BandEntity(IntRange(173_800, 178_800), "850", Some(5), 0),
    /*  9 */ BandEntity(IntRange(185_000, 192_000), "900", Some(8), 1),
    /* 10 */ BandEntity(IntRange(285_400, 286_400), "1500", Some(51), 0),
    /* 11 */ BandEntity(IntRange(285_400, 286_400), "1500", Some(76), 0),
    /* 12 */ BandEntity(IntRange(285_400, 286_400), "1500", Some(93), 0),
    /* 13 */ BandEntity(IntRange(285_400, 286_400), "1500", Some(91), 0),
    /* 14 */ BandEntity(IntRange(286_400, 303_400), "1500", Some(50), 0),
    /* 15 */ BandEntity(IntRange(286_400, 303_400), "1500", Some(75), 0),
    /* 16 */ BandEntity(IntRange(286_400, 303_400), "1500", Some(92), 0),
    /* 17 */ BandEntity(IntRange(286_400, 303_400), "1500", Some(94), 0),
    /* 18 */ BandEntity(IntRange(295_000, 303_600), "1500", Some(74), 0),
    /* 19 */ BandEntity(IntRange(361_000, 376_000), "1800", Some(3), 1),
    /* 20 */ BandEntity(IntRange(376_000, 384_000), "1900", Some(39), 0),
    /* 21 */ BandEntity(IntRange(386_000, 398_000), "1900", Some(2), 0),
    /* 22 */ BandEntity(IntRange(386_000, 399_000), "1900", Some(25), 0),
    /* 23 */ BandEntity(IntRange(399_000, 404_000), "2000", Some(70), 0),
    /* 24 */ BandEntity(IntRange(402_000, 405_000), "2000", Some(34), 0),
    /* 25 */ BandEntity(IntRange(422_000, 440_000), "2100", Some(66), 0),
    /* 26 */ BandEntity(IntRange(422_000, 434_000), "2100", Some(1), 1),
    /* 27 */ BandEntity(IntRange(422_000, 440_000), "2100", Some(65), 0),
    /* 28 */ BandEntity(IntRange(460_000, 480_000), "2300", Some(40), 0),
    /* 29 */ BandEntity(IntRange(470_000, 472_000), "2300", Some(30), 0),
    /* 30 */ BandEntity(IntRange(496_700, 499_000), "2500", Some(53), 0),
    /* 31 */ BandEntity(IntRange(499_200, 537_999), "2600", Some(41), 0),
    /* 32 */ BandEntity(IntRange(499_200, 538_000), "2600", Some(90), 0),
    /* 33 */ BandEntity(IntRange(514_000, 524_000), "2600", Some(38), 0),
    /* 34 */ BandEntity(IntRange(524_000, 538_000), "2600", Some(7), 0),
    /* 35 */ BandEntity(IntRange(620_000, 680_000), "3700", Some(77), 0),
    /* 36 */ BandEntity(IntRange(620_000, 653_333), "3500", Some(78), 1),
    /* 37 */ BandEntity(IntRange(636_667, 646_666), "3600", Some(48), 0),
    /* 38 */ BandEntity(IntRange(693_334, 733_333), "4500", Some(79), 0)
  ]

  /** What every row of the table satisfies. */
  predicate WellFormedRow(band: BandEntity) {
    band.channelRange.first <= band.channelRange.last
    && band.channelRange.WithinDocumentedBounds()
    && band.number.Some? && band.number.value > 0
    && |band.name| > 0
    && (band.priority == 0 || band.priority == 1)
  }

  lemma BandsWellFormed()
    ensures |Bands| == 39
    ensures forall i :: 0 <= i < |Bands| ==> WellFormedRow(Bands[i])
    ensures forall band :: band in Bands ==> WellFormedRow(band)
  {
    assert forall i :: 0 <= i < |Bands| ==> WellFormedRow(Bands[i]);
  }

  /**
   Downlink frequency in kHz of an NR-ARFCN: ΔF_Global is 5 kHz up to N_REF 600000,
   and 15 kHz above it with offsets 3000 MHz and 600000.
   */
  function GetFrequency(arfcn: int): int {
    if arfcn <= 600_000 then 5 * arfcn else 3_000_000 + 15 * (arfcn - 600_000)
  }

  /** The hint filter: with no hints every band passes, otherwise its number must be one of them. */
  predicate MatchesHints(band: BandEntity, bandHints: seq<int>) {
    |bandHints| == 0 || (band.number.Some? && band.number.value in bandHints)
  }

  predicate IsCandidate(band: BandEntity, arfcn: int, bandHints: seq<int>) {
    band.channelRange.Contains(arfcn) && MatchesHints(band, bandHints)
  }

  // The conditions handed to `filter`, `distinctBy`, `minOf` and `maxOf`.

  function ContainsArfcn(arfcn: int): BandEntity -> bool {
    (band: BandEntity) => band.channelRange.Contains(arfcn)
  }

  function PassesHints(bandHints: seq<int>): BandEntity -> bool {
    (band: BandEntity) => MatchesHints(band, bandHints)
  }

  function HasPriority(priority: int): BandEntity -> bool {
    (band: BandEntity) => band.priority == priority
  }

  function OnRasterOf(arfcn: int): BandEntity -> bool {
    (band: BandEntity) => OnRaster(band, arfcn)
  }

  function NameOf(band: BandEntity): string { band.name }
  function PriorityOf(band: BandEntity): int { band.priority }
  function FirstOf(band: BandEntity): int { band.channelRange.first }
  function LastOf(band: BandEntity): int { band.channelRange.last }

  /** Table rows carry band numbers; only the resolver synthesises bands without one. */
  predicate NumberedRows(table: seq<BandEntity>) {
    forall band :: band in table ==> band.number.Some?
  }

  /** The rows of `table` that contain `arfcn` and pass the hint filter, in table order. */
  function CandidatesIn(table: seq<BandEntity>, arfcn: int, bandHints: seq<int>): (r: seq<BandEntity>)
    ensures forall band :: band in r <==> band in table && IsCandidate(band, arfcn, bandHints)
  {
    Filter(Filter(table, ContainsArfcn(arfcn)), PassesHints(bandHints))
  }

  /**
   The raster test: the distance from the candidate's upper bound down to `arfcn`,
   in kHz, is a whole number of smallest bandwidths.
   */
  predicate OnRaster(candidate: BandEntity, arfcn: int) {
    var startFrequency := GetFrequency(candidate.channelRange.last);
    var frequency := GetFrequency(arfcn);
    KotlinRem(startFrequency - frequency, SmallestBandwidth) == 0
  }

  /**
   What every answer of the cascade satisfies: it contains `arfcn`, takes its name
   and priority from a candidate, and carries a number exactly when it is one of
   the candidates.
   */
  predicate DrawnFrom(answer: BandEntity, arfcn: int, candidates: seq<BandEntity>) {
    answer.channelRange.Contains(arfcn)
    && (exists c :: c in candidates && c.name == answer.name && c.priority == answer.priority)
    && (answer.number.Some? <==> answer in candidates)
  }

  /** Candidates that all contain `arfcn` and all carry a number, as table rows do. */
  predicate ValidCandidates(arfcn: int, candidates: seq<BandEntity>) {
    forall c :: c in candidates ==> c.channelRange.Contains(arfcn) && c.number.Some?
  }

  /**
   No candidate is on the raster: when all candidates share one name, that name
   without a number over the widest range they span; otherwise nothing.
   */
  function CollapseCandidates(arfcn: int, candidates: seq<BandEntity>): (r: Option<BandEntity>)
    requires candidates != [] && ValidCandidates(arfcn, candidates)
    ensures r.Some? ==> DrawnFrom(r.value, arfcn, candidates) && r.value.number.None?
  {
    var uniqueName := DistinctBy(candidates, NameOf);
    if |uniqueName| == 1 then
      // Safest bounds: the smallest lower and the largest upper bound.
      var min := MinOf(candidates, FirstOf);
      var max := MaxOf(candidates, LastOf);
      assert min <= candidates[0].channelRange.first && candidates[0].channelRange.last <= max;
      Some(CopyWithRangeWithoutNumber(uniqueName[0], IntRange(min, max)))
    else None
  }

  /**
   Several candidates are on the raster: when they all share one name, the first
   of them without its number; otherwise nothing.
   */
  function CollapseSurvivors(arfcn: int, filtered: seq<BandEntity>): (r: Option<BandEntity>)
    requires filtered != [] && ValidCandidates(arfcn, filtered)
    ensures r.Some? ==> DrawnFrom(r.value, arfcn, filtered) && r.value.number.None?
  {
    var uniqueName := DistinctBy(filtered, NameOf);
    if |uniqueName| == 1 then Some(CopyWithoutNumber(uniqueName[0])) else None
  }

  /** The top priority is tied: keep the candidates on the raster and decide among them. */
  function RasterTieBreak(arfcn: int, candidates: seq<BandEntity>): (r: Option<BandEntity>)
    requires candidates != [] && ValidCandidates(arfcn, candidates)
    ensures r.Some? ==> DrawnFrom(r.value, arfcn, candidates)
  {
    var filtered := Filter(candidates, OnRasterOf(arfcn));
    if |filtered| == 0 then CollapseCandidates(arfcn, candidates)
    else if |filtered| == 1 then Some(filtered[0])
    else
      var r := CollapseSurvivors(arfcn, filtered);
      assert r.Some? ==> DrawnFrom(r.value, arfcn, candidates);
      r
  }

  /**
   The tie-break cascade over the candidates of `arfcn`: none, a lone candidate,
   a unique highest priority, then the raster test and the name collapse.
   */
  function Disambiguate(arfcn: int, candidates: seq<BandEntity>): (r: Option<BandEntity>)
    requires ValidCandidates(arfcn, candidates)
    ensures r.Some? ==> DrawnFrom(r.value, arfcn, candidates)
  {
    if |candidates| == 0 then None
    else if |candidates| == 1 then Some(candidates[0])
    else
      var topPriority := MaxOf(candidates, PriorityOf);
      var leaders := Filter(candidates, HasPriority(topPriority));
      if |leaders| == 1 then Some(leaders[0])
      else RasterTieBreak(arfcn, candidates)
  }

  /**
   `get` over a given table: the band that claims `arfcn`, or None. An answer
   always contains `arfcn` and takes its name and priority from a candidate row;
   it carries a number exactly when it is itself a candidate row, and otherwise
   is a name-only synthesis.
   */
  function GetFrom(table: seq<BandEntity>, arfcn: int, bandHints: seq<int>): (r: Option<BandEntity>)
    requires NumberedRows(table)
    ensures r.Some? ==> r.value.channelRange.Contains(arfcn)
    ensures r.Some? ==> exists c :: c in table && IsCandidate(c, arfcn, bandHints)
                                   && c.name == r.value.name && c.priority == r.value.priority
    ensures r.Some? ==> (r.value.number.Some? <==> r.value in table && IsCandidate(r.value, arfcn, bandHints))
  {
    Disambiguate(arfcn, CandidatesIn(table, arfcn, bandHints))
  }

  lemma BandsNumbered()
    ensures NumberedRows(Bands)
  {
    BandsWellFormed();
  }

  /** `get` over the NR band table. */
  function Get(arfcn: int, bandHints: seq<int>): (r: Option<BandEntity>)
    ensures r.Some? ==> r.value.channelRange.Contains(arfcn)
    ensures r.Some? ==> exists c :: c in Bands && IsCandidate(c, arfcn, bandHints)
                                   && c.name == r.value.name && c.priority == r.value.priority
    ensures r.Some? ==> (r.value.number.Some? <==> r.value in Bands && IsCandidate(r.value, arfcn, bandHints))
  {
    BandsNumbered();
    GetFrom(Bands, arfcn, bandHints)
  }

  /** The resolver's answer: the ARFCN, its frequency, and the band's number and name when known. */
  datatype BandNr = BandNr(downlinkArfcn: int, downlinkFrequency: int, number: Option<int>, name: Option<string>)

  /**
   Resolves `arfcn`. The ARFCN and its frequency are always reported; number and
   name are absent together exactly when no band was found, and a reported number
   is that of a table row which contains `arfcn` and passes the hints.
   */
  function Map(arfcn: int, bandHints: seq<int>): (r: BandNr)
    ensures r.downlinkArfcn == arfcn && r.downlinkFrequency == GetFrequency(arfcn)
    ensures r.name.None? <==> Get(arfcn, bandHints).None?
    ensures r.name.None? ==> r.number.None?
    ensures r.number.Some? ==> exists band :: band in Bands && IsCandidate(band, arfcn, bandHints)
                                           && band.number == r.number && r.name == Some(band.name)
  {
    var raw := Get(arfcn, bandHints);
    BandNr(
      arfcn,
      GetFrequency(arfcn),
      if raw.Some? then raw.value.number else None,
      if raw.Some? then Some(raw.value.name) else None)
  }
}
