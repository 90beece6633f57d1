/**
 Properties of the NR band resolver: the frequency formula against the standard's
 global raster, the meaning of the raster test, each stage of the tie-break
 cascade stated over any table of numbered rows, and facts about the NR table itself.
 */
module BandTableNrProofs {
  import opened Wrappers
  import opened Collections
  import opened BandEntities
  import opened BandTableNr
  import GlobalRaster

  // ---------------------------------------------------------------- frequency

  /** Within frequency range 1 the formula is the global raster of TS 38.101-1 Table 5.4.2.1-1. */
  lemma FrequencyAgreesWithGlobalRaster(arfcn: int)
    requires 0 <= arfcn <= 2_016_666
    ensures GlobalRaster.ReferenceFrequency(arfcn) == Some(GetFrequency(arfcn))
  {
    assert GlobalRaster.Rows[0].minArfcn <= arfcn <= GlobalRaster.Rows[0].maxArfcn
        || GlobalRaster.Rows[1].minArfcn <= arfcn <= GlobalRaster.Rows[1].maxArfcn;
  }

  /** Both pieces give 3000 MHz at N_REF 600000, so the formula has no jump there. */
  lemma FrequencyMeetsAtBreakpoint()
    ensures GetFrequency(600_000) == 5 * 600_000 == 3_000_000 + 15 * (600_000 - 600_000)
    ensures GetFrequency(600_001) == 3_000_015
    ensures GetFrequency(125_000) == 625_000
  {
  }

  /** A higher channel number is a higher frequency. */
  lemma FrequencyStrictlyIncreasing(a: int, b: int)
    requires a < b
    ensures GetFrequency(a) < GetFrequency(b)
  {
  }

  // ------------------------------------------------------------------- raster

  /** The raster test compares the frequency distance with zero, so Kotlin's `rem` may be read as `%`. */
  lemma OnRasterIff(band: BandEntity, arfcn: int)
    ensures OnRaster(band, arfcn)
        <==> (GetFrequency(band.channelRange.last) - GetFrequency(arfcn)) % SmallestBandwidth == 0
  {
    KotlinRemZeroIff(GetFrequency(band.channelRange.last) - GetFrequency(arfcn), SmallestBandwidth);
  }

  /** 15 * k kHz is a whole number of 5 MHz steps exactly when k is a multiple of 1000. */
  lemma FifteenTimesOnRaster(k: int)
    ensures (15 * k) % 5_000 == 0 <==> k % 1_000 == 0
  {
    if (15 * k) % 5_000 == 0 {
      var q := (15 * k) / 5_000;
      assert 15 * k == 5_000 * q;
      assert 3 * k == 1_000 * q;
      assert q == 3 * (k - 333 * q);
      assert k == 1_000 * (k - 333 * q);
    }
    if k % 1_000 == 0 {
      var m := k / 1_000;
      assert 15 * k == 5_000 * (3 * m);
    }
  }

  /**
   When `arfcn` and the band's upper bound lie on the same side of N_REF 600000,
   the raster test holds exactly when they are a multiple of 1000 channels apart.
   */
  lemma OnRasterSameSegment(band: BandEntity, arfcn: int)
    requires (band.channelRange.last <= 600_000 && arfcn <= 600_000)
          || (band.channelRange.last > 600_000 && arfcn > 600_000)
    ensures OnRaster(band, arfcn) <==> (band.channelRange.last - arfcn) % 1_000 == 0
  {
    var k := band.channelRange.last - arfcn;
    OnRasterIff(band, arfcn);
    if arfcn <= 600_000 {
      assert GetFrequency(band.channelRange.last) - GetFrequency(arfcn) == 5 * k;
    } else {
      assert GetFrequency(band.channelRange.last) - GetFrequency(arfcn) == 15 * k;
      FifteenTimesOnRaster(k);
    }
  }

  // -------------------------------------------------------------------- table

  /** ARFCN 125000 lies in the band-71 "600" row and in no other. */
  lemma Only71Contains125000()
    ensures Bands[0].channelRange.Contains(125_000) && Bands[0].number == Some(71) && Bands[0].name == "600"
    ensures forall i :: 0 < i < |Bands| ==> !Bands[i].channelRange.Contains(125_000)
  {
  }

  /** The two groups of "1500" rows meet at 286400, which both contain because ranges are inclusive. */
  lemma Groups1500Share286400()
    ensures forall i :: 10 <= i < 18 ==> Bands[i].name == "1500" && Bands[i].channelRange.Contains(286_400)
    ensures Bands[10].channelRange.last == 286_400 == Bands[14].channelRange.first
  {
  }

  // --------------------------------------------------------------- candidates

  /** The candidate condition as a single filter. */
  function CandidateOf(arfcn: int, bandHints: seq<int>): BandEntity -> bool {
    And(ContainsArfcn(arfcn), PassesHints(bandHints))
  }

  lemma CandidatesInOneFilter(table: seq<BandEntity>, arfcn: int, bandHints: seq<int>)
    ensures CandidatesIn(table, arfcn, bandHints) == Filter(table, CandidateOf(arfcn, bandHints))
  {
    FilterFilter(table, ContainsArfcn(arfcn), PassesHints(bandHints));
  }

  /**
   Rows `i1` and `i2` are two candidates at different positions, both at the highest priority
   among all candidates.
   */
  ghost predicate TopPriorityTied(table: seq<BandEntity>, arfcn: int, bandHints: seq<int>, i1: int, i2: int) {
    0 <= i1 < |table| && 0 <= i2 < |table| && i1 != i2
    && IsCandidate(table[i1], arfcn, bandHints) && IsCandidate(table[i2], arfcn, bandHints)
    && table[i1].priority == table[i2].priority
    && forall j :: 0 <= j < |table| && IsCandidate(table[j], arfcn, bandHints) ==> table[j].priority <= table[i1].priority
  }

  /** Row `i` is the first row satisfying both the candidate condition and `extra`. */
  ghost predicate FirstRowWhere(table: seq<BandEntity>, i: int, arfcn: int, bandHints: seq<int>, extra: BandEntity -> bool) {
    0 <= i < |table| && IsCandidate(table[i], arfcn, bandHints) && extra(table[i])
    && forall j :: 0 <= j < i ==> !(IsCandidate(table[j], arfcn, bandHints) && extra(table[j]))
  }

  // ------------------------------------------------------------- the cascade

  /** No row contains `arfcn` and passes the hints: nothing is found. */
  lemma GetNoCandidate(table: seq<BandEntity>, arfcn: int, bandHints: seq<int>)
    requires NumberedRows(table)
    requires forall i :: 0 <= i < |table| ==> !IsCandidate(table[i], arfcn, bandHints)
    ensures GetFrom(table, arfcn, bandHints) == None
  {
    var candidates := CandidatesIn(table, arfcn, bandHints);
    if candidates != [] {
      assert candidates[0] in table;
    }
  }

  /**
   The converse does not hold: nothing is found either when there is no candidate
   or when the name collapse meets two candidates of different names.
   */
  lemma GetNullMeansNoCandidateOrNameClash(table: seq<BandEntity>, arfcn: int, bandHints: seq<int>)
    requires NumberedRows(table)
    requires GetFrom(table, arfcn, bandHints) == None
    ensures (forall c :: c in table ==> !IsCandidate(c, arfcn, bandHints))
         || exists c1, c2 :: c1 in table && c2 in table && c1.name != c2.name
                             && IsCandidate(c1, arfcn, bandHints) && IsCandidate(c2, arfcn, bandHints)
  {
    var candidates := CandidatesIn(table, arfcn, bandHints);
    if candidates != [] {
      assert |candidates| >= 2;
      var filtered := Filter(candidates, OnRasterOf(arfcn));
      assert RasterTieBreak(arfcn, candidates) == None;
      if |filtered| == 0 {
        DistinctBySizeOne(candidates, NameOf);
        var c :| c in candidates && NameOf(c) != NameOf(candidates[0]);
        assert candidates[0] in candidates;
      } else {
        assert |filtered| >= 2;
        DistinctBySizeOne(filtered, NameOf);
        var c :| c in filtered && NameOf(c) != NameOf(filtered[0]);
        assert filtered[0] in filtered;
      }
    }
  }

  /** Exactly one row contains `arfcn` and passes the hints: that row is returned unchanged. */
  lemma GetLoneCandidate(table: seq<BandEntity>, arfcn: int, bandHints: seq<int>, i: int)
    requires NumberedRows(table)
    requires 0 <= i < |table| && IsCandidate(table[i], arfcn, bandHints)
    requires forall j :: 0 <= j < |table| && j != i ==> !IsCandidate(table[j], arfcn, bandHints)
    ensures GetFrom(table, arfcn, bandHints) == Some(table[i])
  {
    CandidatesInOneFilter(table, arfcn, bandHints);
    FilterSingle(table, CandidateOf(arfcn, bandHints), i);
  }

  /**
   Row `i` is a candidate whose priority is strictly higher than that of every other
   candidate: it is returned, whatever the raster test would say.
   */
  lemma GetUniqueTopPriority(table: seq<BandEntity>, arfcn: int, bandHints: seq<int>, i: int)
    requires NumberedRows(table)
    requires 0 <= i < |table| && IsCandidate(table[i], arfcn, bandHints)
    requires forall j :: 0 <= j < |table| && j != i && IsCandidate(table[j], arfcn, bandHints)
                         ==> table[j].priority < table[i].priority
    ensures GetFrom(table, arfcn, bandHints) == Some(table[i])
  {
    var candidates := CandidatesIn(table, arfcn, bandHints);
    assert table[i] in candidates;
    if |candidates| >= 2 {
      var top := MaxOf(candidates, PriorityOf);
      forall c | c in candidates ensures c.priority <= table[i].priority {
        var j :| 0 <= j < |table| && table[j] == c;
      }
      CandidatesInOneFilter(table, arfcn, bandHints);
      FilterFilter(table, CandidateOf(arfcn, bandHints), HasPriority(top));
      FilterSingle(table, And(CandidateOf(arfcn, bandHints), HasPriority(top)), i);
    }
  }

  /** With the top priority tied, the cascade goes on to the raster test. */
  lemma TiedReachesRaster(table: seq<BandEntity>, arfcn: int, bandHints: seq<int>, i1: int, i2: int)
    requires NumberedRows(table)
    requires TopPriorityTied(table, arfcn, bandHints, i1, i2)
    ensures GetFrom(table, arfcn, bandHints) == RasterTieBreak(arfcn, CandidatesIn(table, arfcn, bandHints))
  {
    var candidates := CandidatesIn(table, arfcn, bandHints);
    CandidatesInOneFilter(table, arfcn, bandHints);
    FilterAtLeastTwo(table, CandidateOf(arfcn, bandHints), i1, i2);
    forall c | c in candidates ensures c.priority <= table[i1].priority {
      var j :| 0 <= j < |table| && table[j] == c;
    }
    var top := MaxOf(candidates, PriorityOf);
    assert table[i1] in candidates;
    assert top == table[i1].priority;
    FilterFilter(table, CandidateOf(arfcn, bandHints), HasPriority(top));
    FilterAtLeastTwo(table, And(CandidateOf(arfcn, bandHints), HasPriority(top)), i1, i2);
  }

  /**
   The top priority is tied and row `i` is the only candidate on the raster:
   it is returned, although the others contain `arfcn` as well.
   */
  lemma GetRasterUnique(table: seq<BandEntity>, arfcn: int, bandHints: seq<int>, i1: int, i2: int, i: int)
    requires NumberedRows(table)
    requires TopPriorityTied(table, arfcn, bandHints, i1, i2)
    requires 0 <= i < |table| && IsCandidate(table[i], arfcn, bandHints) && OnRaster(table[i], arfcn)
    requires forall j :: 0 <= j < |table| && j != i && IsCandidate(table[j], arfcn, bandHints)
                         ==> !OnRaster(table[j], arfcn)
    ensures GetFrom(table, arfcn, bandHints) == Some(table[i])
  {
    TiedReachesRaster(table, arfcn, bandHints, i1, i2);
    CandidatesInOneFilter(table, arfcn, bandHints);
    FilterFilter(table, CandidateOf(arfcn, bandHints), OnRasterOf(arfcn));
    FilterSingle(table, And(CandidateOf(arfcn, bandHints), OnRasterOf(arfcn)), i);
  }

  /**
   The top priority is tied and several candidates, rows `i` and `k` among them, are
   on the raster, all of one name: the answer is the first of them in table order,
   `i`, without its number.
   */
  lemma GetRasterSurvivorsShareName(table: seq<BandEntity>, arfcn: int, bandHints: seq<int>, i1: int, i2: int, i: int, k: int)
    requires NumberedRows(table)
    requires TopPriorityTied(table, arfcn, bandHints, i1, i2)
    requires FirstRowWhere(table, i, arfcn, bandHints, OnRasterOf(arfcn))
    requires 0 <= k < |table| && k != i && IsCandidate(table[k], arfcn, bandHints) && OnRaster(table[k], arfcn)
    requires forall j :: 0 <= j < |table| && IsCandidate(table[j], arfcn, bandHints) && OnRaster(table[j], arfcn)
                         ==> table[j].name == table[i].name
    ensures GetFrom(table, arfcn, bandHints) == Some(CopyWithoutNumber(table[i]))
  {
    TiedReachesRaster(table, arfcn, bandHints, i1, i2);
    CandidatesInOneFilter(table, arfcn, bandHints);
    var survives := And(CandidateOf(arfcn, bandHints), OnRasterOf(arfcn));
    FilterFilter(table, CandidateOf(arfcn, bandHints), OnRasterOf(arfcn));
    FilterFirst(table, survives, i);
    var filtered := Filter(table, survives);
    FilterAtLeastTwo(table, survives, i, k);
    forall c | c in filtered ensures NameOf(c) == NameOf(filtered[0]) {
      var j :| 0 <= j < |table| && table[j] == c;
    }
    DistinctBySizeOne(filtered, NameOf);
  }

  /** The top priority is tied and rows `k1` and `k2`, candidates of different names, are on the raster: nothing is found. */
  lemma GetRasterSurvivorsNamesDiffer(table: seq<BandEntity>, arfcn: int, bandHints: seq<int>, i1: int, i2: int, k1: int, k2: int)
    requires NumberedRows(table)
    requires TopPriorityTied(table, arfcn, bandHints, i1, i2)
    requires 0 <= k1 < |table| && 0 <= k2 < |table| && table[k1].name != table[k2].name
    requires IsCandidate(table[k1], arfcn, bandHints) && OnRaster(table[k1], arfcn)
    requires IsCandidate(table[k2], arfcn, bandHints) && OnRaster(table[k2], arfcn)
    ensures GetFrom(table, arfcn, bandHints) == None
  {
    TiedReachesRaster(table, arfcn, bandHints, i1, i2);
    var filtered := Filter(CandidatesIn(table, arfcn, bandHints), OnRasterOf(arfcn));
    TwoDifferentMembers(filtered, table[k1], table[k2]);
    DistinctBySizeOne(filtered, NameOf);
  }

  /** With the top priority tied and no candidate on the raster, the answer is the name collapse of all candidates. */
  lemma TiedNoSurvivorCollapses(table: seq<BandEntity>, arfcn: int, bandHints: seq<int>, i1: int, i2: int)
    requires NumberedRows(table)
    requires TopPriorityTied(table, arfcn, bandHints, i1, i2)
    requires forall j :: 0 <= j < |table| && IsCandidate(table[j], arfcn, bandHints) ==> !OnRaster(table[j], arfcn)
    ensures GetFrom(table, arfcn, bandHints) == CollapseCandidates(arfcn, CandidatesIn(table, arfcn, bandHints))
  {
    TiedReachesRaster(table, arfcn, bandHints, i1, i2);
    var candidates := CandidatesIn(table, arfcn, bandHints);
    forall c | c in candidates ensures !OnRasterOf(arfcn)(c) {
      var j :| 0 <= j < |table| && table[j] == c;
    }
    FilterNone(candidates, OnRasterOf(arfcn));
  }

  /**
   `low` is the smallest lower bound and `high` the largest upper bound over the
   candidates, attained by rows `iLow` and `iHigh`.
   */
  ghost predicate CandidateBounds(table: seq<BandEntity>, arfcn: int, bandHints: seq<int>, low: int, high: int, iLow: int, iHigh: int) {
    && (forall j :: 0 <= j < |table| && IsCandidate(table[j], arfcn, bandHints)
                    ==> low <= table[j].channelRange.first && table[j].channelRange.last <= high)
    && 0 <= iLow < |table| && IsCandidate(table[iLow], arfcn, bandHints) && table[iLow].channelRange.first == low
    && 0 <= iHigh < |table| && IsCandidate(table[iHigh], arfcn, bandHints) && table[iHigh].channelRange.last == high
  }

  /**
   The zero-survivor collapse of candidates of one name: the first candidate's fields,
   without a number, over the smallest lower and the largest upper bound.
   */
  lemma CollapseSharedName(table: seq<BandEntity>, arfcn: int, bandHints: seq<int>, i: int, low: int, high: int, iLow: int, iHigh: int)
    requires NumberedRows(table)
    requires 0 <= i < |table| && IsCandidate(table[i], arfcn, bandHints)
    requires forall j :: 0 <= j < i ==> !IsCandidate(table[j], arfcn, bandHints)
    requires forall j :: 0 <= j < |table| && IsCandidate(table[j], arfcn, bandHints) ==> table[j].name == table[i].name
    requires CandidateBounds(table, arfcn, bandHints, low, high, iLow, iHigh)
    ensures CollapseCandidates(arfcn, CandidatesIn(table, arfcn, bandHints))
         == Some(CopyWithRangeWithoutNumber(table[i], IntRange(low, high)))
  {
    var candidates := CandidatesIn(table, arfcn, bandHints);
    assert table[i] in candidates;
    CandidatesInOneFilter(table, arfcn, bandHints);
    FilterFirst(table, CandidateOf(arfcn, bandHints), i);
    forall c | c in candidates
      ensures NameOf(c) == NameOf(candidates[0])
      ensures low <= FirstOf(c) && LastOf(c) <= high
    {
      var j :| 0 <= j < |table| && table[j] == c;
    }
    DistinctBySizeOne(candidates, NameOf);
    assert table[iLow] in candidates && FirstOf(table[iLow]) == low;
    assert table[iHigh] in candidates && LastOf(table[iHigh]) == high;
    MinOfIs(candidates, FirstOf, low);
    MaxOfIs(candidates, LastOf, high);
  }

  /**
   The top priority is tied, no candidate is on the raster and all candidates share
   one name: the answer is that name without a number, over the range from the
   smallest lower bound to the largest upper bound of the candidates, with the
   fields of the first candidate in table order.
   */
  lemma GetNoRasterSurvivorSharedName(table: seq<BandEntity>, arfcn: int, bandHints: seq<int>, i1: int, i2: int,
                                      i: int, low: int, high: int, iLow: int, iHigh: int)
    requires NumberedRows(table)
    requires TopPriorityTied(table, arfcn, bandHints, i1, i2)
    requires forall j :: 0 <= j < |table| && IsCandidate(table[j], arfcn, bandHints) ==> !OnRaster(table[j], arfcn)
    requires 0 <= i < |table| && IsCandidate(table[i], arfcn, bandHints)
    requires forall j :: 0 <= j < i ==> !IsCandidate(table[j], arfcn, bandHints)
    requires forall j :: 0 <= j < |table| && IsCandidate(table[j], arfcn, bandHints) ==> table[j].name == table[i].name
    requires CandidateBounds(table, arfcn, bandHints, low, high, iLow, iHigh)
    ensures GetFrom(table, arfcn, bandHints) == Some(CopyWithRangeWithoutNumber(table[i], IntRange(low, high)))
  {
    TiedNoSurvivorCollapses(table, arfcn, bandHints, i1, i2);
    CollapseSharedName(table, arfcn, bandHints, i, low, high, iLow, iHigh);
  }

  /** The top priority is tied, no candidate is on the raster and rows `k1` and `k2` are candidates of different names: nothing is found. */
  lemma GetNoRasterSurvivorNamesDiffer(table: seq<BandEntity>, arfcn: int, bandHints: seq<int>, i1: int, i2: int, k1: int, k2: int)
    requires NumberedRows(table)
    requires TopPriorityTied(table, arfcn, bandHints, i1, i2)
    requires forall j :: 0 <= j < |table| && IsCandidate(table[j], arfcn, bandHints) ==> !OnRaster(table[j], arfcn)
    requires 0 <= k1 < |table| && 0 <= k2 < |table| && table[k1].name != table[k2].name
    requires IsCandidate(table[k1], arfcn, bandHints) && IsCandidate(table[k2], arfcn, bandHints)
    ensures GetFrom(table, arfcn, bandHints) == None
  {
    TiedNoSurvivorCollapses(table, arfcn, bandHints, i1, i2);
    var candidates := CandidatesIn(table, arfcn, bandHints);
    assert table[k1] in candidates && table[k2] in candidates;
    DistinctBySizeOne(candidates, NameOf);
  }
}
