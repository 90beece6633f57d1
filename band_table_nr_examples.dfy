/**
 Concrete ARFCNs resolved against the NR band table, one per stage of the cascade.
 Row indices refer to the comments in the table. Each example first states, in
 small lemmas of their own, which rows are candidates and which of those are on
 the raster, then applies the general stage lemma to the table.
 */
module BandTableNrExamples {
  import opened Wrappers
  import opened BandEntities
  import opened BandTableNr
  import opened BandTableNrProofs

  // ------------------------------------------------------------ a lone candidate

  lemma CandidatesAt125000()
    ensures IsCandidate(Bands[0], 125_000, [])
    ensures forall j :: 0 <= j < |Bands| && j != 0 ==> !IsCandidate(Bands[j], 125_000, [])
  {
  }

  /** 125000 lies only in band 71. */
  lemma Example125000()
    ensures Get(125_000, []) == Some(Bands[0])
    ensures Map(125_000, []) == BandNr(125_000, 625_000, Some(71), Some("600"))
  {
    BandsNumbered();
    CandidatesAt125000();
    GetLoneCandidate(Bands, 125_000, [], 0);
  }

  // --------------------------------------------------------------- no candidate

  lemma CandidatesAt200000()
    ensures forall j :: 0 <= j < |Bands| ==> !IsCandidate(Bands[j], 200_000, [])
  {
  }

  /** 200000 lies in no band: only the ARFCN and its frequency are reported. */
  lemma Example200000()
    ensures Map(200_000, []) == BandNr(200_000, 1_000_000, None, None)
  {
    BandsNumbered();
    CandidatesAt200000();
    GetNoCandidate(Bands, 200_000, []);
  }

  // ------------------------------------------------------ priority and the hints

  lemma CandidatesAt152000()
    ensures IsCandidate(Bands[3], 152_000, [])
    ensures forall j :: 0 <= j < |Bands| && j != 3 && IsCandidate(Bands[j], 152_000, []) ==> Bands[j].priority < Bands[3].priority
  {
  }

  lemma HintedAt152000()
    ensures IsCandidate(Bands[4], 152_000, [14])
    ensures forall j :: 0 <= j < |Bands| && j != 4 ==> !IsCandidate(Bands[j], 152_000, [14])
  {
  }

  lemma UnknownHintAt152000()
    ensures forall j :: 0 <= j < |Bands| ==> !IsCandidate(Bands[j], 152_000, [999])
  {
  }

  /**
   152000 lies in band 28 (priority 1) and band 14 (priority 0): band 28 wins.
   The hint 14 leaves band 14 alone; the unknown hint 999 leaves nothing.
   */
  lemma Example152000()
    ensures Get(152_000, []) == Some(Bands[3])
    ensures Get(152_000, [14]) == Some(Bands[4])
    ensures Get(152_000, [999]) == None
  {
    BandsNumbered();
    CandidatesAt152000();
    GetUniqueTopPriority(Bands, 152_000, [], 3);
    HintedAt152000();
    GetLoneCandidate(Bands, 152_000, [14], 4);
    UnknownHintAt152000();
    GetNoCandidate(Bands, 152_000, [999]);
  }

  lemma CandidatesAt640000()
    ensures IsCandidate(Bands[36], 640_000, [])
    ensures forall j :: 0 <= j < |Bands| && j != 36 && IsCandidate(Bands[j], 640_000, []) ==> Bands[j].priority < Bands[36].priority
  {
  }

  /** 640000 lies in bands 77, 78 and 48; only band 78 has priority 1. */
  lemma Example640000()
    ensures Get(640_000, []) == Some(Bands[36])
  {
    BandsNumbered();
    CandidatesAt640000();
    GetUniqueTopPriority(Bands, 640_000, [], 36);
  }

  // ------------------------------------------------------------ the raster test

  lemma TiedAt500999()
    ensures TopPriorityTied(Bands, 500_999, [], 31, 32)
  {
  }

  lemma RasterAt500999()
    ensures IsCandidate(Bands[31], 500_999, []) && OnRaster(Bands[31], 500_999)
    ensures forall j :: 0 <= j < |Bands| && j != 31 && IsCandidate(Bands[j], 500_999, []) ==> !OnRaster(Bands[j], 500_999)
  {
  }

  /** 500999 lies in bands 41 and 90; only band 41's upper bound is on its raster. */
  lemma Example500999()
    ensures Get(500_999, []) == Some(Bands[31])
  {
    BandsNumbered();
    TiedAt500999();
    RasterAt500999();
    GetRasterUnique(Bands, 500_999, [], 31, 32, 31);
  }

  lemma TiedAt500000()
    ensures TopPriorityTied(Bands, 500_000, [], 31, 32)
  {
  }

  lemma RasterAt500000()
    ensures IsCandidate(Bands[32], 500_000, []) && OnRaster(Bands[32], 500_000)
    ensures forall j :: 0 <= j < |Bands| && j != 32 && IsCandidate(Bands[j], 500_000, []) ==> !OnRaster(Bands[j], 500_000)
  {
  }

  /** 500000 lies in bands 41 and 90; only band 90's upper bound is on its raster. */
  lemma Example500000()
    ensures Get(500_000, []) == Some(Bands[32])
  {
    BandsNumbered();
    TiedAt500000();
    RasterAt500000();
    GetRasterUnique(Bands, 500_000, [], 31, 32, 32);
  }

  lemma TiedAt159600()
    ensures TopPriorityTied(Bands, 159_600, [], 3, 5)
  {
  }

  lemma RasterAt159600()
    ensures IsCandidate(Bands[3], 159_600, []) && OnRaster(Bands[3], 159_600)
    ensures forall j :: 0 <= j < |Bands| && j != 3 && IsCandidate(Bands[j], 159_600, []) ==> !OnRaster(Bands[j], 159_600)
  {
  }

  /** 159600 lies in bands 28 and 20, both priority 1; the raster picks band 28. */
  lemma Example159600()
    ensures Get(159_600, []) == Some(Bands[3])
  {
    BandsNumbered();
    TiedAt159600();
    RasterAt159600();
    GetRasterUnique(Bands, 159_600, [], 3, 5, 3);
  }

  lemma TiedAt159200()
    ensures TopPriorityTied(Bands, 159_200, [], 3, 5)
  {
  }

  lemma RasterAt159200()
    ensures IsCandidate(Bands[5], 159_200, []) && OnRaster(Bands[5], 159_200)
    ensures forall j :: 0 <= j < |Bands| && j != 5 && IsCandidate(Bands[j], 159_200, []) ==> !OnRaster(Bands[j], 159_200)
  {
  }

  /** 159200 lies in bands 28 and 20, both priority 1; the raster picks band 20. */
  lemma Example159200()
    ensures Get(159_200, []) == Some(Bands[5])
  {
    BandsNumbered();
    TiedAt159200();
    RasterAt159200();
    GetRasterUnique(Bands, 159_200, [], 3, 5, 5);
  }

  // ---------------------------------------------------------- the name collapse

  lemma TiedAt520000()
    ensures TopPriorityTied(Bands, 520_000, [], 31, 32)
  {
  }

  lemma FirstOnRasterAt520000()
    ensures FirstRowWhere(Bands, 32, 520_000, [], OnRasterOf(520_000))
  {
  }

  lemma SecondOnRasterAt520000()
    ensures IsCandidate(Bands[33], 520_000, []) && OnRaster(Bands[33], 520_000)
  {
  }

  lemma SurvivorNamesAt520000()
    ensures forall j :: 0 <= j < |Bands| && IsCandidate(Bands[j], 520_000, []) && OnRaster(Bands[j], 520_000)
                        ==> Bands[j].name == Bands[32].name
    ensures Bands[32].name == "2600"
  {
  }

  /** At 520000 bands 90 and 38 are both on the raster and both "2600": the name alone is reported. */
  lemma Example520000()
    ensures Get(520_000, []) == Some(CopyWithoutNumber(Bands[32]))
    ensures Map(520_000, []) == BandNr(520_000, 2_600_000, None, Some("2600"))
  {
    BandsNumbered();
    TiedAt520000();
    FirstOnRasterAt520000();
    SecondOnRasterAt520000();
    SurvivorNamesAt520000();
    GetRasterSurvivorsShareName(Bands, 520_000, [], 31, 32, 32, 33);
  }

  lemma TiedAt286400()
    ensures TopPriorityTied(Bands, 286_400, [], 10, 11)
  {
  }

  lemma FirstOnRasterAt286400()
    ensures FirstRowWhere(Bands, 10, 286_400, [], OnRasterOf(286_400))
  {
  }

  lemma SecondOnRasterAt286400()
    ensures IsCandidate(Bands[11], 286_400, []) && OnRaster(Bands[11], 286_400)
  {
  }

  lemma SurvivorNamesAt286400()
    ensures forall j :: 0 <= j < |Bands| && IsCandidate(Bands[j], 286_400, []) && OnRaster(Bands[j], 286_400)
                        ==> Bands[j].name == Bands[10].name
  {
  }

  /** At 286400 the answer is the first "1500" survivor, band 51, without its number (all eight survive, see `EightSurviveAt286400`). */
  lemma Example286400()
    ensures Get(286_400, []) == Some(CopyWithoutNumber(Bands[10]))
  {
    BandsNumbered();
    TiedAt286400();
    FirstOnRasterAt286400();
    SecondOnRasterAt286400();
    SurvivorNamesAt286400();
    GetRasterSurvivorsShareName(Bands, 286_400, [], 10, 11, 10, 11);
  }

  /** The raster survivors at 286400 are exactly the eight "1500" rows, 10 to 17. */
  lemma EightSurviveAt286400()
    ensures forall j :: 0 <= j < |Bands| ==>
              (IsCandidate(Bands[j], 286_400, []) && OnRaster(Bands[j], 286_400) <==> 10 <= j < 18)
  {
  }

  lemma TiedAt285401()
    ensures TopPriorityTied(Bands, 285_401, [], 10, 11)
  {
  }

  lemma OffRasterAt285401()
    ensures forall j :: 0 <= j < |Bands| && IsCandidate(Bands[j], 285_401, []) ==> !OnRaster(Bands[j], 285_401)
  {
  }

  lemma FirstCandidateAt285401()
    ensures IsCandidate(Bands[10], 285_401, [])
    ensures forall j :: 0 <= j < 10 ==> !IsCandidate(Bands[j], 285_401, [])
    ensures Bands[10].name == "1500" && Bands[10].priority == 0
  {
  }

  lemma NamesAt285401()
    ensures forall j :: 0 <= j < |Bands| && IsCandidate(Bands[j], 285_401, []) ==> Bands[j].name == Bands[10].name
  {
  }

  lemma BoundsAt285401()
    ensures CandidateBounds(Bands, 285_401, [], 285_400, 286_400, 10, 10)
  {
  }

  /** At 285401 none of the four "1500" rows is on the raster: "1500" over their whole range, no number. */
  lemma Example285401()
    ensures Get(285_401, []) == Some(BandEntity(IntRange(285_400, 286_400), "1500", None, 0))
  {
    BandsNumbered();
    TiedAt285401();
    OffRasterAt285401();
    FirstCandidateAt285401();
    NamesAt285401();
    BoundsAt285401();
    GetNoRasterSurvivorSharedName(Bands, 285_401, [], 10, 11, 10, 285_400, 286_400, 10, 10);
  }

  lemma TiedAt399000()
    ensures TopPriorityTied(Bands, 399_000, [], 22, 23)
  {
  }

  lemma BothOnRasterAt399000()
    ensures IsCandidate(Bands[22], 399_000, []) && OnRaster(Bands[22], 399_000)
    ensures IsCandidate(Bands[23], 399_000, []) && OnRaster(Bands[23], 399_000)
    ensures Bands[22].name == "1900" && Bands[23].name == "2000"
  {
  }

  /** At 399000 band 25 ("1900") and band 70 ("2000") are both on the raster, and their names differ. */
  lemma Example399000()
    ensures Get(399_000, []) == None
  {
    BandsNumbered();
    TiedAt399000();
    BothOnRasterAt399000();
    GetRasterSurvivorsNamesDiffer(Bands, 399_000, [], 22, 23, 22, 23);
  }

  lemma TiedAt159000()
    ensures TopPriorityTied(Bands, 159_000, [], 3, 5)
  {
  }

  lemma NamesAt159000()
    ensures Bands[3].name == "700" && Bands[5].name == "800"
  {
  }

  lemma OffRasterAt159000()
    ensures forall j :: 0 <= j < |Bands| && IsCandidate(Bands[j], 159_000, []) ==> !OnRaster(Bands[j], 159_000)
  {
  }

  /** At 159000 neither band 28 ("700") nor band 20 ("800") is on the raster, and their names differ. */
  lemma Example159000()
    ensures Get(159_000, []) == None
  {
    BandsNumbered();
    TiedAt159000();
    NamesAt159000();
    OffRasterAt159000();
    GetNoRasterSurvivorNamesDiffer(Bands, 159_000, [], 3, 5, 3, 5);
  }
}
