# NR band resolver

This project models the part of netmonster-core that resolves a 5G NR channel
number (NR-ARFCN) to a band, and it proves properties of that model.

- `BandTableNr.map(arfcn, bandHints)` returns the ARFCN, its downlink frequency
  and, when one can be found, the band's 3GPP number and approximate frequency
  name.
- The band comes from a constant table of 39 release-16 NR bands.
- Many bands overlap, so `get` resolves the overlap with a cascade of stages:
  1. the candidates are the rows whose inclusive range contains the ARFCN and
     that pass the optional band-number hints;
  2. no candidate gives nothing, and a single candidate is returned as it is;
  3. a unique highest priority wins;
  4. otherwise the raster test keeps the candidates whose upper-bound frequency
     lies a whole number of 5 MHz steps from the ARFCN's frequency; a single
     survivor is returned;
  5. several survivors of one name give that name without a number, and
     survivors of different names give nothing;
  6. when nothing survives the raster test, candidates of one name give that
     name without a number, over the widest range they span; different names
     give nothing.

The model is written in Dafny over values, in seven files:

| file | contents |
|---|---|
| `wrappers.dfy` | `Option`, which stands for Kotlin's nullable types |
| `collections.dfy` | the Kotlin standard-library operations the resolver uses (`filter`, `distinctBy`, `minOf`, `maxOf`), with their laws, and Kotlin's truncating `rem` |
| `band_entity.dfy` | `IntRange` (inclusive at both ends), the `BandEntity` record with its default priority, and the two data-class `copy` calls the resolver makes |
| `global_raster.dfy` | an independent reference: the NR global frequency raster of Table 5.4.2.1-1 in section 5.4.2.1 of 3GPP TS 38.101-1 |
| `band_table_nr.dfy` | the table, `getFrequency`, the cascade, `get` and `map` |
| `band_table_nr_proofs.dfy`, `band_table_nr_examples.dfy` | the properties: the frequency formula against the standard, the meaning of the raster test, one lemma per stage of the cascade, and concrete ARFCNs resolved against the real table |

The stage lemmas are stated over any table whose rows all carry a number
(`GetFrom`), and they name the rows involved by their positions. `Get` is
`GetFrom` applied to the NR table, so the examples apply the stage lemmas to
the real table.

## Model

All BandTableNr.kt paths are `library/src/main/java/cz/mroczis/netmonster/core/db/BandTableNr.kt`.
All BandEntity.kt paths are `library/src/main/java/cz/mroczis/netmonster/core/db/model/BandEntity.kt`.

| member | source | states |
|---|---|---|
| BandEntities.IntRange | library/src/main/java/cz/mroczis/netmonster/core/db/model/BandEntity.kt:8-14 | a closed range of channel numbers; `RangeInclusive` states that both ends belong to it and nothing just outside does |
| BandEntities.BandEntity | library/src/main/java/cz/mroczis/netmonster/core/db/model/BandEntity.kt:36-41 | the band record with range, name, optional number and a priority defaulting to 0; `DefaultPriority`, `CopyWithoutNumber` and `CopyWithRangeWithoutNumber` state its properties |
| BandEntities.CopyWithoutNumber | library/src/main/java/cz/mroczis/netmonster/core/db/model/BandEntity.kt:36-41 | `copy(number = null)` clears the number and keeps the range, name and priority |
| BandEntities.CopyWithRangeWithoutNumber | library/src/main/java/cz/mroczis/netmonster/core/db/model/BandEntity.kt:36-41 | `copy(channelRange = r, number = null)` sets the range to r, clears the number, and keeps the name and priority |
| BandEntities.RangeInclusive | library/src/main/java/cz/mroczis/netmonster/core/db/model/BandEntity.kt:8-14 | a channel range contains both of its ends and neither neighbour just outside them |
| BandEntities.DefaultPriority | library/src/main/java/cz/mroczis/netmonster/core/db/model/BandEntity.kt:40 | a band built without a priority has priority 0 |
| BandTableNr.Bands | library/src/main/java/cz/mroczis/netmonster/core/db/BandTableNr.kt:17-57 | the 39 rows in source order; `BandsWellFormed`, `BandsNumbered`, `Only71Contains125000` and `Groups1500Share286400` state their properties |
| BandTableNr.BandsWellFormed | library/src/main/java/cz/mroczis/netmonster/core/db/BandTableNr.kt:17-57 | the table has 39 rows; every row has first ≤ last, bounds within 0 and `Integer.MAX_VALUE`, a positive number, a non-empty name and priority 0 or 1 |
| BandTableNr.BandsNumbered | library/src/main/java/cz/mroczis/netmonster/core/db/model/BandEntity.kt:22-26 | no table row has a null number |
| BandTableNrProofs.Only71Contains125000 | library/src/main/java/cz/mroczis/netmonster/core/db/BandTableNr.kt:18-56 | ARFCN 125000 lies in the band-71 "600" row and in no other row |
| BandTableNrProofs.Groups1500Share286400 | library/src/main/java/cz/mroczis/netmonster/core/db/BandTableNr.kt:28-35 | the eight "1500" rows all contain 286400, and the upper bound of the first group is the lower bound of the second |
| BandTableNr.GetFrequency | library/src/main/java/cz/mroczis/netmonster/core/db/BandTableNr.kt:122-128 | the piecewise downlink frequency; `FrequencyAgreesWithGlobalRaster`, `FrequencyMeetsAtBreakpoint` and `FrequencyStrictlyIncreasing` state its properties |
| BandTableNrProofs.FrequencyAgreesWithGlobalRaster | library/src/main/java/cz/mroczis/netmonster/core/db/BandTableNr.kt:116-128 | for N_REF 0 to 2016666, `getFrequency` equals F_REF of the standard's global raster table |
| BandTableNrProofs.FrequencyMeetsAtBreakpoint | library/src/main/java/cz/mroczis/netmonster/core/db/BandTableNr.kt:122-128 | both branches give 3000000 kHz at 600000; 600001 gives 3000015 and 125000 gives 625000 |
| BandTableNrProofs.FrequencyStrictlyIncreasing | library/src/main/java/cz/mroczis/netmonster/core/db/BandTableNr.kt:122-128 | a larger ARFCN always has a larger frequency, across the breakpoint too |
| GlobalRaster.ReferenceFrequency | library/src/main/java/cz/mroczis/netmonster/core/db/BandTableNr.kt:116-121 | the reference raster is defined exactly on N_REF 0 to 2016666 |
| Collections.KotlinRem | library/src/main/java/cz/mroczis/netmonster/core/db/BandTableNr.kt:84 | Kotlin's `rem`, truncating toward zero; `KotlinRemZeroIff` states the one property the raster test needs |
| Collections.KotlinRemZeroIff | library/src/main/java/cz/mroczis/netmonster/core/db/BandTableNr.kt:84 | Kotlin's truncating `rem` is zero exactly when the Euclidean remainder is zero |
| BandTableNr.SmallestBandwidth | library/src/main/java/cz/mroczis/netmonster/core/db/BandTableNr.kt:15 | 5000 kHz, the raster step of the raster test; `OnRasterIff` states its use |
| BandTableNr.ContainsArfcn | library/src/main/java/cz/mroczis/netmonster/core/db/BandTableNr.kt:61 | the condition of the first `filter`, range containment; `CandidatesIn` states the rows it selects together with `PassesHints` |
| BandTableNr.PassesHints | library/src/main/java/cz/mroczis/netmonster/core/db/BandTableNr.kt:62 | the condition of the second `filter`, the hint test `MatchesHints`; `CandidatesIn` states the rows it selects |
| BandTableNr.OnRasterOf | library/src/main/java/cz/mroczis/netmonster/core/db/BandTableNr.kt:76-85 | the condition of the raster `filter`, `OnRaster` for a fixed ARFCN; `OnRasterIff` states its meaning and `GetRasterUnique`, `GetRasterSurvivorsShareName` and `TiedNoSurvivorCollapses` state its effect on `get` |
| BandTableNr.NameOf | library/src/main/java/cz/mroczis/netmonster/core/db/BandTableNr.kt:88-105 | the key of both `distinctBy` calls, a band's name; `DistinctBySizeOne` states the one-name test it feeds |
| BandTableNr.PriorityOf | library/src/main/java/cz/mroczis/netmonster/core/db/BandTableNr.kt:69 | the sort key, a band's priority; `GetUniqueTopPriority` and `TiedReachesRaster` state the priority stage it feeds |
| BandTableNr.FirstOf | library/src/main/java/cz/mroczis/netmonster/core/db/BandTableNr.kt:91 | the `minOf` selector, a range's lower bound; `CollapseSharedName` states that the collapsed range starts at the smallest of them |
| BandTableNr.LastOf | library/src/main/java/cz/mroczis/netmonster/core/db/BandTableNr.kt:92 | the `maxOf` selector, a range's upper bound; `CollapseSharedName` states that the collapsed range ends at the largest of them |
| BandTableNr.OnRaster | library/src/main/java/cz/mroczis/netmonster/core/db/BandTableNr.kt:81-84 | the raster test of one candidate; `OnRasterIff` and `OnRasterSameSegment` state what it means |
| BandTableNrProofs.OnRasterIff | library/src/main/java/cz/mroczis/netmonster/core/db/BandTableNr.kt:76-85 | a candidate passes the raster test iff getFrequency(last) − getFrequency(arfcn) is divisible by 5000 |
| BandTableNrProofs.OnRasterSameSegment | library/src/main/java/cz/mroczis/netmonster/core/db/BandTableNr.kt:76-85 | when the upper bound and the ARFCN are on the same side of 600000, the raster test holds iff their difference is a multiple of 1000 |
| Collections.Filter | library/src/main/java/cz/mroczis/netmonster/core/db/BandTableNr.kt:60-62 | `filter` keeps exactly the elements that satisfy the condition, and no more of them than it was given |
| Collections.FilterFilter | library/src/main/java/cz/mroczis/netmonster/core/db/BandTableNr.kt:60-62 | two chained filters equal one filter by both conditions |
| Collections.FilterFirst | library/src/main/java/cz/mroczis/netmonster/core/db/BandTableNr.kt:100-107 | a filtered list starts with the first element that satisfies the condition |
| Collections.FilterSingle | library/src/main/java/cz/mroczis/netmonster/core/db/BandTableNr.kt:66 | when exactly one position satisfies the condition, the filtered list is that one element |
| Collections.FilterAtLeastTwo | library/src/main/java/cz/mroczis/netmonster/core/db/BandTableNr.kt:69-70 | two different positions that satisfy the condition leave at least two elements, as the comparison of the two highest priorities requires |
| Collections.FilterNone | library/src/main/java/cz/mroczis/netmonster/core/db/BandTableNr.kt:65 | when no element satisfies the condition, the filtered list is empty |
| Collections.DistinctByFrom | library/src/main/java/cz/mroczis/netmonster/core/db/BandTableNr.kt:105 | `distinctBy` with the keys seen so far: keeps only input elements whose key is new; empty iff every key was seen; keeps the first element when its key is new |
| Collections.DistinctBy | library/src/main/java/cz/mroczis/netmonster/core/db/BandTableNr.kt:88 | `distinctBy` keeps only elements of its input, and keeps the first one |
| Collections.DistinctBySizeOne | library/src/main/java/cz/mroczis/netmonster/core/db/BandTableNr.kt:88-89 | `distinctBy` leaves exactly one element iff the list is non-empty and all its keys agree |
| Collections.MinOf | library/src/main/java/cz/mroczis/netmonster/core/db/BandTableNr.kt:91 | `minOf` is a lower bound of the values, and one element attains it |
| Collections.MaxOf | library/src/main/java/cz/mroczis/netmonster/core/db/BandTableNr.kt:92 | `maxOf` is an upper bound of the values, and one element attains it |
| BandTableNr.MatchesHints | library/src/main/java/cz/mroczis/netmonster/core/db/BandTableNr.kt:62 | the hint test: empty hints pass every band, otherwise the band's number must be among them; `CandidatesIn` states the candidate set it selects |
| BandTableNr.IsCandidate | library/src/main/java/cz/mroczis/netmonster/core/db/BandTableNr.kt:61-62 | a row contains the ARFCN and passes the hint test; `CandidatesIn` states that the candidates are exactly these rows |
| BandTableNr.CandidatesIn | library/src/main/java/cz/mroczis/netmonster/core/db/BandTableNr.kt:60-62 | a row is a candidate iff its inclusive range contains the ARFCN and the hints are empty or hold its number |
| BandTableNr.CollapseCandidates | library/src/main/java/cz/mroczis/netmonster/core/db/BandTableNr.kt:87-99 | a zero-survivor answer contains the ARFCN, has no number, and takes its name and priority from a candidate |
| BandTableNr.CollapseSurvivors | library/src/main/java/cz/mroczis/netmonster/core/db/BandTableNr.kt:102-111 | a several-survivor answer contains the ARFCN, has no number, and takes its name and priority from a survivor |
| BandTableNr.RasterTieBreak | library/src/main/java/cz/mroczis/netmonster/core/db/BandTableNr.kt:76-111 | a raster-stage answer contains the ARFCN, takes its name and priority from a candidate, and has a number iff it is a candidate |
| BandTableNr.Disambiguate | library/src/main/java/cz/mroczis/netmonster/core/db/BandTableNr.kt:64-113 | the same for the whole cascade |
| BandTableNr.GetFrom | library/src/main/java/cz/mroczis/netmonster/core/db/BandTableNr.kt:59-114 | an answer contains the ARFCN and takes its name and priority from a candidate row; it has a number iff it is itself a candidate row |
| BandTableNr.Get | library/src/main/java/cz/mroczis/netmonster/core/db/BandTableNr.kt:59-114 | the same over the NR table |
| BandTableNr.BandNr | library/src/main/java/cz/mroczis/netmonster/core/db/BandTableNr.kt:136-141 | the resolver's four-field answer; `Map` states what each field holds |
| BandTableNr.Map | library/src/main/java/cz/mroczis/netmonster/core/db/BandTableNr.kt:134-142 | echoes the ARFCN and its frequency; name is null iff `get` is null, and then number is null too; a reported number is that of a table row that contains the ARFCN and passes the hints, and the name is that row's |
| BandTableNrProofs.GetNoCandidate | library/src/main/java/cz/mroczis/netmonster/core/db/BandTableNr.kt:60-65 | no candidate row gives null |
| BandTableNrProofs.GetNullMeansNoCandidateOrNameClash | library/src/main/java/cz/mroczis/netmonster/core/db/BandTableNr.kt:59-114 | a null answer means either no candidate, or two candidates with different names |
| BandTableNrProofs.GetLoneCandidate | library/src/main/java/cz/mroczis/netmonster/core/db/BandTableNr.kt:60-66 | a lone candidate row is returned unchanged |
| BandTableNrProofs.GetUniqueTopPriority | library/src/main/java/cz/mroczis/netmonster/core/db/BandTableNr.kt:67-72 | a candidate whose priority beats every other candidate's is returned, with no raster test |
| BandTableNrProofs.TiedReachesRaster | library/src/main/java/cz/mroczis/netmonster/core/db/BandTableNr.kt:67-85 | when two candidates share the top priority, the answer is decided by the raster stage |
| BandTableNrProofs.GetRasterUnique | library/src/main/java/cz/mroczis/netmonster/core/db/BandTableNr.kt:76-101 | with the top priority tied, a single candidate on the raster is returned unchanged |
| BandTableNrProofs.GetRasterSurvivorsShareName | library/src/main/java/cz/mroczis/netmonster/core/db/BandTableNr.kt:102-107 | with the top priority tied and several survivors of one name, the answer is the first survivor without its number |
| BandTableNrProofs.GetRasterSurvivorsNamesDiffer | library/src/main/java/cz/mroczis/netmonster/core/db/BandTableNr.kt:102-111 | with the top priority tied and two survivors of different names, the answer is null |
| BandTableNrProofs.TiedNoSurvivorCollapses | library/src/main/java/cz/mroczis/netmonster/core/db/BandTableNr.kt:87-88 | with the top priority tied and no survivor, the answer is the name collapse of all candidates |
| BandTableNrProofs.CollapseSharedName | library/src/main/java/cz/mroczis/netmonster/core/db/BandTableNr.kt:87-96 | the collapse of candidates of one name is the first candidate without a number, over [smallest first, largest last] |
| BandTableNrProofs.GetNoRasterSurvivorSharedName | library/src/main/java/cz/mroczis/netmonster/core/db/BandTableNr.kt:87-96 | with the top priority tied, no survivor and one name, `get` gives that name without a number over [smallest first, largest last] |
| BandTableNrProofs.GetNoRasterSurvivorNamesDiffer | library/src/main/java/cz/mroczis/netmonster/core/db/BandTableNr.kt:87-99 | with the top priority tied, no survivor and two candidate names, the answer is null |
| BandTableNrExamples.Example125000 | library/src/main/java/cz/mroczis/netmonster/core/db/BandTableNr.kt:134-142 | `map(125000)` reports 625000 kHz, band 71, name "600" |
| BandTableNrExamples.Example200000 | library/src/main/java/cz/mroczis/netmonster/core/db/BandTableNr.kt:134-142 | `map(200000)` reports only the ARFCN and 1000000 kHz |
| BandTableNrExamples.Example152000 | library/src/main/java/cz/mroczis/netmonster/core/db/BandTableNr.kt:60-72 | 152000 gives band 28 by priority; the hint 14 gives band 14; the hint 999 gives null |
| BandTableNrExamples.Example640000 | library/src/main/java/cz/mroczis/netmonster/core/db/BandTableNr.kt:67-72 | 640000 gives band 78, the only priority-1 candidate among bands 77, 78 and 48 |
| BandTableNrExamples.Example500999 | library/src/main/java/cz/mroczis/netmonster/core/db/BandTableNr.kt:76-101 | 500999 gives band 41, the only candidate on the raster |
| BandTableNrExamples.Example500000 | library/src/main/java/cz/mroczis/netmonster/core/db/BandTableNr.kt:76-101 | 500000 gives band 90, the only candidate on the raster |
| BandTableNrExamples.Example159600 | library/src/main/java/cz/mroczis/netmonster/core/db/BandTableNr.kt:76-101 | 159600 gives band 28 (tied with band 20 on priority) by the raster |
| BandTableNrExamples.Example159200 | library/src/main/java/cz/mroczis/netmonster/core/db/BandTableNr.kt:76-101 | 159200 gives band 20 (tied with band 28 on priority) by the raster |
| BandTableNrExamples.Example520000 | library/src/main/java/cz/mroczis/netmonster/core/db/BandTableNr.kt:102-107 | at 520000 bands 90 and 38 survive, both "2600": `map` reports name "2600" and no number |
| BandTableNrExamples.Example286400 | library/src/main/java/cz/mroczis/netmonster/core/db/BandTableNr.kt:102-107 | at 286400 the answer is band 51's row, the first raster survivor, without its number |
| BandTableNrExamples.EightSurviveAt286400 | library/src/main/java/cz/mroczis/netmonster/core/db/BandTableNr.kt:76-85 | at 286400 the raster survivors among the candidates are exactly the eight "1500" rows (lines 28-35) |
| BandTableNrExamples.Example285401 | library/src/main/java/cz/mroczis/netmonster/core/db/BandTableNr.kt:87-96 | at 285401 no "1500" row survives: the answer is "1500", no number, range 285400..286400 |
| BandTableNrExamples.Example399000 | library/src/main/java/cz/mroczis/netmonster/core/db/BandTableNr.kt:102-111 | at 399000 band 25 ("1900") and band 70 ("2000") are both on the raster and their names differ: null |
| BandTableNrExamples.Example159000 | library/src/main/java/cz/mroczis/netmonster/core/db/BandTableNr.kt:87-99 | at 159000 neither "700" band 28 nor "800" band 20 survives, and the names differ: null |

## Left out

- `getFrequency` and `map` use mathematical integers. The source's 32-bit `Int` would overflow only for ARFCNs far outside any band (around 143 million), or for very negative ones.
- `GetFrequency` agrees with the standard's raster only up to N_REF 2016666 (frequency range 1). Above that, the standard applies a 60 kHz raster; the source does not, and neither does the model. No table row lies there.
- Sorting by descending priority and comparing the first two is modelled as "the highest priority is held by exactly one candidate, which is returned". The two conditions are equivalent, so the sort's stability plays no part.
- Band hints (`IntArray`) are a `seq<int>`; only emptiness and membership are used.
- Kotlin's default argument `bandHints = intArrayOf()` of `get` and `map` has no Dafny counterpart: a caller passes `[]`.
- The `IBandEntity` interface is a single datatype `BandEntity`. The `BandNr` output class is a four-field record.
- The band tables of other radio generations, and where the ARFCN comes from (the Android/modem side), are not part of this model.
- Collections.KotlinRem: carries no contract of its own; its meaning is given by `Collections.KotlinRemZeroIff`, which is the only property the raster test uses.
- BandTableNrProofs.GetNoCandidate: "no candidate" implies null, but the converse does not hold. The name collapse also returns null when the candidates' names differ (see `Example159000`). `GetNullMeansNoCandidateOrNameClash` states the exact alternative.
