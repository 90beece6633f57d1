/**
 The internal band representation: a channel-number range, an approximate
 frequency-class name, an optional 3GPP band number and a priority used when
 bands overlap.
 */
module BandEntities {
  import opened Wrappers

  /** Kotlin's `Integer.MAX_VALUE`, the largest 32-bit signed integer. */
  const IntMaxValue: int := 0x7fff_ffff

  /** Kotlin's `IntRange` written `first..last`: both ends belong to the range. */
  datatype IntRange = IntRange(first: int, last: int) {

    predicate Contains(value: int) {
      first <= value && value <= last
    }

    /** The bounds documented for a band's channel range: lower at least 0, upper at most `Integer.MAX_VALUE`. */
    predicate WithinDocumentedBounds() {
      0 <= first && last <= IntMaxValue
    }
  }

  /**
   A band. `number` is absent only for a result synthesised by the resolver;
   `priority` defaults to 0, and a larger value wins over overlapping bands.
   */
  datatype BandEntity = BandEntity(channelRange: IntRange, name: string, number: Option<int>, priority: int := 0)

  /** Data-class `copy(number = null)`. */
  function CopyWithoutNumber(band: BandEntity): (r: BandEntity)
    ensures r.number == None
    ensures r.channelRange == band.channelRange && r.name == band.name && r.priority == band.priority
  {
    band.(number := None)
  }

  /** Data-class `copy(channelRange = range, number = null)`. */
  function CopyWithRangeWithoutNumber(band: BandEntity, range: IntRange): (r: BandEntity)
    ensures r.number == None && r.channelRange == range
    ensures r.name == band.name && r.priority == band.priority
  {
    band.(channelRange := range, number := None)
  }

  /** A range holds its two ends and nothing just outside them. */
  lemma RangeInclusive(range: IntRange)
    requires range.first <= range.last
    ensures range.Contains(range.first) && range.Contains(range.last)
    ensures !range.Contains(range.first - 1) && !range.Contains(range.last + 1)
  {
  }

  /** A band built without a priority has priority 0. */
  lemma DefaultPriority(range: IntRange, name: string, number: Option<int>)
    ensures BandEntity(range, name, number).priority == 0
  {
  }
}
