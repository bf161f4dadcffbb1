/** Protocol compatibility levels and the features that hang on them. */
module Compat {
  import opened Numbers

  datatype Compatibility = Unknown | Newer | Level(level: u16)

  datatype Feature = BasicProtocol | NewReno | Preserve | Get2Put2 | CmsgSmsg2 | MkdirSetmetaLs

  /** The level that the described release implements. */
  const OUR_COMPATIBILITY_NUMERIC: u16 := 4

  function FeatureLevel(f: Feature): u16 {
    match f
    case BasicProtocol => 1
    case NewReno => 2
    case Preserve => 2
    case Get2Put2 => 2
    case CmsgSmsg2 => 3
    case MkdirSetmetaLs => 4
  }

  predicate Supports(c: Compatibility, f: Feature) {
    match c
    case Unknown => false
    case Newer => true
    case Level(l) => l >= FeatureLevel(f)
  }

  function ToWire(c: Compatibility): u16 {
    match c
    case Level(v) => v
    case _ => 0
  }

  /** An endpoint of level `ours` reads anything above its own level as "newer". */
  function FromWire(ours: u16, value: u16): Compatibility {
    if value > ours then Newer else Level(value)
  }

  function Choose(ours: u16, theirs: u16): Compatibility {
    FromWire(ours, if theirs < ours then theirs else ours)
  }

  /** Which level each feature came with; an unknown peer supports nothing, and a newer one everything. */
  lemma FeaturesByLevel(l: u16, f: Feature)
    ensures Supports(Level(l), f) <==>
            match f
            case BasicProtocol => l >= 1
            case NewReno => l >= 2
            case Preserve => l >= 2
            case Get2Put2 => l >= 2
            case CmsgSmsg2 => l >= 3
            case MkdirSetmetaLs => l >= 4
    ensures Supports(Newer, f) && !Supports(Unknown, f)
  {
  }

  /** A level goes over the wire as it is, up to that of the reader; what is not a level goes as zero. */
  lemma LevelOnTheWire(ours: u16, value: u16)
    ensures FromWire(ours, value) == if value <= ours then Level(value) else Newer
    ensures ToWire(Level(value)) == value && ToWire(Newer) == ToWire(Unknown) == 0
  {
  }

  /** Two endpoints that announce their own levels choose the same one, and it supports what both support. */
  lemma ChoiceIsMutual(a: u16, b: u16, f: Feature)
    ensures Choose(a, b) == Choose(b, a) == Level(Min(a, b))
    ensures Supports(Choose(a, b), f) <==> Supports(Level(a), f) && Supports(Level(b), f)
  {
  }
}
