// Who said a fact, and whether a human made it permanent.
module Provenance {

  datatype SourceType =
    | UserUtterance
    | LlmGeneration
    | LlmSelfDescription
    | ExternalDoc
    | VerifiedExternal
    | UnknownLegacy
  {
    predicate IsSelfDescription() {
      LlmSelfDescription?
    }

    // The ceiling on importance, in hundredths.
    function MaxImportanceCap(): int {
      match this
      case UserUtterance => 100
      case VerifiedExternal => 100
      case ExternalDoc => 85
      case LlmGeneration => 70
      case LlmSelfDescription => 40
      case UnknownLegacy => 50
    }

    // The retrieval weight; 0 quarantines the source.
    function RankMultiplier(): real {
      match this
      case UserUtterance => 1.35
      case VerifiedExternal => 1.20
      case ExternalDoc => 1.00
      case LlmGeneration => 0.55
      case LlmSelfDescription => 0.00
      case UnknownLegacy => 0.90
    }
  }

  function SourceFromByte(v: nat): SourceType {
    match v
    case 0 => UserUtterance
    case 1 => LlmGeneration
    case 2 => LlmSelfDescription
    case 3 => ExternalDoc
    case 4 => VerifiedExternal
    case _ => UnknownLegacy
  }

  datatype CanonLevel = NotCanon | L1Project | L2Foundational
  {
    predicate IsCanon() {
      this != NotCanon
    }

    predicate IsImmortal() {
      IsCanon()
    }
  }

  function CanonFromByte(v: nat): CanonLevel {
    match v
    case 1 => L1Project
    case 2 => L2Foundational
    case _ => NotCanon
  }
}
