/** The two retail platforms a product is compared on. */
module Platforms {
  import opened Wrappers

  datatype Platform = Amazon | EBay {

    /** The other platform of the pair. */
    function Other(): (r: Platform)
      ensures r != this
    {
      match this
      case Amazon => EBay
      case EBay => Amazon
    }
  }

  /** The value stored in a vote's `platform` column (the first member of
      each pair in the vote's platform choices). */
  function Code(p: Platform): string
  {
    match p
    case Amazon => "amazon"
    case EBay => "ebay"
  }

  /** Validation of a submitted platform field: only the two codes are
      accepted; a missing field or any other text is rejected. */
  function Parse(s: Option<string>): (r: Option<Platform>)
    ensures forall p :: r == Some(p) <==> s == Some(Code(p))
    ensures r.None? <==> (s != Some("amazon") && s != Some("ebay"))
  {
    if s == Some("amazon") then Some(Amazon)
    else if s == Some("ebay") then Some(EBay)
    else None
  }
}
