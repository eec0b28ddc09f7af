/** The demand-only risk badge and its copy text (src/lib/risk.ts). */
module Risk {
  import opened Domain

  /** Low < Medium < High, for stating monotonicity. */
  function Rank(r: RiskLevel): nat {
    match r
    case Low => 0
    case Medium => 1
    case High => 2
  }

  /** Classifies raw demand with thresholds at 75 and 175; a demand of zero
      or below is Low by its own branch. */
  function DemandRiskLevel(demand: int): (r: RiskLevel)
    ensures r == Low <==> demand < 75
    ensures r == Medium <==> 75 <= demand < 175
    ensures r == High <==> 175 <= demand
  {
    if demand <= 0 then Low
    else if demand < 75 then Low
    else if demand < 175 then Medium
    else High
  }

  /** A larger demand never yields a lower level. */
  lemma DemandRiskMonotone(a: int, b: int)
    requires a <= b
    ensures Rank(DemandRiskLevel(a)) <= Rank(DemandRiskLevel(b))
  {
  }

  /** The advisory line shown under each level. */
  function RiskCopy(r: RiskLevel): (s: string)
    ensures |s| > 0
  {
    match r
    case Low => "Resources appear sufficient for the current demand."
    case Medium => "Monitor closely—additional resources may be required soon."
    case High => "Demand significantly exceeds capacity. Immediate action needed."
  }
}
