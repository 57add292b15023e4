/**
  The rank shown on the game-over screen: the highest scoring tier whose
  threshold the final score reaches, searched by walking SCORING_TIERS from
  its last entry backwards, with "Pixel Pilot" when no tier matches.
 */
module Ranking {
  import opened Wrappers
  import opened Constants

  /**
    The index of the last tier whose threshold is at most `score`, found by
    scanning from the end of the list (the reverse-then-find of the game-over
    screen), or None when every threshold is above the score.
   */
  function LastTierReached(tiers: seq<Tier>, score: int): (r: Option<nat>)
    ensures r.Some? ==> r.value < |tiers| && tiers[r.value].min <= score
    ensures r.Some? ==> forall j :: r.value < j < |tiers| ==> tiers[j].min > score
    ensures r.None? ==> forall j :: 0 <= j < |tiers| ==> tiers[j].min > score
    decreases |tiers|
  {
    if |tiers| == 0 then None
    else if score >= tiers[|tiers| - 1].min then Some(|tiers| - 1)
    else LastTierReached(tiers[..|tiers| - 1], score)
  }

  /** The rank for a final score; an empty rank falls back to "Pixel Pilot" as well. */
  function Rank(score: int): (rank: string)
    ensures rank != ""
  {
    match LastTierReached(ScoringTiers, score)
    case Some(i) => if ScoringTiers[i].rank != "" then ScoringTiers[i].rank else "Pixel Pilot"
    case None => "Pixel Pilot"
  }

  /**
    On tiers with strictly ascending thresholds, the backwards search finds
    exactly the tier whose band holds the score: its threshold is reached and
    the next tier's is not.
   */
  lemma LastTierIsBand(tiers: seq<Tier>, score: int, i: nat)
    requires StrictlyAscending(tiers) && i < |tiers|
    ensures LastTierReached(tiers, score) == Some(i) <==>
              tiers[i].min <= score && (i + 1 == |tiers| || score < tiers[i + 1].min)
  {
  }

  /** The rank for every score, band by band. */
  lemma RankBands(score: int)
    ensures score >= 0 ==> LastTierReached(ScoringTiers, score).Some?
    ensures score < 500 ==> Rank(score) == "Pixel Pilot"
    ensures 500 <= score < 1000 ==> Rank(score) == "Grid Runner"
    ensures 1000 <= score < 1500 ==> Rank(score) == "Vector Viper"
    ensures 1500 <= score < 2000 ==> Rank(score) == "CRT Conqueror"
    ensures 2000 <= score ==> Rank(score) == "Glitch God"
  {
    ScoringTiersWellFormed();
    if score < 0 {
      assert LastTierReached(ScoringTiers, score).None?;
    } else if score < 500 {
      LastTierIsBand(ScoringTiers, score, 0);
    } else if score < 1000 {
      LastTierIsBand(ScoringTiers, score, 1);
    } else if score < 1500 {
      LastTierIsBand(ScoringTiers, score, 2);
    } else if score < 2000 {
      LastTierIsBand(ScoringTiers, score, 3);
    } else {
      LastTierIsBand(ScoringTiers, score, 4);
    }
  }

  /** The tier reached never goes down as the score goes up. */
  lemma TierReachedMonotone(tiers: seq<Tier>, a: int, b: int)
    requires a <= b
    ensures LastTierReached(tiers, a).Some? ==> LastTierReached(tiers, b).Some?
    ensures LastTierReached(tiers, a).Some? ==>
              LastTierReached(tiers, a).value <= LastTierReached(tiers, b).value
  {
  }
}
