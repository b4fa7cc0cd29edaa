/** The colour choices of a result card: the score ring and the tag chips. */
module ResultCard {
  import Inventory

  const Green: string := "#4ade80"
  const Yellow: string := "#facc15"
  const Red: string := "#f87171"

  /** The colour of the match-score ring. */
  function ScoreColor(score: real): (c: string)
    ensures c in {Green, Yellow, Red}
  {
    if score >= 80.0 then Green
    else if score >= 50.0 then Yellow
    else Red
  }

  /** The colours ranked from worst to best. */
  function Rank(c: string): int {
    if c == Green then 2 else if c == Yellow then 1 else 0
  }

  /** The three score bands: 80 and up green, 50 up to 80 yellow, below 50 red. */
  lemma ScoreColorBands(score: real)
    ensures ScoreColor(score) == Green <==> score >= 80.0
    ensures ScoreColor(score) == Yellow <==> 50.0 <= score < 80.0
    ensures ScoreColor(score) == Red <==> score < 50.0
  {
  }

  /** A higher score never gets a worse colour. */
  lemma ScoreColorMonotone(a: real, b: real)
    requires a <= b
    ensures Rank(ScoreColor(a)) <= Rank(ScoreColor(b))
  {
  }

  const TagColors: map<string, string> := map[
    "cold" := "tag-blue",
    "nature" := "tag-green",
    "hiking" := "tag-green",
    "history" := "tag-amber",
    "culture" := "tag-amber",
    "walking" := "tag-amber",
    "animals" := "tag-orange",
    "adventure" := "tag-orange",
    "photography" := "tag-purple",
    "beach" := "tag-cyan",
    "surfing" := "tag-cyan",
    "young-vibe" := "tag-pink",
    "climbing" := "tag-red",
    "view" := "tag-indigo"
  ]

  const DefaultTagClass: string := "tag-default"

  /** The CSS class of a tag chip: its listed colour, or the default class. */
  function TagClass(tag: string): (c: string)
    ensures c == DefaultTagClass <==> tag !in TagColors
    ensures tag in TagColors ==> c == TagColors[tag]
  {
    if tag in TagColors then TagColors[tag] else DefaultTagClass
  }

  /** Every tag that occurs in the catalog has its own colour. */
  lemma CatalogTagsColored()
    ensures forall k, t :: 0 <= k < |Inventory.Items| && t in Inventory.Items[k].tags ==> TagClass(t) != DefaultTagClass
  {
  }
}
