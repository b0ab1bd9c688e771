/**
 * The circular confidence gauge: its colour bands and the SVG geometry of
 * the progress arc. The circumference `radius * 2 * Math.PI` is kept abstract:
 * every statement below is about an arbitrary positive circumference.
 */
module CircularProgress {
  import ResultsPage

  datatype GaugeColor = Green | Amber | Red

  /** `getColor`: the stroke colour for a percentage. */
  function ColorFor(value: real): (c: GaugeColor)
    ensures c == Green <==> value >= 80.0
    ensures c == Amber <==> 60.0 <= value < 80.0
    ensures c == Red <==> value < 60.0
  {
    if value >= 80.0 then Green
    else if value >= 60.0 then Amber
    else Red
  }

  const DefaultSize: real := 200.0
  const DefaultStrokeWidth: real := 12.0

  /** `radius = (size - strokeWidth) / 2`: the stroke's outer edge touches the SVG's edge. */
  function Radius(size: real, strokeWidth: real): (r: real)
    ensures r + strokeWidth / 2.0 == size / 2.0
  {
    (size - strokeWidth) / 2.0
  }

  lemma DefaultRadius()
    ensures Radius(DefaultSize, DefaultStrokeWidth) == 94.0
  {
  }

  /** `offset = circumference - (value / 100) * circumference`: the part of the arc left undrawn. */
  function Offset(circumference: real, value: real): (offset: real)
    ensures offset == ((100.0 - value) / 100.0) * circumference
  {
    circumference - (value / 100.0) * circumference
  }

  /** The percentage that a given offset draws: the inverse of `Offset`. */
  function ValueOf(circumference: real, offset: real): real
    requires circumference > 0.0
  {
    100.0 * (circumference - offset) / circumference
  }

  lemma OffsetRoundTrip(circumference: real, value: real)
    requires circumference > 0.0
    ensures ValueOf(circumference, Offset(circumference, value)) == value
  {
    var c := circumference;
    assert c - Offset(c, value) == (value / 100.0) * c;
    assert 100.0 * ((value / 100.0) * c) == value * c;
  }

  /** An empty gauge leaves the whole arc undrawn; a full one draws all of it. */
  lemma OffsetEnds(circumference: real)
    ensures Offset(circumference, 0.0) == circumference
    ensures Offset(circumference, 100.0) == 0.0
  {
  }

  /** Within 0..100 the offset stays within 0..circumference and is strictly decreasing. */
  lemma OffsetBoundsAndMonotone(circumference: real, v1: real, v2: real)
    requires circumference > 0.0
    requires 0.0 <= v1 < v2 <= 100.0
    ensures 0.0 <= Offset(circumference, v2) < Offset(circumference, v1) <= circumference
  {
    var c := circumference;
    assert Offset(c, v1) - Offset(c, v2) == ((v2 - v1) / 100.0) * c;
    assert ((v2 - v1) / 100.0) * c > 0.0;
    assert Offset(c, v2) == ((100.0 - v2) / 100.0) * c;
    assert c - Offset(c, v1) == (v1 / 100.0) * c;
  }

  /** The gauge's bands are the badge's bands scaled by 100. */
  lemma GaugeMatchesBadge(confidence: real)
    ensures ColorFor(confidence * 100.0) == Green <==> ResultsPage.ConfidenceBadgeColor(confidence) == ResultsPage.GreenBadge
    ensures ColorFor(confidence * 100.0) == Amber <==> ResultsPage.ConfidenceBadgeColor(confidence) == ResultsPage.YellowBadge
    ensures ColorFor(confidence * 100.0) == Red <==> ResultsPage.ConfidenceBadgeColor(confidence) == ResultsPage.RedBadge
  {
  }
}
