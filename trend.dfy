/** The trend glyph shown beside each record: it compares the magnitudes of
    the latest and previous values, ignoring their signs. */
module Trend {

  datatype Direction = Equal | Up | Down

  function Abs(x: real): (a: real)
    ensures a >= 0.0 && (a == x || a == -x)
  {
    if x < 0.0 then -x else x
  }

  /** `|latest| - |previous|` is zero: Equal; positive: Up; otherwise Down. */
  function Classify(latest: real, previous: real): (t: Direction)
    ensures t == Equal <==> Abs(latest) == Abs(previous)
    ensures t == Up <==> Abs(latest) > Abs(previous)
    ensures t == Down <==> Abs(latest) < Abs(previous)
  {
    var delta := Abs(latest) - Abs(previous);
    if delta == 0.0 then Equal
    else if delta > 0.0 then Up
    else Down
  }

  function Reverse(t: Direction): Direction {
    match t
    case Equal => Equal
    case Up => Down
    case Down => Up
  }

  /** Flipping the sign of either value never changes the glyph. */
  lemma ClassifyIgnoresSign(latest: real, previous: real)
    ensures Classify(-latest, previous) == Classify(latest, previous)
    ensures Classify(latest, -previous) == Classify(latest, previous)
  {
  }

  /** Swapping the two values reverses the glyph. */
  lemma ClassifySwapped(latest: real, previous: real)
    ensures Classify(previous, latest) == Reverse(Classify(latest, previous))
  {
  }

  /** Sample cases: 100 after 90 is Up; 50 after 50, -5 after -5 and -5 after 5
      are Equal; 3 after -7 is Down. */
  lemma ClassifyExamples()
    ensures Classify(100.0, 90.0) == Up
    ensures Classify(50.0, 50.0) == Equal
    ensures Classify(-5.0, -5.0) == Equal
    ensures Classify(-5.0, 5.0) == Equal
    ensures Classify(3.0, -7.0) == Down
  {
  }
}
