/** Cross detection: `detect_cross` of `backend/indicators.py`. */
module Crossings {
  import opened Options

  /** One labelled entry of an indicator series; `None` is NaN. */
  datatype Point = Point(at: int, value: Option<real>)

  type Series = seq<Point>

  datatype Cross = CrossAbove | CrossBelow

  /** The entries that are not NaN, by label. */
  function Values(s: Series): (m: map<int, real>)
    ensures forall l :: l in m ==> exists i :: 0 <= i < |s| && s[i].at == l
    decreases |s|
  {
    if s == [] then map[]
    else
      var rest, p := Values(s[..|s| - 1]), s[|s| - 1];
      if p.value.Some? then rest[p.at := p.value.value] else rest
  }

  /** Both values at every label where both series have one. */
  function Common(a: Series, b: Series): seq<(real, real)>
    decreases |a|
  {
    if a == [] then []
    else
      var p := a[|a| - 1];
      Common(a[..|a| - 1], b)
      + if p.value.Some? && p.at in Values(b) then [(p.value.value, Values(b)[p.at])] else []
  }

  function Verdict(pairs: seq<(real, real)>): Option<Cross> {
    if |pairs| < 2 then None
    else
      var prev, curr := pairs[|pairs| - 2], pairs[|pairs| - 1];
      if prev.0 <= prev.1 && curr.0 > curr.1 then Some(CrossAbove)
      else if prev.0 >= prev.1 && curr.0 < curr.1 then Some(CrossBelow)
      else None
  }

  function DetectCross(a: Series, b: Series): Option<Cross> { Verdict(Common(a, b)) }

  function Opposite(c: Option<Cross>): Option<Cross> {
    match c
    case None => None
    case Some(CrossAbove) => Some(CrossBelow)
    case Some(CrossBelow) => Some(CrossAbove)
  }

  /** A frame's index is strictly increasing. */
  ghost predicate Increasing(s: Series) { forall i, j :: 0 <= i < j < |s| ==> s[i].at < s[j].at }

  function Swapped(pairs: seq<(real, real)>): (r: seq<(real, real)>)
    ensures |r| == |pairs| && forall i :: 0 <= i < |r| ==> r[i] == (pairs[i].1, pairs[i].0)
  {
    seq(|pairs|, i requires 0 <= i < |pairs| => (pairs[i].1, pairs[i].0))
  }

  /** A label beyond all those of `a` changes nothing when added to `b`. */
  lemma {:induction false} BeyondIsIgnored(a: Series, b: Series)
    requires b != [] && forall i :: 0 <= i < |a| ==> a[i].at != b[|b| - 1].at
    ensures Common(a, b) == Common(a, b[..|b| - 1])
    decreases |a|
  {
    if a == [] {
    } else {
      BeyondIsIgnored(a[..|a| - 1], b);
    }
  }

  /** The last label of `b` is not one of `a`: on neither side does it take part. */
  lemma {:induction false} LastTakesNoPart(a: Series, b: Series)
    requires b != [] && forall i :: 0 <= i < |a| ==> a[i].at != b[|b| - 1].at
    ensures Common(a, b) == Common(a, b[..|b| - 1]) && Common(b, a) == Common(b[..|b| - 1], a)
  {
    BeyondIsIgnored(a, b);
    assert b[|b| - 1].at !in Values(a);
  }

  lemma {:induction false} LastTakesPart(a: Series, b: Series)
    requires a != [] && b != [] && Increasing(a) && Increasing(b) && a[|a| - 1].at == b[|b| - 1].at
    ensures var p, q := a[|a| - 1], b[|b| - 1];
            Common(a, b) == Common(a[..|a| - 1], b[..|b| - 1])
              + if p.value.Some? && q.value.Some? then [(p.value.value, q.value.value)] else []
  {
    BeyondIsIgnored(a[..|a| - 1], b);
    assert b[|b| - 1].at !in Values(b[..|b| - 1]);
  }

  lemma {:induction false} CommonSwaps(a: Series, b: Series)
    requires Increasing(a) && Increasing(b)
    ensures Common(b, a) == Swapped(Common(a, b))
    decreases |a| + |b|
  {
    if a == [] {
      NothingInCommon(b);
    } else if b == [] {
      NothingInCommon(a);
    } else if a[|a| - 1].at > b[|b| - 1].at {
      CommonSwaps(a[..|a| - 1], b);
      LastTakesNoPart(b, a);
    } else if a[|a| - 1].at < b[|b| - 1].at {
      CommonSwaps(a, b[..|b| - 1]);
      LastTakesNoPart(a, b);
    } else {
      CommonSwaps(a[..|a| - 1], b[..|b| - 1]);
      LastTakesPart(a, b);
      LastTakesPart(b, a);
    }
  }

  lemma {:induction false} NothingInCommon(a: Series)
    ensures Common(a, []) == []
    decreases |a|
  {
    if a == [] {
    } else {
      NothingInCommon(a[..|a| - 1]);
    }
  }

  /** Swapping the two series turns the cross round: what one side sees as a cross above,
      the other sees as a cross below. */
  lemma {:induction false} CrossTurnsRound(a: Series, b: Series)
    requires Increasing(a) && Increasing(b)
    ensures DetectCross(b, a) == Opposite(DetectCross(a, b))
  {
    CommonSwaps(a, b);
  }

  /** One more bar with the same fresh label in both series. */
  lemma {:induction false} CommonGrows(a: Series, b: Series, p: Point, q: Point)
    requires p.at == q.at
    requires forall i :: 0 <= i < |a| ==> a[i].at != p.at
    requires forall i :: 0 <= i < |b| ==> b[i].at != p.at
    ensures Common(a + [p], b + [q])
         == Common(a, b) + if p.value.Some? && q.value.Some? then [(p.value.value, q.value.value)] else []
  {
    assert (a + [p])[..|a|] == a && (b + [q])[..|b|] == b;
    BeyondIsIgnored(a, b + [q]);
    assert p.at !in Values(b);
  }

  /** A cross is reported for one bar only, unless the next bar is incomplete: then the
      last complete bar is read again and the same cross is reported again. */
  lemma {:induction false} CrossRepeatsIffBarIncomplete(a: Series, b: Series, p: Point, q: Point)
    requires p.at == q.at
    requires forall i :: 0 <= i < |a| ==> a[i].at != p.at
    requires forall i :: 0 <= i < |b| ==> b[i].at != p.at
    requires DetectCross(a, b).Some?
    ensures DetectCross(a + [p], b + [q]) == DetectCross(a, b) <==> p.value.None? || q.value.None?
  {
    CommonGrows(a, b, p, q);
    var was, now := Common(a, b), Common(a + [p], b + [q]);
    if p.value.Some? && q.value.Some? {
      assert now[|now| - 2] == was[|was| - 1];
    }
  }

  /** On series with the same labels whose last two bars are complete, a cross above is
      reported exactly when the first was not above the second on the last bar but one and
      is above it on the last. */
  lemma {:induction false} CrossAtLastTwoBars(a: Series, b: Series, p: Point, q: Point, r: Point, s: Point)
    requires Increasing(a + [p, r]) && Increasing(b + [q, s]) && p.at == q.at && r.at == s.at
    requires p.value.Some? && q.value.Some? && r.value.Some? && s.value.Some?
    ensures DetectCross(a + [p, r], b + [q, s]) == Some(CrossAbove)
       <==> p.value.value <= q.value.value && r.value.value > s.value.value
    ensures DetectCross(a + [p, r], b + [q, s]) == Some(CrossBelow)
       <==> p.value.value >= q.value.value && r.value.value < s.value.value
  {
    CommonEndsWith(a, b, p, q, r, s);
  }

  lemma {:induction false} CommonTakesLast(a: Series, b: Series, p: Point, q: Point)
    requires Increasing(a + [p]) && Increasing(b + [q]) && p.at == q.at && p.value.Some? && q.value.Some?
    ensures Common(a + [p], b + [q]) == Common(a, b) + [(p.value.value, q.value.value)]
  {
    LastTakesPart(a + [p], b + [q]);
    assert (a + [p])[..|a|] == a && (b + [q])[..|b|] == b;
  }

  lemma {:induction false} InitIncreases(a: Series, p: Point, r: Point)
    requires Increasing(a + [p, r])
    ensures Increasing(a + [p]) && a + [p, r] == (a + [p]) + [r]
  {
    assert (a + [p, r])[..|a| + 1] == a + [p];
  }

  lemma {:induction false} CommonEndsWith(a: Series, b: Series, p: Point, q: Point, r: Point, s: Point)
    requires Increasing(a + [p, r]) && Increasing(b + [q, s]) && p.at == q.at && r.at == s.at
    requires p.value.Some? && q.value.Some? && r.value.Some? && s.value.Some?
    ensures Common(a + [p, r], b + [q, s])
         == Common(a, b) + [(p.value.value, q.value.value)] + [(r.value.value, s.value.value)]
  {
    InitIncreases(a, p, r);
    InitIncreases(b, q, s);
    CommonTakesLast(a + [p], b + [q], r, s);
    CommonTakesLast(a, b, p, q);
  }
}
