/** The waterfall palette: a gradient through a list of colours (WFPalette.cpp). */
module Palette {
  import opened Wrappers

  const POINTS := 256

  /** Channels from 0 to 1. */
  datatype Colour = Colour(r: real, g: real, b: real)

  const BLACK := Colour(0.0, 0.0, 0.0)
  const WHITE := Colour(1.0, 1.0, 1.0)

  /** No colours stand for black to white, a single one is reached from black. */
  function ValidList(colours: seq<Colour>): (r: seq<Colour>)
    ensures |r| >= 2
  {
    match |colours|
    case 0 => [BLACK, WHITE]
    case 1 => [BLACK, colours[0]]
    case _ => colours
  }

  /** Makes a list of colours fit for interpolation, unless there are too many of them. */
  method MakeValid(colours: seq<Colour>) returns (valid: Option<seq<Colour>>)
    ensures valid == if |colours| > 256 then None else Some(ValidList(colours))
  {
    var list := colours;
    if |list| < 2 {
      list := [BLACK] + list;
    }
    if |list| == 1 {
      list := list + [WHITE];
    }
    assert |colours| == 0 ==> list == [BLACK, WHITE];
    assert |colours| == 1 ==> list == [BLACK, colours[0]];
    if |list| > POINTS {
      return None;
    }
    valid := Some(list);
  }

  // ----- the gradient as a function -----

  /** A product, named so that proofs need not look into it. */
  function Times(a: real, b: real): real {
    a * b
  }

  /** Part of the way from one value to another. */
  function Mix(a: real, b: real, t: real): real {
    a + Times(t, b - a)
  }

  /** The value at a point of the polygon through the given values at 0, 1, 2, ... */
  function At(values: seq<real>, x: real): real
    requires 0.0 <= x < (|values| - 1) as real
  {
    Mix(values[x.Floor], values[x.Floor + 1], x - x.Floor as real)
  }

  /** Where the i-th of the 256 points falls. */
  function Place(n: nat, i: nat): real {
    Times(i as real, (n - 1) as real) / 256.0
  }

  lemma PlaceInRange(n: nat, i: nat)
    requires n >= 2 && i < POINTS
    ensures 0.0 <= Place(n, i) < (n - 1) as real
  {
    hide Times;
    var x, m := i as real, (n - 1) as real;
    Product(x, m);
    Product(256.0 - x, m);
    Complement(x, m);
  }

  lemma Complement(x: real, m: real)
    ensures Times(256.0 - x, m) == 256.0 * m - Times(x, m)
  {
  }

  lemma PlacesInOrder(n: nat, i: nat, j: nat)
    requires n >= 2 && i <= j
    ensures Place(n, i) <= Place(n, j)
  {
    hide Times;
    var x, y, m := i as real, j as real, (n - 1) as real;
    Product(y - x, m);
    Difference(x, y, m);
  }

  lemma Difference(x: real, y: real, m: real)
    ensures Times(y - x, m) == Times(y, m) - Times(x, m)
  {
  }

  lemma Product(a: real, b: real)
    requires a >= 0.0 && b >= 0.0
    ensures Times(a, b) >= 0.0 && (a > 0.0 && b > 0.0 ==> Times(a, b) > 0.0)
  {
  }

  lemma MixConvex(a: real, b: real, t: real)
    ensures Mix(a, b, t) == (1.0 - t) * a + t * b
  {
    assert t * (b - a) == t * b - t * a;
  }

  lemma MixBetween(a: real, b: real, t: real)
    requires 0.0 <= t < 1.0
    ensures a < b ==> a <= Mix(a, b, t) < b
    ensures a > b ==> a >= Mix(a, b, t) > b
    ensures a == b ==> Mix(a, b, t) == a
  {
    hide Times;
    if a < b {
      Part(t, b - a);
    } else {
      Negated(t, b - a);
      assert -(b - a) == a - b;
      if a > b {
        Part(t, a - b);
      }
    }
  }

  lemma Negated(t: real, d: real)
    ensures Times(t, -d) == -Times(t, d)
  {
  }

  lemma Part(t: real, d: real)
    requires 0.0 <= t < 1.0 && d > 0.0
    ensures 0.0 <= Times(t, d) < d
  {
    hide Times;
    Product(t, d);
    Product(1.0 - t, d);
    Rest(t, d);
  }

  lemma Rest(t: real, d: real)
    ensures Times(1.0 - t, d) == d - Times(t, d)
  {
  }

  lemma MixRises(a: real, b: real, t: real, u: real)
    requires a <= b && t <= u
    ensures Mix(a, b, t) <= Mix(a, b, u)
  {
    hide Times;
    Product(u - t, b - a);
    Difference(t, u, b - a);
  }

  /** Every point is a mixture of two neighbouring values, and lies between them. */
  lemma Mixture(values: seq<real>, x: real)
    requires 0.0 <= x < (|values| - 1) as real
    ensures var k, t := x.Floor, x - x.Floor as real;
            0.0 <= t < 1.0 && At(values, x) == (1.0 - t) * values[k] + t * values[k + 1]
    ensures values[x.Floor] <= values[x.Floor + 1] ==> values[x.Floor] <= At(values, x) <= values[x.Floor + 1]
    ensures values[x.Floor] >= values[x.Floor + 1] ==> values[x.Floor] >= At(values, x) >= values[x.Floor + 1]
  {
    hide Mix, Times;
    MixConvex(values[x.Floor], values[x.Floor + 1], x - x.Floor as real);
    MixBetween(values[x.Floor], values[x.Floor + 1], x - x.Floor as real);
  }

  ghost predicate Rising(values: seq<real>) {
    forall i, j :: 0 <= i <= j < |values| ==> values[i] <= values[j]
  }

  /** A channel that rises from colour to colour rises all along the gradient, within the
      segments and across the places where they join. */
  lemma RisingThroughout(values: seq<real>, x: real, y: real)
    requires Rising(values) && 0.0 <= x <= y < (|values| - 1) as real
    ensures At(values, x) <= At(values, y)
  {
    hide Mix, Times;
    Mixture(values, x);
    Mixture(values, y);
    var k, l := x.Floor, y.Floor;
    if k == l {
      MixRises(values[k], values[k + 1], x - k as real, y - k as real);
    } else {
      assert At(values, x) <= values[k + 1] <= values[l] <= At(values, y);
    }
  }

  // ----- the gradient as it is computed -----

  datatype Channel = Red | Green | Blue

  function Get(channel: Channel, colour: Colour): real {
    match channel
    case Red => colour.r
    case Green => colour.g
    case Blue => colour.b
  }

  function Values(channel: Channel, colours: seq<Colour>): (r: seq<real>)
    ensures |r| == |colours|
    ensures forall i :: 0 <= i < |r| ==> r[i] == Get(channel, colours[i])
  {
    seq(|colours|, i requires 0 <= i < |colours| => Get(channel, colours[i]))
  }

  function Gradient(colours: seq<Colour>, i: nat): Colour
    requires |colours| >= 2 && i < POINTS
  {
    PlaceInRange(|colours|, i);
    var x := Place(|colours|, i);
    Colour(At(Values(Red, colours), x), At(Values(Green, colours), x), At(Values(Blue, colours), x))
  }

  /** One channel of the loop body. */
  function Step(interval: real, i: real, prior: real, from: real, to: real): real
    requires interval > 0.0
  {
    var increment := i - interval * prior;
    from + (increment * (to - from)) / interval
  }

  lemma Stepped(interval: real, i: real, p: real, a: real, b: real)
    requires interval > 0.0
    ensures Step(interval, i, p, a, b) == Mix(a, b, i / interval - p)
  {
    var x, d := i / interval, b - a;
    assert i == x * interval;
    assert (i - interval * p) * d == ((x - p) * d) * interval;
    assert Mix(a, b, x - p) == a + (x - p) * d;
  }

  lemma Interval(n: nat, i: nat)
    requires n >= 2 && i < POINTS
    ensures 256.0 / (n - 1) as real > 0.0 && i as real / (256.0 / (n - 1) as real) == Place(n, i)
  {
    var m, x := (n - 1) as real, i as real;
    var interval := 256.0 / m;
    assert interval * m == 256.0;
    assert x * m / 256.0 * interval == x;
  }

  /** The steps of the loop body come to the points of the polygon. */
  lemma SteppedAlong(colours: seq<Colour>, channel: Channel, interval: real, i: nat)
    requires |colours| >= 2 && i < POINTS && interval > 0.0 && i as real / interval == Place(|colours|, i)
    ensures var p := (i as real / interval).Floor;
            && 0 <= p < |colours| - 1
            && Step(interval, i as real, p as real, Get(channel, colours[p]), Get(channel, colours[p + 1]))
               == Get(channel, Gradient(colours, i))
  {
    PlaceInRange(|colours|, i);
    var p := (i as real / interval).Floor;
    hide Step, Mix, Times;
    Stepped(interval, i as real, p as real, Get(channel, colours[p]), Get(channel, colours[p + 1]));
  }

  method Interpolate(colours: seq<Colour>) returns (result: Option<seq<Colour>>)
    ensures |colours| > 256 <==> result.None?
    ensures result.Some? ==>
              && |result.value| == 256
              && forall i :: 0 <= i < POINTS ==> result.value[i] == Gradient(ValidList(colours), i)
  {
    hide Step, Gradient, Place, Times;
    var made := MakeValid(colours);
    if made.None? {
      return None;
    }
    var list, points := made.value, [];
    var n := |list|;
    var interval := 256.0 / (n - 1) as real;
    for i := 0 to POINTS
      invariant |points| == i
      invariant forall j :: 0 <= j < i ==> points[j] == Gradient(list, j)
    {
      Interval(n, i);
      PlaceInRange(n, i);
      var prior := (i as real / interval).Floor;
      if prior >= n - 1 {
        prior := prior - 1;
      }
      var next := prior + 1;
      if next >= n {
        next := next - 1;
      }
      var r := Step(interval, i as real, prior as real, list[prior].r, list[next].r);
      var g := Step(interval, i as real, prior as real, list[prior].g, list[next].g);
      var b := Step(interval, i as real, prior as real, list[prior].b, list[next].b);
      SteppedAlong(list, Red, interval, i);
      SteppedAlong(list, Green, interval, i);
      SteppedAlong(list, Blue, interval, i);
      points := points + [Colour(r, g, b)];
    }
    result := Some(points);
  }

  // ----- what it looks like -----

  /** Channels never leave the range of the colours given. */
  lemma GradientInRange(colours: seq<Colour>, channel: Channel, i: nat, low: real, high: real)
    requires |colours| >= 2 && i < POINTS
    requires forall k :: 0 <= k < |colours| ==> low <= Get(channel, colours[k]) <= high
    ensures low <= Get(channel, Gradient(colours, i)) <= high
  {
    PlaceInRange(|colours|, i);
    Mixture(Values(channel, colours), Place(|colours|, i));
  }

  lemma GradientRises(colours: seq<Colour>, channel: Channel, i: nat, j: nat)
    requires |colours| >= 2 && i <= j < POINTS && Rising(Values(channel, colours))
    ensures Get(channel, Gradient(colours, i)) <= Get(channel, Gradient(colours, j))
  {
    PlaceInRange(|colours|, i);
    PlaceInRange(|colours|, j);
    PlacesInOrder(|colours|, i, j);
    RisingThroughout(Values(channel, colours), Place(|colours|, i), Place(|colours|, j));
  }

  /** The gradient passes through a colour wherever that falls on one of the points, and
      starts with the first one. */
  lemma GradientMeets(colours: seq<Colour>, k: nat, i: nat)
    requires |colours| >= 2 && k < |colours| - 1 && i < POINTS && i * (|colours| - 1) == k * POINTS
    ensures Gradient(colours, i) == colours[k]
  {
    PlaceInRange(|colours|, i);
    assert (i * (|colours| - 1)) as real == i as real * (|colours| - 1) as real;
    assert Place(|colours|, i) == k as real;
  }

  /** It stops short of the last colour, except in channels that end level. */
  lemma LastColourMissed(colours: seq<Colour>, channel: Channel)
    requires 2 <= |colours| <= POINTS
    ensures Get(channel, Gradient(colours, POINTS - 1)) == Get(channel, colours[|colours| - 1])
       <==> Get(channel, colours[|colours| - 1]) == Get(channel, colours[|colours| - 2])
  {
    var n := |colours|;
    PlaceInRange(n, POINTS - 1);
    var x := Place(n, POINTS - 1);
    assert x.Floor == n - 2;
    MixBetween(Get(channel, colours[n - 2]), Get(channel, colours[n - 1]), x - x.Floor as real);
  }
}
