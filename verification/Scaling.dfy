/** Coordinate scaling between the screen and the size advertised to the model, in exact arithmetic. */
module Scaling {
  import opened Wrappers

  datatype Resolution = Resolution(width: int, height: int)

  const TARGETS: seq<Resolution> := [Resolution(1024, 768), Resolution(1280, 800), Resolution(1366, 768)]

  datatype Source = Computer | Api

  datatype Scaled = At(x: int, y: int) | OutOfBounds

  /** The integer nearest to n / d; of two equally near ones the even one. */
  function RoundDiv(n: int, d: int): (r: int)
    requires d > 0
    ensures 2 * n - d <= 2 * (d * r) <= 2 * n + d
    ensures 2 * n - d == 2 * (d * r) || 2 * (d * r) == 2 * n + d ==> r % 2 == 0
  {
    var q, m := n / d, n % d;
    assert n == d * q + m;
    assert d * (q + 1) == d * q + d;
    if 2 * m < d || (2 * m == d && q % 2 == 0) then q else q + 1
  }

  function Abs(n: int): int { if n < 0 then -n else n }

  /** Is the aspect ratio of the screen within 0.02 of the target's? */
  predicate SameAspect(t: Resolution, screen: Resolution) {
    50 * Abs(t.width * screen.height - screen.width * t.height) < t.height * screen.height
  }

  /** The target a screen is scaled to: only the first one of the same aspect is considered. */
  function TargetFrom(screen: Resolution, i: nat): (t: Option<Resolution>)
    requires i <= |TARGETS|
    ensures t.Some? ==> t.value in TARGETS && Screen(t.value) && SameAspect(t.value, screen) && t.value.width < screen.width
    decreases |TARGETS| - i
  {
    if i == |TARGETS| then None
    else if SameAspect(TARGETS[i], screen) then if TARGETS[i].width < screen.width then Some(TARGETS[i]) else None
    else TargetFrom(screen, i + 1)
  }

  function Target(screen: Resolution): (t: Option<Resolution>)
    ensures t.Some? ==> t.value in TARGETS && Screen(t.value) && SameAspect(t.value, screen) && t.value.width < screen.width
  {
    TargetFrom(screen, 0)
  }

  predicate Screen(r: Resolution) {
    r.width > 0 && r.height > 0
  }

  /** What scaling does to a point, given the target. */
  function Scale(screen: Resolution, target: Option<Resolution>, source: Source, x: int, y: int): Scaled
    requires Screen(screen) && (target.Some? ==> Screen(target.value))
  {
    if target.None? then At(x, y)
    else if source.Computer? then
      At(RoundDiv(x * target.value.width, screen.width), RoundDiv(y * target.value.height, screen.height))
    else if x > screen.width || y > screen.height then OutOfBounds
    else At(RoundDiv(x * screen.width, target.value.width), RoundDiv(y * screen.height, target.value.height))
  }

  /** The aspect test in the terms of the source: the ratios differ by less than 0.02. */
  lemma AspectIff(t: Resolution, screen: Resolution)
    requires Screen(t) && Screen(screen)
    ensures SameAspect(t, screen) <==>
      var d := t.width as real / t.height as real - screen.width as real / screen.height as real; -0.02 < d < 0.02
  {
    var tw, th, sw, sh := t.width as real, t.height as real, screen.width as real, screen.height as real;
    var d, p := tw / th - sw / sh, th * sh;
    var n := t.width * screen.height - screen.width * t.height;
    assert d * p == n as real by {
      assert tw / th * th == tw && sw / sh * sh == sw;
      assert d * p == (tw / th * th) * sh - (sw / sh * sh) * th;
    }
    Within(d, p, n as real, 0.02);
    assert p == (t.height * screen.height) as real;
    assert n as real < 0.02 * p <==> 50 * n < t.height * screen.height;
    assert -(n as real) < 0.02 * p <==> -50 * n < t.height * screen.height;
  }

  lemma Within(d: real, p: real, n: real, e: real)
    requires p > 0.0 && d * p == n
    ensures d < e <==> n < e * p
    ensures -d < e <==> -n < e * p
  {
    Ordered(d, e, p);
    Ordered(-d, e, p);
    assert (-d) * p == -(d * p);
  }

  lemma Ordered(a: real, b: real, p: real)
    requires p > 0.0
    ensures a < b <==> a * p < b * p
  {
    assert (b - a) * p == b * p - a * p;
    if a < b { assert (b - a) * p > 0.0; }
    if a > b { assert (a - b) * p > 0.0; }
  }

  /** Which target is chosen: the first one of the same aspect, if it is narrower than the screen; no later
      one is looked at. */
  lemma TargetIff(screen: Resolution, t: Resolution)
    ensures Target(screen) == Some(t) <==> t.width < screen.width && FirstSame(screen, t)
  {
    assert TARGETS[0] != TARGETS[1] && TARGETS[1] != TARGETS[2];
    assert Target(screen) == TargetFrom(screen, 0);
    assert TargetFrom(screen, 3) == None;
    assert TargetFrom(screen, 2) ==
      if SameAspect(TARGETS[2], screen) && TARGETS[2].width < screen.width then Some(TARGETS[2]) else None;
  }

  predicate FirstSame(screen: Resolution, t: Resolution) {
    || (t == Resolution(1024, 768) && SameAspect(t, screen))
    || (t == Resolution(1280, 800) && SameAspect(t, screen) && !SameAspect(Resolution(1024, 768), screen))
    || (t == Resolution(1366, 768) && SameAspect(t, screen)
        && !SameAspect(Resolution(1024, 768), screen) && !SameAspect(Resolution(1280, 800), screen))
  }

  /** A point is refused exactly if it comes from the model, lies beyond the screen, and there is a target. */
  lemma RefusedIff(screen: Resolution, source: Source, x: int, y: int)
    requires Screen(screen)
    ensures Scale(screen, Target(screen), source, x, y) == OutOfBounds <==>
      Target(screen).Some? && source == Api && (x > screen.width || y > screen.height)
  {
  }

  /** Where an accepted point lands: at the integers nearest to the exact quotients, and without a target where it was. */
  lemma ScaledIsNearest(screen: Resolution, source: Source, x: int, y: int)
    requires Screen(screen)
    ensures Target(screen).None? ==> Scale(screen, Target(screen), source, x, y) == At(x, y)
    ensures Target(screen).Some? && Scale(screen, Target(screen), source, x, y).At? ==>
      var p, t := Scale(screen, Target(screen), source, x, y), Target(screen).value;
      if source == Computer then
        Nearest(p.x, x * t.width, screen.width) && Nearest(p.y, y * t.height, screen.height)
      else
        Nearest(p.x, x * screen.width, t.width) && Nearest(p.y, y * screen.height, t.height)
  {
  }

  /** `r` is an integer nearest to n / d, the even one of two. */
  predicate Nearest(r: int, n: int, d: int) {
    && 2 * Abs(n - d * r) <= d
    && (2 * Abs(n - d * r) == d ==> r % 2 == 0)
  }

  /** A chosen target is one of the three, narrower than the screen and less than twice as high. */
  lemma TargetShrinks(screen: Resolution)
    requires Screen(screen) && Target(screen).Some?
    ensures var t := Target(screen).value;
      && t in TARGETS && Screen(t) && t.width < screen.width && t.height < 2 * screen.height
  {
    var t := Target(screen).value;
    assert t == TARGETS[0] || t == TARGETS[1] || t == TARGETS[2];
  }

  // ---------- one axis ----------

  lemma AtLeastOne(d: int, k: int)
    requires d > 0 && k > 0
    ensures d <= d * k
  {
    assert d * k == d * (k - 1) + d;
  }

  lemma Multiples(d: int, a: int, b: int)
    requires d > 0
    ensures a < b ==> d * a + d <= d * b
    ensures a <= b ==> d * a <= d * b
  {
    var k := b - a;
    assert d * b == d * (a + k) == d * a + d * k;
    if k > 0 { AtLeastOne(d, k); }
  }

  lemma RoundIs(n: int, d: int, r: int)
    requires d > 0 && 2 * n - d < 2 * (d * r) < 2 * n + d
    ensures RoundDiv(n, d) == r
  {
    var k := RoundDiv(n, d);
    Multiples(d, k, r);
    Multiples(d, r, k);
  }

  lemma RoundMultiple(r: int, d: int)
    requires d > 0
    ensures RoundDiv(r * d, d) == r
  {
    assert d * r == r * d;
    RoundIs(r * d, d, r);
  }

  lemma RoundMonotone(n: int, m: int, d: int)
    requires d > 0 && n <= m
    ensures RoundDiv(n, d) <= RoundDiv(m, d)
  {
    Multiples(d, RoundDiv(m, d), RoundDiv(n, d));
  }

  /** Up by q / p and back down, with p at most q, is the identity on every coordinate. */
  lemma AxisRoundTrip(a: int, p: int, q: int)
    requires 0 < p <= q
    ensures RoundDiv(RoundDiv(a * q, p) * p, q) == a
  {
    var s := RoundDiv(a * q, p);
    assert s * p == p * s && a * q == q * a;
    if p == q {
      RoundMultiple(a, p);
      RoundMultiple(a, q);
    } else {
      assert 2 * (q * a) - p <= 2 * (s * p) <= 2 * (q * a) + p;
      RoundIs(s * p, q, a);
    }
  }

  lemma UpMonotone(a: int, b: int, p: int, q: int)
    requires 0 < p && 0 < q && a <= b
    ensures RoundDiv(a * q, p) <= RoundDiv(b * q, p)
  {
    assert a * q <= b * q;
    RoundMonotone(a * q, b * q, p);
  }

  /** A map of 0..n into fewer integers that starts at 0 and never falls repeats a value. */
  lemma {:induction false} Repeats(n: nat, p: int, q: int) returns (a: nat)
    requires 0 < p && 0 < q && RoundDiv(n * q, p) < n
    ensures a < n && RoundDiv(a * q, p) == RoundDiv((a + 1) * q, p)
    decreases n
  {
    if n == 0 {
      RoundMultiple(0, p);
      assert false;
    } else {
      UpMonotone(n - 1, n, p, q);
      if RoundDiv((n - 1) * q, p) == RoundDiv(n * q, p) {
        a := n - 1;
      } else {
        a := Repeats(n - 1, p, q);
      }
    }
  }

  lemma LastFalls(p: int, q: int)
    requires 0 < q < p
    ensures RoundDiv(q * q, p) < q
  {
    var k, last := p - q, RoundDiv(q * q, p);
    Multiples(p, q, last);
    assert p * q == q * q + k * q;
    Multiples(q, 1, k);
    Multiples(k, 1, q);
    assert q * k == k * q;
    assert 2 * (p * last) <= 2 * (q * q) + p;
  }

  /** With p above q the screen has too few points: the last coordinate moves down, so two accepted
      coordinates meet. */
  lemma AxisCollides(p: int, q: int) returns (a: nat)
    requires 0 < q < p
    ensures a < q && RoundDiv(a * q, p) == RoundDiv((a + 1) * q, p)
  {
    LastFalls(p, q);
    a := Repeats(q, p, q);
  }

  /** One axis: every accepted coordinate survives the round trip exactly when the screen is at least as
      large as the target. */
  lemma AxisRoundTripIff(p: int, q: int)
    requires 0 < p && 0 < q
    ensures (forall a :: a <= q ==> RoundDiv(RoundDiv(a * q, p) * p, q) == a) <==> p <= q
  {
    if p <= q {
      forall a | a <= q ensures RoundDiv(RoundDiv(a * q, p) * p, q) == a { AxisRoundTrip(a, p, q); }
    } else {
      var a := AxisCollides(p, q);
      var s := RoundDiv(a * q, p);
      assert RoundDiv(RoundDiv(a * q, p) * p, q) == RoundDiv(RoundDiv((a + 1) * q, p) * p, q);
    }
  }

  /** Where a coordinate lands: on 0..q if and only if it is on 0..p, for a target smaller than the screen. */
  lemma AxisLands(a: int, p: int, q: int)
    requires 0 < p <= q && a >= 0
    ensures RoundDiv(a * q, p) >= 0
    ensures RoundDiv(a * q, p) <= q <==> a <= p
    ensures a < p ==> RoundDiv(a * q, p) < q
  {
    RoundMultiple(0, p);
    UpMonotone(0, a, p, q);
    RoundMultiple(q, p);
    assert p * q == q * p;
    if a <= p {
      UpMonotone(a, p, p, q);
    } else {
      UpMonotone(p + 1, a, p, q);
      BeyondLast(p, q);
    }
    if a < p {
      UpMonotone(a, p - 1, p, q);
      BeforeLast(p, q);
    }
  }

  lemma BeyondLast(p: int, q: int)
    requires 0 < p <= q
    ensures RoundDiv((p + 1) * q, p) > q
  {
    var r := RoundDiv((p + 1) * q, p);
    assert (p + 1) * q == p * q + q;
    Multiples(p, r, q);
  }

  /** The last advertised coordinate lands before the end of the screen when the screen has more than half
      as many points as advertised. */
  lemma BeforeLast(p: int, q: int)
    requires 0 < p < 2 * q && 0 < q
    ensures RoundDiv((p - 1) * q, p) < q
  {
    var r := RoundDiv((p - 1) * q, p);
    assert (p - 1) * q == p * q - q;
    Multiples(p, q, r);
  }

  // ---------- the screen ----------

  /** Scaling there and back is the identity on every accepted point if and only if the screen is not lower
      than the target. */
  lemma RoundTripIff(screen: Resolution)
    requires Screen(screen) && Target(screen).Some?
    ensures var target := Target(screen);
      (forall x, y :: ReturnsTo(screen, target, x, y)) <==> target.value.height <= screen.height
  {
    TargetShrinks(screen);
    var target := Target(screen);
    var t := target.value;
    AxisRoundTripIff(t.width, screen.width);
    AxisRoundTripIff(t.height, screen.height);
    if t.height <= screen.height {
      forall x, y ensures ReturnsTo(screen, target, x, y) {
        AxisRoundTrip(x, t.width, screen.width);
        AxisRoundTrip(y, t.height, screen.height);
      }
    } else {
      var y :| y <= screen.height && RoundDiv(RoundDiv(y * screen.height, t.height) * t.height, screen.height) != y;
      assert !ReturnsTo(screen, target, 0, y);
    }
  }

  /** An accepted point of the model comes back from the screen unchanged. */
  predicate ReturnsTo(screen: Resolution, target: Option<Resolution>, x: int, y: int)
    requires Screen(screen) && (target.Some? ==> Screen(target.value))
  {
    var there := Scale(screen, target, Api, x, y);
    there.At? ==> Scale(screen, target, Computer, there.x, there.y) == At(x, y)
  }

  /** The aspect tolerance lets a target be chosen that is higher than the screen. */
  lemma HigherTarget()
    ensures Target(Resolution(1025, 760)) == Some(Resolution(1024, 768))
    ensures !ReturnsTo(Resolution(1025, 760), Some(Resolution(1024, 768)), 0, 48)
  {
    assert RoundDiv(48 * 760, 768) == 48;
    RoundIs(48 * 768, 760, 49);
  }

  /** The advertised size is the target, and a point of it lands on the screen. */
  lemma AdvertisedLandsInside(screen: Resolution, x: int, y: int)
    requires Screen(screen) && Target(screen).Some?
    requires 0 <= x < Target(screen).value.width && 0 <= y < Target(screen).value.height
    ensures Scale(screen, Target(screen), Computer, screen.width, screen.height)
      == At(Target(screen).value.width, Target(screen).value.height)
    ensures y <= screen.height ==>
      var p := Scale(screen, Target(screen), Api, x, y);
      p.At? && 0 <= p.x < screen.width && 0 <= p.y < screen.height
  {
    TargetShrinks(screen);
    var t := Target(screen).value;
    assert screen.width * t.width == t.width * screen.width && screen.height * t.height == t.height * screen.height;
    RoundMultiple(t.width, screen.width);
    RoundMultiple(t.height, screen.height);
    AxisLands(x, t.width, screen.width);
    RoundMultiple(0, t.height);
    UpMonotone(0, y, t.height, screen.height);
    UpMonotone(y, t.height - 1, t.height, screen.height);
    BeforeLast(t.height, screen.height);
  }

  /** The bounds check compares with the screen instead of the advertised size: an accepted point lands beyond the
      screen exactly if it is right of the advertised size or below it, and to the right there always is room. */
  lemma AcceptedOffScreenIff(screen: Resolution, x: int, y: int)
    requires Screen(screen) && Target(screen).Some?
    requires 0 <= x <= screen.width && 0 <= y <= screen.height
    ensures var p, t := Scale(screen, Target(screen), Api, x, y), Target(screen).value;
      && p.At? && t.width < screen.width
      && (p.x > screen.width <==> x > t.width) && (p.y > screen.height <==> y > t.height)
  {
    TargetShrinks(screen);
    var t := Target(screen).value;
    AxisLands(x, t.width, screen.width);
    if t.height <= screen.height {
      AxisLands(y, t.height, screen.height);
    } else {
      HigherLands(y, t.height, screen.height);
    }
  }

  /** On an axis where the target is larger than the screen every accepted coordinate lands on the screen. */
  lemma HigherLands(a: int, p: int, q: int)
    requires 0 < q < p && a <= q
    ensures RoundDiv(a * q, p) <= q
  {
    UpMonotone(a, p, p, q);
    RoundMultiple(q, p);
    assert p * q == q * p;
  }

  /** A point inside the advertised width and below the advertised height lands below the screen. */
  lemma AcceptedBelowScreen()
    ensures Target(Resolution(2048, 1536)) == Some(Resolution(1024, 768))
    ensures Scale(Resolution(2048, 1536), Some(Resolution(1024, 768)), Api, 0, 1000) == At(0, 2000)
  {
    RoundMultiple(0, 1024);
    RoundIs(1000 * 1536, 768, 2000);
  }

  lemma ScalingIsMonotone(screen: Resolution, source: Source, x: int, y: int, x': int, y': int)
    requires Screen(screen) && x <= x' && y <= y'
    ensures var a, b := Scale(screen, Target(screen), source, x, y), Scale(screen, Target(screen), source, x', y');
      b.At? ==> a.At? && a.x <= b.x && a.y <= b.y
  {
    if Target(screen).Some? {
      var t := Target(screen).value;
      UpMonotone(x, x', t.width, screen.width);
      UpMonotone(x, x', screen.width, t.width);
      UpMonotone(y, y', t.height, screen.height);
      UpMonotone(y, y', screen.height, t.height);
    }
  }

  class ComputerTool {
    const screen: Resolution
    const scalingEnabled: bool

    constructor (width: int, height: int, scalingEnabled: bool := true)
      requires width > 0 && height > 0
      ensures screen == Resolution(width, height) && this.scalingEnabled == scalingEnabled
    {
      screen, this.scalingEnabled := Resolution(width, height), scalingEnabled;
    }

    method ScaleCoordinates(source: Source, x: int, y: int) returns (r: Scaled)
      requires Screen(screen)
      ensures !scalingEnabled ==> r == At(x, y)
      ensures scalingEnabled && Target(screen).Some? ==>
        r == Scale(screen, Target(screen), source, x, y)
      ensures scalingEnabled && Target(screen).None? ==> r == At(x, y)
    {
      if !scalingEnabled { return At(x, y); }
      var target: Option<Resolution> := None;
      var i := 0;
      while i < |TARGETS|
        invariant i <= |TARGETS| && target.None? && Target(screen) == TargetFrom(screen, i)
      {
        if SameAspect(TARGETS[i], screen) {
          if TARGETS[i].width < screen.width { target := Some(TARGETS[i]); }
          break;
        }
        i := i + 1;
      }
      if target.None? { return At(x, y); }
      TargetShrinks(screen);
      var t := target.value;
      if source.Api? {
        if x > screen.width || y > screen.height { return OutOfBounds; }
        return At(RoundDiv(x * screen.width, t.width), RoundDiv(y * screen.height, t.height));
      }
      return At(RoundDiv(x * t.width, screen.width), RoundDiv(y * t.height, screen.height));
    }
  }
}
