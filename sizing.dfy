/**
 * The height rule, in its two halves: the Python side decides once whether
 * the figure's height is explicit (src/pylogue/dashboarding.py, lines
 * 117-126), and the page's `mobileHeight()` computes the height at each
 * render from the viewport width.
 */
module Sizing {
  import opened Wrappers
  import opened Json

  /** What the Python side hands the page: `explicitHeight` and `defaultHeight`. */
  datatype HeightRule = HeightRule(explicit: bool, defaultHeight: int)

  const DefaultHeight: int := 420

  /**
   * `isinstance(user_height, (int, float))` and `int(user_height)`. Python's
   * `bool` is a subclass of `int`, so a boolean height counts as explicit and
   * converts to 1 or 0.
   */
  function DecideHeight(layoutHeight: Option<JVal>): (rule: HeightRule)
    ensures rule.explicit <==> layoutHeight.Some? && (layoutHeight.value.Num? || layoutHeight.value.Bool?)
    ensures layoutHeight.Some? && layoutHeight.value.Num? ==> rule.defaultHeight == layoutHeight.value.n
    ensures !rule.explicit ==> rule.defaultHeight == 420
  {
    match layoutHeight
    case Some(Num(n)) => HeightRule(true, n)
    case Some(Bool(b)) => HeightRule(true, if b then 1 else 0)
    case _ => HeightRule(false, DefaultHeight)
  }

  function Clamp(lo: int, hi: int, x: int): (r: int)
    requires lo <= hi
    ensures lo <= r <= hi
    ensures lo <= x <= hi ==> r == x
  {
    if x < lo then lo else if x > hi then hi else x
  }

  /**
   * `Math.round(w*0.6)` for a non-negative integer width: the integer
   * nearest to 0.6w. No width is a tie, since 6w is even and 10r + 5 odd.
   */
  function RoundSixTenths(w: nat): (r: int)
    ensures (r as real) - 0.5 <= (w as real) * 0.6 < (r as real) + 0.5
  {
    (6 * w + 5) / 10
  }

  /** `window.innerWidth||1024`: a zero width falls back to 1024. */
  function ViewportWidth(innerWidth: nat): nat {
    if innerWidth == 0 then 1024 else innerWidth
  }

  /** `mobileHeight()`. */
  function MobileHeight(rule: HeightRule, innerWidth: nat): (h: int)
    ensures rule.explicit ==> h == rule.defaultHeight
    ensures !rule.explicit ==> 280 <= h <= 560
  {
    if rule.explicit then rule.defaultHeight
    else
      var w := Clamp(280, 1400, ViewportWidth(innerWidth));
      Clamp(280, 560, RoundSixTenths(w))
  }

  /** The computed height when no height is given: round(0.6 × the clamped width), clamped again. */
  lemma {:induction false} MobileHeightIsRoundedSixTenths(rule: HeightRule, innerWidth: nat)
    requires !rule.explicit
    ensures var w := Clamp(280, 1400, ViewportWidth(innerWidth));
      var h := MobileHeight(rule, innerWidth);
      (280 < h < 560 ==> (h as real) - 0.5 <= (w as real) * 0.6 < (h as real) + 0.5)
      && (h == 280 ==> (w as real) * 0.6 < 280.5)
      && (h == 560 ==> (w as real) * 0.6 >= 559.5)
  {
    var w := Clamp(280, 1400, ViewportWidth(innerWidth));
    var r := RoundSixTenths(w);
    assert (r as real) - 0.5 <= (w as real) * 0.6 < (r as real) + 0.5;
  }

  lemma {:induction false} RoundSixTenthsMonotone(a: nat, b: nat)
    requires a <= b
    ensures RoundSixTenths(a) <= RoundSixTenths(b)
  {
  }

  /**
   * Without an explicit height the page never shrinks the chart as the
   * window widens: for any two positive widths, the wider gets at least the
   * same height. (A width of 0 is read as 1024, so it is excluded.)
   */
  lemma {:induction false} MobileHeightMonotone(rule: HeightRule, w1: nat, w2: nat)
    requires !rule.explicit && 1 <= w1 <= w2
    ensures MobileHeight(rule, w1) <= MobileHeight(rule, w2)
  {
    RoundSixTenthsMonotone(Clamp(280, 1400, w1), Clamp(280, 1400, w2));
  }

  /** A width of 0 is not the narrowest case: it gives the height of a 1024-pixel window. */
  lemma ZeroWidthFallsBack(rule: HeightRule)
    requires !rule.explicit
    ensures MobileHeight(rule, 0) == MobileHeight(rule, 1024) == 560
    ensures MobileHeight(rule, 1) == 280
  {
  }

  /** An explicit height of 300 stays 300 at every viewport width. */
  lemma ExplicitHeightIsConstant(w: nat)
    ensures MobileHeight(DecideHeight(Some(Num(300))), w) == 300
  {
  }
}
