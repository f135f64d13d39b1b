/** The star row (components/ReviewStars.tsx): a rating split into full, half and
    empty stars, of which the full and the empty ones are drawn. */
module ReviewStars {
  import opened Wrappers

  const DefaultMaxStars: int := 5

  /** `fullStars`, `halfStar` and `emptyStars`. */
  datatype StarCounts = StarCounts(full: int, half: bool, empty: int)

  /** `new Array(n)` with a negative length throws a `RangeError`. */
  datatype RangeError = InvalidArrayLength

  /** A rating with no fractional part. */
  predicate IsWhole(r: real) {
    r == r.Floor as real
  }

  /** `Math.trunc`: rounds toward zero. */
  function Trunc(r: real): int {
    if r >= 0.0 then r.Floor else -((-r).Floor)
  }

  /** JavaScript's `r % 1`: the remainder takes the sign of the dividend. */
  function RemOne(r: real): (m: real)
    ensures -1.0 < m < 1.0
    ensures m == 0.0 <==> IsWhole(r)
  {
    var t := Trunc(r);
    assert IsWhole(r) <==> IsWhole(-r) by {
      if IsWhole(r) { assert -r == (-(r.Floor)) as real; }
      if IsWhole(-r) { assert r == (-((-r).Floor)) as real; }
    }
    r - t as real
  }

  /** The three constants of the component: `Math.floor(rating)`,
      `rating % 1 !== 0`, and what is left of `maxStars`. */
  function SplitStars(rating: real, maxStars: int): (c: StarCounts)
    ensures c.full as real <= rating < c.full as real + 1.0
    ensures c.half <==> !IsWhole(rating)
    ensures c.full + (if c.half then 1 else 0) + c.empty == maxStars
  {
    var full := rating.Floor;
    var half := RemOne(rating) != 0.0;
    StarCounts(full, half, maxStars - full - (if half then 1 else 0))
  }

  /** The icons drawn, `true` for a filled star: `fullStars` filled ones, then
      `emptyStars` empty ones. The half star is not drawn. */
  function Icons(c: StarCounts): (r: Result<seq<bool>, RangeError>)
    ensures r.Ok? <==> c.full >= 0 && c.empty >= 0
    ensures r.Ok? ==> |r.value| == c.full + c.empty
    ensures r.Ok? ==> forall i :: 0 <= i < |r.value| ==> (r.value[i] <==> i < c.full)
  {
    if c.full < 0 then Err(InvalidArrayLength)
    else if c.empty < 0 then Err(InvalidArrayLength)
    else Ok(seq(c.full, _ => true) + seq(c.empty, _ => false))
  }

  /** The component. */
  function Render(rating: real, maxStars: int): (r: Result<seq<bool>, RangeError>)
    ensures r.Ok? ==> |r.value| + (if IsWhole(rating) then 0 else 1) == maxStars
    ensures r.Ok? ==> forall i :: 0 <= i < |r.value| ==> (r.value[i] <==> i < rating.Floor)
  {
    Icons(SplitStars(rating, maxStars))
  }

  /** Both counts are non-negative, so the row renders, exactly when the rating
      lies between 0 and `maxStars`. */
  lemma RendersIffInRange(rating: real, maxStars: int)
    ensures Render(rating, maxStars).Ok? <==> 0.0 <= rating <= maxStars as real
  {
    var c := SplitStars(rating, maxStars);
    if 0.0 <= rating <= maxStars as real {
      assert c.full >= 0;
      if c.half {
        assert c.full as real < rating;
        assert c.full < maxStars;
      }
    }
  }

  /** A whole rating draws `maxStars` icons; a fractional one draws one fewer,
      since its half star is dropped. The filled ones come first and number
      `floor(rating)`. */
  lemma IconsDrawn(rating: real, maxStars: int)
    requires Render(rating, maxStars).Ok?
    ensures var icons := Render(rating, maxStars).value;
      |icons| == if IsWhole(rating) then maxStars else maxStars - 1
    ensures var icons := Render(rating, maxStars).value;
      forall i :: 0 <= i < |icons| ==> (icons[i] <==> (i as real) + 1.0 <= rating)
  {
  }

  /** Half-point ratings as reviews show them. */
  lemma StarExamples()
    ensures SplitStars(4.5, DefaultMaxStars) == StarCounts(4, true, 0)
    ensures SplitStars(3.0, DefaultMaxStars) == StarCounts(3, false, 2)
    ensures Render(6.0, DefaultMaxStars) == Err(InvalidArrayLength)
  {
    assert (4.5).Floor == 4;
    assert (6.0).Floor == 6;
  }
}
