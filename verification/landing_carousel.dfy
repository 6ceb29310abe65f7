/** The feature carousel of the landing page: a slide index advanced by a
    timer, set by clicking a dot, and shown as a horizontal offset. */
module LandingCarousel {

  /** The number of feature slides. */
  const SlideCount: int := 3

  /** JavaScript's `%`, which truncates toward zero: the result has the sign of
      the dividend and the magnitude of |a| mod b. */
  function JsRemainder(a: int, b: int): (r: int)
    requires b > 0
    ensures a >= 0 ==> 0 <= r < b && r == a % b
    ensures a < 0 ==> -b < r <= 0 && r == -((-a) % b)
  {
    if a >= 0 then a % b
    else
      var m := (-a) % b;
      assert 0 <= m < b;
      -m
  }

  /** The quotient of a division that truncates toward zero. */
  function TruncQuotient(a: int, b: int): int
    requires b > 0
  {
    if a >= 0 then a / b else -((-a) / b)
  }

  /** `a % b` in JavaScript is what is left after the truncated quotient's
      multiple of `b` is taken away. */
  lemma JsRemainderIsTruncatedDivision(a: int, b: int)
    requires b > 0
    ensures a == b * TruncQuotient(a, b) + JsRemainder(a, b)
  {
    if a < 0 {
      var q, m := (-a) / b, (-a) % b;
      assert -a == b * q + m;
      assert b * -q == -(b * q);
    }
  }

  /** The timer's update `(prev + 1) % features.length`. */
  function NextSlide(prev: int): (r: int)
    ensures prev >= 0 ==> 0 <= r < SlideCount
    ensures 0 <= prev < SlideCount - 1 ==> r == prev + 1
    ensures prev == SlideCount - 1 ==> r == 0
  {
    JsRemainder(prev + 1, SlideCount)
  }

  /** Three ticks bring every slide back to itself. */
  lemma ThreeTicksComeBack(s: int)
    requires 0 <= s < SlideCount
    ensures NextSlide(NextSlide(NextSlide(s))) == s
  {
  }

  /** The dot of slide `index` is highlighted. */
  predicate DotIsActive(currentSlide: int, index: int) {
    currentSlide == index
  }

  /** For a valid index exactly one dot, the current slide's, is active. */
  lemma ExactlyOneActiveDot(currentSlide: int)
    requires 0 <= currentSlide < SlideCount
    ensures (set i | 0 <= i < SlideCount && DotIsActive(currentSlide, i)) == {currentSlide}
  {
    var active := set i | 0 <= i < SlideCount && DotIsActive(currentSlide, i);
    assert currentSlide in active;
  }

  /** `translateX(-{currentSlide * 100}%)`: slide k is shown at offset k * 100%. */
  function SlideOffsetPercent(currentSlide: int): (r: int)
    ensures 0 <= currentSlide < SlideCount ==> 0 <= r <= (SlideCount - 1) * 100 && r % 100 == 0
    ensures r / 100 == currentSlide
  {
    currentSlide * 100
  }

  class Carousel {
    var currentSlide: int

    ghost predicate Valid()
      reads this
    {
      0 <= currentSlide < SlideCount
    }

    constructor ()
      ensures Valid() && currentSlide == 0
    {
      currentSlide := 0;
    }

    /** One interval tick (every 4 seconds). */
    method Tick()
      requires Valid()
      modifies this
      ensures Valid()
      ensures currentSlide == NextSlide(old(currentSlide))
      ensures old(currentSlide) == SlideCount - 1 ==> currentSlide == 0
    {
      currentSlide := JsRemainder(currentSlide + 1, SlideCount);
    }

    /** Clicking the dot of slide `index`; dots exist only for the slides. */
    method ClickDot(index: int)
      requires 0 <= index < SlideCount
      modifies this
      ensures Valid() && currentSlide == index
    {
      currentSlide := index;
    }
  }
}
