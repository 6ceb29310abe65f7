/** The scroll-direction hook (useScrollDirection): whether the page was last
    scrolled up, which shows or hides the navigation bar. The window's scroll
    position arrives as the argument of each scroll event. */
module ScrollDirection {

  class ScrollTracker {
    /** The hook's result: true while scrolling up (the bar is shown). */
    var isScrollingUp: bool
    /** The scroll position seen at the previous event. */
    var lastScrollY: int

    /** The hook starts out "scrolling up" at position 0. */
    constructor ()
      ensures isScrollingUp && lastScrollY == 0
    {
      isScrollingUp := true;
      lastScrollY := 0;
    }

    /** `handleScroll`: a smaller `currentScrollY` than the previous one (nearer
        the top of the page) means scrolling up; the same or a larger one means
        scrolling down. The position is
        remembered for the next event. */
    method HandleScroll(currentScrollY: int)
      modifies this
      ensures isScrollingUp <==> currentScrollY < old(lastScrollY)
      ensures lastScrollY == currentScrollY
    {
      if currentScrollY < lastScrollY {
        isScrollingUp := true;
      } else {
        isScrollingUp := false;
      }
      lastScrollY := currentScrollY;
    }
  }
}
