/** The header's scroll listener (script.js, initHeaderScroll). Scroll offsets
    are whole numbers here. */
module HeaderScroll {

  /** Offsets above this make the header translucent and allow hiding it. */
  const Threshold := 100

  class Header {
    /** The closure variable `lastScrollY`. */
    var lastScrollY: int
    /** `transform: translateY(-100%)`. */
    var hidden: bool
    /** The blurred, semi-opaque background. */
    var translucent: bool

    /** The header only hides once it is past the threshold, and so translucent. */
    ghost predicate Valid()
      reads this
    {
      hidden ==> translucent
    }

    /** `initHeaderScroll`: remember the offset at load; no style is set yet. */
    constructor (scrollY: int)
      ensures lastScrollY == scrollY && !hidden && !translucent
      ensures Valid()
    {
      lastScrollY := scrollY;
      hidden, translucent := false, false;
    }

    /** One `scroll` event at offset `y`. */
    method Scroll(y: int)
      modifies this
      ensures Valid()
      ensures translucent == (y > Threshold)
      ensures hidden == (y > old(lastScrollY) && y > Threshold)
      ensures lastScrollY == y
      // near the top, or not moving down, the header is shown
      ensures y <= Threshold || y <= old(lastScrollY) ==> !hidden
    {
      if y > Threshold {
        translucent := true;
      } else {
        translucent := false;
      }
      if y > lastScrollY && y > Threshold {
        hidden := true;
      } else {
        hidden := false;
      }
      lastScrollY := y;
    }
  }
}
