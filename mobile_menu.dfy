/** The mobile navigation (script.js, toggleMobileMenu / closeMobileMenu and the
    listeners that call them): two `active` classes and the hamburger bars. */
module MobileMenu {

  /** The inline styles of the three `.bar` elements: unset until the script
      first writes them, then (top transform, middle opacity, bottom transform). */
  datatype Bars = Unstyled | Styled(top: string, middleOpacity: string, bottom: string)

  /** The bars drawn as an X. */
  const CrossBars := Styled("rotate(-45deg) translate(-5px, 6px)", "0", "rotate(45deg) translate(-5px, -6px)")
  /** The bars drawn as three lines. */
  const PlainBars := Styled("none", "1", "none")

  /** Above this `innerWidth` a resize closes the menu. */
  const DesktopWidth := 768

  /** Where a click lands, for the three click listeners. */
  datatype ClickTarget = OnHamburger | OnNavLink | ElsewhereInMenu | Outside

  class Menu {
    /** `hamburger.classList.contains('active')`. */
    var hamburgerActive: bool
    /** `navMenu.classList.contains('active')`. */
    var menuActive: bool
    var bars: Bars

    /** The two classes agree and the bars draw an X exactly when the menu is open. */
    ghost predicate Synced()
      reads this
    {
      hamburgerActive == menuActive &&
      (if hamburgerActive then bars == CrossBars else bars in {Unstyled, PlainBars})
    }

    constructor ()
      ensures !hamburgerActive && !menuActive && bars == Unstyled
      ensures Synced()
    {
      hamburgerActive, menuActive := false, false;
      bars := Unstyled;
    }

    /** `toggleMobileMenu`: each class flips on its own; the bars follow the hamburger. */
    method Toggle()
      modifies this
      ensures hamburgerActive == !old(hamburgerActive) && menuActive == !old(menuActive)
      ensures bars == if hamburgerActive then CrossBars else PlainBars
      ensures old(Synced()) ==> Synced()
    {
      hamburgerActive := !hamburgerActive;
      menuActive := !menuActive;
      if hamburgerActive {
        bars := CrossBars;
      } else {
        bars := PlainBars;
      }
    }

    /** `closeMobileMenu`: both classes off and the bars reset, whatever the state was. */
    method Close()
      modifies this
      ensures !hamburgerActive && !menuActive && bars == PlainBars
      ensures Synced()
    {
      hamburgerActive, menuActive := false, false;
      bars := PlainBars;
    }

    /** One click, through the listeners in bubbling order: the hamburger's
        (toggle), the menu's (close on a `.nav-link`), the document's (close
        unless inside the hamburger or the menu). */
    method Click(target: ClickTarget)
      modifies this
      ensures target == OnHamburger ==>
        hamburgerActive == !old(hamburgerActive) && menuActive == !old(menuActive) &&
        bars == (if hamburgerActive then CrossBars else PlainBars)
      ensures target in {OnNavLink, Outside} ==> !hamburgerActive && !menuActive && bars == PlainBars
      ensures target == ElsewhereInMenu ==>
        hamburgerActive == old(hamburgerActive) && menuActive == old(menuActive) && bars == old(bars)
      ensures old(Synced()) ==> Synced()
    {
      var inHamburger := target == OnHamburger;
      var inMenu := target == OnNavLink || target == ElsewhereInMenu;
      if inHamburger {
        Toggle();
      }
      if inMenu && target == OnNavLink {
        Close();
      }
      if !inHamburger && !inMenu {
        Close();
      }
    }

    /** The `resize` listener. */
    method Resize(innerWidth: int)
      modifies this
      ensures innerWidth > DesktopWidth ==> !hamburgerActive && !menuActive && bars == PlainBars
      ensures innerWidth <= DesktopWidth ==>
        hamburgerActive == old(hamburgerActive) && menuActive == old(menuActive) && bars == old(bars)
    {
      if innerWidth > DesktopWidth {
        Close();
      }
    }

    /** A click on an in-page link `a[href^="#"]`: the menu closes once the
        target element was found and scrolled to; an empty or bare `#` href
        and a missing target leave it alone. */
    method FollowAnchor(href: string, targetFound: bool)
      modifies this
      ensures href != "" && href != "#" && targetFound ==>
        !hamburgerActive && !menuActive && bars == PlainBars
      ensures !(href != "" && href != "#" && targetFound) ==>
        hamburgerActive == old(hamburgerActive) && menuActive == old(menuActive) && bars == old(bars)
    {
      if href == "" || href == "#" {
        return;
      }
      if targetFound {
        Close();
      }
    }
  }
}
