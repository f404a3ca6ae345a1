/**
 * The remaining state the storefront script keeps in the page: the mobile
 * menu's `active` class on the menu and on its toggle button, the in-page
 * navigation links, the header's scroll restyling and the colour of a
 * notification.
 *
 * The document is abstracted to what the handlers read from it: the ids of
 * the elements present, with each element's `offsetTop`, and the header's
 * `offsetHeight`.
 */
module Ui {
  import opened Wrappers

  /** The `active` class on `.nav-menu` and on `.menu-toggle`. */
  datatype MenuState = MenuState(navActive: bool, toggleActive: bool)

  /** The two flags agree, as they do when both start without `active`. */
  predicate InSync(s: MenuState) { s.navActive == s.toggleActive }

  /** A click on the toggle flips both classes. */
  function Toggle(s: MenuState): MenuState
  {
    MenuState(!s.navActive, !s.toggleActive)
  }

  /**
   * Following a link whose target exists closes the menu, but the test
   * looks only at the menu's own class: the toggle's class is removed only
   * when the menu had it.
   */
  function CloseAfterNavigation(s: MenuState): MenuState
  {
    if s.navActive then MenuState(false, false) else s
  }

  /** Two clicks on the toggle restore the original state. */
  lemma ToggleTwiceRestores(s: MenuState)
    ensures Toggle(Toggle(s)) == s
  {
  }

  /** Both handlers keep the two flags in step, and navigation leaves the menu closed. */
  lemma HandlersKeepSync(s: MenuState)
    requires InSync(s)
    ensures InSync(Toggle(s)) && InSync(CloseAfterNavigation(s))
    ensures CloseAfterNavigation(s) == MenuState(false, false)
  {
  }

  /**
   * `href.substring(1)`: the link's target id is its `href` without the
   * first character (the `#`); `substring` clamps, so an empty `href`
   * gives the empty id.
   */
  function TargetId(href: string): (id: string)
    ensures |href| > 0 ==> href == [href[0]] + id
    ensures |href| == 0 ==> id == ""
  {
    if |href| == 0 then "" else href[1..]
  }

  /** The id written after `#` in an anchor is the id the handler looks up. */
  lemma TargetIdOfAnchor(id: string)
    ensures TargetId("#" + id) == id
  {
  }

  /** The gap kept above the target when scrolling to it, in pixels. */
  const ScrollMargin: int := 20

  /** The `active` classes of `.nav-menu` and `.menu-toggle`, which the click handlers change. */
  class Page {
    var navActive: bool
    var toggleActive: bool

    ghost function Menu(): MenuState
      reads this
    {
      MenuState(navActive, toggleActive)
    }

    constructor (navActive: bool, toggleActive: bool)
      ensures Menu() == MenuState(navActive, toggleActive)
    {
      this.navActive := navActive;
      this.toggleActive := toggleActive;
    }

    /** The click handler on `.menu-toggle`. */
    method ToggleClick()
      modifies this
      ensures Menu() == Toggle(old(Menu()))
      ensures navActive == !old(navActive) && toggleActive == !old(toggleActive)
    {
      navActive := !navActive;
      toggleActive := !toggleActive;
    }

    /**
     * The click handler on an `a[href^="#"]` link. `offsets` maps the ids
     * of the document's elements to their `offsetTop`. When the target
     * exists the page scrolls to it, `ScrollMargin` pixels below the
     * header, and the menu is closed; otherwise nothing happens. No
     * element has the empty id (`getElementById("")` is always null), so a
     * bare `href="#"` does nothing.
     */
    method NavLinkClick(href: string, offsets: map<string, int>, headerHeight: int)
      returns (scrollTop: Option<int>)
      requires "" !in offsets
      modifies this
      ensures href == "#" ==> scrollTop == None && Menu() == old(Menu())
      ensures TargetId(href) in offsets ==>
                scrollTop == Some(offsets[TargetId(href)] - headerHeight - ScrollMargin)
                && Menu() == CloseAfterNavigation(old(Menu()))
      ensures TargetId(href) !in offsets ==> scrollTop == None && Menu() == old(Menu())
    {
      var targetId := TargetId(href);
      if targetId in offsets {
        scrollTop := Some(offsets[targetId] - headerHeight - ScrollMargin);
        if navActive {
          navActive := false;
          toggleActive := false;
        }
      } else {
        scrollTop := None;
      }
    }
  }

  /** The scroll offset past which the header turns translucent. */
  const HeaderThreshold: real := 50.0

  /** `window.scrollY > 50`. */
  predicate Scrolled(scrollY: real) { scrollY > HeaderThreshold }

  const TranslucentBackground: string := "rgba(255, 255, 255, 0.95)"
  const TranslucentFilter: string := "blur(10px)"
  const OpaqueBackground: string := "#ffffff"
  const OpaqueFilter: string := "none"

  /** The header's inline styles, as the scroll handler sets them. */
  class Header {
    var background: string
    var backdropFilter: string

    /** Background and filter always come as one of the two pairs the handler writes. */
    ghost predicate Consistent()
      reads this
    {
      (background == TranslucentBackground && backdropFilter == TranslucentFilter)
      || (background == OpaqueBackground && backdropFilter == OpaqueFilter)
    }

    /** No inline style before the first scroll event. */
    constructor ()
      ensures background == "" && backdropFilter == ""
    {
      background := "";
      backdropFilter := "";
    }

    /** The `scroll` handler. */
    method OnScroll(scrollY: real)
      modifies this
      ensures Consistent()
      ensures background == TranslucentBackground <==> Scrolled(scrollY)
    {
      if Scrolled(scrollY) {
        background := TranslucentBackground;
        backdropFilter := TranslucentFilter;
      } else {
        background := OpaqueBackground;
        backdropFilter := OpaqueFilter;
      }
    }
  }

  const SuccessColour: string := "#4CAF50"
  const ErrorColour: string := "#f44336"
  const InfoColour: string := "#2196F3"

  /** The type `showNotification` uses when none is given. */
  const DefaultNotificationType: string := "info"

  /** The background `showNotification` gives a notification of type `kind`. */
  function NotificationColour(kind: string := DefaultNotificationType): (colour: string)
    ensures colour == SuccessColour <==> kind == "success"
    ensures colour == ErrorColour <==> kind == "error"
    ensures colour == InfoColour <==> kind != "success" && kind != "error"
  {
    if kind == "success" then SuccessColour
    else if kind == "error" then ErrorColour
    else InfoColour
  }

  /** A notification shown without a type is blue. */
  lemma DefaultNotificationIsInfo()
    ensures NotificationColour() == InfoColour
  {
  }
}
