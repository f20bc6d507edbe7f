/** The mobile navigation menu: the `#hamburger` trigger and the `#navLinks`
    container whose `show` class opens it (assets/js/main.js:9-51). */
module Menu {

  function ExpandedText(open: bool): (text: string)
    ensures text == "true" <==> open
    ensures text == "false" <==> !open
  {
    if open then "true" else "false"
  }

  function LabelText(open: bool): (text: string)
    ensures text == "Close Menu" <==> open
    ensures text == "Open Menu" <==> !open
  {
    if open then "Close Menu" else "Open Menu"
  }

  /** The menu as the hamburger click handler sees it. */
  datatype MenuView = MenuView(open: bool, hasLink: bool, ariaExpanded: string, ariaLabel: string)

  /** The trigger's attributes describe the menu's state. */
  predicate Mirrored(v: MenuView) {
    v.ariaExpanded == ExpandedText(v.open) && v.ariaLabel == LabelText(v.open)
  }

  /** The click handler of lines 12-21 as written: when the menu opens and has
      no link, `firstLink.setAttribute` throws, the handler stops, and the
      trigger's attributes are left as they were. */
  function HamburgerAsWritten(v: MenuView): (r: MenuView)
    ensures r.open == !v.open && r.hasLink == v.hasLink
    ensures r.open && !v.hasLink ==> r.ariaExpanded == v.ariaExpanded && r.ariaLabel == v.ariaLabel
    ensures !(r.open && !v.hasLink) ==> Mirrored(r)
  {
    var open := !v.open;
    if open && !v.hasLink then v.(open := open)
    else v.(open := open, ariaExpanded := ExpandedText(open), ariaLabel := LabelText(open))
  }

  /** The handler as written loses sync: a closed, in-sync menu with no link
      opens while the trigger still says "false" and "Open Menu". */
  lemma HamburgerAsWrittenDesyncs()
    ensures Mirrored(MenuView(false, false, "false", "Open Menu"))
    ensures !Mirrored(HamburgerAsWritten(MenuView(false, false, "false", "Open Menu")))
  {
  }

  /** The handler with the link guarded (`firstLink && ...`): the attributes
      always follow the new state. */
  function Hamburger(v: MenuView): (r: MenuView)
    ensures r.open == !v.open && r.hasLink == v.hasLink
    ensures Mirrored(r)
  {
    var open := !v.open;
    v.(open := open, ariaExpanded := ExpandedText(open), ariaLabel := LabelText(open))
  }

  /** Two clicks return to the starting state whenever the trigger was in sync. */
  lemma HamburgerTwice(v: MenuView)
    requires Mirrored(v)
    ensures Hamburger(Hamburger(v)) == v
  {
  }

  class NavMenu {
    /** Whether `#navLinks` exists. */
    const navPresent: bool
    /** Whether the nav holds at least one link. */
    const hasLink: bool
    /** The nav carries the `show` class. */
    var open: bool
    /** The trigger's `aria-expanded`. */
    var ariaExpanded: string
    /** The trigger's `aria-label`. */
    var ariaLabel: string
    /** The first link has been taken out of the tab order (`tabindex="-1"`). */
    var firstLinkUntabbed: bool

    /** Without a nav there is nothing to open. */
    predicate Valid()
      reads this
    {
      !navPresent ==> !open
    }

    predicate InSync()
      reads this
    {
      Mirrored(View())
    }

    /** What the hamburger handler reads and writes. */
    function View(): MenuView
      reads this
    {
      MenuView(open, hasLink, ariaExpanded, ariaLabel)
    }

    constructor (navPresent: bool, hasLink: bool, open: bool, ariaExpanded: string, ariaLabel: string)
      requires !navPresent ==> !open
      ensures Valid()
      ensures this.navPresent == navPresent && this.hasLink == hasLink && this.open == open
      ensures this.ariaExpanded == ariaExpanded && this.ariaLabel == ariaLabel
      ensures !firstLinkUntabbed
    {
      this.navPresent := navPresent;
      this.hasLink := hasLink;
      this.open := open;
      this.ariaExpanded := ariaExpanded;
      this.ariaLabel := ariaLabel;
      firstLinkUntabbed := false;
    }

    /** A click on the hamburger: toggle `show` and set the trigger's
        attributes from the new state; opening also takes the first link out
        of the tab order. Without a nav the toggle yields nothing and the
        trigger is marked closed. */
    method ClickHamburger()
      requires Valid()
      modifies this
      ensures Valid() && InSync()
      ensures navPresent ==> View() == Hamburger(old(View()))
      ensures !navPresent ==> !open
      ensures firstLinkUntabbed == (old(firstLinkUntabbed) || (open && hasLink))
    {
      var isOpen := false;
      if navPresent {
        open := !open;
        isOpen := open;
      }
      if isOpen && hasLink {
        firstLinkUntabbed := true;
      }
      ariaExpanded := ExpandedText(isOpen);
      ariaLabel := LabelText(isOpen);
    }

    /** The document's keydown handler: Escape closes an open menu and resets
        the trigger; any other key, or Escape on a closed menu, changes nothing. */
    method KeyDown(key: string)
      requires Valid()
      modifies this
      ensures Valid()
      ensures key == "Escape" && old(open) ==> !open && InSync()
      ensures key != "Escape" || !old(open) ==>
        open == old(open) && ariaExpanded == old(ariaExpanded) && ariaLabel == old(ariaLabel)
      ensures firstLinkUntabbed == old(firstLinkUntabbed)
    {
      if key == "Escape" && navPresent && open {
        open := false;
        ariaExpanded := ExpandedText(false);
        ariaLabel := LabelText(false);
      }
    }

    /** A click inside the nav: one that lands in a link closes the menu and
        resets the trigger, whether or not the menu was open. */
    method ClickNav(onLink: bool)
      requires Valid() && navPresent
      modifies this
      ensures Valid()
      ensures onLink ==> !open && InSync()
      ensures !onLink ==>
        open == old(open) && ariaExpanded == old(ariaExpanded) && ariaLabel == old(ariaLabel)
      ensures firstLinkUntabbed == old(firstLinkUntabbed)
    {
      if onLink {
        open := false;
        ariaExpanded := ExpandedText(false);
        ariaLabel := LabelText(false);
      }
    }
  }
}
