/** The navigation bar: which section is active, chosen from the URL hash
    and then from the scroll position, the mobile menu and its body-scroll
    lock, and the desktop underline. */
module Navbar {
  import opened JsValues
  import Seqs

  const NavItems: seq<string> := ["About", "Skills", "Projects", "Certifications", "Contact"]

  /** `toLowerCase` on the ASCII letters the items are made of. */
  function LowerChar(c: char): char {
    if 'A' <= c <= 'Z' then (c as int + 32) as char else c
  }

  function ToLower(s: string): (r: string)
    ensures |r| == |s|
    ensures forall i :: 0 <= i < |s| ==> !('A' <= r[i] <= 'Z')
    ensures forall i :: 0 <= i < |s| && !('A' <= s[i] <= 'Z') ==> r[i] == s[i]
    ensures forall i :: 0 <= i < |s| && 'A' <= s[i] <= 'Z' ==> r[i] as int - 'a' as int == s[i] as int - 'A' as int
  {
    seq(|s|, i requires 0 <= i < |s| => LowerChar(s[i]))
  }

  /** The section ids, `navItems.map(item => item.toLowerCase())`. */
  const NavIds: seq<string> := ["about", "skills", "projects", "certifications", "contact"]

  /** Each id is its item lower-cased. */
  lemma NavIdsAreLowerCasedItems(i: int)
    requires 0 <= i < |NavItems|
    ensures |NavIds| == |NavItems| && NavIds[i] == ToLower(NavItems[i])
  {
    assert ToLower("About") == "about";
    assert ToLower("Skills") == "skills";
    assert ToLower("Projects") == "projects";
    assert ToLower("Certifications") == "certifications";
    assert ToLower("Contact") == "contact";
  }

  /** `s.replace(c, "")` with a one-character pattern: the first `c` is removed. */
  function RemoveFirst(s: string, c: char): (r: string)
    ensures c !in s ==> r == s
    ensures c in s ==> |r| == |s| - 1
    ensures s != [] && s[0] == c ==> r == s[1..]
    ensures c in s ==> exists k :: 0 <= k < |s| && s[k] == c && c !in s[..k] && r == s[..k] + s[k + 1..]
  {
    if s == [] then []
    else if s[0] == c then
      assert s[..0] + s[1..] == s[1..];
      s[1..]
    else
      var rest := RemoveFirst(s[1..], c);
      if c in s then
        assert c in s[1..] by { assert s == [s[0]] + s[1..]; }
        RemoveFirstSkips(s, c, rest);
        [s[0]] + rest
      else
        [s[0]] + rest
  }

  /** The step past a first character that is not `c`: the occurrence the
      rest removes is the first one of the whole string. */
  lemma RemoveFirstSkips(s: string, c: char, rest: string)
    requires s != [] && s[0] != c
    requires exists k :: 0 <= k < |s[1..]| && s[1..][k] == c && c !in s[1..][..k] && rest == s[1..][..k] + s[1..][k + 1..]
    ensures exists k :: 0 <= k < |s| && s[k] == c && c !in s[..k] && [s[0]] + rest == s[..k] + s[k + 1..]
  {
    var k :| 0 <= k < |s[1..]| && s[1..][k] == c && c !in s[1..][..k] && rest == s[1..][..k] + s[1..][k + 1..];
    assert s[..k + 1] == [s[0]] + s[1..][..k];
    assert s[k + 2..] == s[1..][k + 1..];
    assert s[k + 1] == c;
  }

  /** The active item chosen when the location changes: the hash without
      its `#` when it names a section, else "about" on the home page and
      nothing elsewhere. */
  function InitialActive(locationHash: string, isHome: bool): (r: string)
    ensures r == "" || r in NavIds
    ensures RemoveFirst(locationHash, '#') in NavIds ==> r == RemoveFirst(locationHash, '#')
    ensures RemoveFirst(locationHash, '#') !in NavIds ==> r == (if isHome then "about" else "")
  {
    var hash := RemoveFirst(locationHash, '#');
    if hash != "" && hash in NavIds then hash
    else if isHome then "about"
    else ""
  }

  /** A link to `#id` selects that section, on every page. */
  lemma InitialFromSectionLink(id: string, isHome: bool)
    requires id in NavIds
    ensures InitialActive("#" + id, isHome) == id
  {
    assert ("#" + id)[0] == '#' && ("#" + id)[1..] == id;
  }

  /** A section element found in the page, with its `offsetTop`. */
  datatype Section = Section(id: string, offsetTop: int)

  function Ids(sections: seq<Section>): (r: seq<string>)
    ensures |r| == |sections|
    ensures forall i :: 0 <= i < |r| ==> r[i] == sections[i].id
  {
    seq(|sections|, i requires 0 <= i < |sections| => sections[i].id)
  }

  /** The ids of `ids` that `getElementById` finds, in order, each with its
      element's `offsetTop`. */
  function SectionsFrom(ids: seq<string>, dom: map<string, int>): seq<Section> {
    if ids == [] then []
    else (if ids[0] in dom then [Section(ids[0], dom[ids[0]])] else []) + SectionsFrom(ids[1..], dom)
  }

  /** `sections`: the navigation items whose element is on the page, in
      navigation order; `dom` maps each element id on the page to its
      `offsetTop`. */
  function SectionsOf(dom: map<string, int>): seq<Section> {
    SectionsFrom(NavIds, dom)
  }

  /** Each kept section is one of the ids, found on the page, at its
      element's offset. */
  lemma {:induction false} SectionsFromFound(ids: seq<string>, dom: map<string, int>)
    ensures forall i :: 0 <= i < |SectionsFrom(ids, dom)| ==>
      SectionsFrom(ids, dom)[i].id in ids && SectionsFrom(ids, dom)[i].id in dom &&
      SectionsFrom(ids, dom)[i].offsetTop == dom[SectionsFrom(ids, dom)[i].id]
    decreases |ids|
  {
    if ids != [] {
      SectionsFromFound(ids[1..], dom);
      var rest := SectionsFrom(ids[1..], dom);
      var r := SectionsFrom(ids, dom);
      assert forall id :: id in ids[1..] ==> id in ids;
      if ids[0] in dom {
        assert r == [Section(ids[0], dom[ids[0]])] + rest;
      } else {
        assert r == rest;
      }
    }
  }

  /** Every id found on the page is kept, so nothing is kept exactly when
      no id is found. */
  lemma {:induction false} SectionsFromComplete(ids: seq<string>, dom: map<string, int>)
    ensures forall id :: id in ids && id in dom ==> id in Ids(SectionsFrom(ids, dom))
    ensures SectionsFrom(ids, dom) == [] <==> forall id :: id in ids ==> id !in dom
    decreases |ids|
  {
    if ids != [] {
      SectionsFromComplete(ids[1..], dom);
      var rest := SectionsFrom(ids[1..], dom);
      var r := SectionsFrom(ids, dom);
      assert forall id :: id in ids <==> id == ids[0] || id in ids[1..] by {
        assert ids == [ids[0]] + ids[1..];
      }
      if ids[0] in dom {
        assert r == [Section(ids[0], dom[ids[0]])] + rest;
        assert Ids(r) == [ids[0]] + Ids(rest);
      } else {
        assert r == rest;
      }
    }
  }

  /** The kept sections are in the order of the ids. */
  lemma {:induction false} SectionsFromInOrder(ids: seq<string>, dom: map<string, int>)
    ensures Seqs.IsSubsequence(Ids(SectionsFrom(ids, dom)), ids)
    decreases |ids|
  {
    if ids != [] {
      SectionsFromInOrder(ids[1..], dom);
      var rest := SectionsFrom(ids[1..], dom);
      var r := SectionsFrom(ids, dom);
      if ids[0] in dom {
        assert r == [Section(ids[0], dom[ids[0]])] + rest;
        assert Ids(r)[0] == ids[0] && Ids(r)[1..] == Ids(rest);
      } else {
        assert r == rest;
      }
    }
  }

  /** The sections are exactly the navigation ids present on the page, in
      navigation order, each at its element's offset; there are none
      exactly when no id is present. */
  lemma SectionsOfMatchesPage(dom: map<string, int>)
    ensures forall i :: 0 <= i < |SectionsOf(dom)| ==>
      SectionsOf(dom)[i].id in NavIds && SectionsOf(dom)[i].id in dom &&
      SectionsOf(dom)[i].offsetTop == dom[SectionsOf(dom)[i].id]
    ensures forall id :: id in NavIds && id in dom ==> id in Ids(SectionsOf(dom))
    ensures SectionsOf(dom) == [] <==> forall id :: id in NavIds ==> id !in dom
    ensures Seqs.IsSubsequence(Ids(SectionsOf(dom)), NavIds)
  {
    SectionsFromFound(NavIds, dom);
    SectionsFromComplete(NavIds, dom);
    SectionsFromInOrder(NavIds, dom);
  }

  /** The index the backward scan stops at: the last section whose top is
      at or above `position`, or None when there is none. */
  function LastReached(sections: seq<Section>, position: int): (r: Option<nat>)
    ensures r.Some? ==> r.value < |sections| && sections[r.value].offsetTop <= position
    ensures r.Some? ==> forall j :: r.value < j < |sections| ==> sections[j].offsetTop > position
    ensures r.None? <==> forall j :: 0 <= j < |sections| ==> sections[j].offsetTop > position
    decreases |sections|
  {
    if sections == [] then None
    else if sections[|sections| - 1].offsetTop <= position then Some(|sections| - 1)
    else LastReached(sections[..|sections| - 1], position)
  }

  /** The scan's answer is the one index whose top is reached while every
      later top is not. */
  lemma LastReachedIs(sections: seq<Section>, position: int, k: nat)
    requires k < |sections| && sections[k].offsetTop <= position
    requires forall j :: k < j < |sections| ==> sections[j].offsetTop > position
    ensures LastReached(sections, position) == Some(k)
  {
  }

  /** Scrolling further down never moves the choice back up the list: the
      set of sections that have been reached only grows. */
  lemma LastReachedMonotone(sections: seq<Section>, p1: int, p2: int)
    requires p1 <= p2
    requires LastReached(sections, p1).Some?
    ensures LastReached(sections, p2).Some?
    ensures LastReached(sections, p1).value <= LastReached(sections, p2).value
  {
    var k1 := LastReached(sections, p1).value;
    assert sections[k1].offsetTop <= p2;
  }

  /** What `handleScroll` leaves as the active item, starting from `current`. */
  function ScrollTarget(current: string, isHome: bool, dom: map<string, int>, scrollY: int): string {
    var sections := SectionsOf(dom);
    if !isHome || |sections| == 0 then current
    else match LastReached(sections, scrollY + 100)
      case None => current
      case Some(k) => sections[k].id
  }

  /** A scroll either keeps the active item or makes a section that is on
      the page active: away from the home page, with no sections, or above
      every section's top, nothing changes; otherwise the last section whose
      top is within 100 pixels below the viewport's top wins. */
  lemma ScrollTargetStaysOrLands(current: string, isHome: bool, dom: map<string, int>, scrollY: int)
    ensures ScrollTarget(current, isHome, dom, scrollY) == current ||
      (ScrollTarget(current, isHome, dom, scrollY) in NavIds && ScrollTarget(current, isHome, dom, scrollY) in dom)
    ensures !isHome ==> ScrollTarget(current, isHome, dom, scrollY) == current
    ensures (forall id :: id in NavIds ==> id !in dom) ==> ScrollTarget(current, isHome, dom, scrollY) == current
    ensures (forall id :: id in NavIds && id in dom ==> dom[id] > scrollY + 100) ==>
      ScrollTarget(current, isHome, dom, scrollY) == current
    ensures isHome && (exists id :: id in NavIds && id in dom && dom[id] <= scrollY + 100) ==>
      ScrollTarget(current, isHome, dom, scrollY) in NavIds &&
      ScrollTarget(current, isHome, dom, scrollY) in dom &&
      dom[ScrollTarget(current, isHome, dom, scrollY)] <= scrollY + 100
    ensures isHome && (exists j :: 0 <= j < |SectionsOf(dom)| && SectionsOf(dom)[j].offsetTop <= scrollY + 100) ==>
      exists k :: 0 <= k < |SectionsOf(dom)| &&
        ScrollTarget(current, isHome, dom, scrollY) == SectionsOf(dom)[k].id &&
        SectionsOf(dom)[k].offsetTop <= scrollY + 100 &&
        forall j :: k < j < |SectionsOf(dom)| ==> SectionsOf(dom)[j].offsetTop > scrollY + 100
  {
    SectionsOfMatchesPage(dom);
    var sections := SectionsOf(dom);
    if isHome && |sections| > 0 {
      var last := LastReached(sections, scrollY + 100);
      if last.None? {
        forall id | id in NavIds && id in dom
          ensures dom[id] > scrollY + 100
        {
          assert id in Ids(sections);
          var j :| 0 <= j < |sections| && Ids(sections)[j] == id;
          assert sections[j].offsetTop > scrollY + 100;
        }
      } else {
        var k := last.value;
        assert sections[k].id in NavIds && sections[k].offsetTop == dom[sections[k].id];
      }
    }
  }

  /** Whether an item's desktop underline slides in: it is active or hovered. */
  predicate UnderlineShown(item: string, activeItem: string, hoveredItem: Option<string>) {
    activeItem == ToLower(item) || hoveredItem == Some(item)
  }

  /** After a click on an item, with nothing hovered, exactly that item is
      underlined. */
  lemma UnderlineAfterClick(clicked: string, item: string)
    requires clicked in NavItems && item in NavItems
    ensures UnderlineShown(item, ToLower(clicked), None) <==> item == clicked
  {
    NavIdsAreLowerCasedItems(Index(clicked));
    NavIdsAreLowerCasedItems(Index(item));
  }

  /** The bar's state. `bodyOverflow` is `document.body.style.overflow`,
      which the effect on `isOpen` keeps in step with the menu. */
  class NavbarState {
    var isOpen: bool
    var activeItem: string
    var hoveredItem: Option<string>
    var bodyOverflow: string

    /** The page behind an open menu does not scroll. */
    ghost predicate Valid()
      reads this
    {
      bodyOverflow == (if isOpen then "hidden" else "")
    }

    constructor ()
      ensures Valid() && !isOpen && activeItem == "" && hoveredItem == None
    {
      isOpen := false;
      activeItem := "";
      hoveredItem := None;
      bodyOverflow := "";
    }

    /** `handleScroll`: on the home page, scan the sections from the last
        to the first and make the first one whose top is at or above
        `scrollY + 100` active. */
    method HandleScroll(isHome: bool, dom: map<string, int>, scrollY: int)
      modifies this`activeItem
      ensures activeItem == ScrollTarget(old(activeItem), isHome, dom, scrollY)
    {
      if !isHome {
        return;
      }
      var sections := SectionsOf(dom);
      if |sections| == 0 {
        return;
      }
      var scrollPosition := scrollY + 100;
      var i := |sections| - 1;
      while i >= 0
        invariant -1 <= i < |sections|
        invariant forall j :: i < j < |sections| ==> sections[j].offsetTop > scrollPosition
        invariant activeItem == old(activeItem)
      {
        if sections[i].offsetTop <= scrollPosition {
          LastReachedIs(sections, scrollPosition, i);
          activeItem := sections[i].id;
          break;
        }
        i := i - 1;
      }
      if i < 0 {
        assert LastReached(sections, scrollPosition) == None;
      }
    }

    /** The effect that runs when the location changes: the choice from the
        hash, then an immediate scroll check. */
    method OnLocationChange(locationHash: string, isHome: bool, dom: map<string, int>, scrollY: int)
      modifies this`activeItem
      ensures activeItem == ScrollTarget(InitialActive(locationHash, isHome), isHome, dom, scrollY)
    {
      activeItem := InitialActive(locationHash, isHome);
      HandleScroll(isHome, dom, scrollY);
    }

    /** `handleNavItemClick`: the item becomes active and the menu closes. */
    method ClickNavItem(item: string)
      requires item in NavItems
      modifies this
      ensures Valid()
      ensures activeItem == ToLower(item) && activeItem in NavIds
      ensures !isOpen && hoveredItem == old(hoveredItem)
    {
      activeItem := ToLower(item);
      isOpen := false;
      bodyOverflow := "";
      NavIdsAreLowerCasedItems(Index(item));
    }

    /** The menu button flips the menu. */
    method ToggleMenu()
      modifies this
      ensures Valid()
      ensures isOpen == !old(isOpen)
      ensures activeItem == old(activeItem) && hoveredItem == old(hoveredItem)
    {
      isOpen := !isOpen;
      bodyOverflow := if isOpen then "hidden" else "";
    }

    /** The mobile menu's "Timeline" and "Back to Home" links close it. */
    method CloseMenu()
      modifies this
      ensures Valid() && !isOpen
      ensures activeItem == old(activeItem) && hoveredItem == old(hoveredItem)
    {
      isOpen := false;
      bodyOverflow := "";
    }

    method HoverEnter(name: string)
      modifies this`hoveredItem
      ensures hoveredItem == Some(name)
    {
      hoveredItem := Some(name);
    }

    method HoverLeave()
      modifies this`hoveredItem
      ensures hoveredItem == None
    {
      hoveredItem := None;
    }
  }

  function Index(item: string): (i: nat)
    requires item in NavItems
    ensures i < |NavItems| && NavItems[i] == item
  {
    if item == NavItems[0] then 0
    else if item == NavItems[1] then 1
    else if item == NavItems[2] then 2
    else if item == NavItems[3] then 3
    else 4
  }
}
