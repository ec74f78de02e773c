/**
 * Highlighting of the navigation link of the section in view
 * (updateActiveNav, app.js:194-219).
 *
 * Positions and sizes are whole pixels. The sections are the page's
 * `section[id]` elements in document order; the links are the page's
 * `nav a[href^="#"]` elements, updated in place.
 */
module ActiveNav {

  import opened Wrappers

  /** The position probed is this far below the top of the viewport. */
  const ScrollOffset := 200

  /** A `section[id]`: its id, `offsetTop` and `clientHeight`. */
  datatype Section = Section(id: string, offsetTop: int, clientHeight: int)

  /** A navigation link: its href, its class list and its `aria-current` attribute. */
  datatype NavLink = NavLink(href: string, classes: set<string>, ariaCurrent: Option<string>)

  /** The half-open range [top, top + height) of the section contains `pos`. */
  predicate Covers(section: Section, pos: int) {
    pos >= section.offsetTop && pos < section.offsetTop + section.clientHeight
  }

  /** The id of the last section covering `pos`, or "" when none does. */
  function LastCovering(sections: seq<Section>, pos: int): (id: string)
    decreases |sections|
  {
    if sections == [] then ""
    else if Covers(sections[|sections| - 1], pos) then sections[|sections| - 1].id
    else LastCovering(sections[..|sections| - 1], pos)
  }

  /**
   * LastCovering gives the id of the section covering `pos` after which no
   * section covers `pos`, and "" when no section covers it.
   */
  lemma {:induction false} LastCoveringIsLast(sections: seq<Section>, pos: int)
    ensures (forall i :: 0 <= i < |sections| ==> !Covers(sections[i], pos)) ==>
              LastCovering(sections, pos) == ""
    ensures forall i :: 0 <= i < |sections| && Covers(sections[i], pos) &&
                        (forall j :: i < j < |sections| ==> !Covers(sections[j], pos)) ==>
              LastCovering(sections, pos) == sections[i].id
    decreases |sections|
  {
    if sections != [] {
      var n := |sections| - 1;
      var init := sections[..n];
      if Covers(sections[n], pos) {
        assert LastCovering(sections, pos) == sections[n].id;
        forall i | 0 <= i < |sections| && Covers(sections[i], pos) &&
                   (forall j :: i < j < |sections| ==> !Covers(sections[j], pos))
          ensures i == n
        {
          if i < n {
            assert false;
          }
        }
      } else {
        assert LastCovering(sections, pos) == LastCovering(init, pos);
        LastCoveringIsLast(init, pos);
        forall i | 0 <= i < n
          ensures init[i] == sections[i]
        {
        }
      }
    }
  }

  /**
   * The first loop of updateActiveNav: walk the sections in document order,
   * remembering the id of every section whose range contains the scroll
   * position plus the offset.
   */
  method ChooseSection(pageYOffset: int, sections: seq<Section>) returns (current: string)
    ensures current == LastCovering(sections, pageYOffset + ScrollOffset)
  {
    current := "";
    var scrollPosition := pageYOffset + ScrollOffset;
    for i := 0 to |sections|
      invariant current == LastCovering(sections[..i], scrollPosition)
    {
      var section := sections[i];
      assert sections[..i + 1][..i] == sections[..i];
      if scrollPosition >= section.offsetTop && scrollPosition < section.offsetTop + section.clientHeight {
        current := section.id;
      }
    }
    assert sections[..|sections|] == sections;
  }

  /** A link is highlighted for `current` when `current` is non-empty and the href is `#` + current. */
  predicate Marks(current: string, href: string) {
    current != "" && href == "#" + current
  }

  /**
   * A link after the second loop: `active` is removed and `aria-current`
   * dropped, then both are set when the link points at `current`.
   */
  function Highlighted(link: NavLink, current: string): (r: NavLink)
    ensures r.href == link.href
    ensures r.classes - {"active"} == link.classes - {"active"}
    ensures "active" in r.classes <==> Marks(current, link.href)
    ensures r.ariaCurrent == Some("page") <==> Marks(current, link.href)
    ensures r.ariaCurrent == None <==> !Marks(current, link.href)
  {
    var cleared := link.(classes := link.classes - {"active"}, ariaCurrent := None);
    if Marks(current, link.href)
    then cleared.(classes := cleared.classes + {"active"}, ariaCurrent := Some("page"))
    else cleared
  }

  /** The second loop of updateActiveNav, over the links in place. */
  method HighlightLinks(links: array<NavLink>, current: string)
    modifies links
    ensures forall k :: 0 <= k < links.Length ==> links[k] == Highlighted(old(links[k]), current)
  {
    for i := 0 to links.Length
      invariant forall k :: 0 <= k < i ==> links[k] == Highlighted(old(links[k]), current)
      invariant forall k :: i <= k < links.Length ==> links[k] == old(links[k])
    {
      var link := links[i];
      link := link.(classes := link.classes - {"active"}, ariaCurrent := None);
      if current != "" && link.href == "#" + current {
        link := link.(classes := link.classes + {"active"}, ariaCurrent := Some("page"));
      }
      links[i] := link;
    }
  }

  /**
   * updateActiveNav: choose the section in view, then mark exactly the links
   * that point at it. Afterwards a link is `active` exactly when it has
   * `aria-current="page"`, exactly when the chosen id is non-empty and its
   * href is `#` + that id; no other class of any link changes.
   */
  method UpdateActiveNav(pageYOffset: int, sections: seq<Section>, links: array<NavLink>)
    returns (current: string)
    modifies links
    ensures current == LastCovering(sections, pageYOffset + ScrollOffset)
    ensures forall k :: 0 <= k < links.Length ==>
              && links[k] == Highlighted(old(links[k]), current)
              && links[k].href == old(links[k].href)
              && links[k].classes - {"active"} == old(links[k].classes) - {"active"}
              && ("active" in links[k].classes <==> links[k].ariaCurrent == Some("page"))
              && ("active" in links[k].classes <==> Marks(current, links[k].href))
              && (links[k].ariaCurrent == None <==> !Marks(current, links[k].href))
  {
    current := ChooseSection(pageYOffset, sections);
    HighlightLinks(links, current);
  }

}
