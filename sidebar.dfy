/**
 * The navigation sidebar: which collapsible sections are open, toggled one
 * at a time while the sidebar is expanded, and which entry is highlighted
 * for the current path.
 */
module Sidebar {

  /** The open/closed state of the sections, by key (a record of booleans in the source). */
  type Sections = map<string, bool>

  /** A section shows as open only when its key is present and true. */
  predicate Open(m: Sections, section: string) {
    section in m && m[section]
  }

  /** The keys of the seven collapsible sections. */
  const SectionKeys: seq<string> := ["dashboards", "reports", "input", "actions", "users", "kpi", "settings"]

  /** Every section starts closed. */
  function InitialSections(): (m: Sections)
    ensures forall k :: k in m <==> k in SectionKeys
    ensures forall k :: !Open(m, k)
  {
    map k | k in SectionKeys :: false
  }

  /**
   * `toggleSection`: while collapsed nothing changes; otherwise the named
   * section flips (a key not yet present becomes open) and every other key
   * keeps its value.
   */
  function ToggleSection(m: Sections, section: string, isCollapsed: bool): (r: Sections)
    ensures isCollapsed ==> r == m
    ensures !isCollapsed ==> section in r && Open(r, section) == !Open(m, section)
    ensures !isCollapsed ==> forall k :: k != section ==> (k in r <==> k in m) && (k in m ==> r[k] == m[k])
  {
    if isCollapsed then m else m[section := !Open(m, section)]
  }

  /**
   * Toggling the same section twice gives back the original map when the key
   * was present, and in every case leaves every section open or closed as it was.
   */
  lemma ToggleTwice(m: Sections, section: string, isCollapsed: bool)
    ensures forall k :: Open(ToggleSection(ToggleSection(m, section, isCollapsed), section, isCollapsed), k) == Open(m, k)
    ensures section in m ==> ToggleSection(ToggleSection(m, section, isCollapsed), section, isCollapsed) == m
  {
    var twice := ToggleSection(ToggleSection(m, section, isCollapsed), section, isCollapsed);
    if !isCollapsed && section in m {
      assert forall k :: k in twice <==> k in m;
      assert forall k :: k in m ==> twice[k] == m[k];
    }
  }

  /** The sub-menu of a section is drawn only when it has items, is open and the sidebar is expanded. */
  predicate SubMenuShown(hasSubItems: bool, isOpen: bool, isCollapsed: bool) {
    hasSubItems && isOpen && !isCollapsed
  }

  /** The sections after a series of clicks on section headers. */
  function ToggleMany(m: Sections, clicks: seq<string>, isCollapsed: bool): Sections
    decreases |clicks|
  {
    if clicks == [] then m else ToggleMany(ToggleSection(m, clicks[0], isCollapsed), clicks[1..], isCollapsed)
  }

  /** Clicks on section headers while the sidebar is collapsed change nothing. */
  lemma {:induction false} CollapsedClicksInert(m: Sections, clicks: seq<string>)
    ensures ToggleMany(m, clicks, true) == m
  {
    if clicks != [] {
      CollapsedClicksInert(ToggleSection(m, clicks[0], true), clicks[1..]);
    }
  }

  /**
   * A collapsed sidebar shows no sub-menu; once it is expanded again, whatever
   * was clicked in between, exactly the sections that were open show theirs.
   */
  lemma SubMenusAfterCollapse(m: Sections, clicks: seq<string>, section: string, hasSubItems: bool)
    ensures !SubMenuShown(hasSubItems, Open(m, section), true)
    ensures SubMenuShown(hasSubItems, Open(ToggleMany(m, clicks, true), section), false) <==>
      hasSubItems && Open(m, section)
  {
    CollapsedClicksInert(m, clicks);
  }

  predicate StartsWith(s: string, prefix: string) {
    |prefix| <= |s| && s[..|prefix|] == prefix
  }

  /** A top-level entry: Home is matched exactly, every other entry by prefix. */
  datatype NavEntry = Home | Prefixed(prefix: string)

  /** The entries in the order the sidebar draws them. */
  const NavEntries: seq<NavEntry> := [
    Home, Prefixed("/dashboards"), Prefixed("/reports"), Prefixed("/input"),
    Prefixed("/actions"), Prefixed("/users"), Prefixed("/kpi-management"), Prefixed("/settings")
  ]

  predicate IsActive(pathname: string, entry: NavEntry) {
    match entry
    case Home => pathname == "/"
    case Prefixed(p) => StartsWith(pathname, p)
  }

  /** Two prefixes of the same path: the shorter is a prefix of the longer. */
  lemma PrefixesNest(s: string, p: string, q: string)
    requires StartsWith(s, p) && StartsWith(s, q) && |p| <= |q|
    ensures StartsWith(q, p)
  {
    assert q[..|p|] == s[..|q|][..|p|];
  }

  /** No entry's prefix starts with another's: they already differ in the character after the slash. */
  lemma PrefixesIndependent(i: nat, j: nat)
    requires i < |NavEntries| && j < |NavEntries| && i != j
    requires NavEntries[i].Prefixed? && NavEntries[j].Prefixed?
    ensures !StartsWith(NavEntries[j].prefix, NavEntries[i].prefix)
  {
    var p, q := NavEntries[i].prefix, NavEntries[j].prefix;
    assert |p| > 1 && |q| > 1 && p[1] != q[1];
  }

  /** For any path, at most one sidebar entry is highlighted. */
  lemma AtMostOneActive(pathname: string, i: nat, j: nat)
    requires i < |NavEntries| && j < |NavEntries|
    requires IsActive(pathname, NavEntries[i]) && IsActive(pathname, NavEntries[j])
    ensures i == j
  {
    if i != j {
      if NavEntries[i].Prefixed? && NavEntries[j].Prefixed? {
        var p, q := NavEntries[i].prefix, NavEntries[j].prefix;
        if |p| <= |q| {
          PrefixesNest(pathname, p, q);
          PrefixesIndependent(i, j);
        } else {
          PrefixesNest(pathname, q, p);
          PrefixesIndependent(j, i);
        }
      }
    }
  }

  /**
   * The sidebar's state: the collapsed flag comes from the enclosing layout
   * and may change between renders, while the open sections are the
   * sidebar's own state and survive such changes.
   */
  class SidebarView {
    var isCollapsed: bool
    var openSections: Sections

    constructor (isCollapsed: bool)
      ensures this.isCollapsed == isCollapsed && openSections == InitialSections()
    {
      this.isCollapsed := isCollapsed;
      openSections := InitialSections();
    }

    /**
     * The layout passes a new collapsed flag: the sections keep their state,
     * so re-expanding shows the sub-menus that were open before.
     */
    method SetCollapsed(isCollapsed: bool)
      modifies this
      ensures this.isCollapsed == isCollapsed
      ensures openSections == old(openSections)
      ensures isCollapsed ==> forall s, h :: !ShowsSubMenu(s, h)
      ensures !isCollapsed ==> forall s :: ShowsSubMenu(s, true) <==> Open(old(openSections), s)
    {
      this.isCollapsed := isCollapsed;
    }

    /** Whether the entry for `section`, with or without sub-items, draws its sub-menu. */
    predicate ShowsSubMenu(section: string, hasSubItems: bool)
      reads this
    {
      SubMenuShown(hasSubItems, Open(openSections, section), isCollapsed)
    }

    method Toggle(section: string)
      modifies this
      ensures isCollapsed == old(isCollapsed)
      ensures openSections == ToggleSection(old(openSections), section, isCollapsed)
    {
      if !isCollapsed {
        openSections := openSections[section := !(section in openSections && openSections[section])];
      }
    }
  }
}
