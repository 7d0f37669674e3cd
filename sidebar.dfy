/**
 * The two pieces of logic in the application shell (src/components/layout/sidebar-layout.tsx):
 * the page title derived from the current pathname, and which navigation entry is active.
 */
module SidebarLayout {
  import opened Text

  /** `pathname.split("/").pop()`: the last piece of the path (the split is never empty). */
  function LastSegment(path: string): (seg: string)
    ensures '/' !in seg
  {
    var pieces := Split(path, '/');
    pieces[|pieces| - 1]
  }

  /**
   * The last segment is the text after the last "/": a suffix of the path holding no "/",
   * preceded by a "/" unless it is the whole path.
   */
  lemma LastSegmentAfterLastSlash(path: string)
    ensures var seg := LastSegment(path);
      && |seg| <= |path|
      && path[|path| - |seg|..] == seg
      && '/' !in seg
      && (|seg| < |path| ==> path[|path| - |seg| - 1] == '/')
  {
    var pieces := Split(path, '/');
    var n := |pieces|;
    var seg := pieces[n - 1];
    JoinSplit(path, '/');
    JoinWithEnds(pieces, "/");
    if n > 1 {
      JoinWithSplitAt(pieces, "/", n - 1);
      assert pieces[n - 1..] == [seg];
      assert path == JoinWith(pieces[..n - 1], "/") + "/" + seg;
      assert path[|path| - |seg| - 1] == '/';
    } else {
      assert path == seg;
    }
  }

  /** The segment after a "/" at `k` that is followed by no other "/" is what follows `k`. */
  lemma LastSegmentAt(path: string, k: nat)
    requires k < |path| && path[k] == '/' && '/' !in path[k + 1..]
    ensures LastSegment(path) == path[k + 1..]
  {
    var seg := LastSegment(path);
    LastSegmentAfterLastSlash(path);
    var start := |path| - |seg|;
    assert forall j :: start <= j < |path| ==> path[j] == seg[j - start] != '/';
    assert k < start;
    assert forall j :: k < j < |path| ==> path[j] == path[k + 1..][j - (k + 1)] != '/';
    assert start == k + 1;
  }

  /** A path without any "/" is its own last segment. */
  lemma LastSegmentNoSlash(path: string)
    requires '/' !in path
    ensures LastSegment(path) == path
  {
    SplitWithoutSeparator(path, '/');
  }

  /**
   * `s.replace(from, to)` with a one-character string pattern: the first occurrence of
   * `from` becomes `to`, every other character stays.
   */
  function ReplaceFirst(s: string, from: char, to: char): (r: string)
    ensures |r| == |s|
    ensures forall i :: 0 <= i < |s| ==> r[i] == if s[i] == from && from !in s[..i] then to else s[i]
  {
    if s == [] then []
    else if s[0] == from then [to] + s[1..]
    else
      var rest := ReplaceFirst(s[1..], from, to);
      assert forall i :: 1 <= i <= |s| ==> s[..i] == [s[0]] + s[1..][..i - 1];
      [s[0]] + rest
  }

  /** A text without the pattern is left as it is. */
  lemma ReplaceFirstAbsent(s: string, from: char, to: char)
    requires from !in s
    ensures ReplaceFirst(s, from, to) == s
  {
  }

  /**
   * `pathname.split("/").pop()?.replace("-", " ") || "Dashboard"`: the last segment with
   * its first hyphen turned into a space, or "Dashboard" when that leaves the empty string.
   */
  function PageTitle(path: string): (title: string)
    ensures title != []
  {
    var t := ReplaceFirst(LastSegment(path), '-', ' ');
    if t == [] then "Dashboard" else t
  }

  /**
   * The title comes from the text after the last "/": "Dashboard" when nothing follows it
   * (the root path or a trailing slash), otherwise that text with only its first "-"
   * turned into a space.
   */
  lemma PageTitleAfterLastSlash(path: string, k: nat)
    requires k < |path| && path[k] == '/' && '/' !in path[k + 1..]
    ensures k + 1 == |path| ==> PageTitle(path) == "Dashboard"
    ensures k + 1 < |path| ==> PageTitle(path) == ReplaceFirst(path[k + 1..], '-', ' ')
  {
    LastSegmentAt(path, k);
  }

  /** The root path is titled "Dashboard". */
  lemma RootTitle()
    ensures PageTitle("/") == "Dashboard"
  {
    PageTitleAfterLastSlash("/", 0);
  }

  /** A path with no "/" at all is titled by the whole path, first hyphen replaced. */
  lemma PageTitleNoSlash(path: string)
    requires '/' !in path
    ensures path == [] ==> PageTitle(path) == "Dashboard"
    ensures path != [] ==> PageTitle(path) == ReplaceFirst(path, '-', ' ')
  {
    LastSegmentNoSlash(path);
  }

  /** Example: only the first of two hyphens becomes a space. */
  lemma TwoHyphensExample()
    ensures PageTitle("/a/b-c-d") == "b c-d"
  {
    var path := "/a/b-c-d";
    var seg := "b-c-d";
    assert path == "/a/" + seg;
    assert path[3..] == seg;
    assert '/' !in seg;
    PageTitleAfterLastSlash(path, 2);
    assert ReplaceFirst(seg[1..], '-', ' ') == " c-d";
  }

  /** An entry of the navigation sidebar. */
  datatype NavItem = NavItem(href: string, caption: string)

  /** `navItems`, in display order. */
  const NavItems: seq<NavItem> := [
    NavItem("/dashboard", "Dashboard"),
    NavItem("/profile", "Profile"),
    NavItem("/projects", "Projects"),
    NavItem("/discover", "Discover"),
    NavItem("/matchmaking", "Matchmaking"),
    NavItem("/events", "Events")
  ]

  /**
   * `isActive={pathname === item.href}`: exact equality, so a page below an entry's href
   * (such as "/projects/p1" below "/projects") does not make that entry active.
   */
  predicate IsActive(pathname: string, item: NavItem): (b: bool)
    ensures b ==> |pathname| == |item.href|
    ensures item.href < pathname ==> !b
  {
    pathname == item.href
  }

  /** No two navigation entries share an href. */
  lemma HrefsDistinct()
    ensures forall i, j :: 0 <= i < j < |NavItems| ==> NavItems[i].href != NavItems[j].href
  {
    forall i, j | 0 <= i < j < |NavItems|
      ensures NavItems[i].href != NavItems[j].href
    {
      assert NavItems[i].href[1] != NavItems[j].href[1] || |NavItems[i].href| != |NavItems[j].href|;
    }
  }

  /** Whatever the pathname, at most one entry is highlighted, and on its own href it is that one. */
  lemma AtMostOneActive(pathname: string)
    ensures forall i, j ::
      (0 <= i < |NavItems| && 0 <= j < |NavItems| && IsActive(pathname, NavItems[i]) && IsActive(pathname, NavItems[j]))
      ==> i == j
    ensures forall i :: 0 <= i < |NavItems| && pathname == NavItems[i].href ==>
      IsActive(pathname, NavItems[i])
  {
    HrefsDistinct();
  }

  /** A one-segment path names its own page when the segment holds no hyphen. */
  lemma PageOfSegment(name: string)
    requires name != [] && '/' !in name && '-' !in name
    ensures PageTitle("/" + name) == name
  {
    var path := "/" + name;
    assert path[1..] == name;
    PageTitleAfterLastSlash(path, 0);
    ReplaceFirstAbsent(name, '-', ' ');
  }
}
