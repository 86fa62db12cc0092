/** The breadcrumb trail shown above every dashboard page: one crumb per
    non-empty segment of the current path, each linking to the path up to that
    segment, the last one marked as the current page. */
module Breadcrumb {
  import opened Text
  import opened Seqs

  datatype Crumb = Crumb(caption: string, href: string, isCurrentPage: bool)

  /** `breadcrumbNameMap` */
  const BreadcrumbNameMap: map<string, string> :=
    map["dashboard" := "Dashboard", "users" := "Users", "products" := "Products"]

  function IsNonEmpty(s: string): bool {
    s != ""
  }

  /** `pathname.split("/").filter((segment) => segment !== "")` */
  function PathSegments(pathname: string): (segs: seq<string>)
    ensures forall s | s in segs :: s != "" && '/' !in s
  {
    SplitCharPieces(pathname, '/');
    FilterMembers(Split(pathname, "/"), IsNonEmpty);
    Filter(Split(pathname, "/"), IsNonEmpty)
  }

  /** The path with its empty segments removed: what the last crumb links to. */
  function NormalisedPath(pathname: string): string {
    "/" + Join(PathSegments(pathname), "/")
  }

  /** Splitting and filtering recovers any list of non-empty, slash-free segments
      from the path that joins them. */
  lemma SegmentsOfJoin(segs: seq<string>)
    requires forall s | s in segs :: s != "" && '/' !in s
    ensures PathSegments("/" + Join(segs, "/")) == segs
  {
    var pieces := if segs == [] then ["", ""] else [""] + segs;
    if segs == [] {
      assert "/" + Join(segs, "/") == Join(pieces, "/");
    } else {
      assert pieces[1..] == segs;
      assert "/" + Join(segs, "/") == Join(pieces, "/");
    }
    SplitJoin(pieces, '/');
    FilterConcat([""], pieces[1..], IsNonEmpty);
    assert pieces == [""] + pieces[1..];
    if segs == [] {
      assert Filter([""], IsNonEmpty) == [];
    } else {
      FilterKeepsAll(segs, IsNonEmpty);
    }
  }

  /** A slash between two parts separates their segments. */
  lemma SegmentsConcat(a: string, b: string)
    ensures PathSegments(a + "/" + b) == PathSegments(a) + PathSegments(b)
  {
    SplitConcat(a, b, '/');
    FilterConcat(Split(a, "/"), Split(b, "/"), IsNonEmpty);
  }

  lemma EmptyHasNoSegments()
    ensures PathSegments("") == []
  {
    assert Split("", "/") == [""];
  }

  /** `/` has no segments. */
  lemma RootHasNoSegments()
    ensures PathSegments("/") == []
  {
    EmptyHasNoSegments();
    SegmentsConcat("", "");
    assert "" + "/" + "" == "/";
  }

  /** A trailing slash contributes no segment. */
  lemma TrailingSlash(a: string)
    ensures PathSegments(a + "/") == PathSegments(a)
  {
    EmptyHasNoSegments();
    SegmentsConcat(a, "");
    assert a + "/" + "" == a + "/";
  }

  /** A leading slash contributes no segment. */
  lemma LeadingSlash(b: string)
    ensures PathSegments("/" + b) == PathSegments(b)
  {
    SegmentsConcat("", b);
    EmptyHasNoSegments();
    assert "" + "/" + b == "/" + b;
  }

  /** A doubled slash separates like a single one. */
  lemma DoubledSlash(a: string, b: string)
    ensures PathSegments(a + "//" + b) == PathSegments(a + "/" + b)
  {
    var sb := "/" + b;
    assert a + "//" + b == a + "/" + sb;
    SegmentsConcat(a, sb);
    LeadingSlash(b);
    SegmentsConcat(a, b);
  }

  /** Normalising a path keeps its segments, so normalising twice changes nothing. */
  lemma NormalisedPathSegments(pathname: string)
    ensures PathSegments(NormalisedPath(pathname)) == PathSegments(pathname)
    ensures NormalisedPath(NormalisedPath(pathname)) == NormalisedPath(pathname)
  {
    SegmentsOfJoin(PathSegments(pathname));
  }

  // ---------------------------------------------------------------------------
  // Labels

  predicate IsHexDigit(c: char) {
    '0' <= c <= '9' || 'a' <= c <= 'f' || 'A' <= c <= 'F'
  }

  /** `/^[0-9a-fA-F]{24}$/.test(segment)`: a database object id. */
  predicate IsObjectId(s: string)
    ensures IsObjectId(s) ==> s !in BreadcrumbNameMap
  {
    |s| == 24 && forall i :: 0 <= i < |s| ==> IsHexDigit(s[i])
  }

  /** `\w` of a regular expression without the `u` flag. */
  predicate IsWordChar(c: char) {
    'a' <= c <= 'z' || 'A' <= c <= 'Z' || '0' <= c <= '9' || c == '_'
  }

  /** `toUpperCase` on a one-character string; only ASCII letters matter here. */
  function ToUpper(c: char): char {
    if 'a' <= c <= 'z' then (c as int - 32) as char else c
  }

  /** `s.replace(/-/g, " ")` */
  function ReplaceDashes(s: string): string {
    seq(|s|, i requires 0 <= i < |s| => if s[i] == '-' then ' ' else s[i])
  }

  /** `\b\w` matches at `i`: a word character with no word character before it. */
  predicate WordStart(s: string, i: int)
    requires 0 <= i < |s|
  {
    IsWordChar(s[i]) && (i == 0 || !IsWordChar(s[i - 1]))
  }

  /** `s.replace(/\b\w/g, (char) => char.toUpperCase())` */
  function CapitalizeWords(s: string): string {
    seq(|s|, i requires 0 <= i < |s| => if WordStart(s, i) then ToUpper(s[i]) else s[i])
  }

  /** The fallback label: dashes become spaces and each word starts upper-case. */
  function Humanize(s: string): (caption: string)
    ensures |caption| == |s| && '-' !in caption
  {
    CapitalizeWords(ReplaceDashes(s))
  }

  /** One character of the fallback caption. */
  lemma HumanizeAt(s: string, i: int)
    requires 0 <= i < |s|
    ensures s[i] == '-' ==> Humanize(s)[i] == ' '
    ensures WordStart(s, i) ==> Humanize(s)[i] == ToUpper(s[i])
    ensures s[i] != '-' && !WordStart(s, i) ==> Humanize(s)[i] == s[i]
  {
    var t := ReplaceDashes(s);
    assert t[i] == if s[i] == '-' then ' ' else s[i];
    assert i > 0 ==> IsWordChar(t[i - 1]) == IsWordChar(s[i - 1]);
    assert WordStart(t, i) == WordStart(s, i);
    assert Humanize(s)[i] == CapitalizeWords(t)[i];
  }

  /** The fallback keeps the length, leaves no dash, turns dashes into spaces,
      upper-cases the character that starts a word and leaves every other one as is. */
  lemma HumanizeShape(s: string)
    ensures |Humanize(s)| == |s|
    ensures '-' !in Humanize(s)
    ensures forall i :: 0 <= i < |s| && s[i] == '-' ==> Humanize(s)[i] == ' '
    ensures forall i :: 0 <= i < |s| && WordStart(s, i) ==> Humanize(s)[i] == ToUpper(s[i])
    ensures forall i :: 0 <= i < |s| && s[i] != '-' && !WordStart(s, i) ==> Humanize(s)[i] == s[i]
  {
    forall i | 0 <= i < |s| {
      HumanizeAt(s, i);
    }
  }

  /** Applying the fallback to its own output changes nothing. */
  lemma HumanizeIdempotent(s: string)
    ensures Humanize(Humanize(s)) == Humanize(s)
  {
    var t := ReplaceDashes(s);
    var h := CapitalizeWords(t);
    assert ReplaceDashes(h) == h;
    forall i | 0 <= i < |h| ensures CapitalizeWords(h)[i] == h[i] {
      assert IsWordChar(h[i]) == IsWordChar(t[i]);
      assert i > 0 ==> IsWordChar(h[i - 1]) == IsWordChar(t[i - 1]);
    }
  }

  /** `formatSegment`: an object id reads "Details"; otherwise the name table's entry;
      otherwise the humanized segment. */
  function FormatSegment(segment: string): (caption: string)
    ensures IsObjectId(segment) ==> caption == "Details"
    ensures !IsObjectId(segment) && segment in BreadcrumbNameMap ==> caption == BreadcrumbNameMap[segment]
    ensures !IsObjectId(segment) && segment !in BreadcrumbNameMap ==> caption == Humanize(segment)
    ensures '-' !in caption
    ensures segment != "" ==> caption != ""
  {
    if IsObjectId(segment) then "Details"
    else if segment in BreadcrumbNameMap then BreadcrumbNameMap[segment]
    else Humanize(segment)
  }

  /** The three table entries, and an id that would otherwise be looked up. */
  lemma LabelExamples()
    ensures FormatSegment("dashboard") == "Dashboard"
    ensures FormatSegment("users") == "Users"
    ensures FormatSegment("products") == "Products"
    ensures FormatSegment("64b7f0c2a1e4d3b2c1a0f9e8") == "Details"
  {
    var id := "64b7f0c2a1e4d3b2c1a0f9e8";
    assert forall i :: 0 <= i < |id| ==> IsHexDigit(id[i]);
  }

  /** A segment outside the table is humanized word by word. */
  lemma HumanizedLabelExample()
    ensures FormatSegment("stock-items") == "Stock Items"
  {
    var s, t := "stock-items", "stock items";
    assert !IsObjectId(s);
    assert ReplaceDashes(s) == t;
    assert CapitalizeWords(t) == "Stock Items" by {
      assert WordStart(t, 0) && WordStart(t, 6);
      assert forall i :: 0 < i < |t| && i != 6 ==> !WordStart(t, i);
    }
  }

  // ---------------------------------------------------------------------------
  // The trail

  /** `breadcrumbs`: one crumb per segment. */
  function Breadcrumbs(pathname: string): (crumbs: seq<Crumb>)
    ensures |crumbs| == |PathSegments(pathname)|
    ensures forall i :: 0 <= i < |crumbs| ==> crumbs[i].caption == FormatSegment(PathSegments(pathname)[i])
  {
    var segs := PathSegments(pathname);
    seq(|segs|, i requires 0 <= i < |segs| =>
      Crumb(FormatSegment(segs[i]), Href(segs, i), i == |segs| - 1))
  }

  /** `"/" + pathSegments.slice(0, index + 1).join("/")` */
  function Href(segs: seq<string>, i: nat): (href: string)
    requires i < |segs|
    ensures StartsWith(href, "/" + segs[0])
  {
    "/" + Join(segs[..i + 1], "/")
  }

  lemma CrumbAt(pathname: string, i: nat)
    requires i < |Breadcrumbs(pathname)|
    ensures var segs := PathSegments(pathname);
            Breadcrumbs(pathname)[i] == Crumb(FormatSegment(segs[i]), Href(segs, i), i == |segs| - 1)
  {
  }

  /** Exactly one crumb, the last, is the current page. */
  lemma OnlyLastIsCurrent(pathname: string)
    ensures forall i :: 0 <= i < |Breadcrumbs(pathname)| ==>
              (Breadcrumbs(pathname)[i].isCurrentPage <==> i == |Breadcrumbs(pathname)| - 1)
  {
    forall i | 0 <= i < |Breadcrumbs(pathname)|
      ensures Breadcrumbs(pathname)[i].isCurrentPage <==> i == |Breadcrumbs(pathname)| - 1
    {
      CrumbAt(pathname, i);
    }
  }

  /** Each href is the previous one, a slash and the next segment. */
  lemma HrefStep(segs: seq<string>, i: nat)
    requires 0 < i < |segs|
    ensures Href(segs, i) == Href(segs, i - 1) + "/" + segs[i]
    ensures StartsWith(Href(segs, i), Href(segs, i - 1))
  {
    assert segs[..i + 1] == segs[..i] + [segs[i]];
    JoinSnoc(segs[..i], segs[i], "/");
    var prev := Href(segs, i - 1);
    assert Href(segs, i) == prev + ("/" + segs[i]);
    assert Href(segs, i)[..|prev|] == prev;
  }

  /** The step of HrefStep, read off the trail. */
  lemma CrumbHrefStep(pathname: string, i: nat)
    requires 0 < i < |Breadcrumbs(pathname)|
    ensures Breadcrumbs(pathname)[i].href == Breadcrumbs(pathname)[i - 1].href + "/" + PathSegments(pathname)[i]
    ensures StartsWith(Breadcrumbs(pathname)[i].href, Breadcrumbs(pathname)[i - 1].href)
  {
    CrumbAt(pathname, i);
    CrumbAt(pathname, i - 1);
    HrefStep(PathSegments(pathname), i);
  }

  /** Each href extends the previous one by a slash and the next segment, so each is a
      prefix of the next; the first is the first segment under the root. */
  lemma HrefsExtend(pathname: string)
    ensures var crumbs, segs := Breadcrumbs(pathname), PathSegments(pathname);
            forall i :: 0 < i < |crumbs| ==>
              crumbs[i].href == crumbs[i - 1].href + "/" + segs[i] && StartsWith(crumbs[i].href, crumbs[i - 1].href)
    ensures Breadcrumbs(pathname) != [] ==> Breadcrumbs(pathname)[0].href == "/" + PathSegments(pathname)[0]
  {
    var crumbs, segs := Breadcrumbs(pathname), PathSegments(pathname);
    forall i | 0 < i < |crumbs|
      ensures crumbs[i].href == crumbs[i - 1].href + "/" + segs[i] && StartsWith(crumbs[i].href, crumbs[i - 1].href)
    {
      CrumbHrefStep(pathname, i);
    }
    if crumbs != [] {
      CrumbAt(pathname, 0);
      assert segs[..1] == [segs[0]];
    }
  }

  /** Following a crumb leads to a path whose segments are those up to that crumb. */
  lemma HrefSegments(pathname: string, i: nat)
    requires i < |Breadcrumbs(pathname)|
    ensures PathSegments(Breadcrumbs(pathname)[i].href) == PathSegments(pathname)[..i + 1]
  {
    var segs := PathSegments(pathname);
    var prefix := segs[..i + 1];
    forall s | s in prefix ensures s != "" && '/' !in s {
      assert s in segs;
    }
    SegmentsOfJoin(prefix);
    CrumbAt(pathname, i);
    assert Breadcrumbs(pathname)[i].href == "/" + Join(prefix, "/");
  }

  /** The last crumb leads to the normalised path, whose trail is this one. */
  lemma LastHrefNormalised(pathname: string)
    requires Breadcrumbs(pathname) != []
    ensures var last := Breadcrumbs(pathname)[|Breadcrumbs(pathname)| - 1];
            last.href == NormalisedPath(pathname) && Breadcrumbs(last.href) == Breadcrumbs(pathname)
  {
    var segs := PathSegments(pathname);
    var n := |segs| - 1;
    CrumbAt(pathname, n);
    assert segs[..n + 1] == segs;
    NormalisedPathSegments(pathname);
  }

  /** The root has no crumbs, and a trailing slash does not change the trail. */
  lemma TrailIgnoresSlashes(pathname: string)
    ensures Breadcrumbs("/") == []
    ensures Breadcrumbs(pathname + "/") == Breadcrumbs(pathname)
  {
    RootHasNoSegments();
    TrailingSlash(pathname);
  }
}
