/** The dashboard breadcrumbs: the current path is split on "/", empty
    segments are dropped, and segment i becomes a crumb whose name is the
    segment with its first letter upper-cased and whose link is "/" followed
    by the first i+1 segments joined with "/". */
module Breadcrumbs {
  import opened Strings
  import opened Effects

  datatype Crumb = Crumb(name: string, relativeLink: string)

  /** `parts.filter(Boolean)`: drop the empty strings, keep the order. */
  function NonEmpty(parts: seq<string>): (r: seq<string>)
    ensures |r| <= |parts|
    ensures forall i :: 0 <= i < |r| ==> r[i] != ""
  {
    if |parts| == 0 then []
    else (if parts[0] == "" then [] else [parts[0]]) + NonEmpty(parts[1..])
  }

  /** `path.split("/").filter(Boolean)` */
  function Segments(path: string): (segs: seq<string>)
    ensures forall i :: 0 <= i < |segs| ==> segs[i] != "" && '/' !in segs[i]
  {
    var parts := Split(path, '/');
    NonEmptyKeepsSeparatorFree(parts);
    NonEmpty(parts)
  }

  lemma NonEmptyKeepsSeparatorFree(parts: seq<string>)
    requires forall i :: 0 <= i < |parts| ==> '/' !in parts[i]
    ensures forall i :: 0 <= i < |NonEmpty(parts)| ==> '/' !in NonEmpty(parts)[i]
  {
    if |parts| > 0 {
      NonEmptyKeepsSeparatorFree(parts[1..]);
    }
  }

  /** `segment.charAt(0).toUpperCase() + segment.slice(1)` (ASCII letters only). */
  function Capitalize(segment: string): (name: string)
    ensures |name| == |segment|
    ensures |segment| > 0 ==> name[0] == UpperChar(segment[0]) && name[1..] == segment[1..]
  {
    if |segment| == 0 then "" else [UpperChar(segment[0])] + segment[1..]
  }

  /** The link of crumb i: "/" + segments[0..i].join("/"). */
  function LinkUpTo(segs: seq<string>, i: nat): string
    requires i < |segs|
  {
    "/" + Join(segs[..i + 1], '/')
  }

  /** The breadcrumb list of a path, built as `segments.map(...)` builds it. */
  function Build(path: string): (crumbs: seq<Crumb>)
    ensures |crumbs| == |Segments(path)|
    ensures forall i :: 0 <= i < |crumbs| ==>
              crumbs[i] == Crumb(Capitalize(Segments(path)[i]), LinkUpTo(Segments(path), i))
  {
    var segs := Segments(path);
    seq(|segs|, i requires 0 <= i < |segs| => Crumb(Capitalize(segs[i]), LinkUpTo(segs, i)))
  }

  /** What the component renders for `usePathname()`: the crumbs, or a
      crash when the pathname is null, since `path.split` is then called on
      null. */
  datatype Rendered = Crumbs(crumbs: seq<Crumb>) | Crashed

  /** `NavbarBreadcrumbs` on the pathname hook's value. It crashes exactly
      when there is no pathname; otherwise every crumb has a non-empty name
      and a link that starts with "/", one crumb per non-empty segment. */
  function Render(pathname: Option<string>): (r: Rendered)
    ensures r.Crashed? <==> pathname.None?
    ensures r.Crumbs? ==>
      && |r.crumbs| == |Segments(pathname.value)|
      && forall i :: 0 <= i < |r.crumbs| ==> r.crumbs[i].name != "" && StartsWith(r.crumbs[i].relativeLink, "/")
  {
    if pathname.None? then Crashed
    else
      var crumbs := Build(pathname.value);
      assert forall i :: 0 <= i < |crumbs| ==> StartsWith(crumbs[i].relativeLink, "/") by {
        forall i | 0 <= i < |crumbs| {
          StartsWithAppend("/", Join(Segments(pathname.value)[..i + 1], '/'));
        }
      }
      Crumbs(crumbs)
  }

  /** A name is its segment with only the first character changed. */
  lemma NamesKeepSegments(path: string, i: nat)
    requires i < |Build(path)|
    ensures |Build(path)[i].name| == |Segments(path)[i]| > 0
    ensures Build(path)[i].name[0] == UpperChar(Segments(path)[i][0])
    ensures Build(path)[i].name[1..] == Segments(path)[i][1..]
  {
  }

  lemma NonEmptySkipsEmptyHead(rest: seq<string>)
    ensures NonEmpty([""] + rest) == NonEmpty(rest)
  {
    assert ([""] + rest)[1..] == rest;
  }

  lemma {:induction false} NonEmptyOfNonEmpty(parts: seq<string>)
    requires forall i :: 0 <= i < |parts| ==> parts[i] != ""
    ensures NonEmpty(parts) == parts
    decreases |parts|
  {
    if |parts| > 0 {
      NonEmptyOfNonEmpty(parts[1..]);
      assert [parts[0]] + parts[1..] == parts;
    }
  }

  /** A path yields no breadcrumbs exactly when it consists of slashes only;
      in particular "" and "/" give none. */
  lemma {:induction false} NoCrumbsIffOnlySlashes(path: string)
    ensures Build(path) == [] <==> forall i :: 0 <= i < |path| ==> path[i] == '/'
    decreases |path|
  {
    if |path| > 0 {
      NoCrumbsIffOnlySlashes(path[1..]);
      var rest := Split(path[1..], '/');
      if path[0] == '/' {
        NonEmptySkipsEmptyHead(rest);
        assert forall i :: 1 <= i < |path| ==> path[i] == path[1..][i - 1];
      } else {
        var parts := Split(path, '/');
        assert parts[0] != "";
        assert NonEmpty(parts)[0] == parts[0];
      }
    }
  }

  /** Each link extends the previous one by "/" and exactly one segment, so
      each is a strict prefix of the next. */
  lemma LinkChain(path: string, i: nat)
    requires i + 1 < |Build(path)|
    ensures Build(path)[i + 1].relativeLink
         == Build(path)[i].relativeLink + "/" + Segments(path)[i + 1]
    ensures StartsWith(Build(path)[i + 1].relativeLink, Build(path)[i].relativeLink)
    ensures |Build(path)[i].relativeLink| < |Build(path)[i + 1].relativeLink|
  {
    var segs := Segments(path);
    var crumbs := Build(path);
    LinkStep(segs, i);
    var a := LinkUpTo(segs, i);
    assert crumbs[i].relativeLink == a;
    assert crumbs[i + 1].relativeLink == LinkUpTo(segs, i + 1);
    StartsWithAppend(a, "/" + segs[i + 1]);
    assert a + "/" + segs[i + 1] == a + ("/" + segs[i + 1]);
  }

  lemma LinkStep(segs: seq<string>, i: nat)
    requires i + 1 < |segs|
    ensures LinkUpTo(segs, i + 1) == LinkUpTo(segs, i) + "/" + segs[i + 1]
  {
    JoinSnoc(segs[..i + 1], segs[i + 1]);
    assert segs[..i + 1] + [segs[i + 1]] == segs[..i + 2];
  }

  lemma {:induction false} JoinSnoc(parts: seq<string>, last: string)
    requires |parts| >= 1
    ensures Join(parts + [last], '/') == Join(parts, '/') + "/" + last
    decreases |parts|
  {
    if |parts| == 1 {
      assert (parts + [last])[1..] == [last];
    } else {
      JoinSnoc(parts[1..], last);
      assert (parts + [last])[1..] == parts[1..] + [last];
    }
  }

  /** The path with empty segments collapsed: the link of the last crumb. */
  function Collapse(path: string): string
    requires |Segments(path)| > 0
  {
    "/" + Join(Segments(path), '/')
  }

  /** The last link is the collapsed path, and building breadcrumbs again
      from it gives the same list. */
  lemma Idempotent(path: string)
    requires |Build(path)| > 0
    ensures Build(path)[|Build(path)| - 1].relativeLink == Collapse(path)
    ensures Segments(Collapse(path)) == Segments(path)
    ensures Build(Collapse(path)) == Build(path)
  {
    var segs := Segments(path);
    assert segs[..|segs|] == segs;
    var c := Collapse(path);
    var joined := Join(segs, '/');
    SplitJoin(segs, '/');
    assert Split(c, '/') == [""] + Split(joined, '/') by {
      assert c[0] == '/';
      assert c[1..] == joined;
    }
    NonEmptySkipsEmptyHead(segs);
    NonEmptyOfNonEmpty(segs);
  }
}
