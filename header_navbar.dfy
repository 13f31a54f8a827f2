/**
 * components/shared/HeaderNavbar.tsx: the sticky page header, holding the
 * module title and (unless switched off) the breadcrumb trail.
 */
module HeaderNavbar {
  import opened Text
  import opened Words
  import opened Js

  /** `(pathname || "/").split("?")[0].split("#")[0]`: the path without its query and fragment. */
  function PathPart(pathname: string): string
  {
    var p := if pathname == "" then "/" else pathname;
    Split(Split(p, '?')[0], '#')[0]
  }

  /** The module's segment: the second one under `/app`, else the first ("" when missing). */
  function ModuleRoot(segs: seq<string>): string
  {
    if |segs| > 0 && segs[0] == "app" then (if |segs| > 1 then segs[1] else "")
    else if |segs| > 0 then segs[0] else ""
  }

  /** The trimmed module segment of a path. */
  function RootOf(pathname: string): (root: string)
    ensures IsTrimmed(root)
  {
    Trim(ModuleRoot(NonEmpty(Split(PathPart(pathname), '/'))))
  }

  /** The title of a module segment: dash and underscore runs made spaces, trimmed, each word's first character upper-cased. */
  function TitleOfRoot(root: string): (r: string)
    ensures IsTrimmed(r)
    ensures forall i :: 0 <= i < |r| ==> r[i] != '-' && r[i] != '_'
    ensures var s := Trim(ReplaceRuns(root, IsDashOrUnderscore));
      && |r| == |s|
      && forall i :: 0 <= i < |s| ==> r[i] == (if StartsWord(s, i, false) then UpperChar(s[i]) else s[i])
  {
    var spaced := ReplaceRuns(root, IsDashOrUnderscore);
    assert '-' !in spaced && '_' !in spaced;
    var s := Trim(spaced);
    TrimKeepsAbsent(spaced, '-');
    TrimKeepsAbsent(spaced, '_');
    var r := UpperWordStarts(s, false);
    UpperWordStartsKeepsMarks(s, false);
    assert forall i :: 0 <= i < |s| ==> !IsDashOrUnderscore(s[i]);
    r
  }

  /** A worked case: "log-in" is titled "Log In". */
  lemma TitleOfRootExample(root: string)
    requires root == "log-in"
    ensures TitleOfRoot(root) == "Log In"
  {
    ReplaceRunsExample();
    TrimOfTrimmed("log in");
    UpperWordStartsExample();
  }

  /** `titleFromPath`: "" when the path has no module segment, else that segment's title. */
  function TitleFromPath(pathname: string): (r: string)
    ensures IsTrimmed(r)
    ensures forall i :: 0 <= i < |r| ==> r[i] != '-' && r[i] != '_'
    ensures RootOf(pathname) == "" ==> r == ""
    ensures RootOf(pathname) != "" ==> r == TitleOfRoot(RootOf(pathname))
  {
    var root := RootOf(pathname);
    if root == "" then "" else TitleOfRoot(root)
  }

  /** A query string after the path does not change the title. */
  lemma QueryIgnored(p: string, q: string)
    requires p != "" && '?' !in p && '#' !in p
    ensures PathPart(p + "?" + q) == PathPart(p)
    ensures TitleFromPath(p + "?" + q) == TitleFromPath(p)
  {
    var s := p + "?" + q;
    assert s[..|p|] == p && s[|p|] == '?';
    SplitAt(s, '?', |p|);
    SplitWithoutSep(p, '#');
    PathPartOfPlain(p);
  }

  /** A fragment after the path does not change the title. */
  lemma FragmentIgnored(p: string, f: string)
    requires p != "" && '?' !in p && '#' !in p && '?' !in f
    ensures PathPart(p + "#" + f) == PathPart(p)
    ensures TitleFromPath(p + "#" + f) == TitleFromPath(p)
  {
    var s := p + "#" + f;
    assert '?' !in s by {
      assert forall i :: 0 <= i < |s| ==> s[i] == '#' || s[i] in p || s[i] in f;
    }
    SplitWithoutSep(s, '?');
    assert s[..|p|] == p && s[|p|] == '#';
    SplitAt(s, '#', |p|);
    PathPartOfPlain(p);
  }

  /** The `/` parts of `/app/m` and `/m`, for a single segment `m`. */
  lemma AppPathParts(m: string)
    requires m != "" && '/' !in m
    ensures Split("/app/" + m, '/') == ["", "app", m]
    ensures Split("/" + m, '/') == ["", m]
  {
    var long := "/app/" + m;
    assert long[..0] == "" && long[1..] == "app/" + m;
    SplitAt(long, '/', 0);
    assert ("app/" + m)[..3] == "app" && ("app/" + m)[4..] == m;
    SplitAt("app/" + m, '/', 3);
    SplitWithoutSep(m, '/');
    var short := "/" + m;
    assert short[..0] == "" && short[1..] == m;
    SplitAt(short, '/', 0);
  }

  /** Dropping the empty part before the leading slash. */
  lemma LeadingEmptyDropped(m: string)
    requires m != ""
    ensures NonEmpty(["", "app", m]) == ["app", m]
    ensures NonEmpty(["", m]) == [m]
  {
    assert [m][1..] == [] && NonEmpty([m]) == [m];
    assert ["app", m][1..] == [m] && NonEmpty(["app", m]) == ["app", m];
    assert ["", "app", m][1..] == ["app", m];
    assert ["", m][1..] == [m];
  }

  /** A path without query or fragment is its own path part. */
  lemma PathPartOfPlain(p: string)
    requires p != "" && '?' !in p && '#' !in p
    ensures PathPart(p) == p
  {
    SplitWithoutSep(p, '?');
    SplitWithoutSep(p, '#');
  }

  /** The module segment of a path without query or fragment is read from its `/` parts. */
  lemma RootOfPlain(p: string)
    requires p != "" && '?' !in p && '#' !in p
    ensures RootOf(p) == Trim(ModuleRoot(NonEmpty(Split(p, '/'))))
  {
    PathPartOfPlain(p);
  }

  /** Under `/app` the title comes from the next segment: `/app/m` and `/m` have the same title. */
  lemma AppPrefixSkipped(m: string)
    requires m != "" && m != "app" && '/' !in m && '?' !in m && '#' !in m
    ensures RootOf("/app/" + m) == RootOf("/" + m) == Trim(m)
    ensures TitleFromPath("/app/" + m) == TitleFromPath("/" + m)
  {
    assert '?' !in "/app/" + m && '#' !in "/app/" + m;
    assert '?' !in "/" + m && '#' !in "/" + m;
    AppPathParts(m);
    LeadingEmptyDropped(m);
    RootOfPlain("/app/" + m);
    RootOfPlain("/" + m);
  }

  /** The props the title reads (`title` and `titleFallback` are "" when absent; `showBreadcrumb` None when absent). */
  datatype Props = Props(title: string, titleFallback: string, showBreadcrumb: Option<bool>)

  /**
   * The `title` memo: the `title` prop, else the `NEXT_PUBLIC_MODULE_NAME`
   * setting, else the title of the path, else `titleFallback`, else
   * "Module"; each trimmed, the first non-blank one winning.
   */
  function Title(props: Props, publicModuleName: string, pathname: string): (r: string)
    ensures r != "" && IsTrimmed(r)
    ensures !IsBlank(props.title) ==> r == Trim(props.title)
    ensures IsBlank(props.title) && !IsBlank(publicModuleName) ==> r == Trim(publicModuleName)
    ensures IsBlank(props.title) && IsBlank(publicModuleName) && TitleFromPath(pathname) != "" ==> r == TitleFromPath(pathname)
    ensures IsBlank(props.title) && IsBlank(publicModuleName) && TitleFromPath(pathname) == "" ==>
      r == (if IsBlank(props.titleFallback) then "Module" else Trim(props.titleFallback))
  {
    var fromProp := Trim(props.title);
    if fromProp != "" then fromProp
    else
      var fromPublicEnv := Trim(publicModuleName);
      if fromPublicEnv != "" then fromPublicEnv
      else
        var fromPath := TitleFromPath(pathname);
        if fromPath != "" then fromPath
        else
          TrimOfTrimmed("Module");
          var fallback := Trim(if props.titleFallback == "" then "Module" else props.titleFallback);
          if fallback == "" then "Module" else fallback
  }

  /** `props.showBreadcrumb !== false` */
  function ShowBreadcrumb(props: Props): (r: bool)
    ensures !r <==> props.showBreadcrumb == Some(false)
  {
    props.showBreadcrumb != Some(false)
  }
}
