/**
 * components/shared/ModuleBreadcrumb.tsx: the breadcrumb trail above a
 * module page. The crumbs come from the caller or from the path; a long
 * trail keeps a few crumbs at its ends and moves the middle into an
 * overflow menu, and a deep one collapses into that menu entirely.
 */
module ModuleBreadcrumb {
  import opened Text
  import opened Js
  import opened Words
  import Lists

  /** A crumb: its label and its link ("" when it has none). */
  datatype Crumb = Crumb(title: string, href: string)

  /** An entry of the overflow menu ("" for a missing link; its `onSelect` callback is not modelled). */
  datatype Group = Group(title: string, href: string)

  // ----- titleize -----

  /** The text `titleize` splits into words: trimmed, dash and underscore runs and white-space runs each made one space. */
  function Collapsed(s: string): (x: string)
    ensures !IsBlank(s) ==> x != []
    ensures forall i :: 0 <= i < |x| ==> x[i] != '-' && x[i] != '_'
    ensures NoDoubles(x, IsSpace)
    ensures Lists.Filter(Solid, x) == Lists.Filter(Solid, s)
  {
    var once := ReplaceRuns(Trim(s), IsDashOrUnderscore);
    assert '-' !in once && '_' !in once;
    var x := ReplaceRuns(once, IsSpace);
    assert '-' !in x && '_' !in x;
    ReplaceRunsNoDoubles(once, IsSpace);
    TrimKeeps(s, Solid);
    ReplaceRunsKeeps(Trim(s), IsDashOrUnderscore, Solid);
    ReplaceRunsKeeps(once, IsSpace, Solid);
    x
  }

  /** The characters `titleize` never rewrites into a space: neither white space nor a dash or underscore. */
  predicate Solid(c: char)
  {
    !IsSpace(c) && !IsDashOrUnderscore(c)
  }

  /** `titleize`: "Item" for blank text, else the collapsed text with every word capitalised. */
  function Titleize(s: string): string
  {
    var t := Trim(s);
    if t == "" then "Item"
    else Join(Lists.Map(Capitalize, Split(Collapsed(s), ' ')), [' '])
  }

  /**
   * `titleize` gives "Item" for blank text; otherwise it keeps the
   * collapsed text (no dashes or underscores, no doubled white space)
   * character for character, upper-casing the first character and every
   * character after a space.
   */
  lemma TitleizeWords(s: string)
    ensures IsBlank(s) ==> Titleize(s) == "Item"
    ensures !IsBlank(s) ==>
      var x := Collapsed(s);
      var r := Titleize(s);
      && x != [] && |r| == |x|
      && r == CapitalizeWords(x, true, ' ')
  {
    if !IsBlank(s) {
      SplitJoinCapitalized(Collapsed(s), ' ');
    }
  }

  // ----- clampInt -----

  /** `clampInt(v, fallback, min, max)`: the fallback for a non-finite `Number(v)`, else the truncation clamped into `[min, max]`. */
  function ClampInt(lib: Lib, v: Value, fallback: int, min: int, max: int): (r: int)
    ensures !ToNumber(lib, v).Finite? ==> r == fallback
    ensures ToNumber(lib, v).Finite? && min <= max ==>
      var i := Truncate(ToNumber(lib, v).r);
      && min <= r <= max
      && (min <= i <= max ==> r == i)
      && (i < min ==> r == min)
      && (i > max ==> r == max)
  {
    var n := ToNumber(lib, v);
    if !n.Finite? then fallback
    else
      var i := Truncate(n.r);
      var upper := if max < i then max else i;
      if min > upper then min else upper
  }

  // ----- the crumbs of a path -----

  /** `safeDecode` */
  function SafeDecode(lib: Lib, seg: string): string
  {
    match lib.decodeUriComponent(seg)
    case Some(d) => d
    case None => seg
  }

  /** `safeEncodeSegment` */
  function SafeEncode(lib: Lib, seg: string): string
  {
    match lib.encodeUriComponent(seg)
    case Some(e) => e
    case None => seg
  }

  /** `(pathname || "/").trim() || "/"` */
  function Pathname(pathnameRaw: string): (p: string)
    ensures p != "" && IsTrimmed(p)
  {
    var raw := if pathnameRaw == "" then "/" else pathnameRaw;
    if Trim(raw) == "" then "/" else Trim(raw)
  }

  /** The non-empty `/` parts of the path, each decoded. */
  function PathSegments(lib: Lib, pathnameRaw: string): seq<string>
  {
    Lists.Map((seg: string) => SafeDecode(lib, seg), NonEmpty(Split(Pathname(pathnameRaw), '/')))
  }

  /** The segments crumbs are built from: the path's segments minus the hidden ones, the others all kept and in order. */
  function Segments(lib: Lib, pathnameRaw: string, hidden: seq<string>): (segs: seq<string>)
    ensures forall k :: 0 <= k < |segs| ==> !(segs[k] in hidden)
    ensures forall seg :: seg in PathSegments(lib, pathnameRaw) && seg !in hidden ==> seg in segs
    ensures Lists.SubsequenceOf(segs, PathSegments(lib, pathnameRaw))
  {
    var shown := (seg: string) => !(seg in hidden);
    var segs := Lists.Filter(shown, PathSegments(lib, pathnameRaw));
    assert forall k :: 0 <= k < |segs| ==> segs[k] in segs && shown(segs[k]);
    Lists.FilterSelects(shown, PathSegments(lib, pathnameRaw));
    segs
  }

  /** The caller's ways of naming a segment: a `labeler` callback, else a `labelMap`, else `titleize`. */
  datatype Labeling = Labeling(labelMap: Option<map<string, Value>>, labeler: Option<(string, string, int, seq<string>) -> string>)

  /** The label of crumb `i`, whose link is `href`. */
  function LabelOf(labeling: Labeling, segs: seq<string>, i: nat, href: string): string
    requires i < |segs|
  {
    var seg := segs[i];
    if labeling.labeler.Some? then labeling.labeler.value(seg, href, i, segs)
    else
      var mapped := if labeling.labelMap.Some? && seg in labeling.labelMap.value then labeling.labelMap.value[seg] else Undefined;
      if Truthy(mapped) then AsStr(mapped) else Titleize(seg)
  }

  /** The link of the crumb after `segs`: `/` and each encoded segment, in order. */
  function PathOf(lib: Lib, segs: seq<string>): (p: string)
    ensures segs != [] ==> p != [] && p[0] == '/'
  {
    if segs == [] then "" else PathOf(lib, segs[..|segs| - 1]) + "/" + SafeEncode(lib, segs[|segs| - 1])
  }

  function CrumbAt(lib: Lib, labeling: Labeling, segs: seq<string>, i: nat): Crumb
    requires i < |segs|
  {
    var href := PathOf(lib, segs[..i + 1]);
    Crumb(LabelOf(labeling, segs, i, href), href)
  }

  /** The first `k` crumbs of the path. */
  function Crumbs(lib: Lib, labeling: Labeling, segs: seq<string>, k: nat): (all: seq<Crumb>)
    requires k <= |segs|
    ensures |all| == k
  {
    if k == 0 then [] else Crumbs(lib, labeling, segs, k - 1) + [CrumbAt(lib, labeling, segs, k - 1)]
  }

  /** Crumb `i` of the trail is the crumb of segment `i`. */
  lemma {:induction false} CrumbsAt(lib: Lib, labeling: Labeling, segs: seq<string>, k: nat, i: nat)
    requires i < k <= |segs|
    ensures Crumbs(lib, labeling, segs, k)[i] == CrumbAt(lib, labeling, segs, i)
  {
    if i < k - 1 {
      CrumbsAt(lib, labeling, segs, k - 1, i);
    }
  }

  /** The loop that walks the segments, extending `acc` and pushing one crumb each. */
  method BuildCrumbs(lib: Lib, labeling: Labeling, segs: seq<string>) returns (all: seq<Crumb>)
    ensures all == Crumbs(lib, labeling, segs, |segs|)
  {
    all := [];
    var acc := "";
    var i := 0;
    while i < |segs|
      invariant 0 <= i <= |segs|
      invariant acc == PathOf(lib, segs[..i])
      invariant all == Crumbs(lib, labeling, segs, i)
    {
      var seg := segs[i];
      acc := acc + "/" + SafeEncode(lib, seg);
      assert acc == PathOf(lib, segs[..i + 1]) by {
        assert segs[..i + 1][..i] == segs[..i];
      }
      var href := if acc == "" then "/" else acc;
      var title := LabelOf(labeling, segs, i, href);
      all := all + [Crumb(title, href)];
      assert all == Crumbs(lib, labeling, segs, i + 1);
      i := i + 1;
    }
  }

  /** Each crumb's link is the previous crumb's link, a slash and its own encoded segment. */
  lemma HrefsNest(lib: Lib, labeling: Labeling, segs: seq<string>, i: nat)
    requires i + 1 < |segs|
    ensures var all := Crumbs(lib, labeling, segs, |segs|);
      all[i + 1].href == all[i].href + "/" + SafeEncode(lib, segs[i + 1])
  {
    CrumbsAt(lib, labeling, segs, |segs|, i);
    CrumbsAt(lib, labeling, segs, |segs|, i + 1);
    assert segs[..i + 2][..i + 1] == segs[..i + 1];
  }

  // ----- shortening the trail -----

  /** `Array.prototype.slice(start, end)`: negative indices count from the end, both are clamped to the list. */
  function Slice<T>(s: seq<T>, start: int, end: int): (r: seq<T>)
    ensures |r| <= |s|
  {
    var n := |s|;
    var from := if start < 0 then (if n + start < 0 then 0 else n + start) else (if start > n then n else start);
    var to := if end < 0 then (if n + end < 0 then 0 else n + end) else (if end > n then n else end);
    if from < to then s[from..to] else []
  }

  /** The shortening settings, already clamped. */
  datatype Settings = Settings(maxItems: int, minItems: int, preferTail: bool, treatGroupsAsOverflow: bool)

  /** What the builder hands to the view: the crumbs, the current page label and the overflow entries. */
  datatype Built = Built(crumbs: seq<Crumb>, current: string, overflow: seq<Group>)

  /** A crumb moved into the menu: trimmed label ("Item" when blank) and trimmed link. */
  function GroupOf(c: Crumb): (g: Group)
    ensures g.title != "" && IsTrimmed(g.title) && IsTrimmed(g.href)
  {
    Group(if Trim(c.title) != "" then Trim(c.title) else "Item", Trim(c.href))
  }

  function Max(a: int, b: int): int { if a >= b then a else b }

  function Min(a: int, b: int): int { if a <= b then a else b }

  /** `keepHead`: all but one of the visible crumbs when the tail is preferred, else the larger half. */
  function KeepHead(visible: int, preferTail: bool): int
  {
    if preferTail then Max(1, visible - 1) else CeilDiv(visible, 2)
  }

  function KeepTail(visible: int, keepHead: int): int
  {
    Max(1, visible - keepHead)
  }

  /** The intermediate crumbs: all but the last. */
  function Intermediate(all: seq<Crumb>): seq<Crumb>
  {
    if |all| > 0 then Slice(all, 0, -1) else []
  }

  /** The current page: the given one, else the last crumb's trimmed label. */
  function AutoCurrent(all: seq<Crumb>, manualCurrent: string): string
  {
    if manualCurrent != "" then manualCurrent
    else if |all| > 0 then Trim(all[|all| - 1].title) else ""
  }

  /** The head, tail and middle of a too long trail, for a given number of visible crumbs. */
  function Split3(auto: seq<Crumb>, manualCurrent: string, extra: seq<Group>, st: Settings, all: seq<Crumb>, visible: int): Built
  {
    var n := |auto|;
    var keepHead := KeepHead(visible, st.preferTail);
    var keepTail := KeepTail(visible, keepHead);
    var head := Slice(auto, 0, keepHead);
    var tail := Slice(auto, n - keepTail, n);
    var middle := Slice(auto, keepHead, n - keepTail);
    var fromPath := Lists.Map(GroupOf, if st.treatGroupsAsOverflow then middle else []);
    Built(head + tail, AutoCurrent(all, manualCurrent), fromPath + extra)
  }

  /** Lines 149-173 as written: `visibleCount` is `max(minItems, min(maxItems, n))`. */
  function ShortenAsWritten(all: seq<Crumb>, manualCurrent: string, extra: seq<Group>, st: Settings): Built
  {
    var auto := Intermediate(all);
    if |auto| <= st.maxItems then Built(auto, AutoCurrent(all, manualCurrent), extra)
    else Split3(auto, manualCurrent, extra, st, all, Max(st.minItems, Min(st.maxItems, |auto|)))
  }

  /**
   * With `minItems` above `maxItems` the written count can exceed the
   * trail: four crumbs (three intermediate), `maxItems` 2 and `minItems` 5
   * show the third crumb twice.
   */
  lemma DuplicateCrumbAsWritten(a: Crumb, b: Crumb, c: Crumb, d: Crumb)
    ensures ShortenAsWritten([a, b, c, d], "", [], Settings(2, 5, true, true)).crumbs == [a, b, c, c]
  {
    var auto := Intermediate([a, b, c, d]);
    assert auto == [a, b, c];
    assert Slice(auto, 0, 4) == [a, b, c];
    assert Slice(auto, 2, 3) == [c];
  }

  /** The number of visible crumbs, never more than the trail holds. */
  function Visible(n: int, st: Settings): int
  {
    Min(n, Max(st.minItems, Min(st.maxItems, n)))
  }

  /** Lines 149-173 with the visible count capped at the trail's length. */
  function Shorten(all: seq<Crumb>, manualCurrent: string, extra: seq<Group>, st: Settings): Built
  {
    var auto := Intermediate(all);
    if |auto| <= st.maxItems then Built(auto, AutoCurrent(all, manualCurrent), extra)
    else Split3(auto, manualCurrent, extra, st, all, Visible(|auto|, st))
  }

  /** The intermediate crumbs are all crumbs but the last, and the current page defaults to the last crumb. */
  lemma IntermediateDropsLast(all: seq<Crumb>, manualCurrent: string)
    requires all != []
    ensures Intermediate(all) == all[..|all| - 1]
    ensures manualCurrent == "" ==> AutoCurrent(all, manualCurrent) == Trim(all[|all| - 1].title)
  {
  }

  /** The correction changes nothing when `minItems <= maxItems`. */
  lemma ShortenAgreesWhenOrdered(all: seq<Crumb>, manualCurrent: string, extra: seq<Group>, st: Settings)
    requires st.minItems <= st.maxItems
    ensures Shorten(all, manualCurrent, extra, st) == ShortenAsWritten(all, manualCurrent, extra, st)
  {
  }

  /** Three slices at `h` and `n - t` cover the list exactly once when `h + t <= n`. */
  lemma SlicesPartition<T>(s: seq<T>, h: int, t: int)
    requires 0 <= h && 0 <= t && h + t <= |s|
    ensures Slice(s, 0, h) == s[..h]
    ensures Slice(s, |s| - t, |s|) == s[|s| - t..]
    ensures Slice(s, h, |s| - t) == s[h..|s| - t]
    ensures s[..h] + s[h..|s| - t] + s[|s| - t..] == s
  {
  }

  /**
   * A trail of at most `maxItems` intermediate crumbs is kept whole; a
   * longer one keeps a head of `keepHead` and a tail of `keepTail` crumbs,
   * head, middle and tail together being the trail in order, and the
   * middle leads the overflow menu exactly when groups count as overflow.
   */
  lemma {:induction false} ShortenKeepsEveryCrumb(all: seq<Crumb>, manualCurrent: string, extra: seq<Group>, st: Settings)
    requires 1 <= st.maxItems && 1 <= st.minItems
    ensures var r := Shorten(all, manualCurrent, extra, st);
      var auto := Intermediate(all);
      var n := |auto|;
      && r.current == AutoCurrent(all, manualCurrent)
      && (n <= st.maxItems ==> r.crumbs == auto && r.overflow == extra)
      && (n > st.maxItems ==>
            var h := KeepHead(Visible(n, st), st.preferTail);
            var t := KeepTail(Visible(n, st), h);
            && 1 <= h && 1 <= t && h + t <= n
            && r.crumbs == auto[..h] + auto[n - t..]
            && auto[..h] + auto[h..n - t] + auto[n - t..] == auto
            && r.overflow == (if st.treatGroupsAsOverflow then Lists.Map(GroupOf, auto[h..n - t]) else []) + extra)
  {
    var auto := Intermediate(all);
    var n := |auto|;
    if n > st.maxItems {
      var h := KeepHead(Visible(n, st), st.preferTail);
      var t := KeepTail(Visible(n, st), h);
      KeepWithinTrail(n, st);
      SlicesPartition(auto, h, t);
    }
  }

  /** The head and tail kept are each at least one crumb and together no more than the trail. */
  lemma KeepWithinTrail(n: int, st: Settings)
    requires 1 <= st.maxItems < n && 1 <= st.minItems
    ensures var h := KeepHead(Visible(n, st), st.preferTail);
      var t := KeepTail(Visible(n, st), h);
      1 <= h && 1 <= t && h + t <= n
  {
    var v := Visible(n, st);
    assert 1 <= v <= n;
  }

  // ----- the view -----

  /** What is drawn: the visible crumbs, the current page and the dropdown entries. */
  datatype View = View(crumbs: seq<Crumb>, current: string, dropdown: seq<Group>)

  /** The `view` memo: at `collapseAt` layers or more (home, crumbs, current) every crumb moves into the dropdown. */
  function ViewOf(b: Built, collapseAt: int): View
  {
    var current := Trim(b.current);
    var layers := 1 + |b.crumbs| + (if current != "" then 1 else 0);
    if layers < collapseAt then View(b.crumbs, current, b.overflow)
    else View([], current, Lists.Map(GroupOf, b.crumbs) + b.overflow)
  }

  /**
   * The view shows fewer than `collapseAt` layers, or no crumbs at all; no
   * crumb is lost, the collapsed ones leading the dropdown in order.
   */
  lemma ViewCollapses(b: Built, collapseAt: int)
    ensures var v := ViewOf(b, collapseAt);
      var layers := 1 + |b.crumbs| + (if Trim(b.current) != "" then 1 else 0);
      && v.current == Trim(b.current)
      && (layers < collapseAt ==> v.crumbs == b.crumbs && v.dropdown == b.overflow)
      && (v.crumbs != [] ==> layers < collapseAt)
      && (layers >= collapseAt ==> v.crumbs == [] && v.dropdown[..|b.crumbs|] == Lists.Map(GroupOf, b.crumbs))
      && |v.crumbs| + |v.dropdown| == |b.crumbs| + |b.overflow|
  {
    var layers := 1 + |b.crumbs| + (if Trim(b.current) != "" then 1 else 0);
    if layers >= collapseAt {
      assert (Lists.Map(GroupOf, b.crumbs) + b.overflow)[..|b.crumbs|] == Lists.Map(GroupOf, b.crumbs);
    }
  }

  // ----- the component -----

  /**
   * The props the model reads. `usePath`, `preferTail` and
   * `treatGroupsAsOverflow` hold unless the prop is the literal `false`;
   * `crumbs` and `hideSegments` are None unless arrays.
   */
  datatype Props = Props(
    crumbs: Option<seq<Crumb>>,
    current: Value,
    overflow: seq<Group>,
    usePath: bool,
    hideSegments: Option<seq<string>>,
    labeling: Labeling,
    maxItems: Value,
    minItems: Value,
    preferTail: bool,
    treatGroupsAsOverflow: bool,
    collapseToTwoLayersAt: Value)

  /** The clamped settings: `maxItems` 2 in [1, 20], `minItems` 1 in [1, 20]. */
  function SettingsOf(lib: Lib, p: Props): (st: Settings)
    ensures 1 <= st.maxItems <= 20 && 1 <= st.minItems <= 20
  {
    Settings(ClampInt(lib, p.maxItems, 2, 1, 20), ClampInt(lib, p.minItems, 1, 1, 20), p.preferTail, p.treatGroupsAsOverflow)
  }

  /** The `built` memo: manual crumbs, no crumbs, or the shortened crumbs of the path. */
  function Build(lib: Lib, p: Props, pathnameRaw: string): Built
  {
    var manualCurrent := AsStr(p.current);
    if p.crumbs.Some? then Built(p.crumbs.value, manualCurrent, p.overflow)
    else if !p.usePath then Built([], manualCurrent, p.overflow)
    else
      var hidden := if p.hideSegments.Some? then p.hideSegments.value else ["app"];
      var segs := Segments(lib, pathnameRaw, hidden);
      Shorten(Crumbs(lib, p.labeling, segs, |segs|), manualCurrent, p.overflow, SettingsOf(lib, p))
  }

  /** The rendered trail: the built crumbs through the view, collapsing at `collapseToTwoLayersAt` (4, in [2, 20]). */
  function Breadcrumb(lib: Lib, p: Props, pathnameRaw: string): View
  {
    ViewOf(Build(lib, p, pathnameRaw), ClampInt(lib, p.collapseToTwoLayersAt, 4, 2, 20))
  }

  /** Manual crumbs bypass the path; with `usePath` false there are no crumbs; the current label is the trimmed `current` prop when given. */
  lemma ManualCrumbsBypassPath(lib: Lib, p: Props, pathnameRaw: string)
    ensures p.crumbs.Some? ==> Build(lib, p, pathnameRaw) == Built(p.crumbs.value, AsStr(p.current), p.overflow)
    ensures p.crumbs.None? && !p.usePath ==> Build(lib, p, pathnameRaw).crumbs == []
    ensures AsStr(p.current) != "" ==> Build(lib, p, pathnameRaw).current == AsStr(p.current)
  {
  }

  /** `go(href)`: the trimmed link to push, or None for a blank one. */
  function Go(href: string): (r: Option<string>)
    ensures r.Some? <==> !IsBlank(href)
    ensures r.Some? ==> r.value == Trim(href)
  {
    var h := Trim(href);
    if h == "" then None else Some(h)
  }

  /** The dropdown's links, trimmed, blank ones left out, in menu order. */
  function Links(dropdown: seq<Group>): seq<string>
  {
    Lists.Filter((h: string) => h != "", Lists.Map((g: Group) => Trim(g.href), dropdown))
  }

  /** The links prefetched when the menu opens: the trimmed non-blank dropdown links, each once, in order. */
  function PrefetchTargets(dropdown: seq<Group>): (r: seq<string>)
    ensures forall h :: h in r ==> h != "" && exists g :: g in dropdown && Trim(g.href) == h
    ensures forall g :: g in dropdown && Trim(g.href) != "" ==> Trim(g.href) in r
    ensures Lists.DistinctKeys((h: string) => h, r)
    ensures Lists.SubsequenceOf(r, Links(dropdown))
  {
    var hrefs := Links(dropdown);
    Lists.MapImage((g: Group) => Trim(g.href), dropdown);
    DedupKeepsEveryLink(hrefs);
    Lists.DedupIsSubsequence((h: string) => h, hrefs, {});
    Lists.Dedup((h: string) => h, hrefs, {})
  }

  lemma DedupKeepsEveryLink(hrefs: seq<string>)
    ensures forall h :: h in hrefs ==> h in Lists.Dedup((h: string) => h, hrefs, {})
  {
    var r := Lists.Dedup((h: string) => h, hrefs, {});
    forall h | h in hrefs
      ensures h in r
    {
      assert h in Lists.Keys((h: string) => h, hrefs);
      assert h in Lists.Keys((h: string) => h, r);
    }
  }
}
