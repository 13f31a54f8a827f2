/**
 * components/shared/ModulesDialog.tsx: the Ctrl+K dialog listing the
 * modules the entity may open. The model covers how the list is loaded,
 * cleaned, deduplicated and sorted, and which links it will follow.
 */
module ModulesDialog {
  import opened Text
  import opened Js
  import Lists

  /** `AllowedModule`, its fields already strings. */
  datatype AllowedModule = AllowedModule(moduleNumber: string, name: string, description: string, href: string)

  /** `toStr`: a string as it is, anything else through `String(v ?? "")`. */
  function ToStr(lib: Lib, v: Value): (r: string)
    ensures v.Str? ==> r == v.s
    ensures Nullish(v) ==> r == ""
  {
    if v.Str? then v.s else JsString(lib, Coalesce(v, Str("")))
  }

  /** `cleanHref` */
  function CleanHref(href: string): (r: string)
    ensures IsTrimmed(r)
    ensures IsBlank(href) <==> r == ""
  {
    Trim(href)
  }

  // ----- isSubdomainUrl -----

  /**
   * `isSubdomainUrl` as written: an https URL whose lower-cased host ends
   * in `jefoffice.com` or `jefoffice.co` and has at least three labels.
   */
  predicate IsSubdomainUrlAsWritten(lib: Lib, href: string)
  {
    match lib.parseUrl(href)
    case None => false
    case Some(u) =>
      var host := Lower(u.hostname);
      && u.protocol == "https:"
      && (EndsWith(host, "jefoffice.com") || EndsWith(host, "jefoffice.co"))
      && |Split(host, '.')| >= 3
  }

  lemma LookalikeTailLabels()
    ensures Split("evil-jefoffice.com", '.') == ["evil-jefoffice", "com"]
  {
    var tail: string := "evil-jefoffice.com";
    assert tail[..14] == "evil-jefoffice" && tail[15..] == "com";
    SplitAt(tail, '.', 14);
    SplitWithoutSep("com", '.');
  }

  /** The labels of the look-alike host: three of them. */
  lemma LookalikeLabels()
    ensures |Split("a.evil-jefoffice.com", '.')| == 3
  {
    var host: string := "a.evil-jefoffice.com";
    assert host[..1] == "a" && host[2..] == "evil-jefoffice.com";
    SplitAt(host, '.', 1);
    LookalikeTailLabels();
  }

  /** `a.evil-jefoffice.com` is a host of another domain, yet the suffix test admits it. */
  lemma LookalikeHostAdmittedAsWritten(lib: Lib, href: string)
    requires lib.parseUrl(href) == Some(UrlParts("https:", "a.evil-jefoffice.com"))
    ensures IsSubdomainUrlAsWritten(lib, href)
    ensures !IsSubdomainUrl(lib, href)
  {
    var host: string := "a.evil-jefoffice.com";
    assert Lower(host) == host by {
      LowerOfLowercase(host);
    }
    assert EndsWith(host, "jefoffice.com") by {
      assert host[|host| - 13..] == "jefoffice.com";
    }
    assert !EndsWith(host, ".jefoffice.com") && !EndsWith(host, ".jefoffice.co") by {
      assert host[|host| - 14] == '-';
      assert host[|host| - 13] == 'j';
    }
    LookalikeLabels();
  }

  /**
   * `isSubdomainUrl` as intended: an https URL whose lower-cased host lies
   * below `jefoffice.com` or `jefoffice.co` (the suffix starts at a dot),
   * with at least three labels.
   */
  predicate IsSubdomainUrl(lib: Lib, href: string)
  {
    match lib.parseUrl(href)
    case None => false
    case Some(u) =>
      var host := Lower(u.hostname);
      && u.protocol == "https:"
      && (EndsWith(host, ".jefoffice.com") || EndsWith(host, ".jefoffice.co"))
      && |Split(host, '.')| >= 3
  }

  /**
   * Every link the intended check accepts is an https link whose host ends
   * in a dot and one of the two domains, and the written check accepts it
   * too: the correction only refuses more.
   */
  lemma SubdomainUrlIsBelowDomain(lib: Lib, href: string)
    requires IsSubdomainUrl(lib, href)
    ensures lib.parseUrl(href).Some? && lib.parseUrl(href).value.protocol == "https:"
    ensures var host := Lower(lib.parseUrl(href).value.hostname);
      EndsWith(host, ".jefoffice.com") || EndsWith(host, ".jefoffice.co")
    ensures IsSubdomainUrlAsWritten(lib, href)
  {
    var host := Lower(lib.parseUrl(href).value.hostname);
    if EndsWith(host, ".jefoffice.com") {
      assert host[|host| - 13..] == host[|host| - 14..][1..];
    } else {
      assert host[|host| - 12..] == host[|host| - 13..][1..];
    }
  }

  // ----- uniqByKey -----

  /** The dedup key: trimmed `module_number`, a bar, trimmed and lower-cased `href`. */
  function Key(m: AllowedModule): string
  {
    Trim(m.moduleNumber) + "|" + Lower(Trim(m.href))
  }

  /** What `uniqByKey` returns: the first entry of every key, in order. */
  function Uniq(list: seq<AllowedModule>): seq<AllowedModule>
  {
    Lists.Dedup(Key, list, {})
  }

  /** `uniqByKey`: the loop over the list with its `seen` set. */
  method UniqByKey(list: seq<AllowedModule>) returns (out: seq<AllowedModule>)
    ensures out == Uniq(list)
  {
    var seen: set<string> := {};
    out := [];
    var i := 0;
    assert list[i..] == list;
    while i < |list|
      invariant 0 <= i <= |list|
      invariant out + Lists.Dedup(Key, list[i..], seen) == Uniq(list)
    {
      var m := list[i];
      var k := Key(m);
      Lists.DedupStep(Key, list[i..], seen);
      assert list[i..][1..] == list[i + 1..];
      if k in seen {
        i := i + 1;
        continue;
      }
      seen := seen + {k};
      out := out + [m];
      i := i + 1;
    }
    assert list[i..] == [];
  }

  /** `uniqByKey` keeps entries in their order, with no two sharing a key, and loses no key. */
  lemma UniqIsSubsequence(list: seq<AllowedModule>)
    ensures Lists.SubsequenceOf(Uniq(list), list)
    ensures Lists.DistinctKeys(Key, Uniq(list)) && Lists.Keys(Key, Uniq(list)) == Lists.Keys(Key, list)
  {
    Lists.DedupIsSubsequence(Key, list, {});
  }

  /** `uniqByKey` keeps the first occurrence of every key. */
  lemma UniqKeepsFirst(list: seq<AllowedModule>, i: nat)
    requires i < |list|
    requires forall j :: 0 <= j < i ==> Key(list[j]) != Key(list[i])
    ensures list[i] in Uniq(list)
  {
    Lists.DedupKeepsFirst(Key, list, {}, i);
  }

  /** Deduplicating twice is deduplicating once. */
  lemma UniqIdempotent(list: seq<AllowedModule>)
    ensures Uniq(Uniq(list)) == Uniq(list)
  {
    Lists.DedupIdempotent(Key, list);
  }

  // ----- sortMods -----

  /** The ordering `localeCompare` induces, as `Array.prototype.sort` needs it to be: a total preorder. */
  ghost predicate Collation(lib: Lib)
  {
    && (forall x: string, y: string :: lib.localeCompare(x, y) < 0 <==> lib.localeCompare(y, x) > 0)
    && (forall x: string, y: string, z: string {:trigger lib.localeCompare(x, y), lib.localeCompare(y, z)} ::
          lib.localeCompare(x, y) <= 0 && lib.localeCompare(y, z) <= 0 ==> lib.localeCompare(x, z) <= 0)
  }

  function NameKey(m: AllowedModule): string
  {
    Lower(Trim(m.name))
  }

  /** The comparator says `a` may come before `b`: by name, then by `module_number`. */
  predicate Before(lib: Lib, a: AllowedModule, b: AllowedModule)
  {
    var byName := lib.localeCompare(NameKey(a), NameKey(b));
    if byName != 0 then byName < 0 else lib.localeCompare(a.moduleNumber, b.moduleNumber) <= 0
  }

  /** The comparator `sortMods` hands to `sort`, as a function value. */
  function Order(lib: Lib): (AllowedModule, AllowedModule) -> bool
  {
    (a: AllowedModule, b: AllowedModule) => Before(lib, a, b)
  }

  lemma BeforeTotal(lib: Lib, a: AllowedModule, b: AllowedModule)
    requires Collation(lib)
    ensures Before(lib, a, b) || Before(lib, b, a)
  {
  }

  lemma BeforeTransitive(lib: Lib, a: AllowedModule, b: AllowedModule, c: AllowedModule)
    requires Collation(lib) && Before(lib, a, b) && Before(lib, b, c)
    ensures Before(lib, a, c)
  {
    var lc := lib.localeCompare;
    var an, bn, cn := NameKey(a), NameKey(b), NameKey(c);
    assert lc(an, cn) <= 0;
    if lc(an, cn) == 0 {
      assert lc(cn, an) == 0;
      assert lc(cn, bn) <= 0;
      assert lc(bn, cn) == 0;
      assert lc(an, bn) == 0;
      assert lc(a.moduleNumber, b.moduleNumber) <= 0 && lc(b.moduleNumber, c.moduleNumber) <= 0;
    }
  }

  /** A consistent `localeCompare` makes the comparator a total preorder. */
  lemma OrderIsTotalPreorder(lib: Lib)
    requires Collation(lib)
    ensures Lists.TotalPreorder(Order(lib))
  {
    var before := Order(lib);
    forall a, b
      ensures before(a, b) || before(b, a)
    {
      BeforeTotal(lib, a, b);
    }
    forall a, b, c | before(a, b) && before(b, c)
      ensures before(a, c)
    {
      BeforeTransitive(lib, a, b, c);
    }
  }

  /** `sortMods`: a new list, sorted by the comparator (stable, as `Array.prototype.sort` is). */
  function SortMods(lib: Lib, list: seq<AllowedModule>): (r: seq<AllowedModule>)
    ensures multiset(r) == multiset(list)
  {
    Lists.Sort(Order(lib), list)
  }

  /** `sortMods` sorts, given a `localeCompare` that orders strings consistently. */
  lemma SortModsSorted(lib: Lib, list: seq<AllowedModule>)
    requires Collation(lib)
    ensures Lists.Sorted(Order(lib), SortMods(lib, list))
    ensures forall i, j :: 0 <= i < j < |SortMods(lib, list)| ==> Before(lib, SortMods(lib, list)[i], SortMods(lib, list)[j])
  {
    OrderIsTotalPreorder(lib);
    Lists.SortSorted(Order(lib), list);
  }

  // ----- loading and following links -----

  /** One entry of `allowed_modules`, its fields through `toStr` and trimmed. */
  function ModuleOf(lib: Lib, v: Value): (m: AllowedModule)
    ensures IsTrimmed(m.moduleNumber) && IsTrimmed(m.name) && IsTrimmed(m.description) && IsTrimmed(m.href)
  {
    AllowedModule(Trim(ToStr(lib, Get(v, "module_number"))), Trim(ToStr(lib, Get(v, "name"))),
      Trim(ToStr(lib, Get(v, "description"))), CleanHref(ToStr(lib, Get(v, "href"))))
  }

  /** An entry worth listing: number, name and href present, and the href a company subdomain. */
  predicate Listable(lib: Lib, m: AllowedModule)
  {
    m.moduleNumber != "" && m.name != "" && m.href != "" && IsSubdomainUrl(lib, m.href)
  }

  /**
   * The `filter`/`map`/`filter`/`filter` chain over `allowed_modules`:
   * exactly the listable modules read from its object entries.
   */
  function Candidates(lib: Lib, items: seq<Value>): (r: seq<AllowedModule>)
    ensures forall m :: m in r ==> Listable(lib, m)
    ensures forall m :: m in r ==> exists v :: v in items && IsObject(v) && m == ModuleOf(lib, v)
    ensures forall v :: v in items && IsObject(v) && Listable(lib, ModuleOf(lib, v)) ==> ModuleOf(lib, v) in r
  {
    var objects := Lists.Filter(IsObject, items);
    var read := Lists.Map((v: Value) => ModuleOf(lib, v), objects);
    var present := Lists.Filter((m: AllowedModule) => m.moduleNumber != "" && m.name != "" && m.href != "", read);
    var r := Lists.Filter((m: AllowedModule) => IsSubdomainUrl(lib, m.href), present);
    Lists.MapImage((v: Value) => ModuleOf(lib, v), objects);
    r
  }

  /** What `fetch` gave: a response (its `ok`, `status` and parsed body, null when not JSON), or a failure. */
  datatype Fetched = Response(ok: bool, status: int, json: Value) | NetworkError(message: Value) | Aborted

  /** The state a load leaves: the module list and the error text, or untouched. */
  datatype Loaded = Loaded(mods: seq<AllowedModule>, err: string) | Untouched

  /** `run()` inside the loading effect. */
  function Load(lib: Lib, fetched: Fetched): (r: Loaded)
  {
    match fetched
    case Aborted => Untouched
    case NetworkError(message) =>
      Loaded([], if ToStr(lib, message) != "" then ToStr(lib, message) else "Network error")
    case Response(ok, status, json) =>
      var shaped := Get(json, "exists").Bool?;
      if !ok || !shaped || !Truthy(Get(json, "exists")) then
        Loaded([], if ToStr(lib, Get(json, "message")) != "" then ToStr(lib, Get(json, "message"))
                   else "Request failed (" + IntToString(status) + ")")
      else
        var items := if Get(json, "allowed_modules").Arr? then Get(json, "allowed_modules").items else [];
        Loaded(SortMods(lib, Uniq(Candidates(lib, items))), "")
  }

  /**
   * A failed load empties the list and always leaves an error to show; a
   * good one lists only listable modules, no two with the same key, each
   * from an object entry of the reply, sorted when `localeCompare` is
   * consistent.
   */
  lemma {:induction false} LoadOutcome(lib: Lib, fetched: Fetched)
    ensures var r := Load(lib, fetched);
      && (fetched.Aborted? <==> r.Untouched?)
      && (fetched.NetworkError? ==> r.Loaded? && r.mods == [] && r.err != "")
      && (fetched.Response? && !(fetched.ok && Get(fetched.json, "exists") == Bool(true)) ==>
            r.Loaded? && r.mods == [] && r.err != "")
      && (fetched.Response? && fetched.ok && Get(fetched.json, "exists") == Bool(true) ==>
            && r.Loaded? && r.err == ""
            && (forall m :: m in r.mods ==> Listable(lib, m))
            && (forall m :: m in r.mods ==> exists v :: v in Get(fetched.json, "allowed_modules").items && IsObject(v) && m == ModuleOf(lib, v))
            && Lists.DistinctKeys(Key, r.mods)
            && (Collation(lib) ==> Lists.Sorted(Order(lib), r.mods)))
  {
    if fetched.Response? && fetched.ok && Get(fetched.json, "exists") == Bool(true) {
      var json := fetched.json;
      var items := if Get(json, "allowed_modules").Arr? then Get(json, "allowed_modules").items else [];
      var c := Candidates(lib, items);
      var u := Uniq(c);
      var r := SortMods(lib, u);
      assert Load(lib, fetched) == Loaded(r, "");
      forall m | m in r
        ensures m in c
      {
        assert m in multiset(r);
        assert m in multiset(u);
      }
      Lists.PermutationKeepsDistinct(Key, u, r);
      if Collation(lib) {
        SortModsSorted(lib, u);
      }
    }
  }

  /**
   * A good load loses no module: every listable module read from an object
   * entry of the reply is listed, or another entry with its key is.
   */
  lemma LoadListsEveryModule(lib: Lib, fetched: Fetched, v: Value)
    requires fetched.Response? && fetched.ok && Get(fetched.json, "exists") == Bool(true)
    requires Get(fetched.json, "allowed_modules").Arr? && v in Get(fetched.json, "allowed_modules").items
    requires IsObject(v) && Listable(lib, ModuleOf(lib, v))
    ensures Load(lib, fetched).Loaded?
    ensures exists m :: m in Load(lib, fetched).mods && Key(m) == Key(ModuleOf(lib, v))
  {
    var items := Get(fetched.json, "allowed_modules").items;
    assert Load(lib, fetched) == Loaded(SortMods(lib, Uniq(Candidates(lib, items))), "");
    CandidateListed(lib, items, v);
  }

  lemma CandidateListed(lib: Lib, items: seq<Value>, v: Value)
    requires v in items && IsObject(v) && Listable(lib, ModuleOf(lib, v))
    ensures exists m :: m in SortMods(lib, Uniq(Candidates(lib, items))) && Key(m) == Key(ModuleOf(lib, v))
  {
    var c := Candidates(lib, items);
    var u := Uniq(c);
    assert ModuleOf(lib, v) in c;
    KeptKeyListed(lib, c, ModuleOf(lib, v));
  }

  lemma KeptKeyListed(lib: Lib, c: seq<AllowedModule>, x: AllowedModule)
    requires x in c
    ensures exists m :: m in SortMods(lib, Uniq(c)) && Key(m) == Key(x)
  {
    var u := Uniq(c);
    assert Key(x) in Lists.Keys(Key, c);
    assert Key(x) in Lists.Keys(Key, u);
    var m :| m in u && Key(m) == Key(x);
    assert m in multiset(u);
    assert m in multiset(SortMods(lib, u));
  }

  /** `go(href)`: the URL the page navigates to (closing the dialog), or None when the link is refused. */
  function Go(lib: Lib, href: string): (r: Option<string>)
    ensures r.Some? <==> IsSubdomainUrl(lib, CleanHref(href))
    ensures r.Some? ==> r.value == Trim(href)
  {
    var url := CleanHref(href);
    if !IsSubdomainUrl(lib, url) then None else Some(url)
  }

  /** `results`: every module for a blank query, else the search hits; sorted either way. */
  function Results(lib: Lib, q: string, mods: seq<AllowedModule>, hits: seq<AllowedModule>): (r: seq<AllowedModule>)
    ensures IsBlank(q) ==> multiset(r) == multiset(mods)
    ensures !IsBlank(q) ==> multiset(r) == multiset(hits)
  {
    if Trim(q) == "" then SortMods(lib, mods) else SortMods(lib, hits)
  }

  /** What the dialog lists is in `sortMods` order: by name, then by `module_number`. */
  lemma ResultsSorted(lib: Lib, q: string, mods: seq<AllowedModule>, hits: seq<AllowedModule>)
    requires Collation(lib)
    ensures var r := Results(lib, q, mods, hits);
      forall i, j :: 0 <= i < j < |r| ==> Before(lib, r[i], r[j])
  {
    SortModsSorted(lib, mods);
    SortModsSorted(lib, hits);
  }
}
