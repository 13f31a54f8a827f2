/**
 * components/shared/ModuleName.tsx: the pill naming the current module,
 * taken from the first segment of the path.
 */
module ModuleName {
  import opened Text
  import opened Words
  import opened Js
  import Lists

  /** `formatModuleName`: each dash-separated part with its first character upper-cased. */
  function FormatModuleName(raw: string): string
  {
    if raw == "" then "" else Join(Lists.Map(Capitalize, Split(raw, '-')), "-")
  }

  /**
   * Formatting keeps the text character for character, dashes where they
   * were, upper-casing only the first character and each one after a dash;
   * so it changes letter case and nothing else.
   */
  lemma FormatKeepsDashes(raw: string)
    ensures var r := FormatModuleName(raw);
      && r == CapitalizeWords(raw, true, '-')
      && |r| == |raw|
      && (forall i :: 0 <= i < |raw| ==> (r[i] == '-' <==> raw[i] == '-'))
      && Lower(r) == Lower(raw)
  {
    SplitJoinCapitalized(raw, '-');
    var r := FormatModuleName(raw);
    assert Lower(r) == Lower(raw) by {
      assert forall i :: 0 <= i < |raw| ==> LowerChar(r[i]) == LowerChar(raw[i]);
    }
  }

  /** Formatting an already formatted name changes nothing. */
  lemma FormatIdempotent(raw: string)
    ensures FormatModuleName(FormatModuleName(raw)) == FormatModuleName(raw)
  {
    FormatKeepsDashes(raw);
    FormatKeepsDashes(FormatModuleName(raw));
    CapitalizeWordsIdempotent(raw, '-');
  }

  /** `pathname.split("/").filter(Boolean)[0] ?? ""` */
  function ModuleSegment(pathname: string): string
  {
    var segments := NonEmpty(Split(pathname, '/'));
    if segments == [] then "" else segments[0]
  }

  /** The label shown, None when the component renders nothing. */
  function Label(pathname: string): (r: Option<string>)
    ensures r.Some? ==> r.value != ""
  {
    var shown := FormatModuleName(ModuleSegment(pathname));
    if shown == "" then None else Some(shown)
  }

  /** A path has no non-empty segment exactly when it is all slashes. */
  lemma {:induction false} NoSegments(s: string)
    ensures NonEmpty(Split(s, '/')) == [] <==> forall i :: 0 <= i < |s| ==> s[i] == '/'
  {
    if s == [] {
    } else if s[0] == '/' {
      NoSegments(s[1..]);
      assert Split(s, '/') == [""] + Split(s[1..], '/');
      assert ([""] + Split(s[1..], '/'))[1..] == Split(s[1..], '/');
      assert forall i :: 0 < i < |s| ==> s[i] == s[1..][i - 1];
    } else {
      var rest := Split(s[1..], '/');
      assert Split(s, '/')[0] == [s[0]] + rest[0];
    }
  }

  /** The pill is shown exactly when the path holds a character other than `/`, and then names its first segment. */
  lemma ShownUnlessOnlySlashes(pathname: string)
    ensures Label(pathname).Some? <==> exists i :: 0 <= i < |pathname| && pathname[i] != '/'
    ensures Label(pathname).Some? ==> Label(pathname).value == FormatModuleName(ModuleSegment(pathname))
  {
    NoSegments(pathname);
    FormatKeepsDashes(ModuleSegment(pathname));
  }
}
