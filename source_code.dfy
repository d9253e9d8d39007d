/**
 * Source listing (`components/core/source-code.tsx`): which file a listing
 * shows, under which title and with which highlighting language. Reading the
 * file is outside the model.
 */
module SourceCode {
  import opened Wrappers
  import opened TextUtil

  const RegistryPrefix: string := "registry/"
  const ComponentsPrefix: string := "components/"

  /**
   * `generateTitle`: the leading `registry/<segment>/`, where the segment is
   * one or more characters other than '/', becomes `components/`; any other
   * path is left alone.
   */
  function GenerateTitle(path: string): string {
    if StartsWith(path, RegistryPrefix) then
      var rest := path[|RegistryPrefix|..];
      if '/' in rest && IndexOf(rest, '/') > 0 then
        ComponentsPrefix + rest[IndexOf(rest, '/') + 1..]
      else path
    else path
  }

  /** The pattern matches exactly the paths `registry/` + a non-empty segment without '/' + `/` + anything. */
  ghost predicate MatchesRegistryPrefix(path: string) {
    exists seg: string, rest: string ::
      seg != "" && '/' !in seg && path == RegistryPrefix + seg + "/" + rest
  }

  /** A matching path loses exactly its registry prefix and segment. */
  lemma {:induction false} GenerateTitleOf(seg: string, rest: string)
    requires seg != "" && '/' !in seg
    ensures GenerateTitle(RegistryPrefix + seg + "/" + rest) == ComponentsPrefix + rest
  {
    var path := RegistryPrefix + seg + "/" + rest;
    assert path[..|RegistryPrefix|] == RegistryPrefix;
    var r := path[|RegistryPrefix|..];
    assert r == seg + "/" + rest;
    assert r[|seg|] == '/';
    assert r[..|seg|] == seg;
    var j := IndexOf(r, '/');
    assert j == |seg|;
    assert r[j + 1..] == rest;
  }

  /** Only a path the pattern matches is changed. */
  lemma GenerateTitleChangesOnlyMatches(path: string)
    ensures GenerateTitle(path) != path ==> MatchesRegistryPrefix(path)
  {
    if StartsWith(path, RegistryPrefix) {
      var rest := path[|RegistryPrefix|..];
      if '/' in rest && IndexOf(rest, '/') > 0 {
        RegistryPathMatches(path);
      }
    }
  }

  /** A path the rule rewrites has the matched shape. */
  lemma RegistryPathMatches(path: string)
    requires StartsWith(path, RegistryPrefix)
    requires var rest := path[|RegistryPrefix|..]; '/' in rest && IndexOf(rest, '/') > 0
    ensures MatchesRegistryPrefix(path)
  {
    var rest := path[|RegistryPrefix|..];
    var j := IndexOf(rest, '/');
    var seg, tail := rest[..j], rest[j + 1..];
    assert rest == seg + "/" + tail;
    assert path == RegistryPrefix + rest;
    MatchesWith(path, seg, tail);
  }

  lemma MatchesWith(path: string, seg: string, rest: string)
    requires seg != "" && '/' !in seg && path == RegistryPrefix + seg + "/" + rest
    ensures MatchesRegistryPrefix(path)
  {
  }

  /** The replacement is made once: titles do not start with `registry/`, so a second pass changes nothing. */
  lemma GenerateTitleIdempotent(path: string)
    ensures GenerateTitle(GenerateTitle(path)) == GenerateTitle(path)
  {
    var t := GenerateTitle(path);
    if t != path {
      assert t[..|ComponentsPrefix|] == ComponentsPrefix;
      assert t[0] == 'c';
      assert !StartsWith(t, RegistryPrefix);
    }
  }

  /** Where a component's source lives in the registry. */
  function ComponentPath(name: string): string {
    "registry/new-york/ui/" + name + ".tsx"
  }

  lemma ComponentPathParts(name: string)
    ensures ComponentPath(name) == RegistryPrefix + "new-york" + "/" + ("ui/" + name + ".tsx")
  {
  }

  /** `filePath || (name ? "registry/new-york/ui/" + name + ".tsx" : "")`; `None` when both are missing or empty. */
  function ResolvedPath(filePath: Option<string>, name: Option<string>): (r: Option<string>)
    ensures r.None? <==> !Truthy(filePath) && !Truthy(name)
    ensures Truthy(filePath) ==> r == filePath
    ensures !Truthy(filePath) && Truthy(name) ==> r == Some(ComponentPath(name.value))
    ensures r.Some? ==> r.value != ""
  {
    var p := OrElse(filePath, if Truthy(name) then ComponentPath(name.value) else "");
    if p == "" then None else Some(p)
  }

  /** `language || resolvedPath.split(".").pop() || "tsx"` (the popped piece is `LastPiece`, by `LastPieceOfSplit`). */
  function Language(language: Option<string>, path: string): string {
    OrElse(language, if LastPiece(path, '.') != "" then LastPiece(path, '.') else "tsx")
  }

  /**
   * An explicit language wins; otherwise the text after the last dot, the
   * whole path if it has no dot, and "tsx" only when that text is empty.
   */
  lemma LanguageRules(language: Option<string>, path: string)
    ensures Truthy(language) ==> Language(language, path) == language.value
    ensures !Truthy(language) && '.' !in path && path != "" ==> Language(language, path) == path
    ensures !Truthy(language) ==>
      var l := Language(language, path);
      l == "tsx" || ('.' !in l && |l| <= |path| && path[|path| - |l|..] == l)
    ensures !Truthy(language) && |path| > 0 && path[|path| - 1] == '.' ==> Language(language, path) == "tsx"
  {
    LastPieceIsSuffix(path, '.');
    if |path| > 0 && path[|path| - 1] == '.' {
      LastPieceAfterTrailing(path, '.');
    }
  }

  /** What the listing renders. */
  datatype SourceView =
    | MissingPathError
    | Listing(path: string, title: string, language: string)

  function Render(name: Option<string>, filePath: Option<string>, title: Option<string>, language: Option<string>): SourceView {
    match ResolvedPath(filePath, name)
    case None => MissingPathError
    case Some(p) => Listing(p, OrElse(title, GenerateTitle(p)), Language(language, p))
  }

  /** The error shows iff neither a path nor a name is given; an explicit title always wins. */
  lemma RenderRules(name: Option<string>, filePath: Option<string>, title: Option<string>, language: Option<string>)
    ensures Render(name, filePath, title, language).MissingPathError? <==> !Truthy(filePath) && !Truthy(name)
    ensures Render(name, filePath, title, language).Listing? && Truthy(title) ==>
      Render(name, filePath, title, language).title == title.value
  {
  }

  /** The title of a registry component's path is its path under `components/`. */
  lemma ComponentPathTitle(name: string)
    requires name != "" && '/' !in name
    ensures GenerateTitle(ComponentPath(name)) == ComponentsPrefix + ("ui/" + name + ".tsx")
  {
    ComponentPathParts(name);
    GenerateTitleOf("new-york", "ui/" + name + ".tsx");
  }

  /** A component given by name alone is listed from the registry and titled `components/ui/<name>.tsx`. */
  lemma RenderByName(name: string, language: Option<string>)
    requires name != "" && '/' !in name
    ensures Render(Some(name), None, None, language)
         == Listing(ComponentPath(name), ComponentsPrefix + ("ui/" + name + ".tsx"), Language(language, ComponentPath(name)))
  {
    ComponentPathTitle(name);
  }
}
