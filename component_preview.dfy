/**
 * Component preview (`components/core/component-preview.tsx`): which code a
 * preview shows, under which download file name, and what it renders.
 * Reading a source file and loading a preview component are outside the
 * model: they are the inputs `readSource` and `hasPreview`.
 */
module ComponentPreview {
  import opened Wrappers
  import opened TextUtil

  const PreviewsDir: string := "components/previews/"
  const DefaultFilename: string := "component.tsx"

  /** What the preview renders: the loaded preview component, or the given children. */
  datatype Content = PreviewComponent(name: string) | Children

  datatype PreviewView = PreviewView(code: string, filename: string, content: Content)

  /** `previewPath`. */
  function PreviewPath(name: string): string {
    PreviewsDir + name + ".tsx"
  }

  /** `parts[parts.length - 1] || parts[0]` for `parts = name.split("/")`. */
  function DownloadStem(name: string): string {
    var parts := Split(name, '/');
    if parts[|parts| - 1] != "" then parts[|parts| - 1] else parts[0]
  }

  /** The download file name derived from a preview name. */
  function FilenameFromName(name: string): string {
    DownloadStem(name) + ".tsx"
  }

  /** `ComponentPreview`: defaults first, then the overrides a truthy name brings. */
  function Preview(name: Option<string>, code: Option<string>, filename: Option<string>,
                   readSource: string -> string, hasPreview: string -> bool): PreviewView
  {
    var sourceCode := OrElse(code, "");
    var downloadFilename := OrElse(filename, DefaultFilename);
    if Truthy(name) then
      var n := name.value;
      PreviewView(
        readSource(PreviewPath(n)),
        if !Truthy(filename) then FilenameFromName(n) else downloadFilename,
        if hasPreview(n) then PreviewComponent(n) else Children)
    else
      PreviewView(sourceCode, downloadFilename, Children)
  }

  /**
   * Without a name the code is the `code` prop or empty, the file name is
   * the given one or "component.tsx", and the children render. With a name
   * the code comes from the preview file of that name (even when `code` is
   * given) and the loaded preview renders when there is one. An explicit
   * file name is never overridden.
   */
  lemma PreviewRules(name: Option<string>, code: Option<string>, filename: Option<string>,
                     readSource: string -> string, hasPreview: string -> bool)
    ensures var v := Preview(name, code, filename, readSource, hasPreview);
      && (!Truthy(name) ==> v == PreviewView(OrElse(code, ""), OrElse(filename, DefaultFilename), Children))
      && (Truthy(name) ==> v.code == readSource(PreviewsDir + name.value + ".tsx"))
      && (Truthy(name) ==> (v.content.PreviewComponent? <==> hasPreview(name.value)))
      && (v.content.PreviewComponent? ==> v.content.name == name.value)
      && (Truthy(filename) ==> v.filename == filename.value)
      && (Truthy(name) && !Truthy(filename) ==> v.filename == FilenameFromName(name.value))
  {
  }

  /**
   * The derived file name is the last '/'-segment of the name with ".tsx"
   * appended: the name ends with that segment and the segment has no '/'.
   * Only when the name ends with '/' does the first segment, everything up
   * to the first '/', take its place.
   */
  lemma FilenameFromNameRules(name: string)
    ensures var f := FilenameFromName(name);
      && |f| >= 4 && f[|f| - 4..] == ".tsx"
      && var stem := f[..|f| - 4];
      && '/' !in stem
      && (|name| == 0 || name[|name| - 1] != '/' ==> |stem| <= |name| && name[|name| - |stem|..] == stem)
      && ('/' in name && name[|name| - 1] != '/' ==> |stem| < |name| && name[|name| - |stem| - 1] == '/')
      && ('/' !in name ==> stem == name)
      && (|name| > 0 && name[|name| - 1] == '/' ==> stem == name[..IndexOf(name, '/')])
  {
    var stem := DownloadStem(name);
    var f := FilenameFromName(name);
    assert f[..|f| - 4] == stem;
    assert f[|f| - 4..] == ".tsx";
    StemIsLastSegment(name);
    LastPieceIsSuffix(name, '/');
    if |name| > 0 && name[|name| - 1] == '/' {
      StemAfterTrailingSlash(name);
    }
  }

  /** When the name does not end with '/', the stem is the text after its last '/'. */
  lemma StemIsLastSegment(name: string)
    ensures '/' !in DownloadStem(name)
    ensures |name| == 0 || name[|name| - 1] != '/' ==> DownloadStem(name) == LastPiece(name, '/')
    ensures '/' !in name ==> DownloadStem(name) == name
  {
    LastPieceOfSplit(name, '/');
    LastPieceIsSuffix(name, '/');
    SplitHead(name, '/');
    var parts := Split(name, '/');
    assert parts[0] in parts;
    if |name| > 0 && name[|name| - 1] != '/' && '/' in name {
      var e := LastPiece(name, '/');
      assert e != "";
    }
  }

  /** A name ending with '/' falls back to its first segment. */
  lemma StemAfterTrailingSlash(name: string)
    requires |name| > 0 && name[|name| - 1] == '/'
    ensures DownloadStem(name) == name[..IndexOf(name, '/')]
  {
    LastPieceOfSplit(name, '/');
    LastPieceAfterTrailing(name, '/');
    SplitHead(name, '/');
  }

  /** A name without '/' is its own file name. */
  lemma FilenameOfPlainName(name: string)
    requires '/' !in name
    ensures FilenameFromName(name) == name + ".tsx"
  {
    SplitHead(name, '/');
  }
}
