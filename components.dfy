/**
 * Component discovery (`lib/components.ts`): every directory under the
 * previews folder that holds a `default.tsx` becomes a component whose title
 * and description come from the front matter of its MDX page when there is
 * one, and from its kebab-case name otherwise; the list is sorted by title.
 *
 * The file system and the front-matter parser are inputs: a directory entry
 * carries whether it is a directory, whether its `default.tsx` exists and
 * what reading its MDX page yielded. `localeCompare` is an arbitrary total
 * preorder on titles, passed in as `le`.
 */
module ComponentsLib {
  import opened Wrappers
  import opened TextUtil

  // ---------------------------------------------------------------------
  // formatTitle
  // ---------------------------------------------------------------------

  /** `word.charAt(0).toUpperCase() + word.slice(1)`. */
  function Capitalize(word: string): (r: string)
    ensures |r| == |word|
  {
    if |word| == 0 then "" else [UpperChar(word[0])] + word[1..]
  }

  function CapitalizeAll(words: seq<string>): (r: seq<string>)
    ensures |r| == |words|
    ensures forall k :: 0 <= k < |words| ==> r[k] == Capitalize(words[k])
  {
    if |words| == 0 then [] else [Capitalize(words[0])] + CapitalizeAll(words[1..])
  }

  /** `formatTitle`: split on '-', capitalise each piece, join with spaces. */
  function FormatTitle(name: string): string {
    Join(CapitalizeAll(Split(name, '-')), " ")
  }

  /**
   * Title case described character by character, independently of split and
   * join: hyphens become spaces, the first character of the name and every
   * character right after a hyphen is upper-cased, the rest is kept.
   */
  function TitleCase(name: string): (r: string)
    ensures |r| == |name|
  {
    seq(|name|, k requires 0 <= k < |name| =>
      if name[k] == '-' then ' '
      else if k == 0 || name[k - 1] == '-' then UpperChar(name[k])
      else name[k])
  }

  /** One step of `formatTitle`: the piece before the first hyphen, a space, the title of the rest. */
  lemma FormatTitleUnfold(name: string)
    requires '-' in name
    ensures var i := IndexOf(name, '-');
      FormatTitle(name) == Capitalize(name[..i]) + " " + FormatTitle(name[i + 1..])
  {
    var i := IndexOf(name, '-');
    var rest := Split(name[i + 1..], '-');
    SplitHead(name, '-');
    CapitalizeAllCons(name[..i], rest);
    JoinCons(Capitalize(name[..i]), CapitalizeAll(rest), " ");
  }

  lemma CapitalizeAllCons(w: string, ws: seq<string>)
    ensures CapitalizeAll([w] + ws) == [Capitalize(w)] + CapitalizeAll(ws)
  {
    assert ([w] + ws)[1..] == ws;
  }

  /** Without hyphens, title case only capitalises the first character. */
  lemma TitleCaseNoHyphen(name: string)
    requires '-' !in name
    ensures TitleCase(name) == Capitalize(name)
  {
    forall k | 0 <= k < |name|
      ensures name[k] != '-'
    {
      assert name[k] in name;
    }
  }

  /** Title case of a hyphenated name: the first piece, a space, the title case of the rest. */
  lemma TitleCaseStep(name: string)
    requires '-' in name
    ensures var i := IndexOf(name, '-');
      TitleCase(name) == Capitalize(name[..i]) + " " + TitleCase(name[i + 1..])
  {
    var i := IndexOf(name, '-');
    var head := name[..i];
    var rest := name[i + 1..];
    var r := Capitalize(head) + " " + TitleCase(rest);
    TitleCaseNoHyphen(head);
    forall k | 0 <= k < |name|
      ensures r[k] == TitleCase(name)[k]
    {
      if k < i {
        TitleCaseInHead(name, i, k);
      } else if k > i {
        TitleCaseAfterHyphen(name, i, k);
      }
    }
  }

  /** Before the first hyphen, the title case of the name is that of its head. */
  lemma TitleCaseInHead(name: string, i: nat, k: nat)
    requires k < i <= |name|
    ensures TitleCase(name)[k] == TitleCase(name[..i])[k]
  {
    if k > 0 {
      assert name[..i][k - 1] == name[k - 1];
    }
  }

  /** After a hyphen, the title case of the name is that of the text after it. */
  lemma TitleCaseAfterHyphen(name: string, i: nat, k: nat)
    requires i < k < |name| && name[i] == '-'
    ensures TitleCase(name)[k] == TitleCase(name[i + 1..])[k - i - 1]
  {
    var rest := name[i + 1..];
    assert rest[k - i - 1] == name[k];
    if k - i - 1 > 0 {
      assert rest[k - i - 2] == name[k - 1];
    }
  }

  /** `formatTitle` agrees with the character-wise description. */
  lemma {:induction false} FormatTitleIsTitleCase(name: string)
    ensures FormatTitle(name) == TitleCase(name)
    decreases |name|
  {
    if '-' !in name {
      SplitHead(name, '-');
      assert CapitalizeAll([name]) == [Capitalize(name)];
      TitleCaseNoHyphen(name);
    } else {
      var i := IndexOf(name, '-');
      FormatTitleUnfold(name);
      FormatTitleIsTitleCase(name[i + 1..]);
      TitleCaseStep(name);
    }
  }

  /** The title keeps the name's length; a name without hyphens only gets its first character capitalised. */
  lemma FormatTitleShape(name: string)
    ensures |FormatTitle(name)| == |name|
    ensures '-' !in name ==> FormatTitle(name) == Capitalize(name)
    ensures forall k :: 0 <= k < |name| && name[k] == '-' ==> FormatTitle(name)[k] == ' '
  {
    FormatTitleIsTitleCase(name);
    if '-' !in name {
      SplitHead(name, '-');
      assert CapitalizeAll([name]) == [Capitalize(name)];
    }
  }

  /** For a name without spaces, the words of the title are the capitalised pieces of the name. */
  lemma FormatTitleWords(name: string)
    requires ' ' !in name
    ensures Split(FormatTitle(name), ' ') == CapitalizeAll(Split(name, '-'))
  {
    var pieces := Split(name, '-');
    var caps := CapitalizeAll(pieces);
    forall k | 0 <= k < |caps|
      ensures ' ' !in caps[k]
    {
      JoinSplit(name, '-');
      PieceInJoin(pieces, k, [('-')]);
      forall j | 0 <= j < |caps[k]|
        ensures caps[k][j] != ' '
      {
        if j > 0 {
          assert caps[k][j] == pieces[k][j];
          assert pieces[k][j] in pieces[k];
        } else {
          assert pieces[k][0] in pieces[k];
        }
      }
    }
    SplitJoin(caps, ' ');
  }

  /** Every character of a piece occurs in the joined string. */
  lemma {:induction false} PieceInJoin(parts: seq<string>, k: nat, sep: string)
    requires k < |parts|
    ensures forall ch :: ch in parts[k] ==> ch in Join(parts, sep)
  {
    if |parts| > 1 {
      if k > 0 {
        PieceInJoin(parts[1..], k - 1, sep);
      }
      assert Join(parts, sep) == parts[0] + sep + Join(parts[1..], sep);
    }
  }

  // ---------------------------------------------------------------------
  // Discovery
  // ---------------------------------------------------------------------

  /** What reading `content/docs/components/<name>.mdx` yielded. */
  datatype DocPage =
    | NoDocPage                                          // the file does not exist
    | Unparseable                                        // reading or parsing threw
    | FrontMatter(title: Option<string>, description: Option<string>)

  /** A directory entry of `components/previews`, with what the file system says about it. */
  datatype DirEntry = DirEntry(name: string, isDirectory: bool, hasDefaultPreview: bool, doc: DocPage)

  datatype ComponentInfo = ComponentInfo(name: string, title: string, description: string, href: string)

  const DocsPrefix: string := "/docs/components/"

  /** Only directories holding a `default.tsx` are components. */
  predicate IsComponent(e: DirEntry) {
    e.isDirectory && e.hasDefaultPreview
  }

  /** The record pushed for one component directory. */
  function Info(e: DirEntry): ComponentInfo {
    var fallback := FormatTitle(e.name);
    match e.doc
    case FrontMatter(t, d) => ComponentInfo(e.name, OrElse(t, fallback), OrElse(d, ""), DocsPrefix + e.name)
    case _ => ComponentInfo(e.name, fallback, "", DocsPrefix + e.name)
  }

  /**
   * The metadata rules: the link is the docs page of the name; the title is
   * the front-matter title when it is a non-empty string and the formatted
   * name otherwise (also when the page is missing or cannot be parsed); the
   * description is the front-matter description or empty.
   */
  lemma InfoMetadata(e: DirEntry)
    ensures Info(e).name == e.name && Info(e).href == DocsPrefix + e.name
    ensures e.doc.FrontMatter? && Truthy(e.doc.title) ==> Info(e).title == e.doc.title.value
    ensures !(e.doc.FrontMatter? && Truthy(e.doc.title)) ==> Info(e).title == FormatTitle(e.name)
    ensures e.doc.FrontMatter? && Truthy(e.doc.description) ==> Info(e).description == e.doc.description.value
    ensures !(e.doc.FrontMatter? && Truthy(e.doc.description)) ==> Info(e).description == ""
    ensures e.name != "" ==> Info(e).title != ""
  {
    FormatTitleShape(e.name);
  }

  /** The components the loop collects from `entries`, in directory order. */
  function Discovered(entries: seq<DirEntry>): (cs: seq<ComponentInfo>)
    ensures |cs| <= |entries|
  {
    if |entries| == 0 then []
    else
      var last := entries[|entries| - 1];
      Discovered(entries[..|entries| - 1]) + (if IsComponent(last) then [Info(last)] else [])
  }

  /** A component is discovered exactly when some entry is a directory with a default preview. */
  lemma {:induction false} DiscoveredMembers(entries: seq<DirEntry>, c: ComponentInfo)
    ensures c in Discovered(entries) <==> exists k :: 0 <= k < |entries| && IsComponent(entries[k]) && c == Info(entries[k])
  {
    if |entries| > 0 {
      var init := entries[..|entries| - 1];
      DiscoveredMembers(init, c);
      if c in Discovered(init) {
        var k :| 0 <= k < |init| && IsComponent(init[k]) && c == Info(init[k]);
        assert entries[k] == init[k];
      }
      if exists k :: 0 <= k < |entries| && IsComponent(entries[k]) && c == Info(entries[k]) {
        var k :| 0 <= k < |entries| && IsComponent(entries[k]) && c == Info(entries[k]);
        if k < |init| {
          assert init[k] == entries[k];
        }
      }
    }
  }

  // ---------------------------------------------------------------------
  // Sorting by title
  // ---------------------------------------------------------------------

  /** What `localeCompare(a, b) <= 0` is assumed to be: total and transitive. */
  ghost predicate TotalPreorder(le: (string, string) -> bool) {
    && (forall a, b :: le(a, b) || le(b, a))
    && (forall a, b, c :: le(a, b) && le(b, c) ==> le(a, c))
  }

  ghost predicate SortedByTitle(cs: seq<ComponentInfo>, le: (string, string) -> bool) {
    forall i, j :: 0 <= i < j < |cs| ==> le(cs[i].title, cs[j].title)
  }

  /** Insert `c` before the first element whose title is not below its own. */
  function Insert(c: ComponentInfo, cs: seq<ComponentInfo>, le: (string, string) -> bool): (r: seq<ComponentInfo>)
    requires TotalPreorder(le) && SortedByTitle(cs, le)
    ensures multiset(r) == multiset(cs) + multiset{c}
    ensures SortedByTitle(r, le)
  {
    if |cs| == 0 then [c]
    else if le(c.title, cs[0].title) then [c] + cs
    else
      var tail := Insert(c, cs[1..], le);
      assert cs == [cs[0]] + cs[1..];
      assert le(cs[0].title, c.title);
      InsertHeadBound(c, cs, tail, le);
      [cs[0]] + tail
  }

  lemma InsertHeadBound(c: ComponentInfo, cs: seq<ComponentInfo>, tail: seq<ComponentInfo>, le: (string, string) -> bool)
    requires |cs| > 0 && SortedByTitle(cs, le) && le(cs[0].title, c.title)
    requires SortedByTitle(tail, le)
    requires multiset(tail) == multiset(cs[1..]) + multiset{c}
    ensures SortedByTitle([cs[0]] + tail, le)
  {
    var r := [cs[0]] + tail;
    forall j | 0 < j < |r|
      ensures le(cs[0].title, r[j].title)
    {
      assert r[j] == tail[j - 1];
      assert tail[j - 1] in multiset(tail);
      if tail[j - 1] != c {
        assert tail[j - 1] in multiset(cs[1..]);
        var m :| 0 <= m < |cs[1..]| && cs[1..][m] == tail[j - 1];
        assert cs[m + 1] == tail[j - 1];
      }
    }
    forall i, j | 0 <= i < j < |r|
      ensures le(r[i].title, r[j].title)
    {
      if i > 0 {
        assert r[i] == tail[i - 1] && r[j] == tail[j - 1];
      }
    }
  }

  /**
   * `components.sort((a, b) => a.title.localeCompare(b.title))`, as the
   * stable sort the language prescribes: an insertion sort that keeps equal
   * titles in their original order.
   */
  function SortByTitle(cs: seq<ComponentInfo>, le: (string, string) -> bool): (r: seq<ComponentInfo>)
    requires TotalPreorder(le)
    ensures multiset(r) == multiset(cs)
    ensures SortedByTitle(r, le)
  {
    if |cs| == 0 then []
    else
      assert cs == [cs[0]] + cs[1..];
      Insert(cs[0], SortByTitle(cs[1..], le), le)
  }

  /** Sorting a list already in title order leaves it unchanged. */
  lemma {:induction false} SortKeepsSorted(cs: seq<ComponentInfo>, le: (string, string) -> bool)
    requires TotalPreorder(le) && SortedByTitle(cs, le)
    ensures SortByTitle(cs, le) == cs
  {
    if |cs| > 0 {
      SortedTail(cs, le);
      SortKeepsSorted(cs[1..], le);
      InsertLeast(cs, le);
    }
  }

  lemma SortedTail(cs: seq<ComponentInfo>, le: (string, string) -> bool)
    requires |cs| > 0 && SortedByTitle(cs, le)
    ensures SortedByTitle(cs[1..], le)
  {
  }

  /** Inserting the head of a sorted list back into its tail gives the list. */
  lemma InsertLeast(cs: seq<ComponentInfo>, le: (string, string) -> bool)
    requires |cs| > 0 && TotalPreorder(le) && SortedByTitle(cs, le)
    ensures Insert(cs[0], cs[1..], le) == cs
  {
    if |cs| > 1 {
      assert le(cs[0].title, cs[1..][0].title);
    }
    assert cs == [cs[0]] + cs[1..];
  }

  /**
   * `getComponents`: nothing when the previews directory is missing;
   * otherwise the discovered components, sorted by title.
   */
  method GetComponents(previewsExist: bool, entries: seq<DirEntry>, le: (string, string) -> bool)
    returns (components: seq<ComponentInfo>)
    requires TotalPreorder(le)
    ensures !previewsExist ==> components == []
    ensures previewsExist ==> components == SortByTitle(Discovered(entries), le)
    ensures previewsExist ==> multiset(components) == multiset(Discovered(entries))
    ensures SortedByTitle(components, le)
  {
    components := [];
    if !previewsExist {
      return;
    }
    var i := 0;
    while i < |entries|
      invariant 0 <= i <= |entries|
      invariant components == Discovered(entries[..i])
    {
      var entry := entries[i];
      assert entries[..i + 1][..i] == entries[..i];
      if !entry.isDirectory {
        i := i + 1;
        continue;
      }
      if !entry.hasDefaultPreview {
        i := i + 1;
        continue;
      }
      var title := FormatTitle(entry.name);
      var description := "";
      if entry.doc.FrontMatter? {
        title := OrElse(entry.doc.title, title);
        description := OrElse(entry.doc.description, "");
      }
      components := components + [ComponentInfo(entry.name, title, description, DocsPrefix + entry.name)];
      i := i + 1;
    }
    assert entries[..i] == entries;
    components := SortByTitle(components, le);
  }
}
