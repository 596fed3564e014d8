/**
 * The file explorer of a fragment: the editor language guessed from a file
 * name, the breadcrumb over the selected path, and the two pieces of state
 * the component keeps, the selected file and the "copied" flag.
 */
module FileExplorer {
  import opened Common
  import opened Text
  import opened FileMap

  const DefaultLanguage := "txt"
  /** Up to this many path segments the breadcrumb shows them all. */
  const MaxSegments: nat := 3

  /** `getLanguageFromExtension`: the lowered text after the last dot, or "txt" when that is empty. */
  function LanguageFromExtension(filename: string): string
  {
    var parts := Split(filename, IsDot);
    var ext := Lower(parts[|parts| - 1]);
    if ext == "" then DefaultLanguage else ext
  }

  /** One element of the breadcrumb. */
  datatype Crumb =
    | Segment(text: string)   // a muted segment
    | Page(text: string)      // the current page
    | Separator
    | Ellipsis
    | EmptyItem               // the empty item before the page in the collapsed form

  /** The crumbs for every segment: the last one is the page, each other is followed by a separator. */
  function AllCrumbs(segments: seq<string>): seq<Crumb>
    requires |segments| >= 1
  {
    if |segments| == 1 then [Page(segments[0])]
    else [Segment(segments[0]), Separator] + AllCrumbs(segments[1..])
  }

  /** `FileBreadcrumb`: the path split on "/", collapsed to first, ellipsis and last beyond three segments. */
  function Breadcrumb(filePath: string): seq<Crumb>
  {
    var segments := Split(filePath, IsSlash);
    if |segments| <= MaxSegments then AllCrumbs(segments)
    else Collapsed(segments[0], segments[|segments| - 1])
  }

  /** The collapsed form: the first segment, an ellipsis, an empty item and the last segment as the page. */
  function Collapsed(first: string, last: string): seq<Crumb>
  {
    [Segment(first), Separator, Ellipsis, Separator, EmptyItem, Page(last)]
  }

  function CrumbText(c: Crumb): seq<string>
  {
    if c.Segment? || c.Page? then [c.text] else []
  }

  /** The texts the breadcrumb shows, in order. */
  function Texts(cs: seq<Crumb>): seq<string>
  {
    if cs == [] then [] else CrumbText(cs[0]) + Texts(cs[1..])
  }

  /** `files[p]` is truthy: present with non-empty content. */
  predicate HasContent(files: Files, p: string)
  {
    Get(files, p).Some? && Get(files, p).value != ""
  }

  /** The right-hand pane: the code of the selected file with its language, or the placeholder. */
  datatype Pane = CodePane(path: string, code: string, language: string) | Placeholder

  class Explorer {
    const files: Files
    var selectedFile: Option<string>
    var copied: bool
    /** What was written to the clipboard, oldest first. */
    var clipboard: seq<string>

    /** The selection, when there is one, is a key of the files. */
    ghost predicate Valid()
      reads this
    {
      selectedFile.Some? ==> selectedFile.value in Paths(files)
    }

    /** The initial state: the first key is selected, or nothing when there are no files. */
    constructor (files: Files)
      ensures this.files == files
      ensures selectedFile == if |files| > 0 then Some(files[0].path) else None
      ensures !copied && clipboard == []
      ensures Valid()
    {
      this.files := files;
      if |files| > 0 {
        selectedFile := Some(files[0].path);
        PathsAt(files, 0);
      } else {
        selectedFile := None;
      }
      copied := false;
      clipboard := [];
    }

    /** The condition the content pane and the copy handler test: a truthy selection with truthy content. */
    predicate ShowsContent()
      reads this
    {
      selectedFile.Some? && selectedFile.value != "" && HasContent(files, selectedFile.value)
    }

    function CurrentPane(): (p: Pane)
      reads this
      ensures p.CodePane? <==> ShowsContent()
      ensures p.CodePane? ==> selectedFile == Some(p.path)
      ensures p.CodePane? ==> Get(files, p.path) == Some(p.code) && p.code != "" && p.language == LanguageFromExtension(p.path)
    {
      if ShowsContent() then
        CodePane(selectedFile.value, Get(files, selectedFile.value).value, LanguageFromExtension(selectedFile.value))
      else Placeholder
    }

    /** `handleFileSelect`: only a path with content becomes the selection. */
    method HandleFileSelect(filePath: string)
      requires Valid()
      modifies this`selectedFile
      ensures Valid()
      ensures selectedFile == if HasContent(files, filePath) then Some(filePath) else old(selectedFile)
    {
      if HasContent(files, filePath) {
        selectedFile := Some(filePath);
      }
    }

    /** `handleCopy`: copies the shown content and sets the flag; does nothing when no content is shown. */
    method HandleCopy()
      modifies this`copied, this`clipboard
      ensures ShowsContent() ==> copied && clipboard == old(clipboard) + [Get(files, selectedFile.value).value]
      ensures !ShowsContent() ==> copied == old(copied) && clipboard == old(clipboard)
    {
      if selectedFile.Some? && selectedFile.value != "" && HasContent(files, selectedFile.value) {
        clipboard := clipboard + [Get(files, selectedFile.value).value];
        copied := true;
      }
    }

    /** The timer that runs after a copy. */
    method ResetCopied()
      modifies this`copied
      ensures !copied
    {
      copied := false;
    }
  }

  // ---------------------------------------------------------------- lemmas

  /** The language is the lowered text after the last dot: whatever precedes that dot does not matter. */
  lemma LanguageAfterLastDot(prefix: string, ext: string)
    ensures LanguageFromExtension(prefix + "." + ext) == LanguageFromExtension(ext)
  {
    assert prefix + "." + ext == prefix + ['.'] + ext;
    LastPieceAfter(prefix, '.', ext, IsDot);
  }

  /** A name without a dot is its own extension; an empty one falls back to "txt". */
  lemma LanguageWithoutDot(filename: string)
    requires forall i :: 0 <= i < |filename| ==> filename[i] != '.'
    ensures LanguageFromExtension(filename) == if filename == "" then DefaultLanguage else Lower(filename)
  {
    SplitNoSeparator(filename, IsDot);
  }

  /** A trailing dot gives "txt". */
  lemma LanguageTrailingDot(filename: string)
    ensures LanguageFromExtension(filename + ".") == DefaultLanguage
  {
    LanguageAfterLastDot(filename, "");
    assert filename + "." + "" == filename + ".";
  }

  /** The language never contains a dot and is never empty. */
  lemma LanguageHasNoDot(filename: string)
    ensures LanguageFromExtension(filename) != ""
    ensures forall i :: 0 <= i < |LanguageFromExtension(filename)| ==> LanguageFromExtension(filename)[i] != '.'
  {
    var parts := Split(filename, IsDot);
    var last := parts[|parts| - 1];
    SplitPieces(filename, IsDot);
    forall i | 0 <= i < |Lower(last)| ensures Lower(last)[i] != '.' {
      assert !IsDot(last[i]);
    }
  }

  lemma {:induction false} TextsAppend(a: seq<Crumb>, b: seq<Crumb>)
    ensures Texts(a + b) == Texts(a) + Texts(b)
  {
    if a != [] {
      assert (a + b)[0] == a[0];
      assert (a + b)[1..] == a[1..] + b;
      TextsAppend(a[1..], b);
    } else {
      assert a + b == b;
    }
  }

  lemma {:induction false} AllCrumbsTexts(segments: seq<string>)
    requires |segments| >= 1
    ensures Texts(AllCrumbs(segments)) == segments
  {
    if |segments| > 1 {
      AllCrumbsTexts(segments[1..]);
      TextsAppend([Segment(segments[0]), Separator], AllCrumbs(segments[1..]));
      assert Texts([Separator]) == [];
      assert Texts([Segment(segments[0]), Separator]) == [segments[0]];
      assert segments == [segments[0]] + segments[1..];
    }
  }

  lemma {:induction false} AllCrumbsPages(segments: seq<string>)
    requires |segments| >= 1
    ensures AllCrumbs(segments)[|AllCrumbs(segments)| - 1] == Page(segments[|segments| - 1])
    ensures forall i :: 0 <= i < |AllCrumbs(segments)| - 1 ==> !AllCrumbs(segments)[i].Page? && !AllCrumbs(segments)[i].Ellipsis?
    ensures Ellipsis !in AllCrumbs(segments)
  {
    if |segments| > 1 {
      AllCrumbsPages(segments[1..]);
      var rest := AllCrumbs(segments[1..]);
      var cs := [Segment(segments[0]), Separator] + rest;
      assert cs[|cs| - 1] == rest[|rest| - 1];
      forall i | 0 <= i < |cs| - 1 ensures !cs[i].Page? && !cs[i].Ellipsis? {
        if i >= 2 {
          assert cs[i] == rest[i - 2];
        }
      }
    }
  }

  /** The collapsed breadcrumb: the first segment, an ellipsis, and the last segment as the page. */
  lemma CollapsedShape(first: string, last: string)
    ensures var cs := Collapsed(first, last);
      && Texts(cs) == [first, last] && Ellipsis in cs
      && cs[|cs| - 1] == Page(last) && forall i :: 0 <= i < |cs| - 1 ==> !cs[i].Page?
  {
    var t4 := [EmptyItem, Page(last)];
    var t3 := [Separator] + t4;
    var t2 := [Ellipsis] + t3;
    var t1 := [Separator] + t2;
    var cs := [Segment(first)] + t1;
    assert cs == Collapsed(first, last);
    TextsCons(Page(last), []);
    TextsCons(EmptyItem, [Page(last)]);
    assert [EmptyItem] + [Page(last)] == t4;
    TextsCons(Separator, t4);
    TextsCons(Ellipsis, t3);
    TextsCons(Separator, t2);
    TextsCons(Segment(first), t1);
    assert cs[2] == Ellipsis;
  }

  lemma TextsCons(c: Crumb, cs: seq<Crumb>)
    ensures Texts([c] + cs) == CrumbText(c) + Texts(cs)
  {
    assert ([c] + cs)[1..] == cs;
  }

  /**
   * The breadcrumb always ends with the last segment as the only page. Up to
   * three segments it shows each of them in order with no ellipsis; beyond
   * that it shows only the first and the last, with an ellipsis between.
   */
  lemma BreadcrumbShape(filePath: string)
    ensures var cs, segments := Breadcrumb(filePath), Split(filePath, IsSlash);
      && cs[|cs| - 1] == Page(segments[|segments| - 1])
      && (forall i :: 0 <= i < |cs| - 1 ==> !cs[i].Page?)
      && (|segments| <= MaxSegments ==> Texts(cs) == segments && Ellipsis !in cs)
      && (|segments| > MaxSegments ==> Texts(cs) == [segments[0], segments[|segments| - 1]] && Ellipsis in cs)
  {
    var segments := Split(filePath, IsSlash);
    if |segments| <= MaxSegments {
      AllCrumbsTexts(segments);
      AllCrumbsPages(segments);
    } else {
      CollapsedShape(segments[0], segments[|segments| - 1]);
    }
  }

  /** Selecting a path with content, when the path is not empty, makes the pane show that file. */
  lemma SelectThenShow(e: Explorer, filePath: string)
    requires filePath != "" && HasContent(e.files, filePath) && e.selectedFile == Some(filePath)
    ensures e.CurrentPane() == CodePane(filePath, Get(e.files, filePath).value, LanguageFromExtension(filePath))
  {
  }
}
