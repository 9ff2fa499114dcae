/**
 * The toolbar: formatting buttons that append markup at the end of the
 * document, the insert-image dialog, opening a file, and the export menu.
 */
module Toolbar {
  import opened Wrappers
  import opened JsStrings
  import opened Markdown
  import opened EditorContext
  import opened Export

  /** Markdown with an image appended after a blank line and followed by a newline. */
  function WithImageLine(markdown: string, url: string): (r: string)
    ensures |markdown| <= |r| && r[..|markdown|] == markdown
    ensures r[|markdown|..] == "\n\n![图片](" + url + ")\n"
  {
    markdown + ("\n\n![图片](" + url + ")\n")
  }

  /** The text after a format button: the markup applied to an empty selection at the end. */
  function AppendFormat(markdown: string, format: string): string
  {
    InsertAtCursor(markdown, format, Selection(|markdown|, |markdown|)).text
  }

  /**
   * A format button appends prefix, placeholder and suffix to the document,
   * which stays a prefix of the result; an unknown format changes nothing.
   */
  lemma AppendFormatAppends(markdown: string, format: string)
    ensures format in FormatMap ==>
      var spec := FormatMap[format];
      AppendFormat(markdown, format) == markdown + spec.prefix + spec.placeholder + spec.suffix
    ensures format !in FormatMap ==> AppendFormat(markdown, format) == markdown
    ensures |markdown| <= |AppendFormat(markdown, format)|
    ensures AppendFormat(markdown, format)[..|markdown|] == markdown
  {
    if format in FormatMap {
      var n := |markdown|;
      InsertAtCursorSplices(markdown, format, n, n);
      assert markdown[..n] == markdown && markdown[n..] == [];
    }
  }

  /**
   * A document saved as markdown and opened again comes back unchanged, and
   * so does its title when it contains neither ".md" nor ".txt".
   */
  lemma SavedMarkdownReopens(markdown: string, title: string)
    requires forall j :: 0 <= j ==> !OccursAt(title, ".md", j) && !OccursAt(title, ".txt", j)
    ensures var d := ExportAsMarkdown(markdown, Some(title));
      d.content == markdown && OpenedTitle(d.fileName) == title
  {
    OpenedTitleOfSavedFile(title);
  }

  /** The toolbar's own state, over the document's store. */
  class ToolbarState {
    const store: EditorStore
    var insertImageModal: bool
    var imageUrl: string
    var exportMenuOpen: bool
    /** The files offered for download, oldest first. */
    var downloads: seq<Download>
    /** How often printing was requested. */
    var printRequests: nat

    ghost predicate Valid()
      reads this, store
    {
      store.Valid()
    }

    constructor (store: EditorStore)
      requires store.Valid()
      ensures Valid() && this.store == store
      ensures !insertImageModal && imageUrl == "" && !exportMenuOpen
      ensures downloads == [] && printRequests == 0
    {
      this.store := store;
      insertImageModal, imageUrl, exportMenuOpen := false, "", false;
      downloads, printRequests := [], 0;
    }

    /** A format button: the formatted text replaces the document. */
    method HandleFormat(format: string)
      requires Valid()
      modifies store
      ensures Valid()
      ensures store.State() == old(store.State()).(markdown := AppendFormat(old(store.markdown), format))
      ensures store.storage == old(store.storage)[MarkdownKey := store.markdown]
    {
      store.SetMarkdown(AppendFormat(store.markdown, format));
    }

    method OpenImageModal()
      modifies this
      ensures insertImageModal
      ensures imageUrl == old(imageUrl) && exportMenuOpen == old(exportMenuOpen)
      ensures downloads == old(downloads) && printRequests == old(printRequests)
    {
      insertImageModal := true;
    }

    /** The dialog's close and cancel controls. */
    method CloseImageModal()
      modifies this
      ensures !insertImageModal
      ensures imageUrl == old(imageUrl) && exportMenuOpen == old(exportMenuOpen)
      ensures downloads == old(downloads) && printRequests == old(printRequests)
    {
      insertImageModal := false;
    }

    /** Typing in the dialog's URL field. */
    method SetImageUrl(url: string)
      modifies this
      ensures imageUrl == url
      ensures insertImageModal == old(insertImageModal) && exportMenuOpen == old(exportMenuOpen)
      ensures downloads == old(downloads) && printRequests == old(printRequests)
    {
      imageUrl := url;
    }

    /**
     * With a URL, appends the image line, clears the URL and closes the
     * dialog; without one, nothing happens.
     */
    method HandleInsertImage()
      requires Valid()
      modifies this, store
      ensures Valid()
      ensures old(imageUrl) == [] ==>
        && store.State() == old(store.State()) && store.storage == old(store.storage)
        && imageUrl == old(imageUrl) && insertImageModal == old(insertImageModal)
      ensures old(imageUrl) != [] ==>
        && store.State() == old(store.State()).(markdown := WithImageLine(old(store.markdown), old(imageUrl)))
        && store.storage == old(store.storage)[MarkdownKey := store.markdown]
        && imageUrl == [] && !insertImageModal
      ensures exportMenuOpen == old(exportMenuOpen)
      ensures downloads == old(downloads) && printRequests == old(printRequests)
    {
      if imageUrl != [] {
        store.SetMarkdown(WithImageLine(store.markdown, imageUrl));
        imageUrl := "";
        insertImageModal := false;
      }
    }

    /**
     * The file picker's change: when a file was chosen and read, its content
     * becomes the document and its name the title.
     */
    method HandleFileChange(file: Option<(string, string)>)
      requires Valid()
      modifies store
      ensures Valid()
      ensures file.None? ==> store.State() == old(store.State()) && store.storage == old(store.storage)
      ensures file.Some? ==>
        var (name, content) := file.value;
        && store.State() == old(store.State()).(markdown := content, title := OpenedTitle(name))
        && store.storage == old(store.storage)[MarkdownKey := content][TitleKey := OpenedTitle(name)]
    {
      if file.Some? {
        var (name, content) := file.value;
        store.SetMarkdown(content);
        store.SetTitle(OpenedTitle(name));
      }
    }

    /** The export button flips the menu. */
    method ToggleExportMenu()
      modifies this
      ensures exportMenuOpen == !old(exportMenuOpen)
      ensures insertImageModal == old(insertImageModal) && imageUrl == old(imageUrl)
      ensures downloads == old(downloads) && printRequests == old(printRequests)
    {
      exportMenuOpen := !exportMenuOpen;
    }

    /** A click on the backdrop behind the menu closes it. */
    method CloseExportMenu()
      modifies this
      ensures !exportMenuOpen
      ensures insertImageModal == old(insertImageModal) && imageUrl == old(imageUrl)
      ensures downloads == old(downloads) && printRequests == old(printRequests)
    {
      exportMenuOpen := false;
    }

    /** Offers the page as "<title>.html" and closes the menu. */
    method HandleExportHtml()
      requires Valid()
      modifies this
      ensures Valid()
      ensures downloads == old(downloads) + [ExportAsHtml(store.markdown, Some(store.title))]
      ensures !exportMenuOpen
      ensures insertImageModal == old(insertImageModal) && imageUrl == old(imageUrl)
      ensures printRequests == old(printRequests)
    {
      downloads := downloads + [ExportAsHtml(store.markdown, Some(store.title))];
      exportMenuOpen := false;
    }

    /** Offers the markdown as "<title>.md" and closes the menu. */
    method HandleExportMarkdown()
      requires Valid()
      modifies this
      ensures Valid()
      ensures downloads == old(downloads) + [ExportAsMarkdown(store.markdown, Some(store.title))]
      ensures !exportMenuOpen
      ensures insertImageModal == old(insertImageModal) && imageUrl == old(imageUrl)
      ensures printRequests == old(printRequests)
    {
      downloads := downloads + [ExportAsMarkdown(store.markdown, Some(store.title))];
      exportMenuOpen := false;
    }

    /** Requests printing and closes the menu. */
    method HandleExportPdf()
      requires Valid()
      modifies this
      ensures Valid()
      ensures printRequests == old(printRequests) + 1
      ensures !exportMenuOpen
      ensures insertImageModal == old(insertImageModal) && imageUrl == old(imageUrl)
      ensures downloads == old(downloads)
    {
      printRequests := printRequests + 1;
      exportMenuOpen := false;
    }
  }
}
