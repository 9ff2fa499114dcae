/**
 * The HTML export: a fixed page template around the title and the markdown,
 * both inserted verbatim, and the file name and body of each download.
 */
module Export {
  import opened Wrappers

  const Doctype: string := "<!DOCTYPE html>"
  const TitleOpen: string := "<title>"
  const TitleClose: string := "</title>"
  const HtmlClose: string := "</html>"

  /** The html and head elements' opening, up to the title. */
  const HeadOpen: string := @"
<html lang=""zh-CN"">
<head>
  <meta charset=""UTF-8"">
  <meta name=""viewport"" content=""width=device-width, initial-scale=1.0"">
  "

  /** The style sheet, the end of the head and the start of the body. */
  const StyleSheet: string := @"
  <style>
    body {
      font-family: -apple-system, BlinkMacSystemFont, ""Segoe UI"", ""Noto Sans"", Helvetica, Arial, sans-serif, ""Apple Color Emoji"", ""Segoe UI Emoji"";
      line-height: 1.6;
      max-width: 800px;
      margin: 0 auto;
      padding: 20px;
      color: #24292f;
      background: #ffffff;
    }
    h1, h2, h3, h4, h5, h6 {
      margin-top: 24px;
      margin-bottom: 16px;
      font-weight: 600;
      line-height: 1.25;
    }
    h1 { font-size: 2em; border-bottom: 1px solid #d0d7de; padding-bottom: 0.3em; }
    h2 { font-size: 1.5em; border-bottom: 1px solid #d0d7de; padding-bottom: 0.3em; }
    h3 { font-size: 1.25em; }
    code {
      padding: 0.2em 0.4em;
      margin: 0;
      font-size: 85%;
      background-color: rgba(175, 184, 193, 0.2);
      border-radius: 6px;
      font-family: ui-monospace, SFMono-Regular, SF Mono, Menlo, Consolas, Liberation Mono, monospace;
    }
    pre {
      padding: 16px;
      overflow: auto;
      font-size: 85%;
      line-height: 1.45;
      background-color: #f6f8fa;
      border-radius: 6px;
    }
    pre code {
      background-color: transparent;
      padding: 0;
    }
    blockquote {
      padding: 0 1em;
      color: #57606a;
      border-left: 0.25em solid #d0d7de;
      margin: 0;
    }
    table {
      border-spacing: 0;
      border-collapse: collapse;
      margin-top: 0;
      margin-bottom: 16px;
      display: block;
      width: max-content;
      max-width: 100%;
      overflow: auto;
    }
    table th, table td {
      padding: 6px 13px;
      border: 1px solid #d0d7de;
    }
    table th {
      font-weight: 600;
      background-color: #f6f8fa;
    }
    table tr:nth-child(2n) {
      background-color: #f6f8fa;
    }
    a {
      color: #0969da;
      text-decoration: none;
    }
    a:hover {
      text-decoration: underline;
    }
    img {
      max-width: 100%;
      height: auto;
    }
    hr {
      height: 0.25em;
      padding: 0;
      margin: 24px 0;
      background-color: #d0d7de;
      border: 0;
    }
    input[type=""checkbox""] {
      margin-right: 0.5em;
    }
    @media print {
      body {
        max-width: 100%;
        padding: 0;
      }
    }
  </style>
</head>
<body>
  "

  /** The end of the body. */
  const BodyClose: string := @"
</body>
"

  /** The page up to and including the opening title tag. */
  const HtmlHead: string := Doctype + HeadOpen + TitleOpen

  /** From the closing title tag to the start of the body. */
  const HtmlStyle: string := TitleClose + StyleSheet

  /** The end of the body and of the page. */
  const HtmlTail: string := BodyClose + HtmlClose

  /** The title used when none is given. */
  const DefaultExportTitle: string := "文档"

  /** The page for a document: the template with the title and the markdown put in as they are. */
  function GenerateHtml(markdown: string, title: Option<string>): string
  {
    Fill(HtmlHead, title.GetOr(DefaultExportTitle), HtmlStyle, markdown, HtmlTail)
  }

  /** A template with its two holes filled. */
  function Fill(head: string, t: string, style: string, md: string, tail: string): string
  {
    head + t + style + md + tail
  }

  /** The document read back out of a page generated with the given title. */
  function ExtractMarkdown(html: string, title: string): string
  {
    var from := |HtmlHead| + |title| + |HtmlStyle|;
    if from + |HtmlTail| <= |html| then html[from..|html| - |HtmlTail|] else ""
  }

  /** A file offered for download. */
  datatype Download = Download(fileName: string, content: string, mimeType: string)

  /** The HTML download: named after the title, holding the generated page. */
  function ExportAsHtml(markdown: string, title: Option<string>): Download
  {
    var t := title.GetOr(DefaultExportTitle);
    Download(t + ".html", GenerateHtml(markdown, Some(t)), "text/html;charset=utf-8")
  }

  /** The Markdown download: named after the title, holding the markdown unchanged. */
  function ExportAsMarkdown(markdown: string, title: Option<string>): Download
  {
    Download(title.GetOr(DefaultExportTitle) + ".md", markdown, "text/markdown;charset=utf-8")
  }

  /** `a + b + c` holds `b` between `a` and `c`. */
  lemma Between(a: string, b: string, c: string)
    ensures (a + b + c)[..|a|] == a
    ensures (a + b + c)[|a|..|a| + |b|] == b
    ensures (a + b + c)[|a| + |b|..] == c
  {
  }

  /** Where the five parts of a filled template lie. */
  lemma FillParts(head: string, t: string, style: string, md: string, tail: string)
    ensures var html := Fill(head, t, style, md, tail);
      var m := |head| + |t| + |style|;
      && |html| == |head| + |style| + |tail| + |t| + |md|
      && html[..|head|] == head
      && html[|head|..|head| + |t|] == t
      && html[|head| + |t|..m] == style
      && html[m..m + |md|] == md
      && html[m + |md|..] == tail
  {
    Between(head, t, style + md + tail);
    Between(head + t + style, md, tail);
    Between(head + t, style, md + tail);
  }

  /** A prefix of a prefix is a prefix. */
  lemma PrefixOfPrefix(s: string, head: string, p: string)
    requires |head| <= |s| && s[..|head|] == head
    requires |p| <= |head| && head[..|p|] == p
    ensures s[..|p|] == p
  {
    assert s[..|p|] == s[..|head|][..|p|];
  }

  /** The template's head starts with the doctype and ends with the opening title tag. */
  lemma HeadTags()
    ensures |Doctype| <= |HtmlHead| && HtmlHead[..|Doctype|] == Doctype
    ensures |TitleOpen| <= |HtmlHead| && HtmlHead[|HtmlHead| - |TitleOpen|..] == TitleOpen
  {
    Between(Doctype, HeadOpen, TitleOpen);
    Between(Doctype + HeadOpen, TitleOpen, "");
  }

  /** The part after the title starts with the closing title tag. */
  lemma StyleTags()
    ensures |TitleClose| <= |HtmlStyle| && HtmlStyle[..|TitleClose|] == TitleClose
  {
    Between(TitleClose, StyleSheet, "");
  }

  /**
   * The title sits unescaped between the title tags, and the markdown sits
   * unrendered between the template's fixed parts; the length is the sum of
   * the parts.
   */
  lemma GenerateHtmlLayout(markdown: string, t: string)
    ensures |GenerateHtml(markdown, Some(t))| == |HtmlHead| + |HtmlStyle| + |HtmlTail| + |t| + |markdown|
    ensures GenerateHtml(markdown, Some(t))[..|HtmlHead|] == HtmlHead
    ensures GenerateHtml(markdown, Some(t))[|HtmlHead|..|HtmlHead| + |t|] == t
    ensures GenerateHtml(markdown, Some(t))[|HtmlHead| + |t|..|HtmlHead| + |t| + |HtmlStyle|] == HtmlStyle
    ensures GenerateHtml(markdown, Some(t))[|HtmlHead| + |t| + |HtmlStyle|..|HtmlHead| + |t| + |HtmlStyle| + |markdown|] == markdown
    ensures GenerateHtml(markdown, Some(t))[|HtmlHead| + |t| + |HtmlStyle| + |markdown|..] == HtmlTail
  {
    FillParts(HtmlHead, t, HtmlStyle, markdown, HtmlTail);
  }

  /** Without a title the page is the one for the default title. */
  lemma GenerateHtmlDefaultTitle(markdown: string)
    ensures GenerateHtml(markdown, None) == GenerateHtml(markdown, Some(DefaultExportTitle))
  {
  }

  /** A filled template starts as its head starts. */
  lemma FillStarts(head: string, t: string, style: string, md: string, tail: string, first: string)
    requires |first| <= |head| && head[..|first|] == first
    ensures var html := Fill(head, t, style, md, tail);
      |first| <= |html| && html[..|first|] == first
  {
    var html := Fill(head, t, style, md, tail);
    Between(head, t + style + md, tail);
    assert html == head + (t + style + md) + tail;
    PrefixOfPrefix(html, head, first);
  }

  /** The page starts with the doctype. */
  lemma GenerateHtmlStartsWithDoctype(markdown: string, title: string)
    ensures |Doctype| <= |GenerateHtml(markdown, Some(title))|
    ensures GenerateHtml(markdown, Some(title))[..|Doctype|] == Doctype
  {
    HeadTags();
    FillStarts(HtmlHead, title, HtmlStyle, markdown, HtmlTail, Doctype);
  }

  /** The page without its closing html tag. */
  function PageBeforeClose(markdown: string, t: string): string
  {
    HtmlHead + t + HtmlStyle + markdown + BodyClose
  }

  /** Appending is associative at the end. */
  lemma AppendTail(x: string, b: string, c: string)
    ensures x + (b + c) == (x + b) + c
  {
  }

  /** The page ends with the closing html tag. */
  lemma GenerateHtmlEndsWithHtmlClose(markdown: string, title: string)
    ensures GenerateHtml(markdown, Some(title)) == PageBeforeClose(markdown, title) + HtmlClose
  {
    AppendTail(HtmlHead + title + HtmlStyle + markdown, BodyClose, HtmlClose);
  }

  /** Reading the document back out of its page gives it back unchanged. */
  lemma ExtractMarkdownOfGenerated(markdown: string, title: string)
    ensures ExtractMarkdown(GenerateHtml(markdown, Some(title)), title) == markdown
  {
    GenerateHtmlLayout(markdown, title);
  }

  /** Under one title, different documents give different pages. */
  lemma GenerateHtmlInjective(m1: string, m2: string, title: string)
    ensures GenerateHtml(m1, Some(title)) == GenerateHtml(m2, Some(title)) ==> m1 == m2
  {
    ExtractMarkdownOfGenerated(m1, title);
    ExtractMarkdownOfGenerated(m2, title);
  }

  /** The two downloads: the page as "<title>.html", the markdown unchanged as "<title>.md". */
  lemma ExportDownloads(markdown: string, title: Option<string>)
    ensures var t := title.GetOr(DefaultExportTitle);
      && ExportAsHtml(markdown, title).fileName == t + ".html"
      && ExtractMarkdown(ExportAsHtml(markdown, title).content, t) == markdown
      && ExportAsMarkdown(markdown, title).fileName == t + ".md"
      && ExportAsMarkdown(markdown, title).content == markdown
  {
    ExtractMarkdownOfGenerated(markdown, title.GetOr(DefaultExportTitle));
  }
}
