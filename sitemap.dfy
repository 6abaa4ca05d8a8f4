/**
 * The sitemap step of build.js: the list of pages (eight fixed ones, then one per article)
 * and its serialisation as a urlset document of the sitemaps.org protocol, version 0.9.
 */
module Sitemap {
  import opened Text
  import Build

  /** One entry of the `pages` list. The priority is kept in tenths (10 stands for 1.0). */
  datatype Entry = Entry(loc: string, changefreq: string, priorityTenths: nat)

  const SiteURL := "https://smartfinance360.com"

  /** The eight fixed pages, in the order the build lists them. */
  function StaticPages(): (pages: seq<Entry>)
    ensures |pages| == 8
    ensures forall i :: 0 <= i < 8 ==> pages[i].priorityTenths <= 10
  {
    [ Entry(SiteURL + "/index.html", "hourly", 10),
      Entry(SiteURL + "/motivational.html", "daily", 9),
      Entry(SiteURL + "/finance.html", "daily", 8),
      Entry(SiteURL + "/investment.html", "daily", 8),
      Entry(SiteURL + "/sports.html", "daily", 8),
      Entry(SiteURL + "/technology.html", "daily", 8),
      Entry(SiteURL + "/business.html", "daily", 8),
      Entry(SiteURL + "/contact.html", "weekly", 6) ]
  }

  /** No fixed entry has a `<` in its location or change frequency. */
  lemma StaticPagesPlain()
    ensures forall i :: 0 <= i < 8 ==> '<' !in StaticPages()[i].loc && '<' !in StaticPages()[i].changefreq
  {
    assert '<' !in SiteURL;
    var p := StaticPages();
    assert Plain(p[0]) by { PlainAppend(SiteURL, "/index.html"); }
    assert Plain(p[1]) by { PlainAppend(SiteURL, "/motivational.html"); }
    assert Plain(p[2]) by { PlainAppend(SiteURL, "/finance.html"); }
    assert Plain(p[3]) by { PlainAppend(SiteURL, "/investment.html"); }
    assert Plain(p[4]) by { PlainAppend(SiteURL, "/sports.html"); }
    assert Plain(p[5]) by { PlainAppend(SiteURL, "/technology.html"); }
    assert Plain(p[6]) by { PlainAppend(SiteURL, "/business.html"); }
    assert Plain(p[7]) by { PlainAppend(SiteURL, "/contact.html"); }
  }

  /** Neither field the serialisation prints unescaped holds a `<`. */
  predicate Plain(e: Entry) {
    '<' !in e.loc && '<' !in e.changefreq
  }

  lemma PlainAppend(a: string, b: string)
    requires '<' !in a && '<' !in b
    ensures '<' !in a + b
  {
  }

  /** The `pages` list after the `forEach` that pushes one entry per article. */
  method SitemapPages(articles: seq<Build.Article>) returns (pages: seq<Entry>)
    ensures |pages| == 8 + |articles|
    ensures pages[..8] == StaticPages()
    ensures forall k :: 0 <= k < |articles| ==> pages[8 + k] == Entry(articles[k].CanonicalURL, "daily", 9)
  {
    pages := StaticPages();
    for k := 0 to |articles|
      invariant |pages| == 8 + k
      invariant pages[..8] == StaticPages()
      invariant forall j :: 0 <= j < k ==> pages[8 + j] == Entry(articles[j].CanonicalURL, "daily", 9)
    {
      pages := pages + [Entry(articles[k].CanonicalURL, "daily", 9)];
    }
  }

  // ---------------------------------------------------------------------------------------
  // serialisation

  /** How JavaScript prints the number `tenths / 10`: `1.0` prints as "1", `0.9` as "0.9". */
  function PriorityText(tenths: nat): (r: string)
    ensures '<' !in r
  {
    if tenths % 10 == 0 then NatToString(tenths / 10)
    else NatToString(tenths / 10) + "." + [DigitChar(tenths % 10)]
  }

  /** `<` + body + `>`. */
  function Markup(body: string): string {
    "<" + body + ">"
  }

  function Open(name: string): string {
    Markup(name)
  }

  function Close(name: string): string {
    Markup("/" + name)
  }

  function Element(name: string, text: string): string {
    Open(name) + text + Close(name)
  }

  const SitemapNamespace := "http://www.sitemaps.org/schemas/sitemap/0.9"
  const DeclarationBody := "?xml version=\"1.0\" encoding=\"UTF-8\"?"
  const UrlsetBody := "urlset xmlns=\"" + SitemapNamespace + "\""
  const XmlDeclaration := Markup(DeclarationBody)
  const UrlsetOpen := Markup(UrlsetBody)

  /** One line of a `<url>` block: a newline, four spaces of indentation and the element. */
  function Line(name: string, text: string): string {
    "\n    " + Element(name, text)
  }

  /** The `<url>` block of one entry, with the source's indentation. */
  function UrlBlock(e: Entry): string {
    "  " + Open("url")
    + (Line("loc", e.loc) + Line("changefreq", e.changefreq) + Line("priority", PriorityText(e.priorityTenths)))
    + "\n  " + Close("url")
  }

  function UrlBlocks(pages: seq<Entry>): (blocks: seq<string>)
    ensures |blocks| == |pages|
    ensures forall i :: 0 <= i < |pages| ==> blocks[i] == UrlBlock(pages[i])
  {
    seq(|pages|, i requires 0 <= i < |pages| => UrlBlock(pages[i]))
  }

  /** What precedes the blocks: the XML declaration and the urlset start tag, each on its line. */
  const Head := XmlDeclaration + "\n" + UrlsetOpen + "\n"

  /** What follows the blocks: the urlset end tag on its own line. */
  const Tail := "\n" + Close("urlset")

  /** The sitemap document: the blocks joined by newlines between `Head` and `Tail`. */
  function SitemapXml(pages: seq<Entry>): string {
    Head + Join(UrlBlocks(pages), "\n") + Tail
  }

  /** The document is the template of the build: the declaration line, the urlset start tag
      line, the blocks joined by newlines, and the urlset end tag on a line of its own. */
  lemma SitemapXmlText(pages: seq<Entry>)
    ensures SitemapXml(pages)
         == ("<" + DeclarationBody + ">\n")
            + ("<urlset xmlns=\"" + SitemapNamespace + "\">\n")
            + Join(UrlBlocks(pages), "\n") + "\n</urlset>"
  {
    UrlsetOpenText();
    assert XmlDeclaration + "\n" == "<" + DeclarationBody + ">\n";
    assert Head == (XmlDeclaration + "\n") + (UrlsetOpen + "\n");
    assert Tail == "\n</urlset>";
  }

  lemma UrlsetOpenText()
    ensures UrlsetOpen + "\n" == "<urlset xmlns=\"" + SitemapNamespace + "\">\n"
  {
  }

  /** A block is the template of the build: the `<url>` start tag indented by two spaces,
      the three elements on lines of their own indented by four, and the end tag. */
  lemma UrlBlockText(e: Entry)
    ensures UrlBlock(e)
         == "  <url>"
            + (("\n    <loc>" + e.loc + "</loc>")
               + ("\n    <changefreq>" + e.changefreq + "</changefreq>")
               + ("\n    <priority>" + PriorityText(e.priorityTenths) + "</priority>"))
            + "\n  </url>"
  {
    assert "  " + Open("url") == "  <url>";
    assert "\n  " + Close("url") == "\n  </url>";
    LocLineText(e.loc);
    ChangefreqLineText(e.changefreq);
    PriorityLineText(PriorityText(e.priorityTenths));
  }

  lemma LocLineText(loc: string)
    ensures Line("loc", loc) == "\n    <loc>" + loc + "</loc>"
  {
    assert "\n    " + Open("loc") == "\n    <loc>";
  }

  lemma ChangefreqLineText(freq: string)
    ensures Line("changefreq", freq) == "\n    <changefreq>" + freq + "</changefreq>"
  {
    assert "\n    " + Open("changefreq") == "\n    <changefreq>";
  }

  lemma PriorityLineText(prio: string)
    ensures Line("priority", prio) == "\n    <priority>" + prio + "</priority>"
  {
    assert "\n    " + Open("priority") == "\n    <priority>";
  }

  // ---------------------------------------------------------------------------------------
  // counting <url> start tags

  predicate StartsWithUrlTag(s: string) {
    |s| >= 5 && s[0] == '<' && s[1] == 'u' && s[2] == 'r' && s[3] == 'l' && s[4] == '>'
  }

  /** The number of positions of `s` at which a `<url>` start tag begins. */
  function UrlTags(s: string): nat
    decreases |s|
  {
    if s == [] then 0 else (if StartsWithUrlTag(s) then 1 else 0) + UrlTags(s[1..])
  }

  /** No `<` among the last four characters: no `<url>` can start there and end further on. */
  predicate TailFree(s: string) {
    forall i :: 0 <= i < |s| && |s| - 4 <= i ==> s[i] != '<'
  }

  lemma {:induction false} NoLtNoTags(s: string)
    requires '<' !in s
    ensures UrlTags(s) == 0 && TailFree(s)
    decreases |s|
  {
    if s != [] {
      assert s[0] in s;
      NoLtNoTags(s[1..]);
    }
  }

  /** Counting is additive over a concatenation whose left part cannot start a tag that
      crosses into the right part; the no-`<` tail carries over to the concatenation. */
  lemma {:induction false} TagsAppend(a: string, b: string)
    requires TailFree(a)
    ensures UrlTags(a + b) == UrlTags(a) + UrlTags(b)
    ensures TailFree(b) ==> TailFree(a + b)
    decreases |a|
  {
    if a == [] {
      assert a + b == b;
    } else {
      assert (a + b)[1..] == a[1..] + b;
      TagsAppend(a[1..], b);
      if |a| < 5 {
        assert !StartsWithUrlTag(a + b);
        assert !StartsWithUrlTag(a);
      } else {
        assert (a + b)[..5] == a[..5];
      }
    }
  }

  /** A markup token `<body>` with no `<` or `>` inside: it is a `<url>` start tag exactly
      when the body is "url", and its tail has no `<`. */
  lemma MarkupTags(body: string)
    requires '<' !in body && '>' !in body && |body| >= 3
    ensures UrlTags(Markup(body)) == (if body == "url" then 1 else 0)
    ensures TailFree(Markup(body))
  {
    var s := Markup(body);
    assert s[1..] == body + ">";
    NoLtNoTags(s[1..]);
    if |body| > 3 {
      assert s[4] == body[3];
    }
  }

  lemma ElementTags(name: string, text: string)
    requires '<' !in name && '>' !in name && |name| >= 3 && name != "url" && '<' !in text
    ensures UrlTags(Element(name, text)) == 0 && TailFree(Element(name, text))
  {
    MarkupTags(name);
    MarkupTags("/" + name);
    NoLtNoTags(text);
    TagsAppend(Open(name), text);
    TagsAppend(Open(name) + text, Close(name));
  }

  lemma LineTags(name: string, text: string)
    requires '<' !in name && '>' !in name && |name| >= 3 && name != "url" && '<' !in text
    ensures UrlTags(Line(name, text)) == 0 && TailFree(Line(name, text))
  {
    NoLtNoTags("\n    ");
    ElementTags(name, text);
    TagsAppend("\n    ", Element(name, text));
  }

  /** The three field lines of a block hold no `<url>` start tag. */
  lemma FieldsTags(e: Entry)
    requires '<' !in e.loc && '<' !in e.changefreq
    ensures var fields := Line("loc", e.loc) + Line("changefreq", e.changefreq) + Line("priority", PriorityText(e.priorityTenths));
      UrlTags(fields) == 0 && TailFree(fields)
  {
    var loc, freq, prio := Line("loc", e.loc), Line("changefreq", e.changefreq), Line("priority", PriorityText(e.priorityTenths));
    LineTags("loc", e.loc);
    LineTags("changefreq", e.changefreq);
    LineTags("priority", PriorityText(e.priorityTenths));
    TagsAppend(loc, freq);
    TagsAppend(loc + freq, prio);
  }

  /** `  <url>` + fields + `\n  </url>` holds one start tag more than the fields. */
  lemma {:induction false} WrappedTags(fields: string)
    requires TailFree(fields)
    ensures UrlTags("  " + Open("url") + fields + "\n  " + Close("url")) == 1 + UrlTags(fields)
    ensures TailFree("  " + Open("url") + fields + "\n  " + Close("url"))
  {
    NoLtNoTags("  ");
    NoLtNoTags("\n  ");
    MarkupTags("url");
    MarkupTags("/url");
    TagsAppend("  ", Open("url"));
    TagsAppend("  " + Open("url"), fields);
    TagsAppend("  " + Open("url") + fields, "\n  ");
    TagsAppend("  " + Open("url") + fields + "\n  ", Close("url"));
  }

  /** Each block holds exactly one `<url>` start tag when its fields contain no `<`. */
  lemma BlockTags(e: Entry)
    requires '<' !in e.loc && '<' !in e.changefreq
    ensures UrlTags(UrlBlock(e)) == 1 && TailFree(UrlBlock(e))
  {
    FieldsTags(e);
    WrappedTags(Line("loc", e.loc) + Line("changefreq", e.changefreq) + Line("priority", PriorityText(e.priorityTenths)));
  }

  lemma {:induction false} JoinTags(blocks: seq<string>)
    requires forall i :: 0 <= i < |blocks| ==> UrlTags(blocks[i]) == 1 && TailFree(blocks[i])
    ensures UrlTags(Join(blocks, "\n")) == |blocks|
    ensures blocks != [] ==> TailFree(Join(blocks, "\n"))
    decreases |blocks|
  {
    if |blocks| > 1 {
      JoinTags(blocks[1..]);
      NoLtNoTags("\n");
      TagsAppend(blocks[0], "\n");
      TagsAppend(blocks[0] + "\n", Join(blocks[1..], "\n"));
    }
  }

  /** The document has exactly one `<url>` start tag per entry, provided no location or
      change frequency contains `<` (the source does not escape them). */
  lemma SitemapUrlCount(pages: seq<Entry>)
    requires forall i :: 0 <= i < |pages| ==> '<' !in pages[i].loc && '<' !in pages[i].changefreq
    ensures UrlTags(SitemapXml(pages)) == |pages|
  {
    var blocks := UrlBlocks(pages);
    forall i | 0 <= i < |blocks|
      ensures UrlTags(blocks[i]) == 1 && TailFree(blocks[i])
    {
      BlockTags(pages[i]);
    }
    JoinTags(blocks);
    HeadTags();
    TailTags();
    TagsAppend(Head, Join(blocks, "\n"));
    TagsAppend(Head + Join(blocks, "\n"), Tail);
  }

  /** A line-terminated start-tag line: `<body>` and a newline. */
  lemma {:induction false} TagLineTags(body: string)
    requires '<' !in body && '>' !in body && |body| >= 3 && body != "url"
    ensures UrlTags(Markup(body) + "\n") == 0 && TailFree(Markup(body) + "\n")
  {
    MarkupTags(body);
    NoLtNoTags("\n");
    TagsAppend(Markup(body), "\n");
  }

  lemma DeclarationPlain()
    ensures '<' !in DeclarationBody && '>' !in DeclarationBody && |DeclarationBody| >= 3
  {
  }

  lemma UrlsetPlain()
    ensures '<' !in UrlsetBody && '>' !in UrlsetBody && |UrlsetBody| >= 3
  {
    NamespacePlain();
  }

  lemma NamespacePlain()
    ensures '<' !in SitemapNamespace && '>' !in SitemapNamespace
  {
  }

  lemma HeadTags()
    ensures UrlTags(Head) == 0 && TailFree(Head)
  {
    DeclarationPlain();
    UrlsetPlain();
    TagLineTags(DeclarationBody);
    TagLineTags(UrlsetBody);
    TagsAppend(XmlDeclaration + "\n", UrlsetOpen + "\n");
    assert Head == (XmlDeclaration + "\n") + (UrlsetOpen + "\n");
  }

  lemma TailTags()
    ensures UrlTags(Tail) == 0
  {
    MarkupTags("/urlset");
    NoLtNoTags("\n");
    TagsAppend("\n", Close("urlset"));
  }

  /** For the build's own list: 8 + (number of articles) `<url>` blocks, provided no
      canonical URL contains `<`. */
  lemma BuildSitemapUrlCount(articles: seq<Build.Article>, pages: seq<Entry>)
    requires forall k :: 0 <= k < |articles| ==> '<' !in articles[k].CanonicalURL
    requires |pages| == 8 + |articles| && pages[..8] == StaticPages()
    requires forall k :: 0 <= k < |articles| ==> pages[8 + k] == Entry(articles[k].CanonicalURL, "daily", 9)
    ensures UrlTags(SitemapXml(pages)) == 8 + |articles|
  {
    forall i | 0 <= i < |pages|
      ensures '<' !in pages[i].loc && '<' !in pages[i].changefreq
    {
      if i < 8 {
        StaticPagesPlain();
        assert pages[i] == StaticPages()[i];
      } else {
        assert pages[i] == Entry(articles[i - 8].CanonicalURL, "daily", 9);
        assert '<' !in "daily";
      }
    }
    SitemapUrlCount(pages);
  }
}
