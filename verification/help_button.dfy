/** The help button and overlay (`ewdufaqHelper::display_help_button`),
    modelled as the ordered list of elements it writes. */
module HelpButton {
  import opened Wrappers
  import opened HelpContext
  import opened HelpTable

  /** The three fixed links of the overlay. */
  datatype HelpLinks = HelpLinks(documentation: string, tutorials: string, supportCenter: string)

  /** The helper's own fixed links. */
  const PluginLinks: HelpLinks := HelpLinks(
    "https://doc.etoilewebdesign.com/plugins/ultimate-faqs/user/",
    "https://www.youtube.com/playlist?list=PLEndQUuhlvSrNdfu5FKa1uGHsaKZxgdWt",
    "https://www.etoilewebdesign.com/support-center/?Plugin=UFAQ&Type=FAQs")

  datatype LinkKind = Documentation | YouTubeTutorials | SupportCenter

  /** One element of the output: the button, the description block, a
      tutorial link, a fixed link. Texts and hrefs are already escaped. */
  datatype Element =
    | Trigger
    | Description(text: string)
    | TutorialLink(href: string, title: string)
    | FixedLink(kind: LinkKind, href: string)

  /** `esc_html` or `esc_url`, supplied by the host. */
  type Escaper = string -> string

  /** Position of each fixed link in the overlay. */
  function Rank(k: LinkKind): nat
  {
    match k
    case Documentation => 0
    case YouTubeTutorials => 1
    case SupportCenter => 2
  }

  /** The configured URL of each fixed link. */
  function LinkUrl(links: HelpLinks, k: LinkKind): string
  {
    match k
    case Documentation => links.documentation
    case YouTubeTutorials => links.tutorials
    case SupportCenter => links.supportCenter
  }

  /** PHP's `empty()` on a string: "" and "0" are empty. */
  predicate Empty(s: string)
  {
    s == "" || s == "0"
  }

  /** One link per tutorial, in the record's order. */
  function TutorialLinks(ts: seq<Guide>, escHtml: Escaper, escUrl: Escaper): (r: seq<Element>)
    ensures |r| == |ts|
    ensures forall i :: 0 <= i < |ts| ==> r[i] == TutorialLink(escUrl(ts[i].Url()), escHtml(ts[i].Title()))
  {
    if ts == [] then []
    else [TutorialLink(escUrl(ts[0].Url()), escHtml(ts[0].Title()))] + TutorialLinks(ts[1..], escHtml, escUrl)
  }

  /** The fixed link of kind `k`, or nothing when its URL is empty. */
  function FixedLinkIfSet(links: HelpLinks, k: LinkKind, escUrl: Escaper): seq<Element>
  {
    if Empty(LinkUrl(links, k)) then [] else [FixedLink(k, escUrl(LinkUrl(links, k)))]
  }

  /** The documentation, tutorials and support links, each only when its
      URL is set: exactly the kinds whose URL is non-empty appear, once
      each, in overlay order, each pointing at its own escaped URL. */
  function FixedLinks(links: HelpLinks, escUrl: Escaper): (r: seq<Element>)
    ensures forall i :: 0 <= i < |r| ==> r[i].FixedLink? && r[i].href == escUrl(LinkUrl(links, r[i].kind))
    ensures forall i, j :: 0 <= i < j < |r| ==> Rank(r[i].kind) < Rank(r[j].kind)
    ensures forall k: LinkKind :: FixedLink(k, escUrl(LinkUrl(links, k))) in r <==> !Empty(LinkUrl(links, k))
  {
    var a := FixedLinkIfSet(links, Documentation, escUrl);
    var b := FixedLinkIfSet(links, YouTubeTutorials, escUrl);
    var c := FixedLinkIfSet(links, SupportCenter, escUrl);
    FixedLinksPointHome(a, b, c, links, escUrl);
    FixedLinksInOrder(a, b, c, links, escUrl);
    FixedLinksExactlySet(a, b, c, links, escUrl);
    a + b + c
  }

  /** Each fixed link points at its own kind's escaped URL. */
  lemma FixedLinksPointHome(a: seq<Element>, b: seq<Element>, c: seq<Element>, links: HelpLinks, escUrl: Escaper)
    requires a == FixedLinkIfSet(links, Documentation, escUrl)
    requires b == FixedLinkIfSet(links, YouTubeTutorials, escUrl)
    requires c == FixedLinkIfSet(links, SupportCenter, escUrl)
    ensures forall i :: 0 <= i < |a + b + c| ==>
              (a + b + c)[i].FixedLink? && (a + b + c)[i].href == escUrl(LinkUrl(links, (a + b + c)[i].kind))
  {
    var r := a + b + c;
    assert forall i :: 0 <= i < |r| ==> r[i] in a || r[i] in b || r[i] in c;
  }

  /** The fixed links come in overlay order. */
  lemma FixedLinksInOrder(a: seq<Element>, b: seq<Element>, c: seq<Element>, links: HelpLinks, escUrl: Escaper)
    requires a == FixedLinkIfSet(links, Documentation, escUrl)
    requires b == FixedLinkIfSet(links, YouTubeTutorials, escUrl)
    requires c == FixedLinkIfSet(links, SupportCenter, escUrl)
    ensures forall i, j :: 0 <= i < j < |a + b + c| ==> Rank((a + b + c)[i].kind) < Rank((a + b + c)[j].kind)
  {
    var r := a + b + c;
    if a == [] {
      assert r == b + c;
    } else {
      assert r == [a[0]] + b + c;
    }
  }

  /** A fixed link is present exactly when its URL is not empty. */
  lemma FixedLinksExactlySet(a: seq<Element>, b: seq<Element>, c: seq<Element>, links: HelpLinks, escUrl: Escaper)
    requires a == FixedLinkIfSet(links, Documentation, escUrl)
    requires b == FixedLinkIfSet(links, YouTubeTutorials, escUrl)
    requires c == FixedLinkIfSet(links, SupportCenter, escUrl)
    ensures forall k: LinkKind :: FixedLink(k, escUrl(LinkUrl(links, k))) in a + b + c <==> !Empty(LinkUrl(links, k))
  {
    assert forall e :: e in a + b + c <==> e in a || e in b || e in c;
  }

  /** The overlay for one record: trigger, description, tutorials, fixed
      links. A record without a description key reads as null, which prints
      as the empty string. */
  function RenderRecord(record: HelpRecord, links: HelpLinks, escHtml: Escaper, escUrl: Escaper): seq<Element>
  {
    [Trigger, Description(escHtml(record.description.GetOr("")))]
      + TutorialLinks(record.tutorials, escHtml, escUrl)
      + FixedLinks(links, escUrl)
  }

  /** `display_help_button`, given the help table (`PageDetails(tr)` in the
      plugin): nothing when the button is not to be shown;
      otherwise the trigger, the description, one link per tutorial in
      table order, then the fixed links whose URLs are set. */
  function DisplayHelpButton(req: Request, lists: AllowLists, postTypeOf: PostTypeOf,
                             table: map<string, HelpRecord>, escHtml: Escaper, escUrl: Escaper,
                             links: HelpLinks): (r: seq<Element>)
    ensures r == [] <==> !ShouldButtonDisplay(req, lists, postTypeOf)
    ensures ShouldButtonDisplay(req, lists, postTypeOf) ==>
              var rec := Resolve(req, table, postTypeOf);
              var n := |rec.tutorials|;
              && 2 + n <= |r|
              && r[0] == Trigger
              && r[1] == Description(escHtml(rec.description.GetOr("")))
              && (forall i :: 0 <= i < n ==>
                    r[2 + i] == TutorialLink(escUrl(rec.tutorials[i].Url()), escHtml(rec.tutorials[i].Title())))
              && r[2 + n..] == FixedLinks(links, escUrl)
  {
    if !ShouldButtonDisplay(req, lists, postTypeOf) then []
    else RenderRecord(Resolve(req, table, postTypeOf), links, escHtml, escUrl)
  }

  /** The helper's links are all set, so all three fixed links appear. */
  lemma PluginLinksAllShown(escUrl: Escaper)
    ensures |FixedLinks(PluginLinks, escUrl)| == 3
  {
  }

  /** Visibility and content are decided separately: the dashboard shows the
      button but has no record, so it gets the fallback record, an empty
      description and no tutorial links. */
  lemma DashboardShowsFallback(faqPostType: string, categoryTaxonomy: string, tagTaxonomy: string,
                               postTypeOf: PostTypeOf, tr: Translator, escHtml: Escaper, escUrl: Escaper)
    ensures var req := Request("ewd-ufaq-dashboard", "", "", None, "");
            var lists := HelperAllowLists(faqPostType, categoryTaxonomy, tagTaxonomy);
            && ShouldButtonDisplay(req, lists, postTypeOf)
            && GetPageDetails(req, tr, postTypeOf) == DefaultRecord
            && DisplayHelpButton(req, lists, postTypeOf, PageDetails(tr), escHtml, escUrl, PluginLinks)
               == [Trigger, Description(escHtml(""))] + FixedLinks(PluginLinks, escUrl)
  {
    var req := Request("ewd-ufaq-dashboard", "", "", None, "");
    AdditionalPagesDisplay(req, faqPostType, categoryTaxonomy, tagTaxonomy, postTypeOf);
    DashboardResolvesToFallback(tr, postTypeOf);
  }
}
