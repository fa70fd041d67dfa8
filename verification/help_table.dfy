/** The static help table and the choice of the record to show
    (`ewdufaqHelper::get_page_details`). */
module HelpTable {
  import opened Wrappers
  import opened HelpContext

  /** A page of the plugin's user documentation, where every tutorial of
      the table points. */
  function DocPage(path: string): string
  {
    "https://doc.etoilewebdesign.com/plugins/ultimate-faq/user/" + path
  }

  /** The tutorials the table links to. */
  datatype Guide =
    | CreateFaq
    | AddFaqsToPage
    | CreateFaqsWithAi
    | BlocksAndShortcodes
    | AddSearchToPage
    | EditCategory
    | EditTag
    | ImportFaqs
    | ExportFaqs
    | CustomCss
    | OrderFaqs
    | WooCommerceIntegration
    | WooCommerceProducts
    | WpFormsIntegration
    | CreateCustomFields
    | CustomFieldsWithFaqs
    | Translating
  {
    /** The tutorial's page in the plugin's user documentation. */
    function Url(): string
    {
      match this
      case CreateFaq => DocPage("faqs/create")
      case AddFaqsToPage => DocPage("faqs/create")
      case CreateFaqsWithAi => DocPage("faqs/ai")
      case BlocksAndShortcodes => DocPage("blocks-shortcodes/")
      case AddSearchToPage => DocPage("search/add-to-page")
      case EditCategory => DocPage("faqs/categories")
      case EditTag => DocPage("faqs/tags")
      case ImportFaqs => DocPage("faqs/import")
      case ExportFaqs => DocPage("faqs/export")
      case CustomCss => DocPage("styling/css")
      case OrderFaqs => DocPage("faqs/order")
      case WooCommerceIntegration => DocPage("woocommerce/")
      case WooCommerceProducts => DocPage("woocommerce/add")
      case WpFormsIntegration => DocPage("wpforms/")
      case CreateCustomFields => DocPage("custom-fields/create")
      case CustomFieldsWithFaqs => DocPage("custom-fields/faqs")
      case Translating => DocPage("labelling/translating")
    }

    /** The tutorial's title, shown untranslated. */
    function Title(): string
    {
      match this
      case CreateFaq => "Create an FAQ"
      case AddFaqsToPage => "Add FAQs to a Page"
      case CreateFaqsWithAi => "Create FAQs using AI (Premium)"
      case BlocksAndShortcodes => "Block and Shortcodes to display your FAQs"
      case AddSearchToPage => "Add FAQ Search to a Page (Premium)"
      case EditCategory => "Add or Edit a Category"
      case EditTag => "Add or Edit a Tag"
      case ImportFaqs => "Import FAQs"
      case ExportFaqs => "Export FAQs"
      case CustomCss => "Custom CSS"
      case OrderFaqs => "Order of FAQs (Premium)"
      case WooCommerceIntegration => "WooCommerce Integration"
      case WooCommerceProducts => "Add FAQs to WooCommerce Products"
      case WpFormsIntegration => "WPForms Integration"
      case CreateCustomFields => "Create and Edit Custom Fields"
      case CustomFieldsWithFaqs => "Using Custom Fields with FAQs"
      case Translating => "Translating"
    }
  }

  /** A help record. `description` is `None` when the record has no
      `description` key at all, as in the fallback record. */
  datatype HelpRecord = HelpRecord(description: Option<string>, tutorials: seq<Guide>)

  /** The untranslated description texts of the table, one per distinct
      text. The basic settings page and its basic tab share one text. */
  datatype HelpText =
    | FaqsPageHelp
    | CategoriesPageHelp
    | TagsPageHelp
    | ImportPageHelp
    | ExportPageHelp
    | BasicSettingsHelp
    | OrderingSettingsHelp
    | PremiumSettingsHelp
    | FieldsSettingsHelp
    | LabellingSettingsHelp
    | StylingSettingsHelp

  /** WordPress's `__( …, 'ultimate-faqs' )` applied to a description text,
      supplied by the host. */
  type Translator = HelpText -> string

  /** The fallback `array( 'description', 'tutorials' => array() )`: the
      bare `'description'` is a value under key 0, so the record has no
      description key and no tutorials. */
  const DefaultRecord: HelpRecord := HelpRecord(None, [])

  /** The table built on every call of `get_page_details`. Descriptions are
      translated; tutorial titles are not. */
  function PageDetails(tr: Translator): map<string, HelpRecord>
  {
    map[
      "ufaq" := HelpRecord(Some(tr(FaqsPageHelp)), [CreateFaq, AddFaqsToPage, CreateFaqsWithAi, BlocksAndShortcodes, AddSearchToPage]),
      "ufaq-category" := HelpRecord(Some(tr(CategoriesPageHelp)), [EditCategory]),
      "ufaq-tag" := HelpRecord(Some(tr(TagsPageHelp)), [EditTag]),
      "ewd-ufaq-import" := HelpRecord(Some(tr(ImportPageHelp)), [ImportFaqs]),
      "ewd-ufaq-export" := HelpRecord(Some(tr(ExportPageHelp)), [ExportFaqs]),
      "ewd-ufaq-settings" := HelpRecord(Some(tr(BasicSettingsHelp)), [CustomCss]),
      "ewd-ufaq-settings-ewd-ufaq-basic-tab" := HelpRecord(Some(tr(BasicSettingsHelp)), [CustomCss]),
      "ewd-ufaq-settings-ewd-ufaq-ordering-tab" := HelpRecord(Some(tr(OrderingSettingsHelp)), [OrderFaqs]),
      "ewd-ufaq-settings-ewd-ufaq-premium-tab" := HelpRecord(Some(tr(PremiumSettingsHelp)), [WooCommerceIntegration, WooCommerceProducts, WpFormsIntegration]),
      "ewd-ufaq-settings-ewd-ufaq-fields-tab" := HelpRecord(Some(tr(FieldsSettingsHelp)), [CreateCustomFields, CustomFieldsWithFaqs]),
      "ewd-ufaq-settings-ewd-ufaq-labelling-tab" := HelpRecord(Some(tr(LabellingSettingsHelp)), [Translating]),
      "ewd-ufaq-settings-ewd-ufaq-styling-tab" := HelpRecord(Some(tr(StylingSettingsHelp)), [CustomCss])
    ]
  }

  /** The composite key `$page . '-' . $tab`. */
  function PageTabKey(page: string, tab: string): string
  {
    page + "-" + tab
  }

  /** The keys tried, in order: page and tab, page, taxonomy, post type. */
  function Candidates(req: Request, postTypeOf: PostTypeOf): seq<string>
  {
    [PageTabKey(req.page, req.tab), req.page, req.taxonomy, EffectivePostType(req, postTypeOf)]
  }

  /** Reference definition of first-match lookup: the position of the first
      key of `keys` that the table holds. */
  function FirstMatch<V>(keys: seq<string>, table: map<string, V>): (r: Option<nat>)
    ensures r.Some? ==> && r.value < |keys|
                        && keys[r.value] in table
                        && forall j :: 0 <= j < r.value ==> keys[j] !in table
    ensures r.None? <==> forall j :: 0 <= j < |keys| ==> keys[j] !in table
  {
    if keys == [] then None
    else if keys[0] in table then Some(0)
    else
      match FirstMatch(keys[1..], table)
      case Some(i) => Some(i + 1)
      case None => None
  }

  /** First-match over four keys, spelled out. */
  lemma FirstMatchOfFour<V>(a: string, b: string, c: string, d: string, table: map<string, V>)
    ensures FirstMatch([a, b, c, d], table)
         == if a in table then Some(0)
            else if b in table then Some(1)
            else if c in table then Some(2)
            else if d in table then Some(3)
            else None
  {
    assert [d][1..] == [];
    assert FirstMatch([d], table) == if d in table then Some(0) else None;
    assert [c, d][1..] == [d];
    assert FirstMatch([c, d], table)
        == if c in table then Some(0) else if d in table then Some(1) else None;
    assert [b, c, d][1..] == [c, d];
    assert FirstMatch([b, c, d], table)
        == if b in table then Some(0) else if c in table then Some(1)
           else if d in table then Some(2) else None;
    assert [a, b, c, d][1..] == [b, c, d];
  }

  /** The four tests of `get_page_details` against any table: the record of
      the first candidate key the table holds, or the fallback record. */
  function Resolve(req: Request, table: map<string, HelpRecord>, postTypeOf: PostTypeOf): (r: HelpRecord)
    ensures match FirstMatch(Candidates(req, postTypeOf), table)
            case Some(i) => r == table[Candidates(req, postTypeOf)[i]]
            case None => r == DefaultRecord
  {
    var postType := EffectivePostType(req, postTypeOf);
    FirstMatchOfFour(PageTabKey(req.page, req.tab), req.page, req.taxonomy, postType, table);
    if PageTabKey(req.page, req.tab) in table then table[PageTabKey(req.page, req.tab)]
    else if req.page in table then table[req.page]
    else if req.taxonomy in table then table[req.taxonomy]
    else if postType in table then table[postType]
    else DefaultRecord
  }

  /** `get_page_details`. */
  function GetPageDetails(req: Request, tr: Translator, postTypeOf: PostTypeOf): HelpRecord
  {
    Resolve(req, PageDetails(tr), postTypeOf)
  }

  // ---------------------------------------------------------------------
  // Properties of the lookup.

  /** A page-and-tab key the table holds wins over the bare page: the bare
      page's record is returned only when it is the same record. */
  lemma PageTabWins(req: Request, table: map<string, HelpRecord>, postTypeOf: PostTypeOf)
    requires PageTabKey(req.page, req.tab) in table
    ensures Resolve(req, table, postTypeOf) == table[PageTabKey(req.page, req.tab)]
    ensures req.page in table && table[req.page] != table[PageTabKey(req.page, req.tab)]
            ==> Resolve(req, table, postTypeOf) != table[req.page]
  {
  }

  /** When no candidate key is in the table the fallback record is
      returned: no description key, no tutorials. */
  lemma NoMatchFallsBack(req: Request, table: map<string, HelpRecord>, postTypeOf: PostTypeOf)
    requires forall k :: k in Candidates(req, postTypeOf) ==> k !in table
    ensures Resolve(req, table, postTypeOf) == DefaultRecord
    ensures Resolve(req, table, postTypeOf).description.None?
    ensures Resolve(req, table, postTypeOf).tutorials == []
  {
    var cs := Candidates(req, postTypeOf);
    assert forall j :: 0 <= j < |cs| ==> cs[j] in cs;
  }

  /** When `post` is present, the `post_type` parameter has no say in the
      record chosen. */
  lemma ResolveIgnoresPostTypeParam(req: Request, table: map<string, HelpRecord>,
                                    postTypeOf: PostTypeOf, param: string)
    requires req.postId.Some?
    ensures Resolve(req.(postTypeParam := param), table, postTypeOf) == Resolve(req, table, postTypeOf)
  {
    PostIdOverridesPostType(req, postTypeOf, param);
  }

  /** Every record of the table has a description and at least one
      tutorial. */
  lemma TableRecordsDescribed(tr: Translator)
    ensures forall k :: k in PageDetails(tr) ==>
              PageDetails(tr)[k].description.Some? && |PageDetails(tr)[k].tutorials| >= 1
  {
  }

  /** So the resolved record lacks a description exactly when no candidate
      key is in the table. */
  lemma DescriptionAbsentIffNoMatch(req: Request, tr: Translator, postTypeOf: PostTypeOf)
    ensures GetPageDetails(req, tr, postTypeOf).description.None?
        <==> forall k :: k in Candidates(req, postTypeOf) ==> k !in PageDetails(tr)
  {
    var cs := Candidates(req, postTypeOf);
    TableRecordsDescribed(tr);
    assert forall k :: k in cs ==> exists j :: 0 <= j < |cs| && cs[j] == k;
  }

  // ---------------------------------------------------------------------
  // The table's own entries.

  /** Without a page-and-tab hit, a page the table holds wins over the
      taxonomy and the post type. */
  lemma PageWinsWithoutTab(req: Request, table: map<string, HelpRecord>, postTypeOf: PostTypeOf)
    requires PageTabKey(req.page, req.tab) !in table && req.page in table
    ensures Resolve(req, table, postTypeOf) == table[req.page]
  {
  }

  /** The styling tab's key is in the table. */
  lemma StylingKeyInTable(tr: Translator)
    ensures "ewd-ufaq-settings-ewd-ufaq-styling-tab" in PageDetails(tr)
    ensures PageDetails(tr)["ewd-ufaq-settings-ewd-ufaq-styling-tab"]
         == HelpRecord(Some(tr(StylingSettingsHelp)), [CustomCss])
  {
  }

  /** The styling tab of the settings page has its own record, with exactly
      one tutorial, "Custom CSS". */
  lemma StylingTabResolves(tr: Translator, postTypeOf: PostTypeOf)
    ensures var r := GetPageDetails(Request("ewd-ufaq-settings", "", "ewd-ufaq-styling-tab", None, ""),
                                    tr, postTypeOf);
            && r.description == Some(tr(StylingSettingsHelp))
            && r.tutorials == [CustomCss]
  {
    var req := Request("ewd-ufaq-settings", "", "ewd-ufaq-styling-tab", None, "");
    assert PageTabKey(req.page, req.tab) == "ewd-ufaq-settings-ewd-ufaq-styling-tab";
    StylingKeyInTable(tr);
    PageTabWins(req, PageDetails(tr), postTypeOf);
  }

  /** The table has the bare settings page but no key "ewd-ufaq-settings-". */
  lemma SettingsKeysInTable(tr: Translator)
    ensures "ewd-ufaq-settings-" !in PageDetails(tr)
    ensures "ewd-ufaq-settings" in PageDetails(tr)
  {
  }

  /** With an empty tab the composite key is "ewd-ufaq-settings-", which the
      table lacks, so the bare settings record is chosen. */
  lemma SettingsEmptyTabResolves(tr: Translator, postTypeOf: PostTypeOf)
    ensures GetPageDetails(Request("ewd-ufaq-settings", "", "", None, ""), tr, postTypeOf)
         == PageDetails(tr)["ewd-ufaq-settings"]
  {
    var req := Request("ewd-ufaq-settings", "", "", None, "");
    assert PageTabKey(req.page, req.tab) == "ewd-ufaq-settings-";
    SettingsKeysInTable(tr);
    PageWinsWithoutTab(req, PageDetails(tr), postTypeOf);
  }

  /** The hyphen separator is ambiguous: moving a hyphenated prefix of the
      tab onto the page gives the same composite key. */
  lemma PageTabKeyAmbiguous(page: string, middle: string, tab: string)
    ensures PageTabKey(page + "-" + middle, tab) == PageTabKey(page, middle + "-" + tab)
  {
  }

  /** For instance page "ewd-ufaq-settings-ewd-ufaq" with tab "styling-tab"
      gets the styling tab's record. */
  lemma AmbiguousKeyHitsStylingRecord(tr: Translator, postTypeOf: PostTypeOf)
    ensures GetPageDetails(Request("ewd-ufaq-settings-ewd-ufaq", "", "styling-tab", None, ""), tr, postTypeOf)
         == HelpRecord(Some(tr(StylingSettingsHelp)), [CustomCss])
  {
    var req := Request("ewd-ufaq-settings-ewd-ufaq", "", "styling-tab", None, "");
    assert PageTabKey(req.page, req.tab) == "ewd-ufaq-settings-ewd-ufaq-styling-tab";
    StylingKeyInTable(tr);
    PageTabWins(req, PageDetails(tr), postTypeOf);
  }

  /** None of the dashboard's candidate keys is in the table. */
  lemma DashboardKeysAbsent(tr: Translator)
    ensures "ewd-ufaq-dashboard-" !in PageDetails(tr)
    ensures "ewd-ufaq-dashboard" !in PageDetails(tr)
    ensures "" !in PageDetails(tr)
  {
  }

  /** So the dashboard, which has no entry of its own, gets the fallback
      record. */
  lemma DashboardResolvesToFallback(tr: Translator, postTypeOf: PostTypeOf)
    ensures GetPageDetails(Request("ewd-ufaq-dashboard", "", "", None, ""), tr, postTypeOf) == DefaultRecord
  {
    var req := Request("ewd-ufaq-dashboard", "", "", None, "");
    assert PageTabKey(req.page, req.tab) == "ewd-ufaq-dashboard-";
    DashboardKeysAbsent(tr);
    NoMatchFallsBack(req, PageDetails(tr), postTypeOf);
  }
}
