/** The request context the help button reads, and the decision whether the
    button is shown at all (`ewdufaqHelper::should_button_display`). */
module HelpContext {
  import opened Wrappers

  /** The query parameters the helper reads. `page`, `taxonomy`, `tab` and
      `post_type` are the values after `sanitize_text_field`, and "" when the
      parameter is missing; `postId` is `intval($_GET['post'])` when `post`
      is present. */
  datatype Request = Request(
    page: string,
    taxonomy: string,
    tab: string,
    postId: Option<int>,
    postTypeParam: string)

  /** `get_post($id)->post_type`, supplied by the host. */
  type PostTypeOf = int -> string

  /** The three lists that switch the button on. */
  datatype AllowLists = AllowLists(postTypes: seq<string>, taxonomies: seq<string>, pages: seq<string>)

  /** The plugin's own admin pages that always show the button. */
  const AdditionalPages: seq<string> :=
    ["ewd-ufaq-dashboard", "ewd-ufaq-ordering-table", "ewd-ufaq-import", "ewd-ufaq-export", "ewd-ufaq-settings"]

  /** The helper's lists: the FAQ post type, the FAQ category and tag
      taxonomies (whose names are defined elsewhere in the plugin and are
      therefore parameters), and the additional pages. */
  function HelperAllowLists(faqPostType: string, categoryTaxonomy: string, tagTaxonomy: string): AllowLists
  {
    AllowLists([faqPostType], [categoryTaxonomy, tagTaxonomy], AdditionalPages)
  }

  /** The post type the helper tests: the type of the post named by `post`
      when that parameter is present, the `post_type` parameter otherwise. */
  function EffectivePostType(req: Request, postTypeOf: PostTypeOf): string
  {
    match req.postId
    case Some(id) => postTypeOf(id)
    case None => req.postTypeParam
  }

  /** `should_button_display`: the post type, then the taxonomy, then the
      page are tested, each against its own list; the first hit answers
      true. The answer is the plain disjunction of the three tests. */
  function ShouldButtonDisplay(req: Request, lists: AllowLists, postTypeOf: PostTypeOf): (r: bool)
    ensures r <==> (|| EffectivePostType(req, postTypeOf) in lists.postTypes
                    || req.taxonomy in lists.taxonomies
                    || req.page in lists.pages)
  {
    if EffectivePostType(req, postTypeOf) in lists.postTypes then true
    else if req.taxonomy in lists.taxonomies then true
    else if req.page in lists.pages then true
    else false
  }

  /** When `post` is present, the `post_type` parameter has no say in the
      post type the helper tests. */
  lemma PostIdOverridesPostType(req: Request, postTypeOf: PostTypeOf, param: string)
    requires req.postId.Some?
    ensures EffectivePostType(req.(postTypeParam := param), postTypeOf) == postTypeOf(req.postId.value)
  {
  }

  /** Visibility therefore ignores the `post_type` parameter when `post` is
      present. */
  lemma DisplayIgnoresPostTypeParam(req: Request, lists: AllowLists, postTypeOf: PostTypeOf, param: string)
    requires req.postId.Some?
    ensures ShouldButtonDisplay(req.(postTypeParam := param), lists, postTypeOf)
         == ShouldButtonDisplay(req, lists, postTypeOf)
  {
    PostIdOverridesPostType(req, postTypeOf, param);
  }

  /** Each of the plugin's additional pages shows the button, whatever the
      other parameters are. */
  lemma AdditionalPagesDisplay(req: Request, faqPostType: string, categoryTaxonomy: string,
                               tagTaxonomy: string, postTypeOf: PostTypeOf)
    requires req.page in AdditionalPages
    ensures ShouldButtonDisplay(req, HelperAllowLists(faqPostType, categoryTaxonomy, tagTaxonomy), postTypeOf)
  {
  }

  /** An unknown page with no taxonomy and no post type hides the button,
      as long as none of the plugin's names is empty. */
  lemma UnknownPageHidden(faqPostType: string, categoryTaxonomy: string, tagTaxonomy: string,
                          postTypeOf: PostTypeOf)
    requires faqPostType != "" && categoryTaxonomy != "" && tagTaxonomy != ""
    ensures !ShouldButtonDisplay(Request("unknown-page", "", "", None, ""),
                                 HelperAllowLists(faqPostType, categoryTaxonomy, tagTaxonomy), postTypeOf)
  {
  }
}
