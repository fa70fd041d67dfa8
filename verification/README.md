# Ultimate FAQs admin help button, in Dafny

This project models the helper class `ewdufaqHelper` of the Ultimate FAQs
WordPress plugin (`ultimate-faqs/includes/Helper.class.php`). The class
does two things:

- It draws a "?" help button on the plugin's admin screens. The button
  opens an overlay that holds a page-specific description, links to
  tutorials, and three fixed links: documentation, YouTube tutorials and
  the support center.
- It prepares PHP data for a script context (`escape_js_recursive`):
  HTML entities are decoded in every scalar, at every depth, and every
  leaf that is neither a scalar nor an array is dropped.

The model has six modules:

| file | module | what it holds |
|---|---|---|
| `wrappers.dfy` | `Wrappers` | `Option` |
| `php_array.dfy` | `PhpArray` | PHP ordered arrays as key/value sequences, and `$a[$k] = $v` |
| `escape_js.dfy` | `EscapeJs` | `escape_js_recursive` and its filter-and-map reference |
| `help_context.dfy` | `HelpContext` | the request parameters the helper reads, and `should_button_display` |
| `help_table.dfy` | `HelpTable` | the help table and `get_page_details` |
| `help_button.dfy` | `HelpButton` | `display_help_button` as the list of elements it writes |

The request is an explicit value. Each of `page`, `taxonomy`, `tab` and
`post_type` is the string after `sanitize_text_field`, or "" when the
parameter is absent. `post` is `Some(intval(...))` when it is present.

The host functions are parameters:
- `get_post(...)->post_type` is `PostTypeOf`.
- `html_entity_decode` is `Decoder`.
- `esc_html` and `esc_url` are `Escaper`s.
- `__()` on a description is a `Translator`.

The names behind `EWD_UFAQ_FAQ_POST_TYPE`, `EWD_UFAQ_FAQ_CATEGORY_TAXONOMY`
and `EWD_UFAQ_FAQ_TAG_TAXONOMY` are defined elsewhere in the plugin, so
they are parameters of `HelperAllowLists`.

**Help table.** The table is a map holding all twelve keys of the source,
each with its source record. It has no order, and needs none: the source
only tests whether a key is present. Each record's tutorial list keeps the
source's order, URLs and titles. The tutorials are named by the `Guide`
datatype, whose `Url()` and `Title()` give the source's values. Descriptions are the translator
applied to a `HelpText` name, one name per distinct description text. The
settings page and its basic tab have identical texts in the source, so
they share `BasicSettingsHelp`. Tutorial titles are not translated in the
source, and are not translated here.

**Fallback record.** When no key matches, the source returns
`array( 'description', 'tutorials' => array() )`. The bare `'description'`
is a value under key 0, not a key, so the record has no description at
all. The model makes this `HelpRecord(None, [])`. Reading the missing
key makes PHP raise an "Undefined array key" warning and yield null. The
overlay then prints `esc_html` of null, which is the empty string.
`HelpButton.DashboardShowsFallback` shows this for the dashboard page.

**Escape helper.** PHP arrays are sequences of `(key, value)` entries with
pairwise distinct keys. `$return_values[$key] = $value` is `PhpArray.Put`.
`EscapeJs.EscapeLoop` is the `foreach` loop after the first `n` entries.
The reference definition `EscapeEach(Kept(es))` keeps the scalar and
array entries in order and escapes each one. `EscapeJs.EscapeIsFilterMap`
proves that the loop equals this reference.

## Model

| member | source | states |
|---|---|---|
| HelpContext.EffectivePostType | ultimate-faqs/includes/Helper.class.php:152-160 | the post type the helper tests: the type of the post named by `post` when that parameter is present, otherwise the `post_type` parameter (`PostIdOverridesPostType` proves that `post` overrides) |
| HelpContext.HelperAllowLists | ultimate-faqs/includes/Helper.class.php:21-23 | the helper's three lists: the FAQ post type, the FAQ category and tag taxonomies, and the five additional pages (`AdditionalPagesDisplay`, `UnknownPageHidden`) |
| HelpContext.AdditionalPages | ultimate-faqs/includes/Helper.class.php:23 | the five plugin admin pages that always show the button (`AdditionalPagesDisplay`) |
| HelpContext.ShouldButtonDisplay | ultimate-faqs/includes/Helper.class.php:146-169 | the button shows exactly when the effective post type is in the post-type list, or the taxonomy is in the taxonomy list, or the page is in the page list |
| HelpContext.PostIdOverridesPostType | ultimate-faqs/includes/Helper.class.php:152-160 | when `post` is present the tested post type is that post's type, whatever `post_type` says |
| HelpContext.DisplayIgnoresPostTypeParam | ultimate-faqs/includes/Helper.class.php:152-162 | so visibility does not depend on `post_type` when `post` is present |
| HelpContext.AdditionalPagesDisplay | ultimate-faqs/includes/Helper.class.php:23 | each of the five additional admin pages shows the button, whatever the other parameters are |
| HelpContext.UnknownPageHidden | ultimate-faqs/includes/Helper.class.php:162-168 | an unknown page with no taxonomy and no post type hides the button, provided the plugin's three names are non-empty |
| HelpTable.PageDetails | ultimate-faqs/includes/Helper.class.php:181-318 | the twelve keys of the help table, each with its translated description and its tutorials in source order (`TableRecordsDescribed`, `StylingKeyInTable`) |
| HelpTable.DefaultRecord | ultimate-faqs/includes/Helper.class.php:342 | the fallback record: no description key, because the bare `'description'` is a value under key 0, and no tutorials (`NoMatchFallsBack`) |
| HelpTable.GetPageDetails | ultimate-faqs/includes/Helper.class.php:178-343 | `get_page_details`: the table record of the first candidate key present, or the fallback (`Resolve` states it; `DescriptionAbsentIffNoMatch` follows) |
| HelpTable.PageTabKey | ultimate-faqs/includes/Helper.class.php:334 | the composite key `$page . '-' . $tab`, which cannot tell a hyphenated page from a hyphenated tab (`PageTabKeyAmbiguous`) |
| HelpTable.Candidates | ultimate-faqs/includes/Helper.class.php:321-340 | the four keys tried, in order: page and tab, page, taxonomy, effective post type (`Resolve` states the first-match choice over them) |
| HelpTable.FirstMatch | ultimate-faqs/includes/Helper.class.php:334-340 | the position of the first candidate key the table holds: every earlier key is absent; None exactly when no key is present |
| HelpTable.Resolve | ultimate-faqs/includes/Helper.class.php:334-342 | the record returned is the table's record for the first matching candidate among page-and-tab, page, taxonomy and post type, or the fallback record when none matches |
| HelpTable.PageTabWins | ultimate-faqs/includes/Helper.class.php:334 | a page-and-tab key in the table wins, even over a different record for the bare page |
| HelpTable.PageWinsWithoutTab | ultimate-faqs/includes/Helper.class.php:336 | without a page-and-tab hit, a page in the table wins over taxonomy and post type |
| HelpTable.NoMatchFallsBack | ultimate-faqs/includes/Helper.class.php:342 | with no candidate in the table the record has no description key and no tutorials |
| HelpTable.ResolveIgnoresPostTypeParam | ultimate-faqs/includes/Helper.class.php:324-340 | the chosen record does not depend on `post_type` when `post` is present |
| HelpTable.TableRecordsDescribed | ultimate-faqs/includes/Helper.class.php:181-318 | every record in the table has a description and at least one tutorial |
| HelpTable.DescriptionAbsentIffNoMatch | ultimate-faqs/includes/Helper.class.php:181-342 | the resolved record lacks a description exactly when no candidate key is in the table |
| HelpTable.StylingKeyInTable | ultimate-faqs/includes/Helper.class.php:309-317 | the styling tab's composite key is in the table, with its own description and the single tutorial "Custom CSS" |
| HelpTable.StylingTabResolves | ultimate-faqs/includes/Helper.class.php:309-334 | the settings page with the styling tab gets the styling description and exactly the "Custom CSS" tutorial |
| HelpTable.SettingsKeysInTable | ultimate-faqs/includes/Helper.class.php:243-251 | the bare settings page is a key and "ewd-ufaq-settings-" is not |
| HelpTable.SettingsEmptyTabResolves | ultimate-faqs/includes/Helper.class.php:320-336 | the settings page with no tab falls through to the bare settings record |
| HelpTable.PageTabKeyAmbiguous | ultimate-faqs/includes/Helper.class.php:334 | the hyphen-joined key cannot tell a hyphenated page from a hyphenated tab |
| HelpTable.AmbiguousKeyHitsStylingRecord | ultimate-faqs/includes/Helper.class.php:309-334 | page "ewd-ufaq-settings-ewd-ufaq" with tab "styling-tab" gets the styling record |
| HelpTable.DashboardKeysAbsent | ultimate-faqs/includes/Helper.class.php:181-318 | the dashboard page, its empty-tab key and the empty string are not keys of the table |
| HelpTable.DashboardResolvesToFallback | ultimate-faqs/includes/Helper.class.php:334-342 | the dashboard gets the fallback record |
| PhpArray.KeyIndex | ultimate-faqs/includes/Helper.class.php:97 | the position of the first entry with the key, or the length when there is none |
| PhpArray.Put | ultimate-faqs/includes/Helper.class.php:97 | a new key is appended at the end; an existing key keeps its position and only its entry takes the new value; every result entry is the new one or an old one; distinct keys stay distinct |
| EscapeJs.CastToArray | ultimate-faqs/includes/Helper.class.php:82 | the `(array)` cast: an array is unchanged, a scalar `v` becomes `[0 => v]`, null becomes empty (`EscapeWrapsScalar`) |
| EscapeJs.EscapeLoop | ultimate-faqs/includes/Helper.class.php:82-98 | the `foreach` loop after its first `n` turns; `EscapeLoopIsFilterMap` proves it keeps the scalar and array entries in order, each escaped |
| EscapeJs.EscapeJsRecursive | ultimate-faqs/includes/Helper.class.php:78-101 | `escape_js_recursive`: by `EscapeIsFilterMap` it equals the filter-and-map reference on the cast input, so every output value is a decoded scalar or an escaped array under its input key |
| EscapeJs.Kept | ultimate-faqs/includes/Helper.class.php:84-92 | an entry is kept exactly when its value is a scalar or an array, and nothing else is kept |
| EscapeJs.EscapeLoopIsFilterMap | ultimate-faqs/includes/Helper.class.php:80-100 | after `n` turns the result is the kept entries among the first `n`, in order and under their keys, each escaped |
| EscapeJs.EscapeIsFilterMap | ultimate-faqs/includes/Helper.class.php:78-101 | `escape_js_recursive` equals the filter-and-map reference on its cast input |
| EscapeJs.EscapeKeysAreSubsequence | ultimate-faqs/includes/Helper.class.php:82-97 | the output keys are the input keys with some left out, in their original order |
| EscapeJs.EscapeKeepsEntries | ultimate-faqs/includes/Helper.class.php:84-97 | every scalar or array entry appears in the output under its key, with its value escaped |
| EscapeJs.EscapeDropsOthers | ultimate-faqs/includes/Helper.class.php:88-91 | the key of every entry that is neither scalar nor array is absent from the output |
| EscapeJs.EscapeOutputShape | ultimate-faqs/includes/Helper.class.php:84-97 | every output value is a scalar or an array |
| EscapeJs.EscapeWrapsScalar | ultimate-faqs/includes/Helper.class.php:82 | a bare scalar becomes the one-entry array `[0 => decode(s)]` |
| EscapeJs.EscapeKeepsEmptiedArray | ultimate-faqs/includes/Helper.class.php:84-97 | a nested array whose values are all dropped stays in the output as an empty array under its key |
| EscapeJs.EscapePreservesWellFormed | ultimate-faqs/includes/Helper.class.php:78-101 | keys stay distinct at every depth of the output |
| HelpButton.PluginLinks | ultimate-faqs/includes/Helper.class.php:16-18 | the helper's three fixed URLs: documentation, YouTube playlist, support center (`PluginLinksAllShown`) |
| HelpButton.RenderRecord | ultimate-faqs/includes/Helper.class.php:112-142 | the overlay for one record: trigger, escaped description, tutorial links, fixed links; `DisplayHelpButton` states its layout |
| HelpButton.TutorialLinks | ultimate-faqs/includes/Helper.class.php:119-123 | one link per tutorial, in the record's order, with the escaped URL and title |
| HelpButton.FixedLinks | ultimate-faqs/includes/Helper.class.php:125-140 | a fixed link appears exactly when its URL is not empty, pointing at its own escaped URL, in the order documentation, tutorials, support center |
| HelpButton.FixedLinksPointHome | ultimate-faqs/includes/Helper.class.php:126-139 | each fixed link points at the escaped URL of its own kind |
| HelpButton.FixedLinksInOrder | ultimate-faqs/includes/Helper.class.php:125-140 | the fixed links come in overlay order |
| HelpButton.FixedLinksExactlySet | ultimate-faqs/includes/Helper.class.php:126-139 | a fixed link is present exactly when PHP's `empty()` is false for its URL |
| HelpButton.DisplayHelpButton | ultimate-faqs/includes/Helper.class.php:103-144 | nothing is written exactly when the button is not to be shown; otherwise the trigger, the resolved description, one link per resolved tutorial, then the fixed links |
| HelpButton.PluginLinksAllShown | ultimate-faqs/includes/Helper.class.php:16-18 | the helper's three links are all set, so all three fixed links appear |
| HelpButton.DashboardShowsFallback | ultimate-faqs/includes/Helper.class.php:23-342 | the dashboard shows the button (line 23) but misses every table key (181-318), gets the fallback record (342), and renders the trigger, an empty description (116) and the fixed links, with no tutorial links (105-142) |

## Left out

- The ajax responders `admin_nopriv_ajax` and `bad_nonce_ajax` are left out: they only send a fixed JSON error through WordPress.
- `getInstance` and the private constructor are left out: singleton plumbing with no logic to model.
- `enqueue_scripts` is left out: it only registers assets with WordPress.
- `get_post` returning null for an unknown id is left out. The model always gets a post type through `PostTypeOf`.
- The assignment to `global $post` is left out. It is a side effect on WordPress state.
- `sanitize_text_field` is left out. Request fields are taken as already sanitized.
- The literal HTML markup, the `aria-label`s and the translated captions of the fixed links (`_e`) are left out. An element records only what varies: kind, escaped href and escaped text.
- The description texts are left out. Each one is a `HelpText` name passed to the translator, not the English sentence.
- `in_array` compares loosely in PHP. The model uses string equality. The two agree unless both strings are numeric, and no key or list entry here is numeric.
- PHP's `(array)` cast of an object is left out. A non-array, non-scalar value is `Other`, cast to the empty array, like null.
- The string form of floats and booleans is left out. A scalar is held as the string that `(string)` gives.
- `EscapeJs.EscapeIsFilterMap`: assumes the input array has distinct keys, as every PHP array does; arbitrary sequences of entries are not PHP arrays.
- `HelpButton.DisplayHelpButton`: takes the help table as a parameter, where the plugin always passes `PageDetails(tr)`; `HelpButton.DashboardShowsFallback` instantiates it with the plugin's table.
- The "Undefined array key" warning is left out. With the fallback record, the overlay reads the missing `description` key, and PHP raises this warning (a notice before PHP 8). With `display_errors` on, the warning text is printed into the overlay. The model keeps only the null value, which prints as "".
- Values are finite trees. An array that contains itself through a reference is left out: on such an input `escape_js_recursive` recurses until PHP runs out of stack or memory.
- No claim is made that decoding is idempotent. `html_entity_decode` is uninterpreted.
