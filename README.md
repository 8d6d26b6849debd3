# Fluent site tree extension, modelled in Dafny

This project models the locale-aware link and status logic that the Fluent
module attaches to SilverStripe pages (`FluentSiteTreeExtension`):

- **relative links** (`updateRelativeLink`): a page's base link is left alone,
  gets a `?<query_param>=<locale>` query string (unsaved pages), or gets the
  locale's URL segment joined in front;
- **cross-domain links** (`updateLink`): a link to a page whose locale lives on
  another domain gets that domain's link joined in front;
- **x-default** (`getLinkToXDefault`);
- **site tree status flags** (`updateStatusFlags` with its `modified`,
  `archived` and no-source helpers), a string-keyed flag map;
- **the locale status message** of the edit form (`getLocaleStatusMessage`,
  `addLocaleStatusMessage`);
- **pruning the restore action** (`updateRestoreAction`).

Files:

- `wrappers.dfy` — `Option`, for the PHP `null`s.
- `urls.dfy` (module `Urls`) — stand-ins for `Controller::join_links` and PHP
  `urlencode`, with the facts about them the link properties need.
- `forms.dfy` (module `Forms`) — the `FieldList` object the admin hooks change
  in place: a class whose `items` sequence is looked up, unshifted and pruned.
- `fluent_site_tree_extension.dfy` (module `FluentSiteTreeExtension`) — the
  extension itself.
- `fluent_site_tree_extension_tests.dfy` (module `FluentSiteTreeExtensionTests`)
  — the link, flag and message scenarios of the extension's test class.

The facts the extension asks the framework for arrive as values: the page
(`ParentID`, `exists()`, `URLSegment`, the record's locale and the per-locale
queries `isDraftedInLocale`, `isPublishedInLocale`, `getLocaleInstances`,
`LocaleInformation(...)->getSourceLocale()`, `existsInLocale`,
`hasArchiveInLocale`), the current `FluentState` (locale and domain) and the
configuration values (`disable_default_prefix`, `query_param`, `nested_urls`,
the home page link, `locale_published_status_message`,
`frontend_publish_required`). PHP's by-reference parameters (`&$base`,
`&$link`, `&$flags`) become a parameter and a result: each method returns the
new value of the variable, and is proved equal to a specification function
(`RelativeLink`, `DomainLink`, `StatusFlags`) about which the properties are
proved as lemmas. `$fields` and `$actions` are objects, so
`AddLocaleStatusMessage` and `UpdateRestoreAction` take a `Forms.FieldList`
and `modify` it.

PHP truthiness is kept where it matters: a state locale of `""` or `"0"` counts
as no locale, and a `ParentID` of 0 as no parent.

The comment at src/Extension/FluentSiteTreeExtension.php:115-117 speaks of
all pages on a domain with a single locale, but the check sits inside the
`getIsDefault()` branch (src/Extension/FluentSiteTreeExtension.php:109-121),
after the `disable_default_prefix` check; the model follows the code. A saved
root page whose locale is the only one of its domain but is not its default
still gets the prefix (`OnlyLocaleShortcutNeedsDefault`). Fluent makes the
only locale of a domain its default, so the comment and the code agree for
every locale Fluent produces; the lemma shows only what the code as written
does with flags that Fluent does not produce.

## Model

| member | source | states |
|---|---|---|
| `FluentSiteTreeExtension.UpdateRelativeLink` | src/Extension/FluentSiteTreeExtension.php:86-125 | the base link left behind is the one `RelativeLink` describes, whose cases the lemmas below spell out |
| `FluentSiteTreeExtension.RelativeLinkKeepsBaseWithoutLocale` | src/Extension/FluentSiteTreeExtension.php:88-97 | a sub page under nested URLs, or a record without a locale, keeps its base link |
| `FluentSiteTreeExtension.UnsavedPageGetsOnlyQuery` | src/Extension/FluentSiteTreeExtension.php:99-106 | an unsaved page's link keeps the path of its base; only the query string grows, ending in `query_param=` and the URL-encoded locale |
| `FluentSiteTreeExtension.DefaultLocaleWithoutPrefix` | src/Extension/FluentSiteTreeExtension.php:108-113 | a saved page in a default locale keeps its base link when `disable_default_prefix` is on |
| `FluentSiteTreeExtension.OnlyDefaultLocaleWithoutPrefix` | src/Extension/FluentSiteTreeExtension.php:115-120 | a default locale that is the only one of its domain keeps the base link whatever `disable_default_prefix` says |
| `FluentSiteTreeExtension.OtherPagesGetSegment` | src/Extension/FluentSiteTreeExtension.php:108-124 | in every other case the locale's URL segment is joined in front of the base, and the link then starts with the segment |
| `FluentSiteTreeExtension.OnlyLocaleShortcutNeedsDefault` | src/Extension/FluentSiteTreeExtension.php:109-121 | the only-locale shortcut applies only to default locales: a non-default only locale is still prefixed |
| `FluentSiteTreeExtension.UpdateLink` | src/Extension/FluentSiteTreeExtension.php:134-155 | the link left behind is the one `DomainLink` describes |
| `FluentSiteTreeExtension.DomainLinkCases` | src/Extension/FluentSiteTreeExtension.php:134-155 | no domain is joined in exactly when there is no record locale, the locale has no domain, or the current domain is the locale's; otherwise the domain's link is joined in front and the link starts with it |
| `FluentSiteTreeExtension.LinkToXDefault` | src/Extension/FluentSiteTreeExtension.php:63-78 | x-default is only ever linked from the home page, and never while default prefixes are disabled; the full decision is stated by `LinkToXDefaultCases` and its tie to the prefixed home link by `XDefaultHomeIsPrefixed` |
| `FluentSiteTreeExtension.LinkToXDefaultCases` | src/Extension/FluentSiteTreeExtension.php:63-78 | x-default is linked iff default prefixes are enabled, the record's locale is not alone on its domain, and the URL segment is the home page link |
| `FluentSiteTreeExtension.XDefaultHomeIsPrefixed` | src/Extension/FluentSiteTreeExtension.php:56-78 | a saved root page that links to x-default always has its locale prefix, so the bare root is free to be the x-default |
| `FluentSiteTreeExtension.UpdateModifiedFlag` | src/Extension/FluentSiteTreeExtension.php:428-439 | `modified` survives exactly when it was there and the page is drafted in the locale; no other key changes |
| `FluentSiteTreeExtension.UpdateArchivedFlag` | src/Extension/FluentSiteTreeExtension.php:446-463 | `archived` is removed exactly when there is a current locale and the page has locale instances; no other key changes |
| `FluentSiteTreeExtension.UpdateNoSourceFlag` | src/Extension/FluentSiteTreeExtension.php:470-497 | the no-source flag is set (with its fixed text) exactly when `archived` is absent, there is a current locale, no source locale and some locale instance; no other key changes |
| `FluentSiteTreeExtension.UpdateStatusFlags` | src/Extension/FluentSiteTreeExtension.php:164-182 | the three helpers in order plus the invisible flag produce exactly the key-by-key description `StatusFlags` |
| `FluentSiteTreeExtension.StatusFlagsWithoutLocale` | src/Extension/FluentSiteTreeExtension.php:166-169 | without a current locale the flags are untouched |
| `FluentSiteTreeExtension.StatusFlagsOnlyManagedKeys` | src/Extension/FluentSiteTreeExtension.php:164-182 | every key other than `modified`, `archived`, `removedfromdraft` and `fluentinvisible` keeps its presence and value |
| `FluentSiteTreeExtension.StatusFlagsManagedKeys` | src/Extension/FluentSiteTreeExtension.php:171-181 | with a locale: `modified` iff it was there and the page is drafted; `archived` iff it was there and there are no locale instances; no-source iff it was there or `archived` is gone, there is no source and there are instances; `fluentinvisible` added whenever the page is neither drafted nor published |
| `FluentSiteTreeExtension.StatusFlagsArchivedExcludesNoSource` | src/Extension/FluentSiteTreeExtension.php:470-474 | when `archived` is kept, the no-source entry is exactly what it was: the update never adds it beside `archived` |
| `FluentSiteTreeExtension.StatusFlagsIdempotent` | src/Extension/FluentSiteTreeExtension.php:164-182 | updating the flags a second time changes nothing |
| `FluentSiteTreeExtension.LocaleStatusMessage` | src/Extension/FluentSiteTreeExtension.php:261-311 | a page gets no message only when it is published in the locale, and "not visible" only when publishing is required; the six cases are stated by `LocaleStatusMessageCases` and its use in the form by `StatusMessageAddedWhenUnpublished` |
| `FluentSiteTreeExtension.LocaleStatusMessageCases` | src/Extension/FluentSiteTreeExtension.php:261-311 | "not visible" iff publishing is required and the page is unpublished; otherwise "inherited" / "unknown" for an undrafted page with / without a source, "draft" for drafted but unpublished; none when drafted and published, or when published while publishing is required |
| `FluentSiteTreeExtension.AddLocaleStatusMessage` | src/Extension/FluentSiteTreeExtension.php:224-256 | the field list gains at most one field, at the front, exactly the one `StatusMessageToAdd` chooses |
| `FluentSiteTreeExtension.StatusMessageAddedWhenUnpublished` | src/Extension/FluentSiteTreeExtension.php:224-256 | a field is added iff messages are enabled, no `LocaleStatusMessage` field exists and the page is unpublished; it carries the chosen message (the null check never fires there) |
| `FluentSiteTreeExtension.StatusMessageAddedOnce` | src/Extension/FluentSiteTreeExtension.php:231-234 | once the message field is in front, adding the message again adds nothing |
| `FluentSiteTreeExtension.PublishedCheckSuppressesMessage` | src/Extension/FluentSiteTreeExtension.php:236-239 | the published check is needed: a published but undrafted page has a message that is not shown |
| `FluentSiteTreeExtension.UpdateRestoreAction` | src/Extension/FluentSiteTreeExtension.php:364-377 | the actions are unchanged when the page exists or has an archive in the locale; otherwise the first `action_restore` is removed |
| `Forms.RemoveFirstNamed` | src/Extension/FluentSiteTreeExtension.php:376 | removing by name drops exactly the first field of that name, or nothing when there is none |
| `Forms.RemoveFirstNamedCount` | src/Extension/FluentSiteTreeExtension.php:376 | removal shortens the list by one exactly when a field of that name exists and keeps every other field |
| `Forms.FieldList.FieldByName` | src/Extension/FluentSiteTreeExtension.php:232 | the lookup finds a field of that name that is in the list, or reports that none is |
| `Forms.FieldList.Unshift` | src/Extension/FluentSiteTreeExtension.php:247-255 | the field goes in front of the existing ones |
| `Forms.FieldList.RemoveByName` | src/Extension/FluentSiteTreeExtension.php:376 | the list becomes `RemoveFirstNamed` of the old list |
| `Urls.UrlEncode` | src/Extension/FluentSiteTreeExtension.php:103 | the encoded locale holds only unreserved characters, `%` and `+`, so it cannot end the query value |
| `Urls.UrlEncodeKeepsUnreserved` | src/Extension/FluentSiteTreeExtension.php:103 | a locale code made of unreserved characters is encoded as itself |
| `Urls.JoinLinksQueryOnly` | src/Extension/FluentSiteTreeExtension.php:101-104 | joining a query-only argument keeps the link's path and appends to its query |
| `Urls.JoinLinksStartsWith` | src/Extension/FluentSiteTreeExtension.php:124 | a link joined behind a prefix without query string starts with that prefix |
| `Urls.JoinLinksPath` | src/Extension/FluentSiteTreeExtension.php:154 | the path of a joined link is the join of the two paths, its query the join of the two queries |
| `FluentSiteTreeExtensionTests.GermanHomeWithoutDomain` | tests/php/Extension/FluentSiteTreeExtensionTest.php:117 | de_DE without domains prefixes the home page with `german` |
| `FluentSiteTreeExtensionTests.GermanAboutWithoutDomain` | tests/php/Extension/FluentSiteTreeExtensionTest.php:118 | and the about page: `german/about-us` |
| `FluentSiteTreeExtensionTests.StaffKeepsParentLink` | tests/php/Extension/FluentSiteTreeExtensionTest.php:119 | the nested staff page keeps the base built from its parent |
| `FluentSiteTreeExtensionTests.GermanHomeAloneOnItsDomain` | tests/php/Extension/FluentSiteTreeExtensionTest.php:124 | de_DE alone on www.example.de is not prefixed although default prefixes are on |
| `FluentSiteTreeExtensionTests.GermanAboutAloneOnItsDomain` | tests/php/Extension/FluentSiteTreeExtensionTest.php:125 | the same for the about page |
| `FluentSiteTreeExtensionTests.SpanishHomeOnSharedDomain` | tests/php/Extension/FluentSiteTreeExtensionTest.php:130 | es_ES, not default on www.example.com, is prefixed with `es_ES` |
| `FluentSiteTreeExtensionTests.EnglishHomeWithDefaultPrefix` | tests/php/Extension/FluentSiteTreeExtensionTest.php:134 | en_US, default on a shared domain, is prefixed with `usa` while default prefixes are on |
| `FluentSiteTreeExtensionTests.EnglishWithoutDefaultPrefix` | tests/php/Extension/FluentSiteTreeExtensionTest.php:138-139 | with `disable_default_prefix`, en_US pages keep their base |
| `FluentSiteTreeExtensionTests.CrossDomainToDefaultLocale` | tests/php/Extension/FluentSiteTreeExtensionTest.php:144 | in en_US on www.example.de with default prefixes disabled, the en_US home page keeps its empty base, and its link `/` then becomes `http://www.example.com/` |
| `FluentSiteTreeExtensionTests.CrossDomainToOtherLocale` | tests/php/Extension/FluentSiteTreeExtensionTest.php:147 | in es_ES on www.example.de with default prefixes disabled, the es_ES home page is still prefixed, and its link `/es_ES/` then becomes `http://www.example.com/es_ES/` |
| `FluentSiteTreeExtensionTests.SameDomainLink` | tests/php/Extension/FluentSiteTreeExtensionTest.php:130 | on www.example.com itself the es_ES link stays relative |
| `FluentSiteTreeExtensionTests.UnsavedPageQuery` | src/Extension/FluentSiteTreeExtension.php:99-106 | an unsaved de_DE page's link `Security/login` becomes `Security/login?l=de_DE` |
| `FluentSiteTreeExtensionTests.HomeFlaggedInvisible` | tests/php/Extension/FluentSiteTreeExtensionTest.php:182-189 | the de_DE home page, neither drafted nor published there, has `fluentinvisible` among its flags whatever flags it started with |
| `FluentSiteTreeExtensionTests.InvisibleWithoutSource` | src/Extension/FluentSiteTreeExtension.php:164-182 | an example built from the flag rules: a page with content only in other locales and no source locale gets exactly the invisible and no-source flags from an empty map |
| `FluentSiteTreeExtensionTests.MessageNotVisible` | tests/php/Extension/FluentSiteTreeExtensionTest.php:191-212 | with publishing required, the unpublished staff page shows "not visible until published" |
| `FluentSiteTreeExtensionTests.MessageUnknown` | tests/php/Extension/FluentSiteTreeExtensionTest.php:214-235 | the undrafted home page without a source shows "no content is available" |
| `FluentSiteTreeExtensionTests.MessageDrafted` | tests/php/Extension/FluentSiteTreeExtensionTest.php:237-259 | once written in the locale it shows "a draft has been created" |

## Left out

- `MetaTags` and `updateInformationPanel`: template rendering, a switch of the versioned stage and a fetch by ID; nothing to decide.
- `updateCMSFields`, `updateCMSActions` and `updateFluentActions`: admin wiring around the modelled hooks; the hooks themselves are modelled.
- `addLocalePrefixToUrlSegment`: it runs inside `FluentState::withState` and reads the parent's link, `Director::absoluteBaseURL` and `Domain::Link`, none of which is part of this model.
- `actionComplete`: it only returns null.
- Translation lookups (`_t`): messages are an enumeration carrying their default English text.
- `getRecordLocale`, `getIsDefault`, `getIsOnlyLocale`, `getURLSegment`, `getDomain`, and the per-locale page queries are inputs; how Fluent computes them (domain mode, fallbacks, the ORM) is not part of this model, and no relation between them is assumed (for instance an only locale need not be marked default).
- `Urls.JoinLinks`: a two-argument stand-in for `Controller::join_links`; it splits each argument at its first `?` and joins the query strings with `&`, but does not parse and rebuild them with `http_build_query` (so repeated keys are not merged), and does not handle `#` fragments or PHP's treatment of `"0"` as empty.
- `StatusFlags`: PHP's `$flags` is an ordered array, and `fluentinvisible` and `removedfromdraft` are appended at its end; the flags are a `map` here, so the order of the flags is not modelled.
- `Forms.FieldList`: lookup and removal search the top level of the list only; the framework's descent into composite fields is not modelled.
- The test scenarios stop at the hooks: the framework's wrapping of a relative link (`/` in front, `/` behind) is written out only for root pages (`FluentSiteTreeExtensionTests.RootLink`), where the cross-domain scenarios chain the two hooks; the fixture file is not part of this model, and fixture facts are written out as values.
- The visibility tests and the `Locales()` / `LocaleInformation` tests of the test class exercise ORM filtering outside this core.
