/**
 * The locale-aware link and status logic that Fluent attaches to SilverStripe
 * pages (`FluentSiteTreeExtension`).
 *
 * The facts the extension reads from the framework (the page's fields, the
 * record's locale, the current `FluentState`, configuration values and the
 * page's per-locale existence queries) arrive as values. PHP's by-reference
 * parameters (`&$base`, `&$link`, `&$flags`) become a parameter and a result:
 * each such method returns the new value of the variable. The `FieldList`
 * objects the admin hooks change in place are `Forms.FieldList` objects.
 */
module FluentSiteTreeExtension {
  import opened Wrappers
  import opened Urls
  import opened Forms

  // ---------------------------------------------------------------- inputs

  /** A domain bound to locales: its host name and its absolute link. */
  datatype Domain = Domain(hostname: string, link: string)

  /**
   * The record's locale as `getRecordLocale()` returns it: its code, its URL
   * segment, whether it is the default (`getIsDefault`) and the only locale
   * (`getIsOnlyLocale`) in its scope, and its domain when domain mode binds one.
   */
  datatype Locale = Locale(
    code: string,
    urlSegment: string,
    isDefault: bool,
    isOnlyLocale: bool,
    domain: Option<Domain>)

  /** The configuration values the extension reads. */
  datatype Config = Config(
    disableDefaultPrefix: bool,        // FluentDirectorExtension.disable_default_prefix
    queryParam: string,                // FluentDirectorExtension.query_param
    nestedUrls: bool,                  // SiteTree.nested_urls
    homepageLink: string,              // RootURLController::get_homepage_link()
    localePublishedStatusMessage: bool, // locale_published_status_message
    frontendPublishRequired: bool)     // frontend_publish_required

  /** The current `FluentState`: its locale and its domain (null when unset). */
  datatype FluentState = FluentState(locale: Option<string>, domain: Option<string>)

  /**
   * What the extension reads of its page. The per-locale facts are those of
   * the current locale of the `FluentState`.
   */
  datatype Page = Page(
    parentId: nat,                 // ParentID; 0 is a root page
    isSaved: bool,                 // exists(): false for unsaved pages
    urlSegment: string,            // URLSegment
    recordLocale: Option<Locale>,  // getRecordLocale()
    draftedInLocale: bool,         // isDraftedInLocale()
    publishedInLocale: bool,       // isPublishedInLocale()
    hasLocaleInstances: bool,      // getLocaleInstances() is not empty
    sourceLocale: Option<string>,  // LocaleInformation(locale)->getSourceLocale()
    existsInLocale: bool,          // existsInLocale()
    hasArchiveInLocale: bool)      // hasArchiveInLocale()

  /** PHP's truth value of a string: false for "" and "0". */
  predicate IsTruthy(s: string)
  {
    s != "" && s != "0"
  }

  /** Whether `FluentState::getLocale()` is set. */
  predicate HasLocale(state: FluentState)
  {
    state.locale.Some? && IsTruthy(state.locale.value)
  }

  // ------------------------------------------------------ relative links

  /** What `updateRelativeLink` does to the base link. */
  datatype BaseRewrite =
    | KeepBase
    | AppendQuery(query: string)      // `?<query_param>=<locale>` joined after the base
    | PrependSegment(segment: string) // the locale's URL segment joined before the base

  /** The locale query string that marks a link to an unsaved page. */
  function LocaleQuery(cfg: Config, locale: Locale): string
  {
    "?" + cfg.queryParam + "=" + UrlEncode(locale.code)
  }

  /** Whether a page is below another page whose link already carries the locale. */
  predicate IsNested(page: Page, cfg: Config)
  {
    page.parentId != 0 && cfg.nestedUrls
  }

  /**
   * Whether a saved page's link leaves the locale out: the locale is the
   * default one and either default prefixes are disabled or it is the only
   * locale of its domain.
   */
  predicate SuppressesPrefix(cfg: Config, locale: Locale)
  {
    locale.isDefault && (cfg.disableDefaultPrefix || locale.isOnlyLocale)
  }

  /** The decision `updateRelativeLink` takes for a page. */
  function RelativeLinkRewrite(page: Page, cfg: Config): BaseRewrite
  {
    if IsNested(page, cfg) then KeepBase
    else match page.recordLocale
      case None => KeepBase
      case Some(locale) =>
        if !page.isSaved then AppendQuery(LocaleQuery(cfg, locale))
        else if SuppressesPrefix(cfg, locale) then KeepBase
        else PrependSegment(locale.urlSegment)
  }

  /** The base link after the rewrite. */
  function ApplyRewrite(rewrite: BaseRewrite, base: string): string
  {
    match rewrite
    case KeepBase => base
    case AppendQuery(query) => JoinLinks(base, query)
    case PrependSegment(segment) => JoinLinks(segment, base)
  }

  /** The base link `updateRelativeLink` leaves behind. */
  function RelativeLink(page: Page, cfg: Config, base: string): string
  {
    ApplyRewrite(RelativeLinkRewrite(page, cfg), base)
  }

  /** `updateRelativeLink(&$base, &$action)`; `$action` is never changed. */
  method UpdateRelativeLink(page: Page, cfg: Config, base: string) returns (newBase: string)
    ensures newBase == RelativeLink(page, cfg, base)
  {
    newBase := base;
    // A nested page inherits the locale from its parent's link
    if page.parentId != 0 && cfg.nestedUrls {
      return;
    }
    if page.recordLocale.None? {
      return;
    }
    var localeObj := page.recordLocale.value;
    // Unsaved pages fall back to the query string
    if !page.isSaved {
      newBase := JoinLinks(base, LocaleQuery(cfg, localeObj));
      return;
    }
    if localeObj.isDefault {
      if cfg.disableDefaultPrefix {
        return;
      }
      if localeObj.isOnlyLocale {
        return;
      }
    }
    newBase := JoinLinks(localeObj.urlSegment, base);
  }

  /** Sub pages under nested URLs and records without a locale keep their base link. */
  lemma RelativeLinkKeepsBaseWithoutLocale(page: Page, cfg: Config, base: string)
    requires IsNested(page, cfg) || page.recordLocale.None?
    ensures RelativeLink(page, cfg, base) == base
  {
  }

  /**
   * An unsaved page only gets the locale query string: the path of its link
   * is the path of the base, and the locale, URL-encoded, ends the query string.
   */
  lemma UnsavedPageGetsOnlyQuery(page: Page, cfg: Config, base: string)
    requires !IsNested(page, cfg) && page.recordLocale.Some? && !page.isSaved
    ensures var link := RelativeLink(page, cfg, base);
      && SplitQuery(link).0 == SplitQuery(base).0
      && SplitQuery(link).1 == JoinQueries(SplitQuery(base).1,
           cfg.queryParam + "=" + UrlEncode(page.recordLocale.value.code))
  {
    var locale := page.recordLocale.value;
    assert LocaleQuery(cfg, locale) == "?" + (cfg.queryParam + "=" + UrlEncode(locale.code));
    JoinLinksQueryOnly(base, cfg.queryParam + "=" + UrlEncode(locale.code));
  }

  /** A default locale keeps the base link when default prefixes are disabled. */
  lemma DefaultLocaleWithoutPrefix(page: Page, cfg: Config, base: string)
    requires page.isSaved && page.recordLocale.Some? && page.recordLocale.value.isDefault
    requires cfg.disableDefaultPrefix
    ensures RelativeLink(page, cfg, base) == base
  {
  }

  /**
   * A default locale that is the only one of its domain keeps the base link,
   * whatever the `disable_default_prefix` setting.
   */
  lemma OnlyDefaultLocaleWithoutPrefix(page: Page, cfg: Config, base: string)
    requires page.isSaved && page.recordLocale.Some?
    requires page.recordLocale.value.isDefault && page.recordLocale.value.isOnlyLocale
    ensures RelativeLink(page, cfg, base) == base
  {
  }

  /**
   * Every other saved root page gets the locale's URL segment joined in front
   * of its base link; when the segment has no query string, the link starts
   * with it.
   */
  lemma OtherPagesGetSegment(page: Page, cfg: Config, base: string)
    requires !IsNested(page, cfg) && page.isSaved && page.recordLocale.Some?
    requires !SuppressesPrefix(cfg, page.recordLocale.value)
    ensures RelativeLink(page, cfg, base) == JoinLinks(page.recordLocale.value.urlSegment, base)
    ensures var segment := page.recordLocale.value.urlSegment;
      '?' !in segment ==> RelativeLink(page, cfg, base)[..|segment|] == segment
  {
    var segment := page.recordLocale.value.urlSegment;
    if '?' !in segment {
      JoinLinksStartsWith(segment, base);
    }
  }

  /**
   * The "only locale on its domain" shortcut sits inside the default-locale
   * check: a saved root page whose locale is the only one but not the default
   * still gets the prefix. Fluent makes a domain's only locale its default, so
   * this is what the code would do with flags Fluent does not produce.
   */
  lemma OnlyLocaleShortcutNeedsDefault(page: Page, cfg: Config, base: string)
    requires !IsNested(page, cfg) && page.isSaved && page.recordLocale.Some?
    requires page.recordLocale.value.isOnlyLocale && !page.recordLocale.value.isDefault
    ensures RelativeLinkRewrite(page, cfg) == PrependSegment(page.recordLocale.value.urlSegment)
  {
  }

  // ------------------------------------------------------ cross-domain links

  /** The domain link `updateLink` puts in front of the link, if any. */
  function CrossDomainPrefix(page: Page, state: FluentState): Option<string>
  {
    match page.recordLocale
    case None => None
    case Some(locale) =>
      match locale.domain
      case None => None
      case Some(domain) =>
        if state.domain == Some(domain.hostname) then None else Some(domain.link)
  }

  /** The link `updateLink` leaves behind. */
  function DomainLink(page: Page, state: FluentState, link: string): string
  {
    match CrossDomainPrefix(page, state)
    case None => link
    case Some(prefix) => JoinLinks(prefix, link)
  }

  /** `updateLink(&$link, &$action, &$relativeLink)`; only `$link` is changed. */
  method UpdateLink(page: Page, state: FluentState, link: string) returns (newLink: string)
    ensures newLink == DomainLink(page, state, link)
  {
    newLink := link;
    if page.recordLocale.None? {
      return;
    }
    var localeObj := page.recordLocale.value;
    // Without a bound domain the link stays relative
    if localeObj.domain.None? {
      return;
    }
    var domain := localeObj.domain.value;
    if state.domain == Some(domain.hostname) {
      return;
    }
    newLink := JoinLinks(domain.link, link);
  }

  /**
   * `updateLink` is the identity exactly when there is no locale, the locale
   * has no domain, or the current domain is the locale's domain; otherwise the
   * domain's link is joined in front, and the link starts with it.
   */
  lemma DomainLinkCases(page: Page, state: FluentState, link: string)
    ensures CrossDomainPrefix(page, state).None? <==>
      || page.recordLocale.None?
      || page.recordLocale.value.domain.None?
      || state.domain == Some(page.recordLocale.value.domain.value.hostname)
    ensures CrossDomainPrefix(page, state).None? ==> DomainLink(page, state, link) == link
    ensures CrossDomainPrefix(page, state).Some? ==>
      var domainLink := page.recordLocale.value.domain.value.link;
      && DomainLink(page, state, link) == JoinLinks(domainLink, link)
      && ('?' !in domainLink ==> DomainLink(page, state, link)[..|domainLink|] == domainLink)
  {
    if CrossDomainPrefix(page, state).Some? {
      var domainLink := page.recordLocale.value.domain.value.link;
      if '?' !in domainLink {
        JoinLinksStartsWith(domainLink, link);
      }
    }
  }

  // ------------------------------------------------------ x-default

  /** `getLinkToXDefault`: whether the page links its root as x-default. */
  function LinkToXDefault(page: Page, cfg: Config): (r: bool)
    ensures r ==> page.urlSegment == cfg.homepageLink
    ensures cfg.disableDefaultPrefix ==> !r
  {
    if cfg.disableDefaultPrefix then false
    else if page.recordLocale.Some? && page.recordLocale.value.isOnlyLocale then false
    else page.urlSegment == cfg.homepageLink
  }

  /**
   * The x-default link is false when default prefixes are disabled or the
   * record's locale is alone on its domain; otherwise it is true exactly on
   * the home page.
   */
  lemma LinkToXDefaultCases(page: Page, cfg: Config)
    ensures LinkToXDefault(page, cfg) <==>
      && !cfg.disableDefaultPrefix
      && !(page.recordLocale.Some? && page.recordLocale.value.isOnlyLocale)
      && page.urlSegment == cfg.homepageLink
  {
  }

  /**
   * When the home page links to x-default, its own link does carry a locale
   * prefix: a saved root home page in its record's locale is never left at the
   * bare root, so the root is free to be the x-default.
   */
  lemma XDefaultHomeIsPrefixed(page: Page, cfg: Config)
    requires LinkToXDefault(page, cfg)
    requires !IsNested(page, cfg) && page.isSaved && page.recordLocale.Some?
    ensures RelativeLinkRewrite(page, cfg).PrependSegment?
  {
  }

  // ------------------------------------------------------ status flags

  /** A site tree status flag: its label and its tooltip. */
  datatype Flag = Flag(text: string, title: string)

  const ModifiedKey := "modified"
  const ArchivedKey := "archived"
  const NoSourceKey := "removedfromdraft"
  const InvisibleKey := "fluentinvisible"

  const NoSourceFlag := Flag("No source", "This page exists in a different locale but the content is not inherited")
  const InvisibleFlag := Flag("", "")

  /** The keys the status flag update may change. */
  predicate IsManagedKey(key: string)
  {
    key == ModifiedKey || key == ArchivedKey || key == NoSourceKey || key == InvisibleKey
  }

  /** Whether an existing flag survives the localisation of `modified` and `archived`. */
  predicate KeepsFlag(key: string, page: Page)
  {
    && (key == ModifiedKey ==> page.draftedInLocale)
    && (key == ArchivedKey ==> !page.hasLocaleInstances)
  }

  /** The page has content in another locale that is not inherited into this one. */
  predicate LacksSource(page: Page)
  {
    page.sourceLocale.None? && page.hasLocaleInstances
  }

  /** The page has neither a draft nor a published version in this locale. */
  predicate IsInvisible(page: Page)
  {
    !page.draftedInLocale && !page.publishedInLocale
  }

  /**
   * The flags after `updateStatusFlags`, stated key by key: the localised
   * `modified` and `archived` flags are kept where they still apply, the
   * no-source flag is added when no `archived` flag remains, and the
   * invisible flag when the page has no content in the locale.
   */
  function StatusFlags(flags: map<string, Flag>, state: FluentState, page: Page): map<string, Flag>
  {
    if !HasLocale(state) then flags
    else
      var kept := map key | key in flags && KeepsFlag(key, page) :: flags[key];
      var sourced := if ArchivedKey !in kept && LacksSource(page) then kept[NoSourceKey := NoSourceFlag] else kept;
      if IsInvisible(page) then sourced[InvisibleKey := InvisibleFlag] else sourced
  }

  /** `updateModifiedFlag`: `modified` survives only on a page drafted in the locale. */
  method UpdateModifiedFlag(flags: map<string, Flag>, page: Page) returns (updated: map<string, Flag>)
    ensures ModifiedKey in updated <==> ModifiedKey in flags && page.draftedInLocale
    ensures ModifiedKey in updated ==> updated[ModifiedKey] == flags[ModifiedKey]
    ensures updated - {ModifiedKey} == flags - {ModifiedKey}
  {
    updated := flags;
    if ModifiedKey !in flags {
      return;
    }
    if page.draftedInLocale {
      return;
    }
    updated := flags - {ModifiedKey};
  }

  /** `updateArchivedFlag`: `archived` goes when the page has instances in some locale. */
  method UpdateArchivedFlag(flags: map<string, Flag>, state: FluentState, page: Page)
    returns (updated: map<string, Flag>)
    ensures ArchivedKey in updated <==>
      ArchivedKey in flags && !(HasLocale(state) && page.hasLocaleInstances)
    ensures ArchivedKey in updated ==> updated[ArchivedKey] == flags[ArchivedKey]
    ensures updated - {ArchivedKey} == flags - {ArchivedKey}
  {
    updated := flags;
    if ArchivedKey !in flags {
      return;
    }
    if !HasLocale(state) {
      return;
    }
    if !page.hasLocaleInstances {
      return;
    }
    updated := flags - {ArchivedKey};
  }

  /**
   * `updateNoSourceFlag`: the no-source flag is set when there is no
   * `archived` flag, the locale has no source and the page has instances.
   */
  method UpdateNoSourceFlag(flags: map<string, Flag>, state: FluentState, page: Page)
    returns (updated: map<string, Flag>)
    ensures var adds := ArchivedKey !in flags && HasLocale(state) && LacksSource(page);
      && (NoSourceKey in updated <==> NoSourceKey in flags || adds)
      && (adds ==> updated[NoSourceKey] == NoSourceFlag)
      && (!adds && NoSourceKey in flags ==> updated[NoSourceKey] == flags[NoSourceKey])
    ensures updated - {NoSourceKey} == flags - {NoSourceKey}
  {
    updated := flags;
    if ArchivedKey in flags {
      return;
    }
    if !HasLocale(state) {
      return;
    }
    if page.sourceLocale.Some? {
      return;
    }
    if !page.hasLocaleInstances {
      return;
    }
    updated := flags[NoSourceKey := NoSourceFlag];
  }

  /** `updateStatusFlags(&$flags)`. */
  method UpdateStatusFlags(flags: map<string, Flag>, state: FluentState, page: Page)
    returns (updated: map<string, Flag>)
    ensures updated == StatusFlags(flags, state, page)
  {
    updated := flags;
    // Without a current locale nothing is localised
    if !HasLocale(state) {
      return;
    }
    var modified := UpdateModifiedFlag(flags, page);
    var archived := UpdateArchivedFlag(modified, state, page);
    var sourced := UpdateNoSourceFlag(archived, state, page);
    updated := sourced;
    if !page.draftedInLocale && !page.publishedInLocale {
      updated := updated[InvisibleKey := InvisibleFlag];
    }
    ghost var kept := map key | key in flags && KeepsFlag(key, page) :: flags[key];
    forall key
      ensures key in archived <==> key in kept
      ensures key in archived ==> archived[key] == kept[key]
    {
      if key != ModifiedKey { SameOutside(modified, flags, ModifiedKey, key); }
      if key != ArchivedKey { SameOutside(archived, modified, ArchivedKey, key); }
    }
    assert archived == kept;
    ghost var expected := if ArchivedKey !in kept && LacksSource(page) then kept[NoSourceKey := NoSourceFlag] else kept;
    forall key
      ensures key in sourced <==> key in expected
      ensures key in sourced ==> sourced[key] == expected[key]
    {
      if key != NoSourceKey { SameOutside(sourced, archived, NoSourceKey, key); }
    }
    assert sourced == expected;
  }

  /** Two maps that agree once `k` is removed agree on every other key. */
  lemma SameOutside(a: map<string, Flag>, b: map<string, Flag>, k: string, key: string)
    requires a - {k} == b - {k} && key != k
    ensures key in a <==> key in b
    ensures key in a ==> a[key] == b[key]
  {
    assert key in a <==> key in a - {k};
    assert key in b <==> key in b - {k};
    if key in a {
      assert a[key] == (a - {k})[key];
      assert b[key] == (b - {k})[key];
    }
  }

  /** Without a current locale the flags are left as they are. */
  lemma StatusFlagsWithoutLocale(flags: map<string, Flag>, state: FluentState, page: Page)
    requires !HasLocale(state)
    ensures StatusFlags(flags, state, page) == flags
  {
  }

  /** Only the four managed keys can change; every other flag is kept as it was. */
  lemma StatusFlagsOnlyManagedKeys(flags: map<string, Flag>, state: FluentState, page: Page, key: string)
    requires !IsManagedKey(key)
    ensures key in StatusFlags(flags, state, page) <==> key in flags
    ensures key in flags ==> StatusFlags(flags, state, page)[key] == flags[key]
  {
  }

  /** With a current locale, each managed key ends up as the localisation rules say. */
  lemma StatusFlagsManagedKeys(flags: map<string, Flag>, state: FluentState, page: Page)
    requires HasLocale(state)
    ensures var r := StatusFlags(flags, state, page);
      && (ModifiedKey in r <==> ModifiedKey in flags && page.draftedInLocale)
      && (ArchivedKey in r <==> ArchivedKey in flags && !page.hasLocaleInstances)
      && (NoSourceKey in r <==>
            NoSourceKey in flags || (ArchivedKey !in r && LacksSource(page)))
      && (InvisibleKey in r <==> InvisibleKey in flags || IsInvisible(page))
      && (IsInvisible(page) ==> r[InvisibleKey] == InvisibleFlag)
  {
  }

  /**
   * The update never adds a no-source flag beside an `archived` flag it keeps:
   * when `archived` survives, the no-source entry is exactly what it was.
   */
  lemma StatusFlagsArchivedExcludesNoSource(flags: map<string, Flag>, state: FluentState, page: Page)
    ensures var r := StatusFlags(flags, state, page);
      ArchivedKey in r ==>
        && (NoSourceKey in r <==> NoSourceKey in flags)
        && (NoSourceKey in flags ==> r[NoSourceKey] == flags[NoSourceKey])
  {
  }

  /** Updating the flags a second time changes nothing. */
  lemma {:induction false} StatusFlagsIdempotent(flags: map<string, Flag>, state: FluentState, page: Page)
    ensures StatusFlags(StatusFlags(flags, state, page), state, page) == StatusFlags(flags, state, page)
  {
    var once := StatusFlags(flags, state, page);
    var twice := StatusFlags(once, state, page);
    if HasLocale(state) {
      assert forall key :: key in twice <==> key in once;
      assert forall key | key in twice :: twice[key] == once[key];
    }
  }

  // ------------------------------------------------------ status messages

  /** The locale status messages of the edit form. */
  datatype StatusMessage =
    | NotVisibleUntilPublished // LOCALESTATUSFLUENTINVISIBLE
    | MayBeInherited           // LOCALESTATUSFLUENTINHERITED
    | NoContentAvailable       // LOCALESTATUSFLUENTUNKNOWN
    | DraftCreated             // LOCALESTATUSFLUENTDRAFT

  /** The default (English) text of each message. */
  function MessageText(message: StatusMessage): string
  {
    match message
    case NotVisibleUntilPublished =>
      "This page will not be visible in this locale until it has been published."
    case MayBeInherited =>
      "Content for this page may be inherited from another locale. If you wish you make an "
      + "independent copy of this page, please use one of the \"Copy\" actions provided."
    case NoContentAvailable =>
      "No content is available for this page. Please localise this page or provide a locale fallback."
    case DraftCreated =>
      "A draft has been created for this locale, however, published content may still be "
      + "inherited from another. To publish this content for this locale, use the \"Save & publish\" "
      + "action provided."
  }

  /** `getLocaleStatusMessage`: the message for the page in the current locale, or null. */
  function LocaleStatusMessage(cfg: Config, page: Page): (r: Option<StatusMessage>)
    ensures r.None? ==> page.publishedInLocale
    ensures r == Some(NotVisibleUntilPublished) ==> cfg.frontendPublishRequired
  {
    if cfg.frontendPublishRequired then
      if !page.publishedInLocale then Some(NotVisibleUntilPublished) else None
    else if !page.draftedInLocale then
      if page.sourceLocale.Some? then Some(MayBeInherited) else Some(NoContentAvailable)
    else if !page.publishedInLocale then Some(DraftCreated)
    else None
  }

  /**
   * The "not visible until published" message is chosen exactly when
   * publishing is required and the page is not published; without that
   * requirement the message follows the draft, source and published state.
   */
  lemma LocaleStatusMessageCases(cfg: Config, page: Page)
    ensures LocaleStatusMessage(cfg, page) == Some(NotVisibleUntilPublished) <==>
      cfg.frontendPublishRequired && !page.publishedInLocale
    ensures cfg.frontendPublishRequired && page.publishedInLocale ==>
      LocaleStatusMessage(cfg, page).None?
    ensures !cfg.frontendPublishRequired ==>
      && (!page.draftedInLocale && page.sourceLocale.Some? ==>
            LocaleStatusMessage(cfg, page) == Some(MayBeInherited))
      && (!page.draftedInLocale && page.sourceLocale.None? ==>
            LocaleStatusMessage(cfg, page) == Some(NoContentAvailable))
      && (page.draftedInLocale && !page.publishedInLocale ==>
            LocaleStatusMessage(cfg, page) == Some(DraftCreated))
      && (page.draftedInLocale && page.publishedInLocale ==>
            LocaleStatusMessage(cfg, page).None?)
  {
  }

  const StatusMessageFieldName := "LocaleStatusMessage"

  /** The literal field that shows a status message. */
  function StatusMessageField(message: StatusMessage): FormField
  {
    FormField(StatusMessageFieldName, "<p class=\"alert alert-info\">" + MessageText(message) + "</p>")
  }

  /** The field `addLocaleStatusMessage` puts at the front of `fields`, if any. */
  function StatusMessageToAdd(cfg: Config, page: Page, fields: seq<FormField>): Option<FormField>
  {
    if !cfg.localePublishedStatusMessage then None
    else if FieldIndex(fields, StatusMessageFieldName).Some? then None
    else if page.publishedInLocale then None
    else match LocaleStatusMessage(cfg, page)
      case None => None
      case Some(message) => Some(StatusMessageField(message))
  }

  /** `addLocaleStatusMessage(FieldList $fields)`. */
  method AddLocaleStatusMessage(fields: FieldList, cfg: Config, page: Page)
    modifies fields
    ensures fields.items == match StatusMessageToAdd(cfg, page, old(fields.items))
      case None => old(fields.items)
      case Some(field) => [field] + old(fields.items)
  {
    if !cfg.localePublishedStatusMessage {
      return;
    }
    // Never add the message twice
    var existing := fields.FieldByName(StatusMessageFieldName);
    if existing.Some? {
      return;
    }
    if page.publishedInLocale {
      return;
    }
    var message := LocaleStatusMessage(cfg, page);
    if message.None? {
      return;
    }
    fields.Unshift(StatusMessageField(message.value));
  }

  /**
   * A message is added exactly when messages are enabled, none is shown yet
   * and the page is unpublished: an unpublished page always has a message,
   * so the null check never suppresses one. The added field is the message
   * field for the chosen message.
   */
  lemma StatusMessageAddedWhenUnpublished(cfg: Config, page: Page, fields: seq<FormField>)
    ensures StatusMessageToAdd(cfg, page, fields).Some? <==>
      && cfg.localePublishedStatusMessage
      && (forall j :: 0 <= j < |fields| ==> fields[j].name != StatusMessageFieldName)
      && !page.publishedInLocale
    ensures StatusMessageToAdd(cfg, page, fields).Some? ==>
      && LocaleStatusMessage(cfg, page).Some?
      && StatusMessageToAdd(cfg, page, fields).value == StatusMessageField(LocaleStatusMessage(cfg, page).value)
  {
    if cfg.localePublishedStatusMessage && FieldIndex(fields, StatusMessageFieldName).Some? {
      var i := FieldIndex(fields, StatusMessageFieldName).value;
      assert fields[i].name == StatusMessageFieldName;
    }
  }

  /** Once the message field is at the front, adding the message again adds nothing. */
  lemma StatusMessageAddedOnce(cfg: Config, page: Page, fields: seq<FormField>)
    requires StatusMessageToAdd(cfg, page, fields).Some?
    ensures StatusMessageToAdd(cfg, page, [StatusMessageToAdd(cfg, page, fields).value] + fields).None?
  {
  }

  /**
   * The published check in `addLocaleStatusMessage` is not redundant: a page
   * published but not drafted in the locale would otherwise get a message.
   */
  lemma PublishedCheckSuppressesMessage(cfg: Config, page: Page)
    requires !cfg.frontendPublishRequired && page.publishedInLocale && !page.draftedInLocale
    ensures LocaleStatusMessage(cfg, page).Some?
    ensures StatusMessageToAdd(cfg, page, []).None?
  {
  }

  // ------------------------------------------------------ restore action

  const RestoreActionName := "action_restore"

  /** `updateRestoreAction(FieldList $actions)`: restore goes unless the locale has a version to restore. */
  method UpdateRestoreAction(actions: FieldList, page: Page)
    modifies actions
    ensures page.existsInLocale || page.hasArchiveInLocale ==> actions.items == old(actions.items)
    ensures !page.existsInLocale && !page.hasArchiveInLocale ==>
      actions.items == RemoveFirstNamed(old(actions.items), RestoreActionName)
  {
    if page.existsInLocale {
      return;
    }
    if page.hasArchiveInLocale {
      return;
    }
    actions.RemoveByName(RestoreActionName);
  }
}
