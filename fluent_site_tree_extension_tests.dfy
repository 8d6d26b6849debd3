/**
 * The link, flag and message scenarios of FluentSiteTreeExtensionTest, stated
 * against the model. Links are checked at the hooks: the framework joins the
 * site's base URL in front of a relative link and a slash behind it (`german`
 * becomes `/german/`); the cross-domain scenarios write that step out for root
 * pages and chain both hooks. The fixture facts the tests rely on (URL segments,
 * domains, which locale is default, what is drafted or published) are written
 * out as values here.
 */
module FluentSiteTreeExtensionTests {
  import opened Wrappers
  import opened Urls
  import opened Forms
  import opened FluentSiteTreeExtension

  const ComDomain := Domain("www.example.com", "http://www.example.com")
  const DeDomain := Domain("www.example.de", "http://www.example.de")

  /** de_DE outside domain mode: neither default nor alone among all locales. */
  const GermanGlobal := Locale("de_DE", "german", false, false, None)
  /** de_DE in domain mode: the only locale, hence the default, of www.example.de. */
  const GermanOnDe := Locale("de_DE", "german", true, true, Some(DeDomain))
  /** es_ES in domain mode: a non-default locale of www.example.com. */
  const SpanishOnCom := Locale("es_ES", "es_ES", false, false, Some(ComDomain))
  /** en_US in domain mode: the default locale of www.example.com, beside es_ES. */
  const EnglishOnCom := Locale("en_US", "usa", true, false, Some(ComDomain))
  /** en_NZ outside domain mode, the locale of the status message tests. */
  const NewZealand := Locale("en_NZ", "newzealand", false, false, None)

  function Settings(prefixDisabled: bool): Config
  {
    Config(prefixDisabled, "l", true, "home", true, false)
  }

  /** A saved page in `locale` that has content there. */
  function SavedPage(parentId: nat, segment: string, locale: Locale): Page
  {
    Page(parentId, true, segment, Some(locale), true, true, true, None, true, false)
  }

  lemma GermanHomeWithoutDomain()
    ensures RelativeLink(SavedPage(0, "home", GermanGlobal), Settings(false), "") == "german"
  {
    assert RelativeLinkRewrite(SavedPage(0, "home", GermanGlobal), Settings(false)) == PrependSegment("german");
    JoinedGermanHome();
  }

  lemma GermanAboutWithoutDomain()
    ensures RelativeLink(SavedPage(0, "about-us", GermanGlobal), Settings(false), "about-us") == "german/about-us"
  {
    assert RelativeLinkRewrite(SavedPage(0, "about-us", GermanGlobal), Settings(false)) == PrependSegment("german");
    JoinedGermanAbout();
  }

  /** A sub page keeps the base built from its parent's link, which already has the prefix. */
  lemma StaffKeepsParentLink(base: string)
    ensures RelativeLink(SavedPage(2, "my-staff", GermanGlobal), Settings(false), base) == base
  {
  }

  /** de_DE alone on www.example.de gets no prefix, even with default prefixes enabled. */
  lemma GermanHomeAloneOnItsDomain()
    ensures RelativeLink(SavedPage(0, "home", GermanOnDe), Settings(false), "") == ""
  {
    assert RelativeLinkRewrite(SavedPage(0, "home", GermanOnDe), Settings(false)) == KeepBase;
  }

  lemma GermanAboutAloneOnItsDomain()
    ensures RelativeLink(SavedPage(0, "about-us", GermanOnDe), Settings(false), "about-us") == "about-us"
  {
    assert RelativeLinkRewrite(SavedPage(0, "about-us", GermanOnDe), Settings(false)) == KeepBase;
  }

  /** es_ES on www.example.com is not the default there and is prefixed. */
  lemma SpanishHomeOnSharedDomain()
    ensures RelativeLink(SavedPage(0, "home", SpanishOnCom), Settings(false), "") == "es_ES"
  {
    assert RelativeLinkRewrite(SavedPage(0, "home", SpanishOnCom), Settings(false)) == PrependSegment("es_ES");
    JoinedSpanishHome();
  }

  /** en_US, the default of www.example.com, is prefixed while default prefixes are enabled. */
  lemma EnglishHomeWithDefaultPrefix()
    ensures RelativeLink(SavedPage(0, "home", EnglishOnCom), Settings(false), "") == "usa"
  {
    assert RelativeLinkRewrite(SavedPage(0, "home", EnglishOnCom), Settings(false)) == PrependSegment("usa");
    JoinedEnglishHome();
  }

  /** With default prefixes disabled, en_US links keep their base. */
  lemma EnglishWithoutDefaultPrefix()
    ensures RelativeLink(SavedPage(0, "home", EnglishOnCom), Settings(true), "") == ""
    ensures RelativeLink(SavedPage(0, "about-us", EnglishOnCom), Settings(true), "about-us") == "about-us"
  {
  }

  /**
   * The framework's wrapping of a root page's relative link into the link
   * `updateLink` receives: the base URL `/` in front and, when there is a
   * path, a `/` behind.
   */
  function RootLink(relative: string): string
  {
    if relative == "" then "/" else "/" + relative + "/"
  }

  /**
   * Seen from www.example.de in en_US, the en_US home page keeps its empty
   * base (default prefix disabled) and its link then carries www.example.com.
   */
  lemma CrossDomainToDefaultLocale()
    ensures var page := SavedPage(0, "home", EnglishOnCom);
      DomainLink(page, FluentState(Some("en_US"), Some("www.example.de")), RootLink(RelativeLink(page, Settings(true), "")))
        == "http://www.example.com/"
  {
    var page := SavedPage(0, "home", EnglishOnCom);
    assert RelativeLinkRewrite(page, Settings(true)) == KeepBase;
    assert RootLink("") == "/";
    assert CrossDomainPrefix(page, FluentState(Some("en_US"), Some("www.example.de"))) == Some("http://www.example.com");
    JoinedComRoot();
  }

  /**
   * Seen from www.example.de in es_ES, the es_ES home page is prefixed
   * (es_ES is not a default locale) and its link then carries www.example.com.
   */
  lemma CrossDomainToOtherLocale()
    ensures var page := SavedPage(0, "home", SpanishOnCom);
      DomainLink(page, FluentState(Some("es_ES"), Some("www.example.de")), RootLink(RelativeLink(page, Settings(true), "")))
        == "http://www.example.com/es_ES/"
  {
    var page := SavedPage(0, "home", SpanishOnCom);
    assert RelativeLinkRewrite(page, Settings(true)) == PrependSegment("es_ES");
    JoinedSpanishHome();
    SpanishRootLink();
    assert CrossDomainPrefix(page, FluentState(Some("es_ES"), Some("www.example.de"))) == Some("http://www.example.com");
    JoinedComSpanish();
  }

  lemma SpanishRootLink()
    ensures RootLink("es_ES") == "/es_ES/"
  {
  }

  /** On its own domain a link is left relative. */
  lemma SameDomainLink()
    ensures DomainLink(SavedPage(0, "home", SpanishOnCom), FluentState(Some("es_ES"), Some("www.example.com")), "/es_ES/")
      == "/es_ES/"
  {
  }

  /** An unsaved page gets the locale as a query string. */
  lemma UnsavedPageQuery()
    ensures RelativeLink(Page(0, false, "", Some(GermanGlobal), false, false, false, None, false, false),
                         Settings(false), "Security/login") == "Security/login?l=de_DE"
  {
    GermanQuery();
    JoinedLoginQuery();
  }

  /**
   * The fixture home page has no content in de_DE, neither drafted nor
   * published: whatever flags the framework computed, `fluentinvisible` is
   * among them after the update.
   */
  lemma HomeFlaggedInvisible(flags: map<string, Flag>)
    ensures var page := Page(0, true, "home", Some(GermanGlobal), false, false, true, None, false, false);
      InvisibleKey in StatusFlags(flags, FluentState(Some("de_DE"), None), page)
  {
    var page := Page(0, true, "home", Some(GermanGlobal), false, false, true, None, false, false);
    StatusFlagsManagedKeys(flags, FluentState(Some("de_DE"), None), page);
  }

  /**
   * A page with content in other locales only, and no source locale, gets
   * exactly the invisible and no-source flags from an empty flag map.
   */
  lemma InvisibleWithoutSource()
    ensures var page := Page(0, true, "home", Some(GermanGlobal), false, false, true, None, false, false);
      StatusFlags(map[], FluentState(Some("de_DE"), None), page).Keys == {InvisibleKey, NoSourceKey}
  {
    var page := Page(0, true, "home", Some(GermanGlobal), false, false, true, None, false, false);
    var r := StatusFlags(map[], FluentState(Some("de_DE"), None), page);
    StatusFlagsManagedKeys(map[], FluentState(Some("de_DE"), None), page);
    forall key | key in r ensures key == InvisibleKey || key == NoSourceKey {
      if !IsManagedKey(key) {
        StatusFlagsOnlyManagedKeys(map[], FluentState(Some("de_DE"), None), page, key);
      }
    }
  }

  /** The edit form's message for an unpublished page when publishing is required. */
  lemma MessageNotVisible()
    ensures var cfg := Config(false, "l", true, "home", true, true);
      var page := Page(2, true, "my-staff", Some(NewZealand), true, false, true, None, true, false);
      StatusMessageToAdd(cfg, page, []) == Some(StatusMessageField(NotVisibleUntilPublished))
  {
  }

  /** The fixture home page in en_NZ: content elsewhere, none drafted or published here. */
  const UnlocalisedHome := Page(0, true, "home", Some(NewZealand), false, false, true, None, false, false)

  /** Without a draft or a source locale the form says no content is available. */
  lemma MessageUnknown()
    ensures StatusMessageToAdd(Settings(false), UnlocalisedHome, []) == Some(StatusMessageField(NoContentAvailable))
  {
    LocaleStatusMessageCases(Settings(false), UnlocalisedHome);
    assert FieldIndex([], StatusMessageFieldName).None?;
  }

  /** Once the page is written in the locale, the form says a draft exists. */
  lemma MessageDrafted()
    ensures var page := UnlocalisedHome.(draftedInLocale := true);
      StatusMessageToAdd(Settings(false), page, []) == Some(StatusMessageField(DraftCreated))
  {
    LocaleStatusMessageCases(Settings(false), UnlocalisedHome.(draftedInLocale := true));
    assert FieldIndex([], StatusMessageFieldName).None?;
  }

  // Concrete joins used above. Each fact about a literal is its own lemma:
  // the solver handles them one at a time far more cheaply than together.

  lemma JoinedGermanHome()
    ensures JoinLinks("german", "") == "german"
  {
    JoinLinksPlain("german", "");
  }

  lemma JoinedSpanishHome()
    ensures JoinLinks("es_ES", "") == "es_ES"
  {
    JoinLinksPlain("es_ES", "");
  }

  lemma JoinedEnglishHome()
    ensures JoinLinks("usa", "") == "usa"
  {
    JoinLinksPlain("usa", "");
  }

  lemma GermanAboutHasNoQuery()
    ensures '?' !in "german" && '?' !in "about-us"
  {
  }

  lemma GermanAboutPaths()
    ensures JoinPaths("german", "about-us") == "german/about-us"
  {
  }

  lemma JoinedGermanAbout()
    ensures JoinLinks("german", "about-us") == "german/about-us"
  {
    GermanAboutHasNoQuery();
    GermanAboutPaths();
    JoinLinksPlain("german", "about-us");
  }

  lemma ComLinksHaveNoQuery()
    ensures '?' !in "http://www.example.com" && '?' !in "/" && '?' !in "/es_ES/"
  {
  }

  lemma ComRootPaths()
    ensures JoinPaths("http://www.example.com", "/") == "http://www.example.com/"
  {
  }

  lemma ComSpanishPaths()
    ensures JoinPaths("http://www.example.com", "/es_ES/") == "http://www.example.com/es_ES/"
  {
  }

  lemma JoinedComRoot()
    ensures JoinLinks("http://www.example.com", "/") == "http://www.example.com/"
  {
    ComLinksHaveNoQuery();
    ComRootPaths();
    JoinLinksPlain("http://www.example.com", "/");
  }

  lemma JoinedComSpanish()
    ensures JoinLinks("http://www.example.com", "/es_ES/") == "http://www.example.com/es_ES/"
  {
    ComLinksHaveNoQuery();
    ComSpanishPaths();
    JoinLinksPlain("http://www.example.com", "/es_ES/");
  }

  lemma GermanQuery()
    ensures LocaleQuery(Settings(false), GermanGlobal) == "?l=de_DE"
  {
    UrlEncodeKeepsUnreserved("de_DE");
  }

  lemma QueryArgumentSplit()
    ensures SplitQuery("?l=de_DE") == ("", "l=de_DE")
  {
    SplitQueryOfJoined("", "l=de_DE");
    assert "" + "?" + "l=de_DE" == "?l=de_DE";
  }

  lemma LoginSplit()
    ensures SplitQuery("Security/login") == ("Security/login", "")
  {
    assert '?' !in "Security/login";
  }

  lemma JoinedLoginQuery()
    ensures JoinLinks("Security/login", "?l=de_DE") == "Security/login?l=de_DE"
  {
    QueryArgumentSplit();
    LoginSplit();
    LoginQueryText();
  }

  lemma LoginQueryText()
    ensures "Security/login" + "?" + "l=de_DE" == "Security/login?l=de_DE"
  {
  }
}
