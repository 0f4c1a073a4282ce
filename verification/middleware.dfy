/** The request middleware of the web application
    (apps/frontend/src/middleware.ts): a path that does not start with a
    supported locale is redirected under the locale detected from the
    request; any other request goes on to the internationalisation handler.
    The Accept-Language negotiation is a parameter: `matcher` stands for
    `match(languages, locales, defaultLocale)`, with `None` when it throws. */
module Middleware {
  import opened Wrappers
  import opened JsText

  const Locales: seq<string> := ["en", "uk"]
  const DefaultLocale: string := "uk"

  /** `getLocale`: the matcher's answer, or the default locale when the
      matcher throws. */
  function GetLocale(languages: seq<string>, matcher: seq<string> -> Option<string>): (r: string)
    ensures matcher(languages).None? ==> r == DefaultLocale
    ensures matcher(languages).Some? ==> r == matcher(languages).value
  {
    match matcher(languages)
    case Some(l) => l
    case None => DefaultLocale
  }

  /** When the matcher answers only with supported locales, so does
      `getLocale`. */
  lemma GetLocaleIsSupported(languages: seq<string>, matcher: seq<string> -> Option<string>)
    requires matcher(languages).Some? ==> matcher(languages).value in Locales
    ensures GetLocale(languages, matcher) in Locales
  {
    assert DefaultLocale == Locales[1];
  }

  /** The path is under `locale`: it starts with `/locale/` or is `/locale`. */
  predicate HasLocale(pathname: string, locale: string) {
    StartsWith(pathname, "/" + locale + "/") || pathname == "/" + locale
  }

  /** `pathnameIsMissingLocale`: for every locale of the list, the path is
      not under it. */
  function MissingLocale(locales: seq<string>, pathname: string): (r: bool)
    ensures r <==> forall l :: l in locales ==> !HasLocale(pathname, l)
  {
    if locales == [] then true
    else
      assert forall l :: l in locales[1..] ==> l in locales;
      assert forall l :: l in locales ==> l == locales[0] || l in locales[1..];
      !HasLocale(pathname, locales[0]) && MissingLocale(locales[1..], pathname)
  }

  /** `/en` and `/uk/x` have a locale; `/english` and `/` do not. */
  lemma MissingLocaleExamples()
    ensures !MissingLocale(Locales, "/en")
    ensures !MissingLocale(Locales, "/uk/x")
    ensures MissingLocale(Locales, "/english")
    ensures MissingLocale(Locales, "/")
  {
    assert HasLocale("/en", "en");
    assert "/uk/x"[..4] == "/uk/";
    assert HasLocale("/uk/x", "uk");
    assert "/english"[..4] == "/eng";
    assert "/" + "en" + "/" == "/en/";
    assert "/" + "uk" + "/" == "/uk/";
    assert !HasLocale("/english", "en");
    assert !HasLocale("/english", "uk");
  }

  /** The parts of a URL the redirect sets. */
  datatype Url = Url(pathname: string, search: string)

  /** `new URL(`/${locale}${pathname}`, request.url)`, with the request's
      query string copied over when there is one. */
  function RedirectUrl(locale: string, pathname: string, search: string): (r: Url)
    ensures r.pathname == "/" + locale + pathname
    ensures r.search == search
  {
    var url := Url("/" + locale + pathname, "");
    if search != "" then url.(search := search) else url
  }

  /** A redirect lands on a path that has a locale, so it is not redirected
      again. */
  lemma RedirectHasLocale(locales: seq<string>, locale: string, pathname: string, search: string)
    requires locale in locales && StartsWith(pathname, "/")
    ensures !MissingLocale(locales, RedirectUrl(locale, pathname, search).pathname)
  {
    var p := RedirectUrl(locale, pathname, search).pathname;
    assert p == ("/" + locale) + pathname;
    assert p[..|"/" + locale + "/"|] == "/" + locale + "/";
    assert HasLocale(p, locale);
  }

  /** What the middleware does with a request. */
  datatype Response = Redirect(url: Url) | Localise

  /** `middleware`. */
  function HandleRequest(pathname: string, search: string, languages: seq<string>,
                         matcher: seq<string> -> Option<string>): (r: Response)
    ensures r.Redirect? <==> MissingLocale(Locales, pathname)
    ensures r.Redirect? ==> r.url == RedirectUrl(GetLocale(languages, matcher), pathname, search)
  {
    if MissingLocale(Locales, pathname) then
      Redirect(RedirectUrl(GetLocale(languages, matcher), pathname, search))
    else Localise
  }

  /** Following the redirect, the next request goes on to the
      internationalisation handler, when the matcher answers only with
      supported locales. */
  lemma RedirectIsFinal(pathname: string, search: string, languages: seq<string>,
                        matcher: seq<string> -> Option<string>)
    requires StartsWith(pathname, "/")
    requires matcher(languages).Some? ==> matcher(languages).value in Locales
    ensures var r := HandleRequest(pathname, search, languages, matcher);
            r.Redirect? ==> HandleRequest(r.url.pathname, r.url.search, languages, matcher) == Localise
  {
    GetLocaleIsSupported(languages, matcher);
    RedirectHasLocale(Locales, GetLocale(languages, matcher), pathname, search);
  }
}
