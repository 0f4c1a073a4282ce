/** The button that switches the interface language
    (apps/frontend/src/components/LocaleSwitcher.tsx): it drops a leading
    two-letter segment from the current path and navigates to the same path
    under the next locale of the list. The list of locales is a parameter
    here. */
module LocaleSwitcher {
  import opened JsText

  /** `[a-z]`. */
  predicate IsLowerLetter(c: char) {
    'a' <= c <= 'z'
  }

  /** The path begins with `/xx/` for two lower-case letters `xx`
      (`/^\/[a-z]{2}\//`). */
  predicate HasLocalePrefix(pathname: string) {
    |pathname| >= 4 && pathname[0] == '/' && IsLowerLetter(pathname[1]) && IsLowerLetter(pathname[2]) && pathname[3] == '/'
  }

  /** A locale code the prefix pattern recognises: two lower-case letters. */
  predicate IsTwoLetterCode(code: string) {
    |code| == 2 && IsLowerLetter(code[0]) && IsLowerLetter(code[1])
  }

  /** `pathWithoutLocale`: a leading `/xx/` becomes `/`; any other path is
      kept as it is. */
  function PathWithoutLocale(pathname: string): (r: string)
    ensures |r| <= |pathname|
    ensures StartsWith(pathname, "/") ==> StartsWith(r, "/")
    ensures !HasLocalePrefix(pathname) ==> r == pathname
    ensures HasLocalePrefix(pathname) ==> |r| == |pathname| - 3 && r[1..] == pathname[4..]
  {
    if HasLocalePrefix(pathname) then "/" + pathname[4..] else pathname
  }

  /** A path under any two-letter code, known locale or not, loses that
      segment and keeps the rest. */
  lemma StripsAnyTwoLetterSegment(code: string, rest: string)
    requires IsTwoLetterCode(code)
    ensures PathWithoutLocale("/" + code + "/" + rest) == "/" + rest
  {
    var p := "/" + code + "/" + rest;
    assert p[0] == '/' && p[1] == code[0] && p[2] == code[1] && p[3] == '/';
    assert p[4..] == rest;
  }

  /** A locale root without a trailing slash (`/uk`) is not stripped. */
  lemma LocaleRootIsKept(code: string)
    requires IsTwoLetterCode(code)
    ensures PathWithoutLocale("/" + code) == "/" + code
  {
  }

  /** Only the first segment goes: `/en/uk/x` becomes `/uk/x`. */
  lemma OnlyFirstSegmentStripped()
    ensures PathWithoutLocale("/en/uk/x") == "/uk/x"
  {
    StripsAnyTwoLetterSegment("en", "uk/x");
    assert "/" + "en" + "/" + "uk/x" == "/en/uk/x";
    assert "/" + "uk/x" == "/uk/x";
  }

  /** `locales.indexOf(locale)`: the first position of `locale`, or −1. */
  function IndexOf(locales: seq<string>, locale: string): (r: int)
    ensures -1 <= r < |locales|
    ensures r == -1 <==> locale !in locales
    ensures r >= 0 ==> locales[r] == locale && forall j :: 0 <= j < r ==> locales[j] != locale
  {
    if locales == [] then -1
    else if locales[0] == locale then 0
    else
      var rest := IndexOf(locales[1..], locale);
      if rest == -1 then -1 else rest + 1
  }

  /** `nextLocale`: the locale after the current one in the list, wrapping
      round at the end; the first one when the current locale is not
      listed. */
  function NextLocale(locales: seq<string>, locale: string): (r: string)
    requires |locales| > 0
    ensures r in locales
    ensures locale !in locales ==> r == locales[0]
    ensures locale in locales ==> r == locales[(IndexOf(locales, locale) + 1) % |locales|]
  {
    locales[(IndexOf(locales, locale) + 1) % |locales|]
  }

  /** With two locales the button toggles between them. */
  lemma TwoLocalesToggle()
    ensures NextLocale(["en", "uk"], "en") == "uk"
    ensures NextLocale(["en", "uk"], "uk") == "en"
  {
    assert IndexOf(["en", "uk"], "uk") == 1 by {
      assert ["en", "uk"][1..] == ["uk"];
    }
  }

  /** In a list without repetitions each press moves one place along the
      list, cyclically. */
  lemma NextLocaleIsSuccessor(locales: seq<string>, locale: string)
    requires |locales| > 0 && locale in locales
    requires forall i, j :: 0 <= i < j < |locales| ==> locales[i] != locales[j]
    ensures IndexOf(locales, NextLocale(locales, locale)) == (IndexOf(locales, locale) + 1) % |locales|
  {
    var k := (IndexOf(locales, locale) + 1) % |locales|;
    var m := IndexOf(locales, locales[k]);
    assert locales[m] == locales[k];
  }

  /** The address `handleClick` navigates to. */
  function SwitchTarget(locales: seq<string>, locale: string, pathname: string): (r: string)
    requires |locales| > 0
    ensures StartsWith(r, "/" + NextLocale(locales, locale))
    ensures r == "/" + NextLocale(locales, locale) + PathWithoutLocale(pathname)
  {
    var prefix := "/" + NextLocale(locales, locale);
    assert (prefix + PathWithoutLocale(pathname))[..|prefix|] == prefix;
    prefix + PathWithoutLocale(pathname)
  }

  /** Switching from a path under a locale keeps the rest of the path and
      puts it under the next locale. */
  lemma SwitchKeepsRest(locales: seq<string>, locale: string, code: string, rest: string)
    requires |locales| > 0 && IsTwoLetterCode(code)
    ensures SwitchTarget(locales, locale, "/" + code + "/" + rest) == "/" + NextLocale(locales, locale) + "/" + rest
  {
    StripsAnyTwoLetterSegment(code, rest);
  }

  /** From a locale root without a trailing slash the locale is not
      stripped: `/en` leads to `/uk/en`. */
  lemma SwitchFromLocaleRoot()
    ensures SwitchTarget(["en", "uk"], "en", "/en") == "/uk/en"
  {
    TwoLocalesToggle();
    LocaleRootIsKept("en");
    assert "/" + "en" == "/en";
  }

  /** With the locales `en` and `uk`, pressing the button twice comes back
      to the starting path. */
  lemma SwitchTwiceReturns(rest: string)
    ensures SwitchTarget(["en", "uk"], "uk", SwitchTarget(["en", "uk"], "en", "/en/" + rest)) == "/en/" + rest
  {
    TwoLocalesToggle();
    assert "/en/" + rest == "/" + "en" + "/" + rest;
    SwitchKeepsRest(["en", "uk"], "en", "en", rest);
    assert SwitchTarget(["en", "uk"], "en", "/en/" + rest) == "/" + "uk" + "/" + rest;
    SwitchKeepsRest(["en", "uk"], "uk", "uk", rest);
  }
}
