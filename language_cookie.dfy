/**
 * The string logic around the web view's language cookie: the registrable
 * domain the cookie is scoped to, the language the cookie carries, and the
 * `Cookie` header used where the cookie store is unavailable.
 */
module LanguageCookie {
  import opened Wrappers
  import opened Labels

  const LanguageCookieName: string := "prod-edx-language-preference"

  /** The language used when the device gives none or the app is not localised for it. */
  const FallbackLanguage: string := "en"

  /** A URL, as far as the cookie helper looks at it: its host, when it has one. */
  datatype Url = Url(host: Option<string>)

  // ---------------------------------------------------------------------------
  // Root domain

  /** The last two dot-separated labels of a host, or the host itself when it has no more than two. */
  function RootDomainOfHost(host: string): string
  {
    var components := Split(host, '.');
    if |components| > 2 then Join(components[|components| - 2..], '.') else host
  }

  /** `URL.rootDomain` */
  function RootDomain(url: Url): (r: Option<string>)
    ensures r.None? <==> url.host.None?
    ensures r.Some? ==> r.value == RootDomainOfHost(url.host.value)
  {
    match url.host
    case None => None
    case Some(hostName) => Some(RootDomainOfHost(hostName))
  }

  /** The last two labels, or all of them when there are at most two. */
  function LastTwoLabels(labels: seq<string>): seq<string> {
    if |labels| > 2 then labels[|labels| - 2..] else labels
  }

  /**
   * The root domain's labels are the host's last two labels, or all of them
   * when there are at most two; a host with at most two labels comes back
   * unchanged.
   */
  lemma RootDomainLabels(host: string)
    ensures Split(RootDomainOfHost(host), '.') == LastTwoLabels(Split(host, '.'))
    ensures |Split(host, '.')| <= 2 ==> RootDomainOfHost(host) == host
  {
    var labels := Split(host, '.');
    if |labels| > 2 {
      var lastTwo := labels[|labels| - 2..];
      assert RootDomainOfHost(host) == Join(lastTwo, '.');
      assert Separated(lastTwo, '.') by {
        forall i | 0 <= i < 2 ensures '.' !in lastTwo[i] { assert lastTwo[i] == labels[|labels| - 2 + i]; }
      }
      SplitJoin(lastTwo, '.');
    }
  }

  /** The root domain is a suffix of the host and has at most two labels. */
  lemma RootDomainIsShortSuffix(host: string)
    ensures var r := RootDomainOfHost(host);
      |r| <= |host| && host[|host| - |r|..] == r && |Split(r, '.')| <= 2
  {
    RootDomainLabels(host);
    var labels := Split(host, '.');
    var n := |labels|;
    if n > 2 {
      JoinSplit(host, '.');
      JoinAt(labels, '.', n - 2);
    }
  }

  /** Taking the root domain of a root domain changes nothing. */
  lemma RootDomainIdempotent(host: string)
    ensures RootDomainOfHost(RootDomainOfHost(host)) == RootDomainOfHost(host)
  {
    RootDomainIsShortSuffix(host);
  }

  // ---------------------------------------------------------------------------
  // Default language

  /**
   * `String.contains(find:)`, which asks Foundation's `range(of:)`: `needle`
   * occurs in `hay`. As there, an empty needle is never found.
   */
  predicate ContainsText(hay: string, needle: string) {
    |needle| > 0 && exists k :: 0 <= k <= |hay| && needle <= hay[k..]
  }

  /** The language part of a device language such as `pt-BR`: everything before the first `-`. */
  function LanguagePrefix(deviceLanguage: string): (language: string)
    ensures '-' !in language
    ensures |language| <= |deviceLanguage| && language <= deviceLanguage
    ensures |language| < |deviceLanguage| ==> deviceLanguage[|language|] == '-'
  {
    var parts := Split(deviceLanguage, '-');
    assert parts[0] <= deviceLanguage && (|parts[0]| < |deviceLanguage| ==> deviceLanguage[|parts[0]|] == '-') by {
      JoinSplit(deviceLanguage, '-');
      if |parts| > 1 {
        JoinAt(parts, '-', 1);
        assert parts[..1] == [parts[0]];
      }
    }
    parts[0]
  }

  /** `i` is the first position of `localizations` whose entry contains `language`. */
  predicate IsFirstMatch(localizations: seq<string>, language: string, i: int) {
    && 0 <= i < |localizations|
    && ContainsText(localizations[i], language)
    && forall j :: 0 <= j < i ==> !ContainsText(localizations[j], language)
  }

  /**
   * `WKWebView.defaultLanguage`: the first of the app's localisations that
   * contains the language part of the device's first preferred language, or
   * `"en"` when the device lists no language or no localisation matches.
   */
  method DefaultLanguage(preferredLanguages: seq<string>, preferredLocalizations: seq<string>)
    returns (result: string)
    ensures |preferredLanguages| == 0 ==> result == FallbackLanguage
    ensures |preferredLanguages| > 0 ==>
      var language := LanguagePrefix(preferredLanguages[0]);
      || (exists i :: IsFirstMatch(preferredLocalizations, language, i) && result == preferredLocalizations[i])
      || ((forall i :: 0 <= i < |preferredLocalizations| ==> !ContainsText(preferredLocalizations[i], language))
          && result == FallbackLanguage)
  {
    if |preferredLanguages| == 0 {
      return FallbackLanguage;
    }
    var language := LanguagePrefix(preferredLanguages[0]);
    var index := 0;
    while index < |preferredLocalizations|
      invariant 0 <= index <= |preferredLocalizations|
      invariant forall j :: 0 <= j < index ==> !ContainsText(preferredLocalizations[j], language)
    {
      if ContainsText(preferredLocalizations[index], language) {
        assert IsFirstMatch(preferredLocalizations, language, index);
        return preferredLocalizations[index];
      }
      index := index + 1;
    }
    return FallbackLanguage;
  }

  // ---------------------------------------------------------------------------
  // Cookie header

  /**
   * The value a server reads for cookie `name` from a `Cookie` header that
   * begins with it (section 4.2.1 of RFC 6265: `name=value`, pairs separated
   * by `;`).
   */
  function CookieValue(header: string, name: string): Option<string>
  {
    var pair := name + "=";
    if |pair| <= |header| && header[..|pair|] == pair then Some(Split(header[|pair|..], ';')[0]) else None
  }

  /**
   * The `Cookie` header built where the cookie store is unavailable, as the
   * app writes it: name, `=`, the language, and a stray `)`, so the server
   * reads the language with a `)` on its end.
   */
  function LanguageCookieHeaderAsWritten(language: string): (header: string)
    ensures |header| == |LanguageCookieName| + |language| + 2 && header[|header| - 1] == ')'
    ensures ';' !in language ==> CookieValue(header, LanguageCookieName) == Some(language + ")")
  {
    var header := LanguageCookieName + "=" + language + ")";
    assert header[|LanguageCookieName + "="|..] == language + ")";
    assert ';' !in language ==> Split(language + ")", ';') == [language + ")"] by {
      if ';' !in language { SplitWithoutSeparator(language + ")", ';'); }
    }
    header
  }

  /** The as-written header does not carry the language it was built from. */
  lemma AsWrittenHeaderMisreadsLanguage(language: string)
    requires ';' !in language
    ensures CookieValue(LanguageCookieHeaderAsWritten(language), LanguageCookieName) != Some(language)
  {
    assert |language + ")"| != |language|;
  }

  /** The header the fallback path evidently means to send: `name=language`. */
  function LanguageCookieHeader(language: string): (header: string)
    ensures ';' !in language ==> CookieValue(header, LanguageCookieName) == Some(language)
  {
    var header := LanguageCookieName + "=" + language;
    assert header[|LanguageCookieName + "="|..] == language;
    assert ';' !in language ==> Split(language, ';') == [language] by {
      if ';' !in language { SplitWithoutSeparator(language, ';'); }
    }
    header
  }
}
