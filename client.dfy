/** Construction of the `Pixu` client: the module-level `settings`, the header dict it picks
    and the `Cookie` entry it writes into that dict in place. */
module Client {
  import opened Wrappers

  /** The default `User-Agent`. Each backslash-newline in the source literal joins the lines
      but keeps the next line's twelve leading spaces. */
  const UserAgent: string :=
    "Mozilla/5.0 (Windows NT 10.0; Win64; x64)             " +
    "AppleWebKit/537.36 (KHTML, like Gecko) Chrome/105.0.0.0             " +
    "Safari/537.36"

  const Referer: string := "https://www.pixiv.net/"

  /** `settings["default_headers"]` as the module defines it. */
  const DefaultHeaders: map<string, string> := map["User-Agent" := UserAgent, "Referer" := Referer]

  /** `settings["retries"]`, the count every wrapped request method is decorated with. */
  const DefaultRetries: int := 3

  /** A Python dict of headers: one object that every holder of a reference sees change. */
  class HeaderDict {
    var entries: map<string, string>

    constructor (entries: map<string, string>)
      ensures this.entries == entries
    {
      this.entries := entries;
    }

    /** `d.update({key: value})`. */
    method Update(key: string, value: string)
      modifies this
      ensures entries == old(entries)[key := value]
    {
      entries := entries[key := value];
    }
  }

  /** The module-level `settings` dict; its `default_headers` dict is shared by every client
      built without headers of its own. */
  class Settings {
    const defaultHeaders: HeaderDict
    const retries: int

    constructor ()
      ensures fresh(defaultHeaders) && defaultHeaders.entries == DefaultHeaders
      ensures retries == DefaultRetries
    {
      defaultHeaders := new HeaderDict(DefaultHeaders);
      retries := DefaultRetries;
    }
  }

  /** `headers if headers else settings["default_headers"]`: an absent or empty dict is false. */
  function ChooseBase(given: Option<map<string, string>>, defaults: map<string, string>): map<string, string> {
    if given.Some? && given.value != map[] then given.value else defaults
  }

  /** The headers a client sends: the chosen base with `Cookie` set to the cookie. */
  function EffectiveHeaders(given: Option<map<string, string>>, defaults: map<string, string>,
                            cookie: string): (h: map<string, string>)
    ensures "Cookie" in h && h["Cookie"] == cookie
    ensures h.Keys == ChooseBase(given, defaults).Keys + {"Cookie"}
    ensures forall k :: k in ChooseBase(given, defaults) && k != "Cookie" ==> h[k] == ChooseBase(given, defaults)[k]
  {
    ChooseBase(given, defaults)["Cookie" := cookie]
  }

  /** Without headers of its own, a client over untouched settings sends exactly the two
      defaults and the cookie. */
  lemma DefaultClientHeaders(given: Option<map<string, string>>, cookie: string)
    requires given.None? || given.value == map[]
    ensures EffectiveHeaders(given, DefaultHeaders, cookie) ==
      map["User-Agent" := UserAgent, "Referer" := Referer, "Cookie" := cookie]
  {
  }

  /** With a non-empty dict of its own, a client sends that dict with the cookie, and nothing
      of the defaults it did not name. */
  lemma OwnHeadersReplaceDefaults(given: map<string, string>, defaults: map<string, string>, cookie: string)
    requires given != map[]
    ensures EffectiveHeaders(Some(given), defaults, cookie) == given["Cookie" := cookie]
  {
  }

  /** The dict a constructor call is about to pick, as an optional map. */
  ghost function Given(headers: HeaderDict?): Option<map<string, string>>
    reads headers
  {
    if headers == null then None else Some(headers.entries)
  }

  class Pixu {
    /** `self.headers`, which is also `self.get_args['headers']`: the same dict object. */
    var headers: HeaderDict
    var getArgsHeaders: HeaderDict
    /** `self.proxies` and `self.client_args['proxies']`. */
    var proxies: Option<map<string, string>>
    var clientProxies: Option<map<string, string>>

    /** `Pixu(cookie, proxies, headers, retries)`. The chosen dict is updated in place: the
        caller's own dict, or the shared default dict in `settings`. */
    constructor (cookie: string, proxies: Option<map<string, string>>, headers: HeaderDict?,
                 retries: int, settings: Settings)
      modifies headers, settings.defaultHeaders
      ensures this.headers == (if headers != null && old(headers.entries) != map[] then headers
                               else settings.defaultHeaders)
      ensures this.headers.entries ==
        EffectiveHeaders(old(Given(headers)), old(settings.defaultHeaders.entries), cookie)
      ensures this.getArgsHeaders == this.headers
      ensures this.proxies == proxies && this.clientProxies == proxies
      ensures headers != null && headers != this.headers ==> headers.entries == old(headers.entries)
      ensures settings.defaultHeaders != this.headers ==>
        settings.defaultHeaders.entries == old(settings.defaultHeaders.entries)
    {
      var chosen := if headers != null && headers.entries != map[] then headers else settings.defaultHeaders;
      chosen.Update("Cookie", cookie);
      this.headers := chosen;
      this.getArgsHeaders := chosen;
      this.proxies := proxies;
      this.clientProxies := proxies;
    }
  }

  /** The shared default dict: a second client built without headers rewrites the cookie the
      first one sends. */
  method SecondDefaultClient(settings: Settings, cookie1: string, cookie2: string)
      returns (first: Pixu, second: Pixu)
    modifies settings.defaultHeaders
    ensures first.headers == second.headers == settings.defaultHeaders
    ensures "Cookie" in first.headers.entries && first.headers.entries["Cookie"] == cookie2
  {
    first := new Pixu(cookie1, None, null, 0, settings);
    second := new Pixu(cookie2, None, null, 0, settings);
  }
}
