/** The `url` helper (src/utils/url.js): absolute-URL test, `${alias}`
    expansion, the stored base URL with its configuration fallback, the
    current URL with the base cut out, and the page-load timeout. */
module Url {
  import opened Common
  import opened Strings

  /** A character of the regular-expression class `\w`. */
  predicate IsWordChar(c: char)
  {
    ('A' <= c <= 'Z') || ('a' <= c <= 'z') || ('0' <= c <= '9') || c == '_'
  }

  /** The length of the longest prefix of `s` made of word characters. */
  function WordRun(s: string): (n: nat)
    ensures n <= |s|
    ensures forall i :: 0 <= i < n ==> IsWordChar(s[i])
    ensures n < |s| ==> !IsWordChar(s[n])
  {
    if s == [] || !IsWordChar(s[0]) then 0 else 1 + WordRun(s[1..])
  }

  /** `/^(?:\w+:)\/\//.test(location)`, decided on the one place where the
      `:` can stand: right after the leading run of word characters. */
  predicate IsAbsolute(location: string)
  {
    var n := WordRun(location);
    1 <= n && n + 3 <= |location| && location[n..n + 3] == "://"
  }

  /** `s` starts with `k` word characters followed by `://`. */
  predicate SchemeAt(s: string, k: int)
  {
    1 <= k && k + 3 <= |s| && (forall i :: 0 <= i < k ==> IsWordChar(s[i])) && s[k..k + 3] == "://"
  }

  /** A location is absolute exactly when it starts with one or more word
      characters followed by `://`. */
  lemma IsAbsoluteIff(location: string)
    ensures IsAbsolute(location) <==> exists k :: SchemeAt(location, k)
  {
    var n := WordRun(location);
    if k :| SchemeAt(location, k) {
      assert location[k] == location[k..k + 3][0] == ':';
      assert n == k;
    }
    if IsAbsolute(location) {
      assert SchemeAt(location, n);
    }
  }

  /** The first index at or after `i` holding a double quote, or `|s|`. */
  function QuoteFrom(s: string, i: nat): (q: nat)
    requires i <= |s|
    ensures i <= q <= |s|
    ensures q < |s| ==> s[q] == '"'
    ensures forall j :: i <= j < q ==> s[j] != '"'
    decreases |s| - i
  {
    if i == |s| || s[i] == '"' then i else QuoteFrom(s, i + 1)
  }

  /** The last index in `[lo, hi)` holding a `}`. */
  function LastBrace(s: string, lo: nat, hi: nat): (b: Option<nat>)
    requires lo <= hi <= |s|
    ensures b.Some? ==> lo <= b.value < hi && s[b.value] == '}'
    ensures forall j :: (if b.Some? then b.value + 1 else lo) <= j < hi ==> s[j] != '}'
    decreases hi - lo
  {
    if lo == hi then None
    else if s[hi - 1] == '}' then Some(hi - 1)
    else LastBrace(s, lo, hi - 1)
  }

  /** `/^\${([^"]*)}/` matches `s[..j + 1]`: `${`, a name without `"`, `}`. */
  predicate TemplateAt(s: string, j: int)
  {
    2 <= j < |s| && s[0] == '$' && s[1] == '{' && s[j] == '}'
    && forall i :: 2 <= i < j ==> s[i] != '"'
  }

  /** The index of the closing `}` the greedy template pattern settles on:
      the last `}` before the first `"`. */
  function TemplateEnd(s: string): Option<nat>
  {
    if |s| >= 2 && s[0] == '$' && s[1] == '{' then LastBrace(s, 2, QuoteFrom(s, 2)) else None
  }

  /** The template pattern matches exactly when some `}` can close it, and
      it settles on the longest such match. */
  lemma TemplateEndIsLongestMatch(s: string)
    ensures TemplateEnd(s).None? <==> forall j :: !TemplateAt(s, j)
    ensures TemplateEnd(s).Some? ==>
      TemplateAt(s, TemplateEnd(s).value) && forall j :: TemplateEnd(s).value < j ==> !TemplateAt(s, j)
  {
    if |s| >= 2 && s[0] == '$' && s[1] == '{' {
      var q := QuoteFrom(s, 2);
      var b := LastBrace(s, 2, q);
      assert forall j :: TemplateAt(s, j) ==> b.Some? && j <= b.value;
      if b.Some? {
        assert TemplateAt(s, b.value);
      }
    }
  }

  /** `url.aliases[name]`: an unknown name reads as `undefined`, which
      string concatenation renders as the text "undefined". */
  function AliasValue(aliases: map<string, string>, name: string): (v: string)
    ensures name in aliases ==> v == aliases[name]
    ensures name !in aliases ==> v == "undefined"
  {
    if name in aliases then aliases[name] else "undefined"
  }

  /** `parseWithEnv(location)`: one leading `${name}` replaced by the
      alias value, the rest of the location copied as it is. */
  function ParseWithEnv(location: string, aliases: map<string, string>): (r: string)
    ensures TemplateEnd(location).None? ==> r == location
    ensures TemplateEnd(location).Some? ==>
      var j := TemplateEnd(location).value;
      r == AliasValue(aliases, location[2..j]) + location[j + 1..]
  {
    match TemplateEnd(location)
    case None => location
    case Some(j) =>
      var whole := location[..j + 1];
      RemoveFirstOfPrefix(whole, location[j + 1..]);
      assert whole + location[j + 1..] == location;
      AliasValue(aliases, location[2..j]) + RemoveFirst(location, whole)
  }

  /** A leading template whose name holds no `"`, followed by text with no
      `}`, expands to the alias value followed by that text; the
      name runs to the last `}`, so it may itself hold `}`. */
  lemma ParseWithEnvOfTemplate(name: string, rest: string, aliases: map<string, string>)
    requires '"' !in name && '}' !in rest
    ensures ParseWithEnv("${" + name + "}" + rest, aliases) == AliasValue(aliases, name) + rest
  {
    var s := "${" + name + "}" + rest;
    var j := |name| + 2;
    assert s[0] == '$' && s[1] == '{';
    assert s[2..j] == name;
    assert s[j] == '}';
    assert s[j + 1..] == rest;
    forall i | 2 <= i < j ensures s[i] != '"' {
      assert s[i] == s[2..j][i - 2];
    }
    var q := QuoteFrom(s, 2);
    assert j < q;
    forall i | j < i < |s| ensures s[i] != '}' {
      assert s[i] == s[j + 1..][i - j - 1];
      assert s[i] in rest;
    }
    var b := LastBrace(s, 2, q);
    assert b == Some(j);
  }

  /** The properties every plain object inherits from `Object.prototype`:
      `url.aliases[name]` finds them although no alias of that name is set. */
  const Inherited: set<string> :=
    {"constructor", "hasOwnProperty", "isPrototypeOf", "propertyIsEnumerable",
     "toLocaleString", "toString", "valueOf", "__proto__",
     "__defineGetter__", "__defineSetter__", "__lookupGetter__", "__lookupSetter__"}

  /** An unknown alias that is no inherited property is no error: the
      expansion starts with "undefined". */
  lemma UnknownAliasReadsUndefined(name: string, rest: string, aliases: map<string, string>)
    requires '"' !in name && '}' !in rest
    requires name !in aliases && name !in Inherited
    ensures ParseWithEnv("${" + name + "}" + rest, aliases) == "undefined" + rest
  {
    ParseWithEnvOfTemplate(name, rest, aliases);
  }

  /** A location without the `${` lead is left unchanged, whatever it holds
      further on: only a template at the very start is expanded. */
  lemma NoLeadingTemplateUnchanged(location: string, aliases: map<string, string>)
    requires !(|location| >= 2 && location[0] == '$' && location[1] == '{')
    ensures ParseWithEnv(location, aliases) == location
  {
  }

  /** The alias the base URL is stored under. */
  const BaseKey := "baseUrl"

  function StoredBase(aliases: map<string, string>): Option<string>
  {
    if BaseKey in aliases then Some(aliases[BaseKey]) else None
  }

  /** The alias map once a falsy stored base has been replaced by a truthy
      configured one; otherwise the map as it is. */
  function WithFallback(aliases: map<string, string>, config: Config): (f: map<string, string>)
    ensures Truthy(StoredBase(aliases)) || Truthy(config.baseUrl) ==> Truthy(StoredBase(f))
    ensures forall k :: k != BaseKey ==> (k in f <==> k in aliases)
    ensures forall k :: k != BaseKey && k in aliases ==> f[k] == aliases[k]
    ensures Truthy(StoredBase(aliases)) ==> f == aliases
    ensures !Truthy(StoredBase(aliases)) && Truthy(config.baseUrl) ==> f == aliases[BaseKey := config.baseUrl.value]
  {
    if Truthy(StoredBase(aliases)) || !Truthy(config.baseUrl) then aliases
    else aliases[BaseKey := config.baseUrl.value]
  }

  /** The result of `base(...)` and the alias map it leaves behind. */
  datatype BaseOutcome = BaseOutcome(result: Result<string>, aliases: map<string, string>)

  /** `base(newBaseUrl)`: a falsy stored base is first replaced by the
      configured one (failing with NAVIGATION.ROOT if that is falsy too);
      then a truthy new base is expanded and stored; the stored base is
      returned. */
  function BaseStep(aliases: map<string, string>, newBaseUrl: Option<string>, config: Config): (o: BaseOutcome)
    ensures o.result.Ok? <==> Truthy(StoredBase(aliases)) || Truthy(config.baseUrl)
    ensures o.result.Err? ==> o.result.error == NavigationRoot && o.aliases == aliases
    ensures o.result.Ok? ==> StoredBase(o.aliases) == Some(o.result.value)
    ensures forall k :: k != BaseKey ==> (k in o.aliases <==> k in aliases)
    ensures forall k :: k != BaseKey && k in aliases ==> o.aliases[k] == aliases[k]
    ensures o.result.Ok? && !Truthy(newBaseUrl) && Truthy(StoredBase(aliases)) ==> o.aliases == aliases
    ensures o.result.Ok? && Truthy(newBaseUrl) ==>
      o.result.value == ParseWithEnv(newBaseUrl.value, WithFallback(aliases, config))
    ensures o.result.Ok? && !Truthy(newBaseUrl) ==>
      o.result.value == if Truthy(StoredBase(aliases)) then aliases[BaseKey] else config.baseUrl.value
  {
    if !Truthy(StoredBase(aliases)) && !Truthy(config.baseUrl) then
      BaseOutcome(Err(NavigationRoot), aliases)
    else
      var current := WithFallback(aliases, config);
      if Truthy(newBaseUrl) then
        var expanded := ParseWithEnv(newBaseUrl.value, current);
        BaseOutcome(Ok(expanded), current[BaseKey := expanded])
      else
        BaseOutcome(Ok(current[BaseKey]), current)
  }

  /** A truthy stored base makes `base` independent of the configuration. */
  lemma BaseIgnoresConfigOnceStored(aliases: map<string, string>, newBaseUrl: Option<string>, c1: Config, c2: Config)
    requires Truthy(StoredBase(aliases))
    ensures BaseStep(aliases, newBaseUrl, c1) == BaseStep(aliases, newBaseUrl, c2)
  {
  }

  /** Setting a truthy base and reading it back returns what was stored,
      without consulting the configuration. */
  lemma BaseSetThenGet(aliases: map<string, string>, newBaseUrl: string, config: Config, later: Config)
    requires newBaseUrl != ""
    requires BaseStep(aliases, Some(newBaseUrl), config).result.Ok?
    requires BaseStep(aliases, Some(newBaseUrl), config).result.value != ""
    ensures var stored := BaseStep(aliases, Some(newBaseUrl), config);
      BaseStep(stored.aliases, None, later) == stored
  {
  }

  /** The new base is expanded against the previous one: `${baseUrl}/x`
      appends to the base stored before the call. */
  lemma BaseExpandsAgainstPrevious(previous: string, path: string, config: Config)
    requires previous != "" && '}' !in path
    ensures BaseStep(map[BaseKey := previous], Some("${baseUrl}" + path), config).result == Ok(previous + path)
  {
    ParseWithEnvOfTemplate(BaseKey, path, map[BaseKey := previous]);
    assert "${" + BaseKey + "}" + path == "${baseUrl}" + path;
  }

  /** The alias map `url.aliases` shared by every step of a run. */
  class UrlAliases {
    var aliases: map<string, string>

    constructor ()
      ensures aliases == map[]
    {
      aliases := map[];
    }

    /** `base(newBaseUrl)`. */
    method Base(newBaseUrl: Option<string>, config: Config) returns (r: Result<string>)
      modifies this
      ensures BaseOutcome(r, aliases) == BaseStep(old(aliases), newBaseUrl, config)
    {
      if !(BaseKey in aliases && aliases[BaseKey] != "") {
        if !(config.baseUrl.Some? && config.baseUrl.value != "") {
          return Err(NavigationRoot);
        }
        aliases := aliases[BaseKey := config.baseUrl.value];
      }
      if newBaseUrl.Some? && newBaseUrl.value != "" {
        var expanded := ParseWithEnv(newBaseUrl.value, aliases);
        aliases := aliases[BaseKey := expanded];
      }
      r := Ok(aliases[BaseKey]);
    }

    /** `getCurrent(excludeBase)` on a browser showing `currentUrl`. The base
        is read even when it is not excluded, so this fails without one. */
    method GetCurrent(excludeBase: bool, currentUrl: string, config: Config) returns (r: Result<string>)
      modifies this
      ensures var o := BaseStep(old(aliases), None, config);
        aliases == o.aliases
        && r == if o.result.Err? then Err(NavigationRoot)
                else Ok(CurrentView(currentUrl, o.result.value, excludeBase))
    {
      var base := Base(None, config);
      if base.Err? {
        return Err(base.error);
      }
      var url := currentUrl;
      if excludeBase {
        url := RemoveFirst(url, base.value);
      }
      r := Ok(url);
    }
  }

  /** The URL `getCurrent` reports: with `excludeBase`, the first occurrence
      of the base is cut out wherever it stands; without, the URL as is. */
  function CurrentView(currentUrl: string, base: string, excludeBase: bool): (v: string)
    ensures !excludeBase ==> v == currentUrl
    ensures excludeBase && IndexOf(currentUrl, base) == -1 ==> v == currentUrl
    ensures excludeBase && IndexOf(currentUrl, base) != -1 ==> |v| == |currentUrl| - |base|
    ensures excludeBase && IndexOf(currentUrl, base) != -1 ==>
      var k := IndexOf(currentUrl, base);
      currentUrl == v[..k] + base + v[k..]
  {
    if excludeBase then RemoveFirst(currentUrl, base) else currentUrl
  }

  /** The page-load timeout: the first truthy of the given timeout, the
      configured `getPageTimeout`, and 5000 ms. */
  function PageTimeout(timeout: Option<int>, config: Config): (t: int)
    ensures t != 0
    ensures TruthyNumber(timeout) ==> t == timeout.value
    ensures !TruthyNumber(timeout) && TruthyNumber(config.getPageTimeout) ==> t == config.getPageTimeout.value
    ensures !TruthyNumber(timeout) && !TruthyNumber(config.getPageTimeout) ==> t == 5000
  {
    if TruthyNumber(timeout) then timeout.value
    else if TruthyNumber(config.getPageTimeout) then config.getPageTimeout.value
    else 5000
  }

  /** `browserGetWithTimeout(url, timeout)`: the page load it issues. */
  function BrowserGetWithTimeout(url: string, timeout: Option<int>, config: Config): (c: BrowserCall)
    ensures c.Get? && c.url == url && c.timeout != 0
    ensures c.timeout == PageTimeout(timeout, config)
  {
    Get(url, PageTimeout(timeout, config))
  }
}
