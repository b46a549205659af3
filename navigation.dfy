/** The navigation steps (src/step-definitions/navigation.js): `base url`,
    `homepage` and `browse` update the base URL shared through
    `url.aliases` and load pages; `reload` and `back` are single browser
    calls. */
module Navigation {
  import opened Common
  import opened Strings
  import opened Url
  import Steps

  /** The `regex` map: the patterns each handler is reached by. */
  function Regex(): (m: map<Steps.Handler, seq<Steps.Pattern>>)
    ensures m.Keys == {Steps.BaseUrl, Steps.Homepage, Steps.Browse, Steps.Reload, Steps.Back}
  {
    map[
      Steps.BaseUrl := [Steps.Pattern("^(?:|I )browse (?:|to )\"([^\"]*)", [Steps.Location], None)],
      Steps.Homepage := [
        Steps.Pattern("^(?:|I )am on (?:|the )homepage", [], None),
        Steps.Pattern("^(?:|I )go to (?:|the )homepage", [], None),
        Steps.Pattern("^(?:|I )browse to (?:|the )homepage", [], None)],
      Steps.Browse := [
        Steps.Pattern("^(?:|I )am on \"([^\"]*)\"", [Steps.Location], None),
        Steps.Pattern("^(?:|I )go to \"([^\"]*)\"", [Steps.Location], None)],
      Steps.Reload := [Steps.Pattern("^(?:|I )reload the page", [], None)],
      Steps.Back := [Steps.Pattern("^(?:|I )move backward one page", [], None)]
    ]
  }

  /** `homepage` has three phrasings without captures, `browse` two with
      one capture each, the others one; every pattern hands its handler
      the values it declares. */
  lemma RegexShape()
    ensures |Regex()[Steps.BaseUrl]| == 1 && |Regex()[Steps.Homepage]| == 3 && |Regex()[Steps.Browse]| == 2
    ensures |Regex()[Steps.Reload]| == 1 && |Regex()[Steps.Back]| == 1
    ensures forall h :: h in Regex() ==> Steps.BindsAll(Regex()[h], h)
  {
    RegexEntry(Steps.BaseUrl);
    RegexEntry(Steps.Homepage);
    RegexEntry(Steps.Browse);
    RegexEntry(Steps.Reload);
    RegexEntry(Steps.Back);
  }

  lemma RegexEntry(h: Steps.Handler)
    requires h in Regex()
    ensures Steps.BindsAll(Regex()[h], h)
  {
  }

  /** What a navigation step returns, the alias map it leaves and the page
      loads it issues, in order. */
  datatype Outcome = Outcome(result: Result<()>, aliases: map<string, string>, calls: seq<BrowserCall>)

  /** `base url`: the location (expanded) is stored as the base before it is
      checked; a base that is not absolute is refused with
      NAVIGATION.BASE_URL, otherwise it is loaded once. An empty location
      leaves the base as it is and checks and loads the stored one. */
  function BaseUrlStep(aliases: map<string, string>, location: string, config: Config): (o: Outcome)
    ensures var b := BaseStep(aliases, Some(location), config);
      && o.aliases == b.aliases
      && (b.result.Err? ==> o.result == Err(NavigationRoot) && o.calls == [])
      && (b.result.Ok? && !IsAbsolute(b.result.value) ==> o.result == Err(NavigationBaseUrl) && o.calls == [])
      && (b.result.Ok? && IsAbsolute(b.result.value) ==>
            o.result == Ok(()) && o.calls == [Get(b.result.value, PageTimeout(None, config))])
    ensures o.result.Err? ==> o.calls == []
    ensures (Truthy(StoredBase(aliases)) || Truthy(config.baseUrl)) && location != "" ==>
      var e := ParseWithEnv(location, WithFallback(aliases, config));
      && StoredBase(o.aliases) == Some(e)
      && (o.result.Ok? <==> IsAbsolute(e))
      && (IsAbsolute(e) ==> o.calls == [Get(e, PageTimeout(None, config))])
    ensures (Truthy(StoredBase(aliases)) || Truthy(config.baseUrl)) && location == "" ==>
      var e := WithFallback(aliases, config)[BaseKey];
      && StoredBase(o.aliases) == Some(e)
      && (o.result.Ok? <==> IsAbsolute(e))
      && (IsAbsolute(e) ==> o.calls == [Get(e, PageTimeout(None, config))])
  {
    var b := BaseStep(aliases, Some(location), config);
    if b.result.Err? then Outcome(Err(b.result.error), b.aliases, [])
    else if !IsAbsolute(b.result.value) then Outcome(Err(NavigationBaseUrl), b.aliases, [])
    else Outcome(Ok(()), b.aliases, [BrowserGetWithTimeout(b.result.value, None, config)])
  }

  /** `homepage`: loads the stored base, or the configured one when none is
      stored; without either it fails with NAVIGATION.ROOT and loads
      nothing. */
  function HomepageStep(aliases: map<string, string>, config: Config): (o: Outcome)
    ensures var b := BaseStep(aliases, None, config);
      && o.aliases == b.aliases
      && (b.result.Err? ==> o.result == Err(NavigationRoot) && o.calls == [])
      && (b.result.Ok? ==> o.result == Ok(()) && o.calls == [Get(b.result.value, PageTimeout(None, config))])
  {
    var b := BaseStep(aliases, None, config);
    if b.result.Err? then Outcome(Err(b.result.error), b.aliases, [])
    else Outcome(Ok(()), b.aliases, [BrowserGetWithTimeout(b.result.value, None, config)])
  }

  /** `browse`: an absolute location becomes the base and is loaded; a
      relative one is handed to `setLocation` and the base is untouched. */
  function BrowseStep(aliases: map<string, string>, location: string, config: Config): (o: Outcome)
    ensures !IsAbsolute(location) ==> o == Outcome(Ok(()), aliases, [SetLocation(location)])
    ensures IsAbsolute(location) ==>
      var b := BaseStep(aliases, Some(location), config);
      && o.aliases == b.aliases
      && (b.result.Err? ==> o.result == Err(NavigationRoot) && o.calls == [])
      && (b.result.Ok? ==> o.result == Ok(()) && o.calls == [Get(location, PageTimeout(None, config))])
  {
    if IsAbsolute(location) then
      var b := BaseStep(aliases, Some(location), config);
      if b.result.Err? then Outcome(Err(b.result.error), b.aliases, [])
      else Outcome(Ok(()), b.aliases, [BrowserGetWithTimeout(location, None, config)])
    else
      Outcome(Ok(()), aliases, [SetLocation(location)])
  }

  /** An absolute location starts with a word character, so it is no
      `${...}` template and is stored exactly as given. */
  lemma AbsoluteIsNoTemplate(location: string, aliases: map<string, string>)
    requires IsAbsolute(location)
    ensures ParseWithEnv(location, aliases) == location
  {
    assert IsWordChar(location[0]);
    NoLeadingTemplateUnchanged(location, aliases);
  }

  /** After a successful absolute `browse`, the stored base is the location
      itself. */
  lemma BrowseAbsoluteSetsBase(aliases: map<string, string>, location: string, config: Config)
    requires IsAbsolute(location)
    requires BrowseStep(aliases, location, config).result.Ok?
    ensures StoredBase(BrowseStep(aliases, location, config).aliases) == Some(location)
  {
    AbsoluteIsNoTemplate(location, WithFallback(aliases, config));
  }

  /** A relative `base url` without template is refused, yet the stored base
      has already been replaced by it, whether the previous base was stored
      or only configured. */
  lemma BaseUrlRejectedStillStored(aliases: map<string, string>, location: string, config: Config)
    requires Truthy(StoredBase(aliases)) || Truthy(config.baseUrl)
    requires location != "" && !IsAbsolute(location) && TemplateEnd(location).None?
    ensures BaseUrlStep(aliases, location, config).result == Err(NavigationBaseUrl)
    ensures BaseUrlStep(aliases, location, config).calls == []
    ensures StoredBase(BaseUrlStep(aliases, location, config).aliases) == Some(location)
  {
    assert ParseWithEnv(location, WithFallback(aliases, config)) == location;
  }

  /** The handlers driving the shared alias map. */
  method BaseUrl(u: UrlAliases, location: string, config: Config) returns (r: Result<()>, calls: seq<BrowserCall>)
    modifies u
    ensures Outcome(r, u.aliases, calls) == BaseUrlStep(old(u.aliases), location, config)
  {
    calls := [];
    var newBase := u.Base(Some(location), config);
    if newBase.Err? {
      return Err(newBase.error), calls;
    }
    if !IsAbsolute(newBase.value) {
      return Err(NavigationBaseUrl), calls;
    }
    calls := calls + [BrowserGetWithTimeout(newBase.value, None, config)];
    r := Ok(());
  }

  method Homepage(u: UrlAliases, config: Config) returns (r: Result<()>, calls: seq<BrowserCall>)
    modifies u
    ensures Outcome(r, u.aliases, calls) == HomepageStep(old(u.aliases), config)
  {
    calls := [];
    var base := u.Base(None, config);
    if base.Err? {
      return Err(base.error), calls;
    }
    calls := calls + [BrowserGetWithTimeout(base.value, None, config)];
    r := Ok(());
  }

  method Browse(u: UrlAliases, location: string, config: Config) returns (r: Result<()>, calls: seq<BrowserCall>)
    modifies u
    ensures Outcome(r, u.aliases, calls) == BrowseStep(old(u.aliases), location, config)
  {
    if IsAbsolute(location) {
      var base := u.Base(Some(location), config);
      if base.Err? {
        return Err(base.error), [];
      }
      return Ok(()), [BrowserGetWithTimeout(location, None, config)];
    }
    return Ok(()), [SetLocation(location)];
  }
}
