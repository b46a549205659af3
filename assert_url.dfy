/** The URL assertions (src/step-definitions/assert-url.js): string
    comparisons between the current browser URL, the base URL and an
    expected location. Each assertion reads the base through `base()` and
    so fails with NAVIGATION.ROOT when there is none. */
module AssertUrl {
  import opened Common
  import opened Strings
  import opened Url
  import Steps

  /** The `regex` map: one pattern per handler. */
  function Regex(): (m: map<Steps.Handler, seq<Steps.Pattern>>)
    ensures m.Keys == {Steps.OnHomepage, Steps.UrlIs, Steps.UrlMatch, Steps.UrlQueryMatch}
  {
    map[
      Steps.OnHomepage := [Steps.Pattern("^(?:|I )should be on (?:|the )homepage", [], None)],
      Steps.UrlIs := [Steps.Pattern("^(?:|I )should be on (?:|the )(?:|page )\"([^\"]*)\"(?:| page)$", [Steps.Location], None)],
      Steps.UrlMatch := [Steps.Pattern("the url should match (.+)", [Steps.Regex], None)],
      Steps.UrlQueryMatch := [Steps.Pattern("the url parameter should match (.+)", [Steps.Regex], None)]
    ]
  }

  /** Every entry holds exactly one pattern, which hands its handler the
      values it declares. */
  lemma RegexShape()
    ensures forall h :: h in Regex() ==> |Regex()[h]| == 1 && Steps.BindsAll(Regex()[h], h)
  {
    RegexEntry(Steps.OnHomepage);
    RegexEntry(Steps.UrlIs);
    RegexEntry(Steps.UrlMatch);
    RegexEntry(Steps.UrlQueryMatch);
  }

  lemma RegexEntry(h: Steps.Handler)
    requires h in Regex()
    ensures |Regex()[h]| == 1 && Steps.BindsAll(Regex()[h], h)
  {
  }

  /** The comparison of `on homepage`: when cutting the base out of the
      current URL leaves just `/`, the URL's last character is dropped;
      the result must equal the base. */
  predicate OnHomepagePasses(currentUrl: string, base: string)
  {
    var url := if RemoveFirst(currentUrl, base) == "/" then currentUrl[..|currentUrl| - 1] else currentUrl;
    url == base
  }

  /** So `on homepage` passes exactly on the base itself and on the base
      followed by one slash. */
  lemma OnHomepageIff(currentUrl: string, base: string)
    ensures OnHomepagePasses(currentUrl, base) <==> currentUrl == base || currentUrl == base + "/"
  {
    if currentUrl == base + "/" {
      RemoveFirstOfPrefix(base, "/");
      assert currentUrl[..|currentUrl| - 1] == base;
    } else if currentUrl == base {
      RemoveFirstOfPrefix(base, "");
      assert base + "" == base;
    } else if RemoveFirst(currentUrl, base) == "/" {
      var k := IndexOf(currentUrl, base);
      var r := RemoveFirst(currentUrl, base);
      if k == -1 {
        IndexOfEmpty(currentUrl);
        assert currentUrl[..|currentUrl| - 1] == "";
      } else {
        assert currentUrl == r[..k] + base + r[k..];
        assert k == 0 ==> currentUrl == base + "/";
        assert |currentUrl| == |base| + 1;
        assert currentUrl[..|currentUrl| - 1] == base ==> OccursAt(currentUrl, base, 0);
      }
    }
  }

  /** `on homepage` with the browser showing `currentUrl`. */
  function OnHomepage(aliases: map<string, string>, currentUrl: string, config: Config): (r: Result<bool>)
    ensures BaseStep(aliases, None, config).result.Err? ==> r == Err(NavigationRoot)
    ensures BaseStep(aliases, None, config).result.Ok? ==>
      var base := BaseStep(aliases, None, config).result.value;
      r == Ok(currentUrl == base || currentUrl == base + "/")
  {
    var b := BaseStep(aliases, None, config).result;
    if b.Err? then Err(b.error)
    else
      OnHomepageIff(currentUrl, b.value);
      Ok(OnHomepagePasses(currentUrl, b.value))
  }

  /** The location `url` expects: a leading `${alias}` is expanded with the
      aliases as they stand before the base is read. */
  function Expected(aliases: map<string, string>, location: string): string
  {
    ParseWithEnv(location, aliases)
  }

  /** `url`: an absolute expected location is compared with the whole
      current URL, a relative one with the current URL after its first
      occurrence of the base is cut out. No slash is added or removed. */
  function UrlIs(aliases: map<string, string>, location: string, currentUrl: string, config: Config): (r: Result<bool>)
    ensures BaseStep(aliases, None, config).result.Err? ==> r == Err(NavigationRoot)
    ensures BaseStep(aliases, None, config).result.Ok? && IsAbsolute(Expected(aliases, location)) ==>
      r == Ok(currentUrl == Expected(aliases, location))
    ensures BaseStep(aliases, None, config).result.Ok? && !IsAbsolute(Expected(aliases, location)) ==>
      var base := BaseStep(aliases, None, config).result.value;
      r == Ok(RemoveFirst(currentUrl, base) == Expected(aliases, location))
  {
    var expected := Expected(aliases, location);
    var b := BaseStep(aliases, None, config).result;
    if b.Err? then Err(b.error)
    else Ok(CurrentView(currentUrl, b.value, !IsAbsolute(expected)) == expected)
  }

  /** A relative path without template, `post/1` as well as `/post/1`,
      passes on the base followed by that path. */
  lemma UrlIsRelativeAfterBase(aliases: map<string, string>, base: string, path: string, config: Config)
    requires BaseStep(aliases, None, config).result == Ok(base)
    requires !IsAbsolute(path) && TemplateEnd(path).None?
    ensures UrlIs(aliases, path, base + path, config) == Ok(true)
  {
    RemoveFirstOfPrefix(base, path);
  }

  /** No slash is added or removed: whatever the base, the URL made of the
      base and a path `p` fails `url` against `/` + `p`. With a base ending
      in `/` (`http://host/`), `/post/1` therefore fails on
      `http://host/post/1`, where `post/1` passes. */
  lemma NoSlashNormalisation(aliases: map<string, string>, base: string, path: string, config: Config)
    requires BaseStep(aliases, None, config).result == Ok(base)
    ensures UrlIs(aliases, "/" + path, base + path, config) == Ok(false)
  {
    var expected := "/" + path;
    NoLeadingTemplateUnchanged(expected, aliases);
    assert !IsWordChar(expected[0]);
    RemoveFirstOfPrefix(base, path);
    assert |expected| != |path|;
  }

  /** What `url match` tests: the expanded pattern text against the current
      URL with the base cut out. */
  datatype RegexTest = RegexTest(pattern: string, subject: string)

  function UrlMatch(aliases: map<string, string>, regex: string, currentUrl: string, config: Config): (r: Result<RegexTest>)
    ensures BaseStep(aliases, None, config).result.Err? ==> r == Err(NavigationRoot)
    ensures BaseStep(aliases, None, config).result.Ok? ==>
      var base := BaseStep(aliases, None, config).result.value;
      r == Ok(RegexTest(ParseWithEnv(regex, aliases), RemoveFirst(currentUrl, base)))
  {
    var pattern := ParseWithEnv(regex, aliases);
    var b := BaseStep(aliases, None, config).result;
    if b.Err? then Err(b.error)
    else Ok(RegexTest(pattern, CurrentView(currentUrl, b.value, true)))
  }

  /** An alias at the head of the pattern is replaced by its value before the
      regular expression is built. */
  lemma UrlMatchExpandsAlias(aliases: map<string, string>, name: string, rest: string, currentUrl: string, config: Config)
    requires '"' !in name && '}' !in rest
    requires name in aliases
    requires BaseStep(aliases, None, config).result.Ok?
    ensures UrlMatch(aliases, "${" + name + "}" + rest, currentUrl, config).value.pattern == aliases[name] + rest
  {
    ParseWithEnvOfTemplate(name, rest, aliases);
  }
}
