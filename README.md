# protractor-cucumber-slices, modelled in Dafny

protractor-cucumber-slices is a step-definition library. It connects a
Gherkin test runner (cucumber) to a browser driver (protractor). Each step
phrase is bound to a handler by a regular expression. The handlers click,
fill in, navigate and assert on a live page.

This project models the decision and bookkeeping code around the driver
calls:

- **Locating an element.** `any` tries an ordered list of finders. `input`
  fixes the finder order for form fields. Two custom locators are
  modelled: `inputLabelText` and `reflectedName`.
- **URLs.** The `url` helper covers the absolute-URL test, the `${alias}`
  template expansion, the stored base URL with its configuration fallback,
  the current URL with the base cut out, and the page-load timeout.
- **Navigation steps.** `base url`, `homepage` and `browse` update the
  shared base URL and load pages.
- **URL assertions.** `on homepage`, `url` and `url match`.
- **Form steps.** The check/uncheck decision, `fill field` and the
  row-by-row `fill multiple`.
- **Screenshots.** The counter, the cached directory and the file names.
- **Step tables.** The action, page-content and form tables; the exported
  table `index.js` assembles from them; the registration loop that hands
  every row to the runner.

The browser is an oracle, passed in as plain values:

- a presence answer per finder: `Present`, `Absent` or `Fault` (the check
  rejected);
- the page's label records, its elements with their `ng-reflect-name`, and
  the document's id-to-element map;
- the current URL string;
- whether a screenshot was delivered.

Page loads issued by a step are returned as a list of `BrowserCall`s.
Module state is modelled as classes whose methods are proved against pure
step functions:

- `url.aliases` is `Url.UrlAliases`;
- `totalScreenshots` and `path` are `Screenshot.Screenshots`;
- the runner's registry is `Registration.Runner`.

Step patterns are opaque. Each keeps its source text, the role of each
capture group, and the trailing doc string or data table if there is one.
"Well formed" means that a pattern hands its handler exactly the values the
handler declares, in declaration order.

Three facts about the code that a reader might expect otherwise:

- `url` does no slash normalisation. The URL made of a base and a path `p`
  fails `url` against `/` + `p`, so `/post/1` fails on
  `http://host/post/1` when the base is `http://host/`
  (`AssertUrl.NoSlashNormalisation`).
- `defineStep(pattern, fn)` is called without options, so every registered
  definition carries no timeout.
- No registry rejects duplicate rows. Tables are flat lists of rows, and
  equal rows would be registered twice
  (`Registration.EqualRowsRegisteredTwice`).

## Model

| member | source | states |
|---|---|---|
| Element.Candidates | src/utils/element.js:25-44 | the candidate list never holds more entries than there are finders, and only finders from the list |
| Element.Resolve | src/utils/element.js:45-50 | `any` settles either to a finder of the list whose presence check resolved true, or to NOT_FOUND_FOR_LIST |
| Element.CandidatesHead | src/utils/element.js:45-50 | the candidate list is empty exactly when no answer is `Present`; otherwise its head is the finder of the first `Present` answer |
| Element.ResolveIsFirstPresent | src/utils/element.js:45-50 | `any` settles to the earliest finder whose presence check resolved true, and to NOT_FOUND_FOR_LIST exactly when there is none (an empty finder list included) |
| Element.FaultsAreAbsences | src/utils/element.js:40-43 | a rejected presence check has exactly the effect of an absent element: it neither aborts the remaining checks nor counts as a hit |
| Element.Any | src/utils/element.js:25-51 | every finder is checked once, in list order, with no short-circuit after a hit; the result is the resolution above |
| Element.Input | src/utils/element.js:72-74 | `input` is `any` over css, name, model, binding, label text and reflected name, in that order |
| Element.InputPicksFirstPresent | src/utils/element.js:73 | `input` picks the k-th strategy exactly when it is present and no earlier one is, so a name match beats a label-text match and reflected name comes last |
| Element.InputNotFound | src/utils/element.js:73 | `input` fails with NOT_FOUND_FOR_LIST exactly when none of the six strategies is present |
| By.LabelText | src/utils/by.js:50 | a label's text is empty exactly when neither `textContent` nor `innerText` is truthy; otherwise it is `textContent` when that is non-empty, else `innerText` |
| By.MatchingLabels | src/utils/by.js:48-55 | the first pass keeps no more labels than it is given |
| By.MatchingLabelsAppend | src/utils/by.js:48-55 | the first pass works label by label: the matches of a longer list follow those of its prefix, each kept label once, in document order |
| By.LabelTargets | src/utils/by.js:57-68 | the second pass yields at most one element per matching label |
| By.InputLabelText | src/utils/by.js:39-71 | the two passes compute the targets of the matching labels; at most one element per matching label, and at most as many matching labels as labels in scope |
| By.MatchingLabelsIff | src/utils/by.js:48-55 | a label of the scope is kept exactly when its text (`textContent`, else `innerText`, else empty) contains the query |
| By.MatchingLabelsSound | src/utils/by.js:48-55 | every kept label comes from the scope and contains the query |
| By.EmptyQueryMatchesAll | src/utils/by.js:50-51 | the empty query keeps every label, in order |
| By.LabelTargetsAppend | src/utils/by.js:57-68 | the second pass works label by label, so the elements found keep the order of the matching labels |
| By.LabelTargetsFromLabels | src/utils/by.js:57-68 | every element found is the target of one of the matching labels |
| By.Target | src/utils/by.js:59-66 | a label has a target exactly when its `for` is truthy and names an element of the whole document, and the target is that element |
| By.LabelTargetsSingle | src/utils/by.js:59-67 | a label without a truthy `for`, or whose id names no element of the whole document, contributes nothing; otherwise it contributes exactly its target |
| By.TwoLabelsOneTarget | src/utils/by.js:57-70 | nothing is deduplicated: two labels for one id yield that element twice |
| By.ReflectedName | src/utils/by.js:21-26 | an element in scope is returned exactly when its `ng-reflect-name` equals the query; a query holding `"` or a line break is taken to break the selector, which then throws (an approximation; see Left out) |
| By.ReflectedMatches | src/utils/by.js:25 | the attribute filter keeps every in-scope element whose reflected name is the query and no other |
| By.ReflectedMatchesAppend | src/utils/by.js:25 | the filter works element by element: the matches of a longer scope follow those of its prefix, so results keep document order |
| By.PresenceOf | src/utils/element.js:32-43 | a locator that throws is a fault to `any`, an empty result is absent and any other result is present |
| By.ReflectedNamePresence | src/utils/by.js:21-26 | to `any`, the reflected-name finder is faulty exactly on a query the model takes as breaking and present exactly when some in-scope element carries the name |
| Strings.IndexOf | src/utils/by.js:51 | `indexOf` returns the first index at which the query occurs, or -1 when it occurs nowhere |
| Strings.ContainsIffOccurs | src/utils/by.js:51 | `-1 !== s.indexOf(q)` holds exactly when `q` occurs somewhere in `s` |
| Strings.IndexOfEmpty | src/utils/by.js:51 | the empty string is found at index 0 |
| Strings.RemoveFirst | src/utils/url.js:80 | `replace(p, '')` cuts out the first occurrence of `p` wherever it stands and leaves the string unchanged when there is none |
| Strings.RemoveFirstOfPrefix | src/utils/url.js:80 | cutting a prefix out of a string leaves the rest |
| Strings.IntToDecimal | src/utils/screenshot.js:45 | a number renders as at least one character, with a leading minus sign exactly when it is negative |
| Strings.NatToDecimalInjective | src/utils/screenshot.js:45 | different counts render as different decimal texts |
| Strings.IntToDecimalInjective | src/utils/screenshot.js:45 | different integers, negative ones included, render as different texts |
| Url.IsAbsolute | src/utils/url.js:20-23 | the absolute-URL test, decided at the end of the leading word-character run (characterised by `IsAbsoluteIff`) |
| Url.IsAbsoluteIff | src/utils/url.js:20-23 | a location is absolute exactly when it starts with one or more word characters followed by `://` |
| Url.TemplateEndIsLongestMatch | src/utils/url.js:32 | the template pattern matches exactly when a `}` can close a leading `${` before any `"`, and it settles on the last such `}` |
| Url.ParseWithEnv | src/utils/url.js:31-36 | without a leading template the location is returned unchanged; otherwise the value of the name up to the greedy `}` is followed by the rest, and only one expansion is made |
| Url.AliasValue | src/utils/url.js:34 | a set alias reads its stored value; an unset name reads as the text `undefined` (see Left out for inherited names) |
| Url.ParseWithEnvOfTemplate | src/utils/url.js:31-36 | `${name}rest` expands to the alias value followed by `rest`, for any `rest` without `}`, double quotes included (`${a}?q="x"`) |
| Url.UnknownAliasReadsUndefined | src/utils/url.js:34 | an unknown alias that is no inherited `Object.prototype` property is no error: the expansion starts with the text `undefined` |
| Url.NoLeadingTemplateUnchanged | src/utils/url.js:32-35 | a location not starting with `${` is left as it is, even when a template follows later |
| Url.BaseStep | src/utils/url.js:44-65 | `base` succeeds exactly when a truthy base is stored or configured; on failure it throws NAVIGATION.ROOT and leaves the map unchanged; a truthy new base is expanded against the map as it stands after the configuration fallback, then stored and returned; without one, the stored base, else the configured one, is returned; the returned base is the stored one; no key other than `baseUrl` is touched; a plain read of a truthy stored base changes nothing |
| Url.WithFallback | src/utils/url.js:53-60 | a truthy stored base leaves the map as it is; otherwise a truthy configured base is stored under `baseUrl` before anything else happens, so a later `${baseUrl}` expands against it; no other key is touched |
| Url.BaseIgnoresConfigOnceStored | src/utils/url.js:53-64 | with a truthy stored base, the configuration is never consulted |
| Url.BaseSetThenGet | src/utils/url.js:45-50 | a truthy base that was just stored is returned by the next read, whatever the configuration |
| Url.BaseExpandsAgainstPrevious | src/utils/url.js:46-49 | a new base `${baseUrl}path` expands against the base stored before the call |
| Url.UrlAliases.constructor | src/utils/url.js:13 | the alias map starts empty |
| Url.UrlAliases.Base | src/utils/url.js:44-65 | the method changes the alias map and returns exactly what `BaseStep` describes |
| Url.UrlAliases.GetCurrent | src/utils/url.js:72-85 | the current URL, with the first occurrence of the base cut out when asked; the base is read (and may be defaulted or fail) even when it is not cut out |
| Url.CurrentView | src/utils/url.js:79-84 | with `excludeBase` the base is cut out at its first occurrence, anywhere in the URL; without it the URL is returned as is |
| Url.BrowserGetWithTimeout | src/utils/url.js:118-121 | `browserGetWithTimeout` loads exactly the given URL with the page-load timeout `PageTimeout` gives for the given timeout and configuration, which is never 0 |
| Url.PageTimeout | src/utils/url.js:118-121 | the timeout is the first truthy value of the given timeout, the configured `getPageTimeout` and 5000, so 0 falls through and the result is never 0 |
| Navigation.Regex | src/step-definitions/navigation.js:13-32 | the map holds exactly the five navigation handlers |
| Navigation.RegexShape | src/step-definitions/navigation.js:13-32 | `homepage` has three patterns and `browse` two; every pattern hands its handler the values it declares |
| Navigation.BaseUrlStep | src/step-definitions/navigation.js:45-53 | with a base available, the location expanded after the configuration fallback is stored before it is checked (an empty location keeps the base as it is); the step succeeds exactly when that base is absolute, and then loads it exactly once with the default timeout; a non-absolute base fails with NAVIGATION.BASE_URL and loads nothing; without any base it fails with NAVIGATION.ROOT |
| Navigation.HomepageStep | src/step-definitions/navigation.js:69-72 | loads the current base once; fails with NAVIGATION.ROOT and loads nothing when there is neither a stored nor a configured base |
| Navigation.BrowseStep | src/step-definitions/navigation.js:87-92 | a relative location goes to `setLocation` and leaves the aliases alone; an absolute one becomes the base and is loaded |
| Navigation.AbsoluteIsNoTemplate | src/step-definitions/navigation.js:88-89 | an absolute location is never expanded as a template |
| Navigation.BrowseAbsoluteSetsBase | src/step-definitions/navigation.js:88-89 | after a successful absolute `browse`, the stored base is that location |
| Navigation.BaseUrlRejectedStillStored | src/step-definitions/navigation.js:45-50 | a relative `base url` without template (`/a`, `foo/bar`) is refused and loads nothing, yet the stored base has already been replaced by it, whether the previous base was stored or only configured |
| Navigation.BaseUrl | src/step-definitions/navigation.js:45-53 | the handler's alias-map update, result and page loads are exactly those of `BaseUrlStep` |
| Navigation.Homepage | src/step-definitions/navigation.js:69-72 | likewise for `HomepageStep` |
| Navigation.Browse | src/step-definitions/navigation.js:87-92 | likewise for `BrowseStep` |
| AssertUrl.Regex | src/step-definitions/assert-url.js:14-27 | the map holds exactly the four URL assertions |
| AssertUrl.RegexShape | src/step-definitions/assert-url.js:14-27 | each entry has exactly one pattern, and its captures are the values the handler declares |
| AssertUrl.OnHomepageIff | src/step-definitions/assert-url.js:46-49 | the comparison passes exactly when the current URL is the base or the base followed by one `/` |
| AssertUrl.OnHomepage | src/step-definitions/assert-url.js:39-51 | `on homepage` fails with NAVIGATION.ROOT without a base; otherwise it passes exactly on the base and on the base plus `/` |
| AssertUrl.UrlIs | src/step-definitions/assert-url.js:65-69 | the expected location is alias-expanded; an absolute one is compared with the whole current URL, a relative one with the URL after the base's first occurrence is cut out |
| AssertUrl.UrlIsRelativeAfterBase | src/step-definitions/assert-url.js:65-69 | whatever base `base()` returns, a relative path without template (`post/1` as well as `/post/1`) passes on the base followed by that path |
| AssertUrl.NoSlashNormalisation | src/step-definitions/assert-url.js:65-69 | no slash is added or removed: whatever base `base()` returns, the base followed by `p` fails `url` against `/` + `p` |
| AssertUrl.UrlMatch | src/step-definitions/assert-url.js:86-92 | the pattern text is alias-expanded and tested against the current URL with the base cut out |
| AssertUrl.UrlMatchExpandsAlias | src/step-definitions/assert-url.js:86-88 | an alias at the head of the pattern is replaced by its value before the regular expression is built, whatever follows it short of a `}`, double quotes included |
| Form.Table | src/step-definitions/form.js:120-145 | the exported form table has six rows |
| Form.TableWellFormed | src/step-definitions/form.js:120-145 | every pattern hands its handler the values it declares; the doc-string form of `fill field` brings the value as a trailing block |
| Form.TableDistinct | src/step-definitions/form.js:120-145 | no pattern appears twice |
| Form.TableHandlers | src/step-definitions/form.js:120-145 | `fill field` is bound to rows 0 and 1; every other handler to exactly one row |
| Form.ShouldClick | src/step-definitions/form.js:14-17 | `checkInput` clicks, once, exactly when the checked state differs from the target |
| Form.CheckedAfter | src/step-definitions/form.js:8-20 | with a toggling click, the box ends in the target state |
| Form.CheckInputIdempotent | src/step-definitions/form.js:102-115 | checking (or unchecking) twice has the effect of once: the second call clicks nothing |
| Form.FillField | src/step-definitions/form.js:45-47 | `fill field` sends the value to the field `input` finds, and fails with NOT_FOUND_FOR_LIST exactly when `input` does |
| Form.FillRows | src/step-definitions/form.js:65-71 | `fill multiple` never sends more keys than there are rows, and one per row when it succeeds |
| Form.FillRowsSent | src/step-definitions/form.js:65-71 | the keys go out once per row, in row order, each exactly what `fill field` sends for that row's first two cells; an error is that of the first row whose field is missing, and no later row is reached |
| Form.FillRowsOkIff | src/step-definitions/form.js:65-71 | `fill multiple` succeeds exactly when every row's field is found |
| Form.FillMultiple | src/step-definitions/form.js:65-71 | the row loop returns exactly the result and the keys `FillRows` describes |
| Screenshot.FileName | src/utils/screenshot.js:45 | the file is `<path>/screenshot-<n>.png`: the directory, then `/screenshot-`, the decimal count and `.png` |
| Screenshot.FileNameInjective | src/utils/screenshot.js:42-46 | different counts give different file names, so successive screenshots (the count rises by one each time) never overwrite one another (for counts that are exact JavaScript numbers; see Left out) |
| Screenshot.Screenshots.constructor | src/utils/screenshot.js:7-8 | the count starts at 0 and no directory is cached |
| Screenshot.Screenshots.Count | src/utils/screenshot.js:23-28 | a number, 0 included, replaces the count; no argument leaves it; the count is returned and the cache is untouched |
| Screenshot.Screenshots.Path | src/utils/screenshot.js:29-41 | a cached directory is returned without reading the configuration; otherwise a truthy configured one is cached and returned; without one it fails and nothing is cached |
| Screenshot.Screenshots.TakeScreenshot | src/utils/screenshot.js:42-46 | the cached directory afterwards is the old one, else a truthy configured one, else none; the step succeeds exactly when a directory is known and the image arrives, and then the count rises by one and the new count names the file; without a directory it fails with the missing-path error, without the image with a driver failure; on failure the count is unchanged |
| Action.Table | src/step-definitions/action.js:106-131 | the exported action table has six rows |
| Action.TableWellFormed | src/step-definitions/action.js:106-131 | every pattern hands its handler the values its parameter list (`Steps.Params`) declares; `send key` gets the key, then the selector |
| Action.TableDistinct | src/step-definitions/action.js:107-130 | no pattern appears twice |
| Action.TableHandlers | src/step-definitions/action.js:106-131 | every row is bound to an action handler, each of the six to some row, and no two rows to the same one |
| Action.SubmitGuard | src/step-definitions/action.js:49-59 | `submit` goes ahead exactly when the tag name is `form`, and otherwise fails with ACTION.SUBMIT_FORM without submitting |
| Action.SubmitRefusesUpperCase | src/step-definitions/action.js:54 | the comparison is case-sensitive: `FORM` is refused |
| AssertDom.Table | src/step-definitions/assert-dom.js:202-271 | the exported page-content table has 17 rows |
| AssertDom.TableWellFormed | src/step-definitions/assert-dom.js:202-271 | every pattern hands its handler the values it declares; `html element count` gets the count, then the selector |
| AssertDom.TableDistinct | src/step-definitions/assert-dom.js:203-270 | no pattern appears twice |
| AssertDom.TableColumn | src/step-definitions/assert-dom.js:202-271 | the handler column of the table, row by row |
| AssertDom.SharedHandlers | src/step-definitions/assert-dom.js:223-270 | two rows share a handler exactly when they are an adjacent pair starting at row 5, 7, 9, 11, 13 or 15 |
| AssertDom.TableHandlers | src/step-definitions/assert-dom.js:202-271 | every row is bound to one of the module's eleven handlers, and the paired rows, and only they, to the six two-phrasing handlers |
| AssertDom.EveryHandlerBound | src/step-definitions/assert-dom.js:202-271 | the table uses eleven distinct handlers, each bound to some row |
| AssertDom.WaitBound | src/step-definitions/assert-dom.js:150-198 | the four visibility and existence handlers wait, each for 100 ms, and no other handler waits |
| AssertDom.WaitingHandlers | src/step-definitions/assert-dom.js:150-198 | of the module's handlers, exactly those taking only a selector (visible, not visible, exists, not exists) wait, each with a 100 ms bound, and the others do not wait |
| Steps.WellFormedAppend | src/step-definitions/index.js:15-23 | concatenating well-formed tables gives a well-formed table |
| Steps.HandlersInAppend | src/step-definitions/index.js:15-23 | concatenation keeps every row's handler within the union of the parts' handlers |
| Definitions.Table | src/step-definitions/index.js:15-23 | the exported table has 6 + 17 = 23 rows |
| Definitions.TableOrder | src/step-definitions/index.js:16-17 | the action rows come first and the assert-dom rows follow, each unchanged and in its own order |
| Definitions.TableDistinct | src/step-definitions/index.js:15-23 | no pattern is exported twice: the action and page-content patterns are distinct within and across the two tables |
| Steps.DistinctAppend | src/step-definitions/index.js:16-17 | concatenating tables with distinct patterns, none shared between them, keeps the patterns distinct |
| Definitions.TableWellFormed | src/step-definitions/index.js:15-23 | every exported pattern hands its handler the values it declares |
| Definitions.TableHandlers | src/step-definitions/index.js:15-23 | every exported row is bound to an action or assert-dom handler |
| Definitions.ExportedHandlers | src/step-definitions/index.js:5-9 | no form, navigation or URL-assertion handler is exported |
| Registration.Registered | src/protractor-mink.js:7-10 | one definition per row, the i-th carrying the i-th row's pattern and handler unchanged and no timeout |
| Registration.EqualRowsRegisteredTwice | src/protractor-mink.js:7-10 | nothing is deduplicated or validated: equal rows are registered twice |
| Registration.Runner.constructor | src/protractor-mink.js:7-10 | the runner's registry starts empty |
| Registration.Runner.DefineStep | src/protractor-mink.js:9 | the runner appends the definition it receives, without options |
| Registration.DefineAll | src/protractor-mink.js:7-10 | `defineStep` is called once per row, in row order, appending exactly `Registered(t)` |
| Registration.Load | src/protractor-mink.js:5-10 | loading the library registers the 23 exported rows after whatever the runner held |

## Left out

- Driver calls are not executed. `click`, `sendKeys`, `getText`, `executeScript`, `browser.wait`, `refresh`, `back`, `takeScreenshot`, the `isPresent` checks and the page loads appear only as oracle answers or as returned `BrowserCall` values. The steps that consist of a single driver call are therefore not modelled beyond their table rows: `click`, `hover`, `press`, `follow`, `send key`, `reload`, `back` and the page-content assertions.
- Regular expressions are not matched. Step patterns are opaque strings. `html match`, `url match` and `url query match` build a `RegExp`; the model stops at the pattern text and the subject (`AssertUrl.UrlMatch`).
- `url query match` is not modelled beyond its table row, because it depends on Node's `url.parse`.
- `url.alias` (src/utils/url.js:102-107) is not modelled. Its parameter `url` shadows the module, so every call reads `aliases` off a string or off `null`. As written it can neither set nor read an alias, and its documented behaviour does not exist in the code.
- `press`, `follow` and `submit` pass several locators to `element.all` (src/step-definitions/action.js:50, 75, 89). What that does depends on the driver library's handling of extra arguments. Only the tag-name guard of `submit` is modelled.
- src/step-definitions/assert-form.js is not part of this model, for the same reason, and because it reads `.value` off element proxies.
- src/step-definitions/utility.js is not part of this model. Each of its handlers is a single driver or timer call.
- `choose in select` is not modelled beyond its table row: it is `input` followed by a driver lookup with `cssContainingText`.
- Form.ShouldClick: models only the decision at form.js:14. `getAttribute()` is called with no attribute name on the promise `input` returns (form.js:10-12); the checked state is taken as given.
- Form.FillRows: requires every data-table row to hold at least two cells. What the driver does with a missing selector or value (`undefined`) is not visible.
- By.ReflectedName: the query is spliced unescaped into `[ng-reflect-name="<query>"]`. The model takes the selector as malformed exactly when the query holds `"` or a line break. In the browser, some such queries inject a valid selector instead; `x"][data-a="y` gives `[ng-reflect-name="x"][data-a="y"]`, which matches elements. That injection and the browser's other CSS escaping rules are not modelled.
- Screenshot.Screenshots.Count: takes an integer or nothing. Fractional numbers such as `1.5`, which the source accepts, and values of other types (a truthy string, `false`, `NaN`) are not modelled.
- Screenshot.Screenshots.TakeScreenshot: the count is an unbounded integer. In the source it is a double: from 2^53 on `++totalScreenshots` no longer changes it, so two screenshots share a file name, and from 10^21 on it renders as `1e+21`. The promises that the count rises by one and that file names never repeat (`Screenshot.FileNameInjective`) hold in the source only below 2^53.
- Screenshot.Screenshots.TakeScreenshot: writing the file (a stream, with base64 decoding) is left out, so a failed write is not modelled. The model names the file the image would be written to.
- AssertUrl.OnHomepage, AssertUrl.UrlIs, AssertUrl.UrlMatch: they return only the verdict, not the alias map. The `base()` calls they make can store the configured base as a side effect; `Url.UrlAliases.GetCurrent` and `Url.BaseStep` model that.
- `on homepage` runs `getCurrent(false)` and `base()` concurrently. Since both read the same base, the model reads it once. `url` and `url match` make a single `getCurrent` call.
- Url.AliasValue: `url.aliases` is a plain object, so a name that no alias sets but that every object inherits (`toString`, `constructor`, `__proto__` and the others listed in `Url.Inherited`) reads the inherited function or prototype, which renders as its text. The model reads every unset name as `undefined`; `Url.UnknownAliasReadsUndefined` excludes the inherited names, while `Url.ParseWithEnv` and the lemmas built on `AliasValue` do not.
- Pattern distinctness is proved for each table and for the exported table. It is not proved between tables that are never exported together, such as the form table and the action table.
- Console logging in `any` is left out (it prints "NOT present" even for hits).
- Bluebird's `Promise.each` and the asynchronous chaining are modelled as sequential loops. Promise rejections become `Err` results.
- gulpfile.js (documentation build) is left out.
