/** Step tables: rows binding a phrase pattern to a handler. Patterns are
    kept opaque (their source text) together with the values a matching
    phrase hands to the handler: one per capture group, in group order, and
    the trailing doc string or data table a phrase ending in `:` brings. */
module Steps {
  import opened Common

  /** The role of a value handed to a handler. */
  datatype Slot = Selector | Text | Regex | Count | Key | Value | OptionText | Location | DataTable

  datatype Pattern = Pattern(source: string, groups: seq<Slot>, block: Option<Slot>)

  /** Every handler of the step modules. */
  datatype Handler =
    // action.js
    | Click | Press | Follow | Hover | Submit | SendKey
    // assert-dom.js
    | HtmlContains | HtmlNotContains | HtmlMatch | HtmlNotMatch | HtmlElementCount
    | ElementContains | ElementNotContains | ElementVisible | ElementNotVisible
    | ElementExists | ElementNotExists
    // form.js
    | FillField | FillMultiple | ChooseInSelect | Check | Uncheck
    // navigation.js
    | BaseUrl | Homepage | Browse | Reload | Back
    // assert-url.js
    | OnHomepage | UrlIs | UrlMatch | UrlQueryMatch

  /** The parameters each handler declares, in order. */
  function Params(h: Handler): seq<Slot>
  {
    match h
    case Click | Press | Follow | Hover | Submit => [Selector]
    case SendKey => [Key, Selector]
    case HtmlContains | HtmlNotContains => [Text]
    case HtmlMatch | HtmlNotMatch => [Regex]
    case HtmlElementCount => [Count, Selector]
    case ElementContains | ElementNotContains => [Text, Selector]
    case ElementVisible | ElementNotVisible | ElementExists | ElementNotExists => [Selector]
    case FillField => [Selector, Value]
    case FillMultiple => [DataTable]
    case ChooseInSelect => [OptionText, Selector]
    case Check | Uncheck => [Selector]
    case BaseUrl | Browse => [Location]
    case Homepage | Reload | Back => []
    case OnHomepage => []
    case UrlIs => [Location]
    case UrlMatch | UrlQueryMatch => [Regex]
  }

  /** The values a phrase matching `p` hands over, in order. */
  function Arguments(p: Pattern): seq<Slot>
  {
    p.groups + (if p.block.Some? then [p.block.value] else [])
  }

  datatype Row = Row(pattern: Pattern, handler: Handler)

  /** The handler receives, position by position, the values it declares. */
  predicate Binds(p: Pattern, h: Handler)
  {
    Arguments(p) == Params(h)
  }

  predicate WellFormed(t: seq<Row>)
  {
    forall i :: 0 <= i < |t| ==> Binds(t[i].pattern, t[i].handler)
  }

  predicate DistinctPatterns(t: seq<Row>)
  {
    forall i, j :: 0 <= i < j < |t| ==> t[i].pattern.source != t[j].pattern.source
  }

  /** Every pattern in `ps` hands `h` the values it declares. */
  predicate BindsAll(ps: seq<Pattern>, h: Handler)
  {
    forall i :: 0 <= i < |ps| ==> Binds(ps[i], h)
  }

  /** Concatenating well-formed tables gives a well-formed table. */
  lemma WellFormedAppend(a: seq<Row>, b: seq<Row>)
    requires WellFormed(a) && WellFormed(b)
    ensures WellFormed(a + b)
  {
    forall j | 0 <= j < |a + b| ensures Binds((a + b)[j].pattern, (a + b)[j].handler) {
      if j < |a| {
        assert (a + b)[j] == a[j];
      } else {
        assert (a + b)[j] == b[j - |a|];
      }
    }
  }

  /** Concatenating tables with distinct patterns, none shared between
      them, gives a table with distinct patterns. */
  lemma DistinctAppend(a: seq<Row>, b: seq<Row>)
    requires DistinctPatterns(a) && DistinctPatterns(b)
    requires forall i, j :: 0 <= i < |a| && 0 <= j < |b| ==> a[i].pattern.source != b[j].pattern.source
    ensures DistinctPatterns(a + b)
  {
    forall i, j | 0 <= i < j < |a + b| ensures (a + b)[i].pattern.source != (a + b)[j].pattern.source {
      if j < |a| {
        assert (a + b)[i] == a[i] && (a + b)[j] == a[j];
      } else if i < |a| {
        assert (a + b)[i] == a[i] && (a + b)[j] == b[j - |a|];
      } else {
        assert (a + b)[i] == b[i - |a|] && (a + b)[j] == b[j - |a|];
      }
    }
  }

  /** Every row of `t` is bound to a handler in `hs`. */
  predicate HandlersIn(t: seq<Row>, hs: set<Handler>)
  {
    forall k :: 0 <= k < |t| ==> t[k].handler in hs
  }

  lemma HandlersInAppend(a: seq<Row>, b: seq<Row>, ha: set<Handler>, hb: set<Handler>)
    requires HandlersIn(a, ha) && HandlersIn(b, hb)
    ensures HandlersIn(a + b, ha + hb)
  {
    forall k | 0 <= k < |a + b| ensures (a + b)[k].handler in ha + hb {
      if k < |a| {
        assert (a + b)[k] == a[k];
      } else {
        assert (a + b)[k] == b[k - |a|];
      }
    }
  }

  /** The rows at positions `lo <= j < hi` bind as declared. */
  predicate BindsBetween(t: seq<Row>, lo: int, hi: int)
  {
    forall j :: lo <= j < hi && 0 <= j < |t| ==> Binds(t[j].pattern, t[j].handler)
  }

  /** The rows at positions `lo <= j < hi` differ in pattern from every
      earlier row. */
  predicate DistinctBetween(t: seq<Row>, lo: int, hi: int)
  {
    forall i, j :: 0 <= i < j && lo <= j < hi && j < |t| ==> t[i].pattern.source != t[j].pattern.source
  }

  /** The handler column of a table. */
  function Handlers(t: seq<Row>): (hs: seq<Handler>)
    ensures |hs| == |t|
    ensures forall k :: 0 <= k < |t| ==> hs[k] == t[k].handler
  {
    seq(|t|, k requires 0 <= k < |t| => t[k].handler)
  }

  /** Among the positions `lo <= j < hi` of a handler column, an entry
      repeats an earlier one exactly when it is the entry just before it and
      that entry starts one of the pairs listed in `pairs`. */
  predicate PairedBetween(hs: seq<Handler>, pairs: set<int>, lo: int, hi: int)
  {
    forall i, j :: 0 <= i < j && lo <= j < hi && j < |hs| ==>
      (hs[i] == hs[j] <==> j == i + 1 && i in pairs)
  }
}
