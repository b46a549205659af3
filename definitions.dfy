/** The table the library exports (src/step-definitions/index.js): the
    action rows followed by the page-content assertion rows. The other step
    modules are imported in comments only and contribute nothing. */
module Definitions {
  import opened Steps
  import Action
  import AssertDom

  function Table(): (t: seq<Row>)
    ensures |t| == |Action.Table()| + |AssertDom.Table()| == 23
  {
    Action.Table() + AssertDom.Table()
  }

  /** The rows of each module appear unchanged and in their own order: row
      `k` of the action table is row `k`, row `k` of the assert-dom table
      is row `6 + k`. */
  lemma TableOrder()
    ensures forall k :: 0 <= k < |Action.Table()| ==> Table()[k] == Action.Table()[k]
    ensures forall k :: 0 <= k < |AssertDom.Table()| ==> Table()[|Action.Table()| + k] == AssertDom.Table()[k]
  {
  }

  /** Every exported pattern hands its handler the values it declares. */
  lemma TableWellFormed()
    ensures WellFormed(Table())
  {
    Action.TableWellFormed();
    AssertDom.TableWellFormed();
    WellFormedAppend(Action.Table(), AssertDom.Table());
  }

  /** No pattern is exported twice: within each module the patterns are
      distinct, and no action pattern is also a page-content pattern. */
  lemma TableDistinct()
    ensures DistinctPatterns(Table())
  {
    Action.TableDistinct();
    AssertDom.TableDistinct();
    forall i | 0 <= i < |Action.Table()|
      ensures forall j :: 0 <= j < |AssertDom.Table()| ==> Action.Table()[i].pattern.source != AssertDom.Table()[j].pattern.source
    {
      ActionRowNotInAssertDom(i);
    }
    DistinctAppend(Action.Table(), AssertDom.Table());
  }

  lemma ActionRowNotInAssertDom(i: nat)
    requires i < |Action.Table()|
    ensures forall j :: 0 <= j < |AssertDom.Table()| ==> Action.Table()[i].pattern.source != AssertDom.Table()[j].pattern.source
  {
  }

  /** The handlers a step phrase can reach: those of the action and
      assert-dom modules. */
  const Exported: set<Handler> := Action.HandlerSet + AssertDom.OnePhrasing + AssertDom.TwoPhrasings

  /** Only action and assert-dom handlers are exported: no form, navigation
      or URL-assertion handler is reachable from a step phrase. */
  lemma TableHandlers()
    ensures HandlersIn(Table(), Exported)
  {
    Action.TableHandlers();
    AssertDom.TableHandlers();
    HandlersInAppend(Action.Table(), AssertDom.Table(), Action.HandlerSet, AssertDom.OnePhrasing + AssertDom.TwoPhrasings);
  }

  lemma ExportedHandlers()
    ensures Exported !! {FillField, FillMultiple, ChooseInSelect, Check, Uncheck,
                         BaseUrl, Homepage, Browse, Reload, Back,
                         OnHomepage, UrlIs, UrlMatch, UrlQueryMatch}
  {
  }
}
