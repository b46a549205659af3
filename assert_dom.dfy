/** The page-content assertions (src/step-definitions/assert-dom.js): the
    exported table, where several phrasings share one handler, and the wait
    bound of the visibility and existence checks. */
module AssertDom {
  import opened Common
  import opened Steps

  /** The handlers bound to two phrasings each. */
  const TwoPhrasings: set<Handler> :=
    {ElementContains, ElementNotContains, ElementVisible, ElementNotVisible, ElementExists, ElementNotExists}

  /** The handlers bound to one phrasing. */
  const OnePhrasing: set<Handler> :=
    {HtmlContains, HtmlNotContains, HtmlMatch, HtmlNotMatch, HtmlElementCount}

  /** The exported table: 17 rows over 11 handlers. */
  function Table(): (t: seq<Row>)
    ensures |t| == 17
  {
    [ Row(Pattern("^(?:|I )should see \"([^\"]*)\"$", [Text], None), HtmlContains),
      Row(Pattern("^(?:|I )should not see \"([^\"]*)\"$", [Text], None), HtmlNotContains),
      Row(Pattern("^(?:|I )should see text matching (.+)$", [Regex], None), HtmlMatch),
      Row(Pattern("^(?:|I )should not see text matching (.+)$", [Regex], None), HtmlNotMatch),
      Row(Pattern("^(?:|I )should see (\\d+) \"([^\"]*)\" elements?$", [Count, Selector], None), HtmlElementCount),
      Row(Pattern("^(?:|I )should see \"([^\"]*)\" in the \"([^\"]*)\" element$", [Text, Selector], None), ElementContains),
      Row(Pattern("^(?:|I )should see \"([^\"]*)\" in the \"([^\"]*)\" element text$", [Text, Selector], None), ElementContains),
      Row(Pattern("^(?:|I )should not see \"([^\"]*)\" in the \"([^\"]*)\" element$", [Text, Selector], None), ElementNotContains),
      Row(Pattern("^(?:|I )should not see \"([^\"]*)\" in the \"([^\"]*)\" element text$", [Text, Selector], None), ElementNotContains),
      Row(Pattern("^(?:|I )should see an? \"([^\"]*)\" element$", [Selector], None), ElementVisible),
      Row(Pattern("the \"([^\"]*)\" element should be visible$", [Selector], None), ElementVisible),
      Row(Pattern("^(?:|I )should not see an? \"([^\"]*)\" element$", [Selector], None), ElementNotVisible),
      Row(Pattern("the \"([^\"]*)\" element should not be visible$", [Selector], None), ElementNotVisible),
      Row(Pattern("the \"([^\"]*)\" element should exist$", [Selector], None), ElementExists),
      Row(Pattern("there should be an? \"([^\"]*)\" element$", [Selector], None), ElementExists),
      Row(Pattern("the \"([^\"]*)\" element should not exist$", [Selector], None), ElementNotExists),
      Row(Pattern("there should not be an? \"([^\"]*)\" element$", [Selector], None), ElementNotExists) ]
  }

  /** Every pattern hands its handler the values the handler declares, in
      declaration order; `html element count` gets the count, then the
      selector. */
  lemma TableWellFormed()
    ensures WellFormed(Table())
  {
    BindsRows0To9();
    BindsRows9To17();
  }

  lemma BindsRows0To9() ensures BindsBetween(Table(), 0, 9) {}
  lemma BindsRows9To17() ensures BindsBetween(Table(), 9, 17) {}

  /** No pattern appears twice in the table. */
  lemma TableDistinct()
    ensures DistinctPatterns(Table())
  {
    DistinctRows0To7();
    DistinctRows7To11();
    DistinctRows11To14();
    DistinctRows14To17();
  }

  lemma DistinctRows0To7() ensures DistinctBetween(Table(), 0, 7) {}
  lemma DistinctRows7To11() ensures DistinctBetween(Table(), 7, 11) {}
  lemma DistinctRows11To14() ensures DistinctBetween(Table(), 11, 14) {}
  lemma DistinctRows14To17() ensures DistinctBetween(Table(), 14, 17) {}

  /** The handler column of the table, row by row. */
  const Column: seq<Handler> :=
    [ HtmlContains, HtmlNotContains, HtmlMatch, HtmlNotMatch, HtmlElementCount,
      ElementContains, ElementContains, ElementNotContains, ElementNotContains,
      ElementVisible, ElementVisible, ElementNotVisible, ElementNotVisible,
      ElementExists, ElementExists, ElementNotExists, ElementNotExists ]

  lemma TableColumn()
    ensures Handlers(Table()) == Column
  {
  }

  /** The rows that start a pair of phrasings sharing one handler. */
  const PairStarts: set<int> := {5, 7, 9, 11, 13, 15}

  /** Phrasings share a handler only in adjacent pairs: rows 5 and 6,
      7 and 8, up to 15 and 16; every other row has a handler no other row
      has. */
  lemma SharedHandlers()
    ensures PairedBetween(Handlers(Table()), PairStarts, 0, |Table()|)
  {
    TableColumn();
    ColumnPaired0To9();
    ColumnPaired9To13();
    ColumnPaired13To17();
  }

  lemma ColumnPaired0To9() ensures PairedBetween(Column, PairStarts, 0, 9) {}
  lemma ColumnPaired9To13() ensures PairedBetween(Column, PairStarts, 9, 13) {}
  lemma ColumnPaired13To17() ensures PairedBetween(Column, PairStarts, 13, 17) {}

  /** Every row is bound to one of the eleven handlers of this module; the
      paired rows, and only they, to the two-phrasing ones. */
  lemma TableHandlers()
    ensures HandlersIn(Table(), OnePhrasing + TwoPhrasings)
    ensures forall k :: 0 <= k < |Table()| ==>
      (Table()[k].handler in TwoPhrasings <==> k in PairStarts || k - 1 in PairStarts)
  {
    TableColumn();
    ColumnGroups();
  }

  /** Each of the eleven handlers is bound to some row. */
  lemma EveryHandlerBound()
    ensures |OnePhrasing + TwoPhrasings| == 11
    ensures forall h :: h in OnePhrasing + TwoPhrasings ==> h in Handlers(Table())
  {
    TableColumn();
  }

  lemma ColumnGroups()
    ensures forall k :: 0 <= k < |Column| ==> (Column[k] in TwoPhrasings <==> k in PairStarts || k - 1 in PairStarts)
    ensures forall k :: 0 <= k < |Column| ==> Column[k] in OnePhrasing + TwoPhrasings
  {
  }

  /** How long a handler waits for its expected condition, when it waits. */
  function WaitBound(h: Handler): (w: Option<nat>)
    ensures w.Some? <==> h in {ElementVisible, ElementNotVisible, ElementExists, ElementNotExists}
    ensures w.Some? ==> w.value == 100
  {
    if h in {ElementVisible, ElementNotVisible, ElementExists, ElementNotExists} then Some(100) else None
  }

  /** Of this module's handlers, exactly those taking nothing but a selector
      wait for their condition, and each of them for 100 ms. */
  lemma WaitingHandlers()
    ensures forall h :: h in OnePhrasing + TwoPhrasings ==>
      WaitBound(h) == if Params(h) == [Selector] then Some(100) else None
  {
  }
}
