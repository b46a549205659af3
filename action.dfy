/** The action steps (src/step-definitions/action.js): the exported table
    and the tag-name guard of `submit`. */
module Action {
  import opened Common
  import opened Steps

  /** The handlers of this module. */
  const HandlerSet: set<Handler> := {Click, Press, Follow, Hover, Submit, SendKey}

  /** The exported table: one pattern per handler. */
  function Table(): (t: seq<Row>)
    ensures |t| == 6
  {
    [ Row(Pattern("^(?:|I )click on \"([^\"]*)\"", [Selector], None), Click),
      Row(Pattern("^(?:|I )press \"([^\"]*)\"", [Selector], None), Press),
      Row(Pattern("^(?:|I )follow \"([^\"]*)\"", [Selector], None), Follow),
      Row(Pattern("^(?:|I )hover \"([^\"]*)\" element", [Selector], None), Hover),
      Row(Pattern("^(?:|I )submit \"([^\"]*)\" form", [Selector], None), Submit),
      Row(Pattern("^(?:|I )send key \"([^\"]*)\" in \"([^\"]*)\" element", [Key, Selector], None), SendKey) ]
  }

  /** Every pattern hands its handler the values it declares; `send key`
      gets the key, then the selector. */
  lemma TableWellFormed()
    ensures WellFormed(Table())
  {
    BindsRows0To3();
    BindsRows3To6();
  }

  lemma BindsRows0To3() ensures BindsBetween(Table(), 0, 3) {}
  lemma BindsRows3To6() ensures BindsBetween(Table(), 3, 6) {}

  /** No pattern appears twice. */
  lemma TableDistinct()
    ensures DistinctPatterns(Table())
  {
  }

  /** Each handler of this module is bound to exactly one row. */
  lemma TableHandlers()
    ensures HandlersIn(Table(), HandlerSet)
    ensures forall i, j :: 0 <= i < j < |Table()| ==> Table()[i].handler != Table()[j].handler
    ensures forall h :: h in HandlerSet ==> h in Steps.Handlers(Table())
  {
    assert Steps.Handlers(Table()) == [Click, Press, Follow, Hover, Submit, SendKey];
  }

  /** `submit`: the first matched element is submitted only when its tag
      name is exactly `form`; otherwise ACTION.SUBMIT_FORM is thrown and
      nothing is submitted. */
  function SubmitGuard(tagName: string): (r: Result<()>)
    ensures r.Ok? <==> tagName == "form"
    ensures r.Err? ==> r.error == ActionSubmitForm
  {
    if "form" != tagName then Err(ActionSubmitForm) else Ok(())
  }

  /** The comparison is case-sensitive: an upper-case tag name is refused. */
  lemma SubmitRefusesUpperCase()
    ensures SubmitGuard("FORM") == Err(ActionSubmitForm)
  {
  }
}
