/** The form steps (src/step-definitions/form.js): filling fields one at a
    time or from a data table, the check/uncheck decision, and the exported
    table. A field is located with `input`, whose presence answers are
    given per field. */
module Form {
  import opened Common
  import opened Element
  import Steps

  /** The exported table: `fill field` is reached by an inline value and by
      a trailing doc string; every other handler by one pattern. */
  function Table(): (t: seq<Steps.Row>)
    ensures |t| == 6
  {
    [ Steps.Row(Steps.Pattern("^(?:|I )fill in \"([^\"]*)\" with \"([^\"]*)\"", [Steps.Selector, Steps.Value], None), Steps.FillField),
      Steps.Row(Steps.Pattern("^(?:|I )fill in \"([^\"]*)\" with:", [Steps.Selector], Some(Steps.Value)), Steps.FillField),
      Steps.Row(Steps.Pattern("^(?:|I )fill in the following:", [], Some(Steps.DataTable)), Steps.FillMultiple),
      Steps.Row(Steps.Pattern("^(?:|I )select \"([^\"]*)\" from \"([^\"]*)\"", [Steps.OptionText, Steps.Selector], None), Steps.ChooseInSelect),
      Steps.Row(Steps.Pattern("^(?:|I )check \"([^\"]*)\"", [Steps.Selector], None), Steps.Check),
      Steps.Row(Steps.Pattern("^(?:|I )uncheck \"([^\"]*)\"", [Steps.Selector], None), Steps.Uncheck) ]
  }

  /** Each pattern hands its handler the values it declares (the doc-string
      form of `fill field` brings the value as its trailing block). */
  lemma TableWellFormed()
    ensures Steps.WellFormed(Table())
  {
    BindsRows0To3();
    BindsRows3To6();
  }

  lemma BindsRows0To3() ensures Steps.BindsBetween(Table(), 0, 3) {}
  lemma BindsRows3To6() ensures Steps.BindsBetween(Table(), 3, 6) {}

  /** No pattern appears twice. */
  lemma TableDistinct()
    ensures Steps.DistinctPatterns(Table())
  {
  }

  /** Rows 0 and 1 are the only ones sharing a handler, `fill field`. */
  lemma TableHandlers()
    ensures Table()[0].handler == Steps.FillField
    ensures Steps.PairedBetween(Steps.Handlers(Table()), {0}, 0, |Table()|)
  {
  }

  /** `checkInput(targetState)`, the body of `check` (target true) and
      `uncheck` (target false): nothing is done when the box's checked
      state already agrees with the target, otherwise the box is clicked
      once. */
  function ShouldClick(isChecked: bool, targetState: bool): (click: bool)
    ensures click <==> isChecked != targetState
  {
    !((isChecked && targetState) || (!isChecked && !targetState))
  }

  /** The checked state after the step, a click toggling the box. */
  function CheckedAfter(isChecked: bool, targetState: bool): (after: bool)
    ensures after == targetState
  {
    if ShouldClick(isChecked, targetState) then !isChecked else isChecked
  }

  /** Checking (or unchecking) twice does what doing it once does: the
      second time nothing is clicked. */
  lemma CheckInputIdempotent(isChecked: bool, targetState: bool)
    ensures !ShouldClick(CheckedAfter(isChecked, targetState), targetState)
    ensures CheckedAfter(CheckedAfter(isChecked, targetState), targetState) == CheckedAfter(isChecked, targetState)
  {
  }

  /** A `sendKeys` call: the field it goes to and the text sent. */
  datatype Keys = Keys(field: Locator, text: string)

  /** `fill field`: the field is located with `input` and sent the value. */
  function FillField(selector: string, value: string, answers: seq<Presence>): (r: Result<Keys>)
    requires |answers| == 6
    ensures r.Ok? <==> Resolve(InputFinders(selector), answers).Ok?
    ensures r.Ok? ==> r.value == Keys(Resolve(InputFinders(selector), answers).value, value)
    ensures r.Err? ==> r.error == LocatorNotFoundForList
  {
    match Resolve(InputFinders(selector), answers)
    case Err(e) => Err(e)
    case Ok(field) => Ok(Keys(field, value))
  }

  /** The data table `fill multiple` receives, as rows of cells, with the
      presence answers for each row's field. */
  predicate TableInput(rows: seq<seq<string>>, answers: seq<seq<Presence>>)
  {
    |answers| == |rows| && forall i :: 0 <= i < |rows| ==> |rows[i]| >= 2 && |answers[i]| == 6
  }

  /** What `fill multiple` returns and the keys it sent, in order. */
  datatype Fill = Fill(result: Result<()>, sent: seq<Keys>)

  /** `fill multiple`: row by row, cell 0 names the field and cell 1 is the
      text; each row is `fill field`, and the first row whose field is not
      found ends the iteration with that error. */
  function FillRows(rows: seq<seq<string>>, answers: seq<seq<Presence>>): (f: Fill)
    requires TableInput(rows, answers)
    ensures |f.sent| <= |rows|
    ensures f.result.Ok? ==> |f.sent| == |rows|
  {
    if rows == [] then Fill(Ok(()), [])
    else
      match FillField(rows[0][0], rows[0][1], answers[0])
      case Err(e) => Fill(Err(e), [])
      case Ok(keys) =>
        var rest := FillRows(rows[1..], answers[1..]);
        Fill(rest.result, [keys] + rest.sent)
  }

  /** The keys are sent once per row, in row order, each exactly what
      `fill field` sends for that row; an error is that of the first row
      whose field is not found, and no later row is reached. */
  lemma {:induction false} FillRowsSent(rows: seq<seq<string>>, answers: seq<seq<Presence>>)
    requires TableInput(rows, answers)
    ensures var f := FillRows(rows, answers);
      forall i :: 0 <= i < |f.sent| ==> FillField(rows[i][0], rows[i][1], answers[i]) == Ok(f.sent[i])
    ensures var f := FillRows(rows, answers);
      f.result.Err? ==>
        |f.sent| < |rows| && FillField(rows[|f.sent|][0], rows[|f.sent|][1], answers[|f.sent|]) == Err(f.result.error)
  {
    if rows != [] && FillField(rows[0][0], rows[0][1], answers[0]).Ok? {
      var tail, tailAnswers := rows[1..], answers[1..];
      assert TableInput(tail, tailAnswers) by {
        forall i | 0 <= i < |tail| ensures |tail[i]| >= 2 && |tailAnswers[i]| == 6 {
          assert tail[i] == rows[i + 1] && tailAnswers[i] == answers[i + 1];
        }
      }
      FillRowsSent(tail, tailAnswers);
      var f := FillRows(rows, answers);
      var rest := FillRows(tail, tailAnswers);
      assert f.sent == [FillField(rows[0][0], rows[0][1], answers[0]).value] + rest.sent;
      forall i | 1 <= i < |f.sent|
        ensures FillField(rows[i][0], rows[i][1], answers[i]) == Ok(f.sent[i])
      {
        assert f.sent[i] == rest.sent[i - 1] && rows[i] == tail[i - 1] && answers[i] == tailAnswers[i - 1];
      }
      if f.result.Err? {
        var k := |f.sent|;
        assert rows[k] == tail[k - 1] && answers[k] == tailAnswers[k - 1];
      }
    }
  }

  /** `fill multiple` succeeds exactly when every row's field is found. */
  lemma FillRowsOkIff(rows: seq<seq<string>>, answers: seq<seq<Presence>>)
    requires TableInput(rows, answers)
    ensures FillRows(rows, answers).result.Ok? <==>
      forall i :: 0 <= i < |rows| ==> FillField(rows[i][0], rows[i][1], answers[i]).Ok?
  {
    FillRowsSent(rows, answers);
  }

  /** `fill multiple` as the iteration the source performs. */
  method FillMultiple(rows: seq<seq<string>>, answers: seq<seq<Presence>>) returns (r: Result<()>, sent: seq<Keys>)
    requires TableInput(rows, answers)
    ensures Fill(r, sent) == FillRows(rows, answers)
  {
    sent := [];
    var i := 0;
    while i < |rows|
      invariant 0 <= i <= |rows|
      invariant TableInput(rows[i..], answers[i..])
      invariant FillRows(rows, answers) ==
        Fill(FillRows(rows[i..], answers[i..]).result, sent + FillRows(rows[i..], answers[i..]).sent)
    {
      var field := Input(rows[i][0], answers[i]);
      if field.Err? {
        return Err(field.error), sent;
      }
      assert rows[i..][1..] == rows[i + 1..] && answers[i..][1..] == answers[i + 1..];
      assert rows[i..][0] == rows[i] && answers[i..][0] == answers[i];
      var rest := FillRows(rows[i + 1..], answers[i + 1..]);
      assert FillRows(rows[i..], answers[i..]) == Fill(rest.result, [Keys(field.value, rows[i][1])] + rest.sent);
      sent := sent + [Keys(field.value, rows[i][1])];
      i := i + 1;
    }
    r := Ok(());
  }
}
