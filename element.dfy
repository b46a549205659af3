/** The `element` helper (src/utils/element.js): resolving one element from an
    ordered list of locators.

    The browser is an oracle: `answers[i]` is what the driver said when the
    i-th finder's element was asked whether it is present. A check that
    rejects (an execution fault, not "absent") is `Fault`. */
module Element {
  import opened Common

  /** The locator strategies the library combines. */
  datatype Locator =
    | Css(query: string)
    | Name(query: string)
    | Model(query: string)
    | Binding(query: string)
    | InputLabelText(query: string)
    | ReflectedName(query: string)

  /** The outcome of one `isPresent()` check. */
  datatype Presence = Present | Absent | Fault

  /** The finders whose presence check resolved to true, in list order:
      the `filtered` list that `any` collects. */
  function Candidates(finders: seq<Locator>, answers: seq<Presence>): (c: seq<Locator>)
    requires |answers| == |finders|
    ensures |c| <= |finders|
    ensures forall x :: x in c ==> x in finders
  {
    if finders == [] then []
    else
      var n := |finders| - 1;
      Candidates(finders[..n], answers[..n]) + (if answers[n] == Present then [finders[n]] else [])
  }

  /** The position of the first present finder, or the number of finders
      when none is present. */
  function FirstPresent(answers: seq<Presence>): (k: nat)
    ensures k <= |answers|
    ensures k < |answers| ==> answers[k] == Present
    ensures forall j :: 0 <= j < k ==> answers[j] != Present
  {
    if answers == [] then 0
    else if answers[0] == Present then 0
    else 1 + FirstPresent(answers[1..])
  }

  /** What `any(...finders)` settles to: the first candidate, or the
      not-found error when there is none. */
  function Resolve(finders: seq<Locator>, answers: seq<Presence>): (r: Result<Locator>)
    requires |answers| == |finders|
    ensures r.Ok? ==> exists k :: 0 <= k < |finders| && finders[k] == r.value && answers[k] == Present
    ensures r.Err? ==> r.error == LocatorNotFoundForList
  {
    CandidatesHead(finders, answers);
    var c := Candidates(finders, answers);
    if c == [] then Err(LocatorNotFoundForList) else Ok(c[0])
  }

  /** The head of the candidate list is the earliest present finder. */
  lemma {:induction false} CandidatesHead(finders: seq<Locator>, answers: seq<Presence>)
    requires |answers| == |finders|
    ensures Candidates(finders, answers) == [] <==> FirstPresent(answers) == |answers|
    ensures Candidates(finders, answers) != [] ==>
      Candidates(finders, answers)[0] == finders[FirstPresent(answers)]
  {
    if finders != [] {
      var n := |finders| - 1;
      CandidatesHead(finders[..n], answers[..n]);
      var k := FirstPresent(answers[..n]);
      var m := FirstPresent(answers);
      if k < n {
        assert answers[k] == answers[..n][k];
        assert forall j :: 0 <= j < k ==> answers[j] == answers[..n][j];
        assert m == k;
      } else {
        assert forall j :: 0 <= j < n ==> answers[j] == answers[..n][j];
        assert m == n || m == n + 1;
      }
    }
  }

  /** `any` returns the element of the earliest finder whose presence check
      resolved to true, and fails with NOT_FOUND_FOR_LIST exactly when no
      check did (an empty finder list included). */
  lemma ResolveIsFirstPresent(finders: seq<Locator>, answers: seq<Presence>)
    requires |answers| == |finders|
    ensures Resolve(finders, answers) ==
      if FirstPresent(answers) == |answers| then Err(LocatorNotFoundForList)
      else Ok(finders[FirstPresent(answers)])
  {
    CandidatesHead(finders, answers);
  }

  /** A fault read as "absent": the answers with every rejection replaced. */
  function AbsorbFaults(answers: seq<Presence>): (a: seq<Presence>)
    ensures |a| == |answers|
    ensures forall i :: 0 <= i < |a| ==> a[i] != Fault
    ensures forall i :: 0 <= i < |a| ==> (a[i] == Present) == (answers[i] == Present)
  {
    seq(|answers|, i requires 0 <= i < |answers| => if answers[i] == Fault then Absent else answers[i])
  }

  /** A rejected presence check neither aborts the remaining checks nor
      counts as a hit: it has exactly the effect of an absent element. */
  lemma {:induction false} FaultsAreAbsences(finders: seq<Locator>, answers: seq<Presence>)
    requires |answers| == |finders|
    ensures Candidates(finders, answers) == Candidates(finders, AbsorbFaults(answers))
  {
    if finders != [] {
      var n := |finders| - 1;
      assert AbsorbFaults(answers)[..n] == AbsorbFaults(answers[..n]);
      FaultsAreAbsences(finders[..n], answers[..n]);
    }
  }

  /** `any(...finders)`: every finder is checked once, in list order, with no
      short-circuit after a hit; `checked` is the sequence of checks issued. */
  method Any(finders: seq<Locator>, answers: seq<Presence>) returns (r: Result<Locator>, checked: seq<Locator>)
    requires |answers| == |finders|
    ensures checked == finders
    ensures r == Resolve(finders, answers)
  {
    var filtered: seq<Locator> := [];
    checked := [];
    var i := 0;
    while i < |finders|
      invariant 0 <= i <= |finders|
      invariant checked == finders[..i]
      invariant filtered == Candidates(finders[..i], answers[..i])
      invariant |filtered| <= i
    {
      checked := checked + [finders[i]];
      // Absent and Fault alike leave `filtered` as it is: a rejected check
      // is logged and otherwise ignored
      if answers[i] == Present {
        filtered := filtered + [finders[i]];
      }
      assert finders[..i + 1][..i] == finders[..i];
      assert answers[..i + 1][..i] == answers[..i];
      i := i + 1;
    }
    assert finders[..i] == finders && answers[..i] == answers;
    if |filtered| == 0 {
      r := Err(LocatorNotFoundForList);
    } else {
      r := Ok(filtered[0]);
    }
  }

  /** The fixed finder order `input` uses for form fields. */
  function InputFinders(selector: string): seq<Locator>
  {
    [Css(selector), Name(selector), Model(selector), Binding(selector),
     InputLabelText(selector), ReflectedName(selector)]
  }

  /** `input(selector)`: `any` over the six form-field finders. */
  method Input(selector: string, answers: seq<Presence>) returns (r: Result<Locator>)
    requires |answers| == 6
    ensures r == Resolve(InputFinders(selector), answers)
  {
    var checked;
    r, checked := Any(InputFinders(selector), answers);
  }

  /** `input` picks the k-th strategy (css, name, model, binding, label
      text, reflected name) exactly when it is the first present one; so a
      name match beats a label-text match, and reflected name is the last
      resort. */
  lemma InputPicksFirstPresent(selector: string, answers: seq<Presence>, k: nat)
    requires |answers| == 6 && k < 6
    ensures Resolve(InputFinders(selector), answers) == Ok(InputFinders(selector)[k]) <==>
      answers[k] == Present && forall j :: 0 <= j < k ==> answers[j] != Present
  {
    var fs := InputFinders(selector);
    ResolveIsFirstPresent(fs, answers);
    var m := FirstPresent(answers);
    if m < 6 && fs[m] == fs[k] {
      assert m == k;
    }
  }

  /** `input` fails with NOT_FOUND_FOR_LIST exactly when none of the six
      strategies finds a present element. */
  lemma InputNotFound(selector: string, answers: seq<Presence>)
    requires |answers| == 6
    ensures Resolve(InputFinders(selector), answers) == Err(LocatorNotFoundForList) <==>
      forall j :: 0 <= j < 6 ==> answers[j] != Present
  {
    ResolveIsFirstPresent(InputFinders(selector), answers);
  }
}
