/** The two custom locators (src/utils/by.js). Both run inside the browser
    against the document; here a page is given by its label records, its
    elements with their `ng-reflect-name` attribute, and the document-wide
    map from `id` to element that `document.getElementById` consults. */
module By {
  import opened Common
  import opened Strings
  import Element

  /** An element of the page. */
  type Node = nat

  /** A `<label>`: its `textContent`, its `innerText` (undefined outside
      HTML documents) and its `for` attribute (null when absent). */
  datatype Label = Label(textContent: string, innerText: Option<string>, forAttr: Option<string>)

  /** An element in scope together with its `ng-reflect-name` attribute. */
  datatype Reflected = Reflected(node: Node, reflectedName: Option<string>)

  /** `textContent || innerText || ''`. */
  function LabelText(l: Label): (t: string)
    ensures t == "" <==> l.textContent == "" && (l.innerText.None? || l.innerText.value == "")
    ensures t != "" ==> t == l.textContent || (l.textContent == "" && l.innerText.Some? && t == l.innerText.value)
  {
    if l.textContent != "" then l.textContent
    else if l.innerText.Some? then l.innerText.value
    else ""
  }

  /** The first pass: the labels whose text contains the query, in document
      order. */
  function MatchingLabels(labels: seq<Label>, query: string): (m: seq<Label>)
    ensures |m| <= |labels|
  {
    if labels == [] then []
    else
      var n := |labels| - 1;
      MatchingLabels(labels[..n], query)
        + (if Contains(LabelText(labels[n]), query) then [labels[n]] else [])
  }

  /** The element a label points at: its truthy `for` id looked up in the
      whole document. */
  function Target(l: Label, document: map<string, Node>): (t: Option<Node>)
    ensures t.Some? <==> Truthy(l.forAttr) && l.forAttr.value in document
    ensures t.Some? ==> t.value == document[l.forAttr.value]
  {
    if Truthy(l.forAttr) && l.forAttr.value in document then Some(document[l.forAttr.value])
    else None
  }

  /** The second pass: one element per matching label that has a target, in
      label order, without deduplication. */
  function LabelTargets(matches: seq<Label>, document: map<string, Node>): (inputs: seq<Node>)
    ensures |inputs| <= |matches|
  {
    if matches == [] then []
    else
      var n := |matches| - 1;
      var t := Target(matches[n], document);
      LabelTargets(matches[..n], document) + (if t.Some? then [t.value] else [])
  }

  /** `by.inputLabelText(query)` evaluated with the labels of the parent
      scope; the `for` ids are looked up in the whole document. */
  method InputLabelText(query: string, scope: seq<Label>, document: map<string, Node>)
    returns (inputs: seq<Node>)
    ensures inputs == LabelTargets(MatchingLabels(scope, query), document)
    ensures |inputs| <= |MatchingLabels(scope, query)| <= |scope|
  {
    var matches: seq<Label> := [];
    var i := 0;
    while i < |scope|
      invariant 0 <= i <= |scope|
      invariant matches == MatchingLabels(scope[..i], query)
    {
      var text := LabelText(scope[i]);
      assert scope[..i + 1][..i] == scope[..i];
      if IndexOf(text, query) != -1 {
        matches := matches + [scope[i]];
      }
      i := i + 1;
    }
    assert scope[..i] == scope;

    inputs := [];
    var j := 0;
    while j < |matches|
      invariant 0 <= j <= |matches|
      invariant inputs == LabelTargets(matches[..j], document)
    {
      var lbl := matches[j];
      if lbl.forAttr.Some? && lbl.forAttr.value != "" {
        var forId := lbl.forAttr.value;
        if forId in document {
          inputs := inputs + [document[forId]];
        }
      }
      assert matches[..j + 1][..j] == matches[..j];
      j := j + 1;
    }
    assert matches[..j] == matches;
  }

  /** A label of the scope is kept by the first pass exactly when its text
      contains the query. */
  lemma {:induction false} MatchingLabelsIff(labels: seq<Label>, query: string, l: Label)
    requires l in labels
    ensures l in MatchingLabels(labels, query) <==> Contains(LabelText(l), query)
  {
    var n := |labels| - 1;
    var prefix := labels[..n];
    var tail := if Contains(LabelText(labels[n]), query) then [labels[n]] else [];
    assert MatchingLabels(labels, query) == MatchingLabels(prefix, query) + tail;
    if l == labels[n] {
      if l in MatchingLabels(prefix, query) {
        MatchingLabelsSound(prefix, query, l);
      }
    } else {
      assert l in prefix by {
        var k :| 0 <= k < |labels| && labels[k] == l;
        assert k < n && prefix[k] == l;
      }
      MatchingLabelsIff(prefix, query, l);
    }
  }

  /** The first pass keeps only labels of the scope. */
  lemma {:induction false} MatchingLabelsSound(labels: seq<Label>, query: string, l: Label)
    requires l in MatchingLabels(labels, query)
    ensures l in labels && Contains(LabelText(l), query)
  {
    var n := |labels| - 1;
    if l in MatchingLabels(labels[..n], query) {
      MatchingLabelsSound(labels[..n], query, l);
      var k :| 0 <= k < n && labels[..n][k] == l;
      assert labels[k] == l;
    } else {
      assert l == labels[n];
    }
  }

  /** The first pass works label by label: the matches of a longer label
      list follow those of its prefix, each kept label once, in document
      order. */
  lemma {:induction false} MatchingLabelsAppend(a: seq<Label>, b: seq<Label>, query: string)
    ensures MatchingLabels(a + b, query) == MatchingLabels(a, query) + MatchingLabels(b, query)
    decreases |b|
  {
    if b != [] {
      var n := |b| - 1;
      assert (a + b)[..|a| + n] == a + b[..n];
      assert (a + b)[|a| + n] == b[n];
      MatchingLabelsAppend(a, b[..n], query);
      var tail := if Contains(LabelText(b[n]), query) then [b[n]] else [];
      assert MatchingLabels(a + b, query) == MatchingLabels(a + b[..n], query) + tail;
      assert MatchingLabels(b, query) == MatchingLabels(b[..n], query) + tail;
    } else {
      assert a + b == a;
    }
  }

  /** The empty query keeps every label, since `indexOf('')` is 0. */
  lemma {:induction false} EmptyQueryMatchesAll(labels: seq<Label>)
    ensures MatchingLabels(labels, "") == labels
  {
    if labels != [] {
      var n := |labels| - 1;
      IndexOfEmpty(LabelText(labels[n]));
      EmptyQueryMatchesAll(labels[..n]);
      assert labels[..n] + [labels[n]] == labels;
    }
  }

  /** The second pass works label by label: the elements of a longer label
      list follow those of its prefix, so results keep document order. */
  lemma {:induction false} LabelTargetsAppend(a: seq<Label>, b: seq<Label>, document: map<string, Node>)
    ensures LabelTargets(a + b, document) == LabelTargets(a, document) + LabelTargets(b, document)
    decreases |b|
  {
    if b != [] {
      var n := |b| - 1;
      assert (a + b)[..|a| + n] == a + b[..n];
      assert (a + b)[|a| + n] == b[n];
      LabelTargetsAppend(a, b[..n], document);
      var t := Target(b[n], document);
      var tail := if t.Some? then [t.value] else [];
      assert LabelTargets(a + b, document) == LabelTargets(a + b[..n], document) + tail;
      assert LabelTargets(b, document) == LabelTargets(b[..n], document) + tail;
    } else {
      assert a + b == a;
    }
  }

  /** Every element found is the target of one of the given labels. */
  lemma {:induction false} LabelTargetsFromLabels(matches: seq<Label>, document: map<string, Node>, x: Node)
    requires x in LabelTargets(matches, document)
    ensures exists l :: l in matches && Target(l, document) == Some(x)
  {
    var n := |matches| - 1;
    var t := Target(matches[n], document);
    if t == Some(x) {
      assert matches[n] in matches;
    } else {
      LabelTargetsFromLabels(matches[..n], document, x);
      var l :| l in matches[..n] && Target(l, document) == Some(x);
      assert l in matches;
    }
  }

  /** A label without a truthy `for`, or whose id names no element,
      contributes nothing; one that has a target contributes exactly it. */
  lemma LabelTargetsSingle(l: Label, document: map<string, Node>)
    ensures LabelTargets([l], document) ==
      if Truthy(l.forAttr) && l.forAttr.value in document then [document[l.forAttr.value]] else []
  {
    assert [l][..0] == [];
  }

  /** No deduplication: two labels for the same id yield that element twice. */
  lemma TwoLabelsOneTarget(query: string, id: string, node: Node)
    requires id != ""
    ensures InputLabelTextResult(query, [Label(query, None, Some(id)), Label(query, None, Some(id))], map[id := node])
      == [node, node]
  {
    var l := Label(query, None, Some(id));
    var doc := map[id := node];
    assert LabelText(l) == query;
    assert OccursAt(query, query, 0);
    assert Contains(LabelText(l), query);
    assert [l, l][..1] == [l] && [l][..0] == [];
    assert MatchingLabels([l], query) == [l];
    assert MatchingLabels([l, l], query) == [l, l];
    assert Target(l, doc) == Some(node);
    assert LabelTargets([l], doc) == [node];
    assert LabelTargets([l, l], doc) == [node, node];
  }

  /** The value `InputLabelText` computes, for lemmas to talk about. */
  function InputLabelTextResult(query: string, scope: seq<Label>, document: map<string, Node>): seq<Node>
  {
    LabelTargets(MatchingLabels(scope, query), document)
  }

  /** `by.reflectedName(query)`: the in-scope elements whose `ng-reflect-name`
      equals the query, in document order. The query is spliced into the
      selector `[ng-reflect-name="<query>"]` unescaped. This model takes a
      query holding a double quote or a line break as a malformed selector
      that throws; selector injection is not modelled. */
  function ReflectedName(query: string, scope: seq<Reflected>): (r: Result<seq<Node>>)
    ensures r.Err? <==> ('"' in query || '\n' in query)
    ensures r.Err? ==> r.error == SelectorSyntax
    ensures r.Ok? ==> |r.value| <= |scope|
    ensures r.Ok? ==> forall e :: e in scope && e.reflectedName == Some(query) ==> e.node in r.value
    ensures r.Ok? ==> forall x :: x in r.value ==> exists e :: e in scope && e.node == x && e.reflectedName == Some(query)
  {
    if '"' in query || '\n' in query then Err(SelectorSyntax)
    else Ok(ReflectedMatches(scope, query))
  }

  /** The elements of `scope` whose reflected name is `query`. */
  function ReflectedMatches(scope: seq<Reflected>, query: string): (m: seq<Node>)
    ensures |m| <= |scope|
    ensures forall e :: e in scope && e.reflectedName == Some(query) ==> e.node in m
    ensures forall x :: x in m ==> exists e :: e in scope && e.node == x && e.reflectedName == Some(query)
  {
    if scope == [] then []
    else
      var rest := ReflectedMatches(scope[1..], query);
      assert forall e :: e in scope[1..] ==> e in scope;
      if scope[0].reflectedName == Some(query) then [scope[0].node] + rest else rest
  }

  /** The attribute filter works element by element: the matches of a
      longer scope follow those of its prefix, so results keep document
      order and every matching element appears once per occurrence. */
  lemma {:induction false} ReflectedMatchesAppend(a: seq<Reflected>, b: seq<Reflected>, query: string)
    ensures ReflectedMatches(a + b, query) == ReflectedMatches(a, query) + ReflectedMatches(b, query)
    decreases |a|
  {
    if a == [] {
      assert a + b == b;
    } else {
      assert (a + b)[0] == a[0];
      assert (a + b)[1..] == a[1..] + b;
      ReflectedMatchesAppend(a[1..], b, query);
    }
  }

  /** How a locator's result reaches `any`: a throw rejects the presence
      check, an empty result is absent, anything else is present. */
  function PresenceOf(found: Result<seq<Node>>): (p: Element.Presence)
    ensures p == Element.Fault <==> found.Err?
    ensures p == Element.Present <==> found.Ok? && found.value != []
  {
    if found.Err? then Element.Fault
    else if found.value == [] then Element.Absent
    else Element.Present
  }

  /** What `any` hears from the reflected-name finder: a fault exactly when
      the query breaks the selector, presence exactly when some element in
      scope carries that reflected name. */
  lemma ReflectedNamePresence(query: string, scope: seq<Reflected>)
    ensures PresenceOf(ReflectedName(query, scope)) == Element.Fault <==> ('"' in query || '\n' in query)
    ensures PresenceOf(ReflectedName(query, scope)) == Element.Present <==>
      !('"' in query || '\n' in query) && exists e :: e in scope && e.reflectedName == Some(query)
  {
    var r := ReflectedName(query, scope);
    if r.Ok? && r.value != [] {
      assert r.value[0] in r.value;
    }
  }
}
