/** Clause numbering: the three pass-wide variables `clauseCounter`,
    `definitionSubCounter` and `insideDefinitions`, and what one clause does to them. */
module Numbering {
  import opened Doc
  import opened Strings

  /** The values of the three counters. */
  datatype Counters = Counters(clause: int, sub: int, inside: bool)

  /** Their values when the module is loaded: 1, 1 and false. */
  const Fresh := Counters(1, 1, false)

  /** What a clause is rendered with: its `index` and its `isDefinition` flag. */
  datatype Label = Label(index: int, isDefinition: bool)

  datatype Step = Step(numberedAs: Label, next: Counters)

  /** `node.title?.toLowerCase() === "definitions"` */
  predicate IsDefinitionsTitle(title: Option<string>) {
    title.Some? && Lower(title.value) == "definitions"
  }

  /** `node.title?.toLowerCase().includes("definition")` */
  predicate MentionsDefinition(title: Option<string>) {
    title.Some? && Contains(Lower(title.value), "definition")
  }

  /** A "Definitions" title also contains "definition". */
  lemma DefinitionsMentionsDefinition(title: Option<string>)
    requires IsDefinitionsTitle(title)
    ensures MentionsDefinition(title)
  {
    assert Lower(title.value)[..10] == "definition";
  }

  /** Both title tests ignore letter case, and the second one holds exactly when
      "definition" occurs somewhere in the lowered title. A clause without a title
      passes neither. */
  lemma TitleTestsIgnoreCase(t: string)
    ensures IsDefinitionsTitle(Some(t)) <==> IsDefinitionsTitle(Some(Lower(t)))
    ensures MentionsDefinition(Some(t)) <==> MentionsDefinition(Some(Lower(t)))
    ensures MentionsDefinition(Some(t)) <==> exists i :: OccursAt(Lower(t), "definition", i)
    ensures !IsDefinitionsTitle(None) && !MentionsDefinition(None)
  {
    LowerIdempotent(t);
    ContainsIffOccurs(Lower(t), "definition");
  }

  /** One clause: the label it gets and the counters after it.
      A sub-definition is a clause met inside the definitions section whose title
      mentions "definition"; it takes the sub-counter and leaves the clause counter
      alone. Every other clause takes the clause counter and advances it by one. A
      "Definitions" clause sets `inside` and restarts the sub-counter at 1 before its
      own label is taken, but whether it is a sub-definition was decided on the old
      `inside`. */
  function ClauseStep(c: Counters, title: Option<string>): (r: Step)
    ensures r.numberedAs.isDefinition <==> c.inside && MentionsDefinition(title)
    ensures r.next.inside <==> c.inside || IsDefinitionsTitle(title)
    ensures !r.numberedAs.isDefinition ==>
              && r.numberedAs.index == c.clause
              && r.next.clause == c.clause + 1
              && r.next.sub == (if IsDefinitionsTitle(title) then 1 else c.sub)
    ensures r.numberedAs.isDefinition ==>
              && r.numberedAs.index == (if IsDefinitionsTitle(title) then 1 else c.sub)
              && r.next.sub == r.numberedAs.index + 1
              && r.next.clause == c.clause
  {
    var isTop := IsDefinitionsTitle(title);
    var isSub := c.inside && MentionsDefinition(title);
    var entered := if isTop then c.(inside := true, sub := 1) else c;
    if isSub then
      Step(Label(entered.sub, true), entered.(sub := entered.sub + 1))
    else
      Step(Label(entered.clause, false), entered.(clause := entered.clause + 1))
  }

  /** The labels of a sequence of clauses met one after the other, and the counters after. */
  datatype Run = Run(labels: seq<Label>, final: Counters)

  function RunClauses(c: Counters, titles: seq<Option<string>>): (r: Run)
    ensures |r.labels| == |titles|
    decreases titles
  {
    if titles == [] then Run([], c)
    else
      var s := ClauseStep(c, titles[0]);
      var rest := RunClauses(s.next, titles[1..]);
      Run([s.numberedAs] + rest.labels, rest.final)
  }

  /** Numbering is sequential: a run over `a + b` is the run over `a` continued by
      the run over `b` from where `a` left the counters. */
  lemma {:induction false} RunAppend(c: Counters, a: seq<Option<string>>, b: seq<Option<string>>)
    ensures var ra := RunClauses(c, a);
            var rb := RunClauses(ra.final, b);
            RunClauses(c, a + b) == Run(ra.labels + rb.labels, rb.final)
    decreases |a|
  {
    if a == [] {
      assert a + b == b;
    } else {
      assert (a + b)[0] == a[0] && (a + b)[1..] == a[1..] + b;
      RunAppend(ClauseStep(c, a[0]).next, a[1..], b);
    }
  }

  /** The indices of the regular (not sub-definition) labels, in order. */
  function Regular(labels: seq<Label>): seq<int> {
    if labels == [] then []
    else (if labels[0].isDefinition then [] else [labels[0].index]) + Regular(labels[1..])
  }

  /** The indices of the sub-definition labels, in order. */
  function SubNumbers(labels: seq<Label>): seq<int> {
    if labels == [] then []
    else (if labels[0].isDefinition then [labels[0].index] else []) + SubNumbers(labels[1..])
  }

  /** `start, start + 1, …, start + n - 1` */
  function Iota(start: int, n: nat): (r: seq<int>)
    ensures |r| == n
    ensures forall i :: 0 <= i < n ==> r[i] == start + i
  {
    seq(n, i requires 0 <= i < n => start + i)
  }

  /** Regular clauses are numbered consecutively from the clause counter, and the
      counter ends one past the last number given out. */
  lemma {:induction false} RegularConsecutive(c: Counters, titles: seq<Option<string>>)
    ensures var r := RunClauses(c, titles);
            && Regular(r.labels) == Iota(c.clause, |Regular(r.labels)|)
            && r.final.clause == c.clause + |Regular(r.labels)|
    decreases |titles|
  {
    if titles != [] {
      var s := ClauseStep(c, titles[0]);
      var rest := RunClauses(s.next, titles[1..]);
      RegularConsecutive(s.next, titles[1..]);
      assert [s.numberedAs] + rest.labels == RunClauses(c, titles).labels;
      assert ([s.numberedAs] + rest.labels)[1..] == rest.labels;
      var n := |Regular(rest.labels)|;
      if !s.numberedAs.isDefinition {
        assert [c.clause] + Iota(c.clause + 1, n) == Iota(c.clause, n + 1);
      }
    }
  }

  /** From a state outside the definitions section, a clause gets a sub-definition
      label only after some earlier clause titled "Definitions". */
  lemma {:induction false} NoSubNumberBeforeDefinitions(c: Counters, titles: seq<Option<string>>, k: nat)
    requires !c.inside
    requires k < |titles| && RunClauses(c, titles).labels[k].isDefinition
    ensures exists j :: 0 <= j < k && IsDefinitionsTitle(titles[j])
    decreases |titles|
  {
    var s := ClauseStep(c, titles[0]);
    var rest := RunClauses(s.next, titles[1..]);
    assert RunClauses(c, titles).labels == [s.numberedAs] + rest.labels;
    if IsDefinitionsTitle(titles[0]) {
      assert k > 0;
    } else {
      assert k > 0 && rest.labels[k - 1].isDefinition;
      NoSubNumberBeforeDefinitions(s.next, titles[1..], k - 1);
      var j :| 0 <= j < k - 1 && IsDefinitionsTitle(titles[1..][j]);
      assert IsDefinitionsTitle(titles[j + 1]);
    }
  }

  /** Inside the definitions section, and as long as no further "Definitions" clause
      restarts the sub-counter, exactly the clauses whose title mentions "definition"
      are sub-definitions, and they are numbered consecutively from the sub-counter. */
  lemma {:induction false} SubNumberingInsideDefinitions(c: Counters, titles: seq<Option<string>>)
    requires c.inside
    requires forall j :: 0 <= j < |titles| ==> !IsDefinitionsTitle(titles[j])
    ensures var r := RunClauses(c, titles);
            && (forall k :: 0 <= k < |titles| ==> (r.labels[k].isDefinition <==> MentionsDefinition(titles[k])))
            && SubNumbers(r.labels) == Iota(c.sub, |SubNumbers(r.labels)|)
            && r.final.sub == c.sub + |SubNumbers(r.labels)|
            && r.final.inside
    decreases |titles|
  {
    if titles != [] {
      var s := ClauseStep(c, titles[0]);
      var rest := RunClauses(s.next, titles[1..]);
      SubNumberingInsideDefinitions(s.next, titles[1..]);
      var all := RunClauses(c, titles).labels;
      assert all == [s.numberedAs] + rest.labels;
      assert all[1..] == rest.labels;
      forall k | 0 < k < |titles|
        ensures all[k].isDefinition <==> MentionsDefinition(titles[k])
      {
        assert all[k] == rest.labels[k - 1] && titles[k] == titles[1..][k - 1];
      }
      var n := |SubNumbers(rest.labels)|;
      if s.numberedAs.isDefinition {
        assert [c.sub] + Iota(c.sub + 1, n) == Iota(c.sub, n + 1);
      }
    }
  }

  /** A "Definitions" clause met outside the section takes a regular number; the
      clauses after it that mention "definition" are then numbered 1, 2, 3, … in
      order (until another "Definitions" clause). */
  lemma EnteringDefinitions(c: Counters, title: Option<string>, later: seq<Option<string>>)
    requires !c.inside && IsDefinitionsTitle(title)
    requires forall j :: 0 <= j < |later| ==> !IsDefinitionsTitle(later[j])
    ensures var r := RunClauses(c, [title] + later);
            && r.labels[0] == Label(c.clause, false)
            && (forall k :: 0 < k < |r.labels| ==> (r.labels[k].isDefinition <==> MentionsDefinition(later[k - 1])))
            && SubNumbers(r.labels) == Iota(1, |SubNumbers(r.labels)|)
  {
    var s := ClauseStep(c, title);
    var all := RunClauses(c, [title] + later);
    assert ([title] + later)[1..] == later;
    var rest := RunClauses(s.next, later);
    SubNumberingInsideDefinitions(s.next, later);
    assert all.labels == [s.numberedAs] + rest.labels;
    forall k | 0 < k < |all.labels|
      ensures all.labels[k].isDefinition <==> MentionsDefinition(later[k - 1])
    {
      assert all.labels[k] == rest.labels[k - 1];
    }
    assert SubNumbers(all.labels) == SubNumbers(rest.labels);
  }

  /** The three module-level variables, updated in place by each clause. */
  class NumberingState {
    var clauseCounter: int
    var definitionSubCounter: int
    var insideDefinitions: bool

    function State(): Counters
      reads this
    {
      Counters(clauseCounter, definitionSubCounter, insideDefinitions)
    }

    /** The initial values of the three variables. */
    constructor ()
      ensures State() == Fresh
    {
      clauseCounter := 1;
      definitionSubCounter := 1;
      insideDefinitions := false;
    }

    /** The clause branch of the renderer up to the point where its label is known. */
    method EnterClause(title: Option<string>) returns (index: int, isDefinition: bool)
      modifies this
      ensures Step(Label(index, isDefinition), State()) == ClauseStep(old(State()), title)
    {
      var isTopLevelDefinition := IsDefinitionsTitle(title);
      var isSubDefinition := insideDefinitions && MentionsDefinition(title);
      if isTopLevelDefinition {
        insideDefinitions := true;
        definitionSubCounter := 1;
      }
      if isSubDefinition {
        index := definitionSubCounter;
        definitionSubCounter := definitionSubCounter + 1;
      } else {
        index := clauseCounter;
        clauseCounter := clauseCounter + 1;
      }
      isDefinition := isSubDefinition;
    }
  }
}
