/** What a render pass guarantees: clause labels follow the clauses in the order the
    walk meets them, numbered as the counters dictate; marks are inherited; text
    leaves split into lines as promised. */
module RenderProperties {
  import opened Doc
  import opened Strings
  import opened MarkContext
  import opened Numbering
  import opened Paragraph
  import opened Render

  /** The titles of the clauses the walk meets, in the order it meets them: a clause
      before its children, children left to right, the Agreement section only through
      its mentions' children. */
  function ClauseTitles(n: Node): seq<Option<string>>
    decreases Size(n), 1
  {
    SizeOfNode(n);
    match Dispatch(n)
    case ToClause => [n.title] + TitlesList(Kids(n))
    case ToParagraph =>
      var processed := Flattened(Kids(n));
      if IsAgreementTitle(n.title) then AgreementTitles(processed) else TitlesList(processed)
    case ToMention => TitlesList(Kids(n))
    case ToH1 => TitlesList(Kids(n))
    case ToH4 => TitlesList(Kids(n))
    case ToUl => TitlesList(Kids(n))
    case ToLi => TitlesList(Kids(n))
    case ToLic => TitlesList(Kids(n))
    case ToParties => []
    case ToText => []
    case ToNull => []
  }

  function TitlesList(kids: seq<Node>): seq<Option<string>>
    decreases SumSize(kids), 2
  {
    if kids == [] then [] else ClauseTitles(kids[0]) + TitlesList(kids[1..])
  }

  function AgreementTitles(kids: seq<Node>): seq<Option<string>>
    decreases SumSize(kids), 2
  {
    if kids == [] then [] else ItemTitles(kids[0]) + AgreementTitles(kids[1..])
  }

  function ItemTitles(k: Node): seq<Option<string>>
    decreases Size(k), 1
  {
    SizeOfNode(k);
    if HasType(k, "mention") then TitlesList(Kids(k)) else []
  }

  /** The clause labels of an output tree, in document (pre-)order. */
  function OutLabels(o: Out): seq<Label>
    decreases o, 2
  {
    match o
    case Nothing => []
    case Lines(_) => []
    case Elem(b) => BlockLabels(b)
  }

  function BlockLabels(b: Block): seq<Label>
    decreases b, 1
  {
    match b
    case ClauseEl(i, d, kids) => [Label(i, d)] + KidsLabels(kids)
    case MentionEl(_, kids) => KidsLabels(kids)
    case H1(kids) => KidsLabels(kids)
    case Ul(kids) => KidsLabels(kids)
    case Li(kids) => KidsLabels(kids)
    case Lic(kids) => KidsLabels(kids)
    case HighlightSpan(_, _, kids) => KidsLabels(kids)
    case Div(items) => ListLabels(items)
    case Para(items) => ListLabels(items)
    case H4(t, d) => OutLabels(t) + KidsLabels(d)
    case Span(_, _) => []
    case ClassSpan(_, _) => []
    case PartyLine(_, _, _, _) => []
  }

  function KidsLabels(k: ChildOutput): seq<Label>
    decreases k, 0
  {
    match k
    case NoOutput => []
    case Outputs(items) => ListLabels(items)
  }

  function ListLabels(os: seq<Out>): seq<Label>
    decreases os, 3
  {
    if os == [] then [] else OutLabels(os[0]) + ListLabels(os[1..])
  }

  /** Rendering a node hands out exactly the labels that numbering the clauses it
      meets, one after the other, would hand out, and leaves the counters where that
      numbering leaves them. */
  lemma {:induction false} NodeNumbering(n: Node, m: Marks, c: Counters)
    requires NoThrow(n)
    ensures var r := NodeOutput(n, m, c);
            RunClauses(c, ClauseTitles(n)) == Run(OutLabels(r.out), r.after)
    decreases Size(n), 2
  {
    match Dispatch(n)
    case ToClause => ClauseNumbering(n, m, c);
    case ToParagraph => ParagraphNumbering(n, m, c);
    case ToH4 => H4Numbering(n, m, c);
    case ToParties =>
    case ToText =>
    case ToNull =>
    case _ => WrapperNumbering(n, m, c);
  }

  lemma {:induction false} WrapperNumbering(n: Node, m: Marks, c: Counters)
    requires NoThrow(n) && IsWrapper(Dispatch(n))
    ensures var r := NodeOutput(n, m, c);
            RunClauses(c, ClauseTitles(n)) == Run(OutLabels(r.out), r.after)
    decreases Size(n), 1
  {
    WrapperLink(n, m, c);
    assert ClauseTitles(n) == TitlesList(Kids(n));
    WrapperBodyNumbering(Dispatch(n), n, Derive(m, n), c);
  }

  lemma {:induction false} WrapperBodyNumbering(b: Branch, n: Node, marks: Marks, c: Counters)
    requires IsWrapper(b) && NoThrowList(Kids(n))
    ensures var r := WrapperOutput(b, n, marks, c);
            RunClauses(c, TitlesList(Kids(n))) == Run(OutLabels(r.out), r.after)
    decreases Size(n), 0
  {
    SizeOfNode(n);
    var kids := ChildrenOutput(n.children, marks, c);
    ChildrenNumbering(n.children, marks, c);
    assert WrapperOutput(b, n, marks, c) == Rendered(Elem(WrapperBlock(b, n.color, kids.kids)), kids.after);
    assert BlockLabels(WrapperBlock(b, n.color, kids.kids)) == KidsLabels(kids.kids);
  }

  lemma {:induction false} ClauseNumbering(n: Node, m: Marks, c: Counters)
    requires NoThrow(n) && Dispatch(n) == ToClause
    ensures var r := NodeOutput(n, m, c);
            RunClauses(c, ClauseTitles(n)) == Run(OutLabels(r.out), r.after)
    decreases Size(n), 1
  {
    SizeOfNode(n);
    ClauseLink(n, m, c);
    var s := ClauseStep(c, n.title);
    ChildrenNumbering(n.children, Derive(m, n), s.next);
    assert ([n.title] + TitlesList(Kids(n)))[1..] == TitlesList(Kids(n));
  }

  lemma {:induction false} ParagraphNumbering(n: Node, m: Marks, c: Counters)
    requires NoThrow(n) && Dispatch(n) == ToParagraph
    ensures var r := NodeOutput(n, m, c);
            RunClauses(c, ClauseTitles(n)) == Run(OutLabels(r.out), r.after)
    decreases Size(n), 1
  {
    ParagraphLink(n, m, c);
    assert ClauseTitles(n) == ParagraphTitles(n);
    ParagraphBodyNumbering(n, Derive(m, n), c);
  }

  /** The "p"/"block" wrapper is a `div` exactly when one of the node's own children
      (before the clean-up) is block-level, and a `p` otherwise; it holds one output
      per child. */
  lemma ParagraphWrapper(n: Node, marks: Marks, c: Counters)
    requires ParagraphNoThrow(n)
    ensures var r := ParagraphOutput(n, marks, c);
            && r.out.Elem? && (r.out.block.Div? || r.out.block.Para?)
            && (r.out.block.Div? <==> exists i :: 0 <= i < |Kids(n)| && IsBlockLevel(Kids(n)[i]))
            && |r.out.block.items| == |Kids(n)|
  {
    FlattenKeepsBlockChild(Kids(n));
  }

  /** The clause titles under a "p"/"block" node. */
  function ParagraphTitles(n: Node): seq<Option<string>>
    decreases Size(n), 0
  {
    SizeOfNode(n);
    var processed := Flattened(Kids(n));
    if IsAgreementTitle(n.title) then AgreementTitles(processed) else TitlesList(processed)
  }

  lemma {:induction false} ParagraphBodyNumbering(n: Node, marks: Marks, c: Counters)
    requires ParagraphNoThrow(n)
    ensures var r := ParagraphOutput(n, marks, c);
            RunClauses(c, ParagraphTitles(n)) == Run(OutLabels(r.out), r.after)
    decreases Size(n), 0
  {
    SizeOfNode(n);
    var processed := Flattened(Kids(n));
    var items;
    if IsAgreementTitle(n.title) {
      items := AgreementOutput(processed, marks, c);
      AgreementNumbering(processed, marks, c);
    } else {
      items := ListOutput(processed, marks, c);
      ListNumbering(processed, marks, c);
    }
    assert ParagraphOutput(n, marks, c) == Rendered(Elem(Wrap(HasBlockChild(processed), items.outs)), items.after);
    WrapLabels(HasBlockChild(processed), items.outs);
  }

  lemma WrapLabels(hasBlockChild: bool, outs: seq<Out>)
    ensures OutLabels(Elem(Wrap(hasBlockChild, outs))) == ListLabels(outs)
  {
    assert BlockLabels(Wrap(hasBlockChild, outs)) == ListLabels(outs);
  }

  lemma {:induction false} H4Numbering(n: Node, m: Marks, c: Counters)
    requires NoThrow(n) && Dispatch(n) == ToH4
    ensures var r := NodeOutput(n, m, c);
            RunClauses(c, ClauseTitles(n)) == Run(OutLabels(r.out), r.after)
    decreases Size(n), 1
  {
    SizeOfNode(n);
    HeadingLink(n, m, c);
    assert ClauseTitles(n) == ClauseTitles(Kids(n)[0]) + TitlesList(Kids(n)[1..]);
    HeadingNumbering(n, Derive(m, n), c);
  }

  lemma {:induction false} HeadingNumbering(n: Node, marks: Marks, c: Counters)
    requires Kids(n) != [] && NoThrowList(Kids(n))
    ensures var r := HeadingOutput(n, marks, c);
            RunClauses(c, ClauseTitles(Kids(n)[0]) + TitlesList(Kids(n)[1..])) == Run(OutLabels(r.out), r.after)
    decreases Size(n), 0
  {
    SizeOfNode(n);
    var first, rest := Kids(n)[0], Kids(n)[1..];
    HeadingShape(n, marks, c);
    var title := NodeOutput(first, marks, c);
    var desc := ListOutput(rest, NoMarks, title.after);
    NodeNumbering(first, marks, c);
    ListNumbering(rest, NoMarks, title.after);
    RunAppend(c, ClauseTitles(first), TitlesList(rest));
    H4Labels(title.out, desc.outs);
  }

  /** Marks never move the counters: a node leaves them in the same place whatever
      marks it inherits. */
  lemma CountersIgnoreMarks(n: Node, m1: Marks, m2: Marks, c: Counters)
    requires NoThrow(n)
    ensures NodeOutput(n, m1, c).after == NodeOutput(n, m2, c).after
  {
    NodeNumbering(n, m1, c);
    NodeNumbering(n, m2, c);
  }

  /** The `h4` exception to mark inheritance: the description part is rendered under
      `{}`, so it is the same whatever marks the heading inherits, and so are the
      counters after the heading. */
  lemma HeadingDescriptionIgnoresMarks(n: Node, m1: Marks, m2: Marks, c: Counters)
    requires Kids(n) != [] && NoThrowList(Kids(n))
    ensures HeadingOutput(n, m1, c).out.Elem? && HeadingOutput(n, m1, c).out.block.H4?
    ensures HeadingOutput(n, m1, c).out.block.description == HeadingOutput(n, m2, c).out.block.description
    ensures HeadingOutput(n, m1, c).after == HeadingOutput(n, m2, c).after
  {
    HeadingShape(n, m1, c);
    HeadingShape(n, m2, c);
    CountersIgnoreMarks(Kids(n)[0], m1, m2, c);
  }

  /** The labels of a heading: those of its title, then those of its description. */
  lemma H4Labels(t: Out, outs: seq<Out>)
    ensures OutLabels(Elem(H4(t, if outs == [] then NoOutput else Outputs(outs)))) == OutLabels(t) + ListLabels(outs)
  {
    var d := if outs == [] then NoOutput else Outputs(outs);
    assert OutLabels(Elem(H4(t, d))) == BlockLabels(H4(t, d)) == OutLabels(t) + KidsLabels(d);
    assert KidsLabels(d) == ListLabels(outs);
  }

  lemma {:induction false} ChildrenNumbering(ch: Children, m: Marks, c: Counters)
    requires ch.Array? ==> NoThrowList(ch.items)
    ensures var r := ChildrenOutput(ch, m, c);
            RunClauses(c, TitlesList(if ch.Array? then ch.items else [])) == Run(KidsLabels(r.kids), r.after)
    decreases if ch.Array? then SumSize(ch.items) else 0, 4
  {
    if ch.Array? {
      ListNumbering(ch.items, m, c);
    }
  }

  lemma {:induction false} ListNumbering(kids: seq<Node>, m: Marks, c: Counters)
    requires NoThrowList(kids)
    ensures var r := ListOutput(kids, m, c);
            RunClauses(c, TitlesList(kids)) == Run(ListLabels(r.outs), r.after)
    decreases SumSize(kids), 3
  {
    if kids != [] {
      var head := NodeOutput(kids[0], m, c);
      var tail := ListOutput(kids[1..], m, head.after);
      NodeNumbering(kids[0], m, c);
      ListNumbering(kids[1..], m, head.after);
      RunAppend(c, ClauseTitles(kids[0]), TitlesList(kids[1..]));
      var outs := [head.out] + tail.outs;
      assert outs[0] == head.out && outs[1..] == tail.outs;
    }
  }

  /** The labels of a list are those of its head followed by those of its tail. */
  lemma ListLabelsCons(o: Out, os: seq<Out>)
    ensures ListLabels([o] + os) == OutLabels(o) + ListLabels(os)
  {
    assert ([o] + os)[0] == o && ([o] + os)[1..] == os;
  }

  lemma {:induction false} AgreementNumbering(kids: seq<Node>, m: Marks, c: Counters)
    requires AgreementNoThrow(kids)
    ensures var r := AgreementOutput(kids, m, c);
            RunClauses(c, AgreementTitles(kids)) == Run(ListLabels(r.outs), r.after)
    decreases SumSize(kids), 3
  {
    if kids != [] {
      var head := AgreementItem(kids[0], m, c);
      var tail := AgreementOutput(kids[1..], m, head.after);
      ItemNumbering(kids[0], m, c);
      AgreementNumbering(kids[1..], m, head.after);
      RunAppend(c, ItemTitles(kids[0]), AgreementTitles(kids[1..]));
      ListLabelsCons(head.out, tail.outs);
    }
  }

  lemma {:induction false} ItemNumbering(k: Node, m: Marks, c: Counters)
    requires ItemNoThrow(k)
    ensures var r := AgreementItem(k, m, c);
            RunClauses(c, ItemTitles(k)) == Run(OutLabels(r.out), r.after)
    decreases Size(k), 2
  {
    SizeOfNode(k);
    if HasType(k, "mention") {
      ItemShape(k, m, c);
      ChildrenNumbering(k.children, m, c);
    }
  }

  /** An Agreement mention is labelled like its children; any other child carries
      no label and leaves the counters alone. */
  lemma ItemShape(k: Node, m: Marks, c: Counters)
    requires HasType(k, "mention") && NoThrowList(Kids(k))
    ensures var inner := ChildrenOutput(k.children, m, c);
            && ItemTitles(k) == TitlesList(Kids(k))
            && OutLabels(AgreementItem(k, m, c).out) == KidsLabels(inner.kids)
            && AgreementItem(k, m, c).after == inner.after
  {
    SizeOfNode(k);
    var inner := ChildrenOutput(k.children, m, c);
    assert AgreementItem(k, m, c) == Rendered(Elem(HighlightSpan(k.color, Marks(k.bold, k.underline), inner.kids)), inner.after);
  }

  /** Inherited marks never reach the Agreement section's own spans: a section
      without mentions renders the same under any marks, and it leaves the counters
      as they were. */
  lemma {:induction false} AgreementWithoutMentions(kids: seq<Node>, m1: Marks, m2: Marks, c: Counters)
    requires AgreementNoThrow(kids)
    requires forall i :: 0 <= i < |kids| ==> !HasType(kids[i], "mention")
    ensures AgreementOutput(kids, m1, c) == AgreementOutput(kids, m2, c)
    ensures AgreementOutput(kids, m1, c).after == c
    decreases |kids|
  {
    if kids != [] {
      AgreementWithoutMentions(kids[1..], m1, m2, c);
    }
  }

  /** A render pass over a document from freshly initialised counters numbers the
      regular clauses 1, 2, 3, … in the order the walk meets them, and gives a
      sub-definition label only to a clause met after a "Definitions" clause. */
  lemma FreshPassNumbering(data: Option<seq<Node>>)
    requires NoThrowList(DocumentRoots(data))
    ensures var labels := ListLabels(ListOutput(DocumentRoots(data), NoMarks, Fresh).outs);
            var titles := TitlesList(DocumentRoots(data));
            && |labels| == |titles|
            && Regular(labels) == Iota(1, |Regular(labels)|)
            && forall k :: 0 <= k < |labels| && labels[k].isDefinition ==>
                 exists j :: 0 <= j < k && IsDefinitionsTitle(titles[j])
  {
    var roots := DocumentRoots(data);
    var titles := TitlesList(roots);
    ListNumbering(roots, NoMarks, Fresh);
    RegularConsecutive(Fresh, titles);
    forall k | 0 <= k < |titles| && RunClauses(Fresh, titles).labels[k].isDefinition
      ensures exists j :: 0 <= j < k && IsDefinitionsTitle(titles[j])
    {
      NoSubNumberBeforeDefinitions(Fresh, titles, k);
    }
  }

  /** The output keeps every mark in `floor`, except where the source deliberately
      drops inherited marks: the description part of an `h4`, the spans of the
      Agreement section, and the party lines. */
  predicate OutCovers(o: Out, floor: Marks)
    decreases o, 2
  {
    match o
    case Nothing => true
    case Lines(ls) => forall i :: 0 <= i < |ls| ==> Covers(ls[i].marks, floor)
    case Elem(b) => BlockCovers(b, floor)
  }

  predicate BlockCovers(b: Block, floor: Marks)
    decreases b, 1
  {
    match b
    case Span(_, marks) => Covers(marks, floor)
    case ClauseEl(_, _, kids) => KidsCover(kids, floor)
    case MentionEl(_, kids) => KidsCover(kids, floor)
    case H1(kids) => KidsCover(kids, floor)
    case Ul(kids) => KidsCover(kids, floor)
    case Li(kids) => KidsCover(kids, floor)
    case Lic(kids) => KidsCover(kids, floor)
    case HighlightSpan(_, _, kids) => KidsCover(kids, floor)
    case Div(items) => ListCovers(items, floor)
    case Para(items) => ListCovers(items, floor)
    case H4(t, _) => OutCovers(t, floor)
    case ClassSpan(_, _) => true
    case PartyLine(_, _, _, _) => true
  }

  predicate KidsCover(k: ChildOutput, floor: Marks)
    decreases k, 0
  {
    match k
    case NoOutput => true
    case Outputs(items) => ListCovers(items, floor)
  }

  predicate ListCovers(os: seq<Out>, floor: Marks)
    decreases os, 3
  {
    os == [] || (OutCovers(os[0], floor) && ListCovers(os[1..], floor))
  }

  /** Marks are inherited: whatever flag the caller passes down is set on every text
      span below, apart from the exempt places named in `OutCovers`. */
  lemma {:induction false} NodeKeepsMarks(n: Node, m: Marks, c: Counters, floor: Marks)
    requires NoThrow(n) && Covers(m, floor)
    ensures OutCovers(NodeOutput(n, m, c).out, floor)
    decreases Size(n), 2
  {
    match Dispatch(n)
    case ToClause => ClauseKeepsMarks(n, m, c, floor);
    case ToParagraph => ParagraphKeepsMarks(n, m, c, floor);
    case ToH4 => H4KeepsMarks(n, m, c, floor);
    case ToText => TextKeepsMarks(n, m, c, floor);
    case ToParties =>
    case ToNull =>
    case _ => WrapperKeepsMarks(n, m, c, floor);
  }

  lemma {:induction false} WrapperKeepsMarks(n: Node, m: Marks, c: Counters, floor: Marks)
    requires NoThrow(n) && IsWrapper(Dispatch(n)) && Covers(m, floor)
    ensures OutCovers(NodeOutput(n, m, c).out, floor)
    decreases Size(n), 1
  {
    WrapperLink(n, m, c);
    WrapperBodyKeepsMarks(Dispatch(n), n, Derive(m, n), c, floor);
  }

  lemma {:induction false} WrapperBodyKeepsMarks(b: Branch, n: Node, marks: Marks, c: Counters, floor: Marks)
    requires IsWrapper(b) && NoThrowList(Kids(n)) && Covers(marks, floor)
    ensures OutCovers(WrapperOutput(b, n, marks, c).out, floor)
    decreases Size(n), 0
  {
    SizeOfNode(n);
    var kids := ChildrenOutput(n.children, marks, c);
    ChildrenKeepMarks(n.children, marks, c, floor);
    assert WrapperOutput(b, n, marks, c) == Rendered(Elem(WrapperBlock(b, n.color, kids.kids)), kids.after);
    assert BlockCovers(WrapperBlock(b, n.color, kids.kids), floor) == KidsCover(kids.kids, floor);
  }

  lemma {:induction false} ClauseKeepsMarks(n: Node, m: Marks, c: Counters, floor: Marks)
    requires NoThrow(n) && Dispatch(n) == ToClause && Covers(m, floor)
    ensures OutCovers(NodeOutput(n, m, c).out, floor)
    decreases Size(n), 1
  {
    SizeOfNode(n);
    ClauseLink(n, m, c);
    ChildrenKeepMarks(n.children, Derive(m, n), ClauseStep(c, n.title).next, floor);
  }

  lemma {:induction false} ParagraphKeepsMarks(n: Node, m: Marks, c: Counters, floor: Marks)
    requires NoThrow(n) && Dispatch(n) == ToParagraph && Covers(m, floor)
    ensures OutCovers(NodeOutput(n, m, c).out, floor)
    decreases Size(n), 1
  {
    ParagraphLink(n, m, c);
    ParagraphBodyKeepsMarks(n, Derive(m, n), c, floor);
  }

  lemma {:induction false} ParagraphBodyKeepsMarks(n: Node, marks: Marks, c: Counters, floor: Marks)
    requires ParagraphNoThrow(n) && Covers(marks, floor)
    ensures OutCovers(ParagraphOutput(n, marks, c).out, floor)
    decreases Size(n), 0
  {
    SizeOfNode(n);
    var processed := Flattened(Kids(n));
    var items;
    if IsAgreementTitle(n.title) {
      items := AgreementOutput(processed, marks, c);
      AgreementKeepsMarks(processed, marks, c, floor);
    } else {
      items := ListOutput(processed, marks, c);
      ListKeepsMarks(processed, marks, c, floor);
    }
    assert ParagraphOutput(n, marks, c) == Rendered(Elem(Wrap(HasBlockChild(processed), items.outs)), items.after);
    WrapCovers(HasBlockChild(processed), items.outs, floor);
  }

  lemma WrapCovers(hasBlockChild: bool, outs: seq<Out>, floor: Marks)
    ensures OutCovers(Elem(Wrap(hasBlockChild, outs)), floor) == ListCovers(outs, floor)
  {
    assert BlockCovers(Wrap(hasBlockChild, outs), floor) == ListCovers(outs, floor);
  }

  lemma {:induction false} H4KeepsMarks(n: Node, m: Marks, c: Counters, floor: Marks)
    requires NoThrow(n) && Dispatch(n) == ToH4 && Covers(m, floor)
    ensures OutCovers(NodeOutput(n, m, c).out, floor)
    decreases Size(n), 1
  {
    SizeOfNode(n);
    HeadingLink(n, m, c);
    var title := NodeOutput(Kids(n)[0], Derive(m, n), c);
    NodeKeepsMarks(Kids(n)[0], Derive(m, n), c, floor);
    var r := NodeOutput(n, m, c);
    assert r.out.Elem? && r.out.block.H4? && r.out.block.title == title.out;
  }

  lemma TextKeepsMarks(n: Node, m: Marks, c: Counters, floor: Marks)
    requires NoThrow(n) && Dispatch(n) == ToText && Covers(m, floor)
    ensures OutCovers(NodeOutput(n, m, c).out, floor)
  {
    TextLink(n, m, c);
    TextCovers(n.text.value, Derive(m, n), floor);
  }

  lemma TextCovers(text: string, marks: Marks, floor: Marks)
    requires Covers(marks, floor)
    ensures OutCovers(TextOutput(text, marks), floor)
  {
  }

  lemma {:induction false} ChildrenKeepMarks(ch: Children, m: Marks, c: Counters, floor: Marks)
    requires (ch.Array? ==> NoThrowList(ch.items)) && Covers(m, floor)
    ensures KidsCover(ChildrenOutput(ch, m, c).kids, floor)
    decreases if ch.Array? then SumSize(ch.items) else 0, 4
  {
    if ch.Array? {
      ListKeepsMarks(ch.items, m, c, floor);
    }
  }

  lemma {:induction false} ListKeepsMarks(kids: seq<Node>, m: Marks, c: Counters, floor: Marks)
    requires NoThrowList(kids) && Covers(m, floor)
    ensures ListCovers(ListOutput(kids, m, c).outs, floor)
    decreases SumSize(kids), 3
  {
    if kids != [] {
      var head := NodeOutput(kids[0], m, c);
      var tail := ListOutput(kids[1..], m, head.after);
      NodeKeepsMarks(kids[0], m, c, floor);
      ListKeepsMarks(kids[1..], m, head.after, floor);
      var outs := [head.out] + tail.outs;
      assert outs[0] == head.out && outs[1..] == tail.outs;
    }
  }

  lemma {:induction false} AgreementKeepsMarks(kids: seq<Node>, m: Marks, c: Counters, floor: Marks)
    requires AgreementNoThrow(kids) && Covers(m, floor)
    ensures ListCovers(AgreementOutput(kids, m, c).outs, floor)
    decreases SumSize(kids), 3
  {
    if kids != [] {
      var head := AgreementItem(kids[0], m, c);
      var tail := AgreementOutput(kids[1..], m, head.after);
      ItemKeepsMarks(kids[0], m, c, floor);
      AgreementKeepsMarks(kids[1..], m, head.after, floor);
      var outs := [head.out] + tail.outs;
      assert outs[0] == head.out && outs[1..] == tail.outs;
    }
  }

  lemma {:induction false} ItemKeepsMarks(k: Node, m: Marks, c: Counters, floor: Marks)
    requires ItemNoThrow(k) && Covers(m, floor)
    ensures OutCovers(AgreementItem(k, m, c).out, floor)
    decreases Size(k), 2
  {
    SizeOfNode(k);
    var classes := Marks(k.bold, k.underline);
    if HasType(k, "mention") {
      var inner := ChildrenOutput(k.children, m, c);
      assert AgreementItem(k, m, c).out == Elem(HighlightSpan(k.color, classes, inner.kids));
      ChildrenKeepMarks(k.children, m, c, floor);
    } else {
      assert AgreementItem(k, m, c).out == Elem(ClassSpan(k.text, classes));
    }
  }

  /** Number of fragments followed by a line break. */
  function Breaks(ls: seq<Line>): nat {
    if ls == [] then 0 else (if ls[0].br then 1 else 0) + Breaks(ls[1..])
  }

  /** A text leaf whose text holds k - 1 > 0 newlines renders as k trimmed lines with
      k - 1 breaks, none after the last line; a text without a newline renders as one
      untrimmed span; an empty text renders as nothing. */
  lemma TextLeafRendering(n: Node, m: Marks, c: Counters)
    requires Dispatch(n) == ToText || (n.ty.None? && n.text == Some(""))
    ensures var r := NodeOutput(n, m, c);
            var k := Count(n.text.value, '\n') + 1;
            && r.after == c
            && (n.text.value == "" ==> r.out == Nothing)
            && (n.text.value != "" && k > 1 ==>
                  && r.out.Lines?
                  && |r.out.lines| == k
                  && Breaks(r.out.lines) == k - 1
                  && !r.out.lines[k - 1].br
                  && forall i :: 0 <= i < k ==>
                       r.out.lines[i].text == Trim(Split(n.text.value, '\n')[i])
                       && r.out.lines[i].marks == Derive(m, n))
            && (n.text.value != "" && k == 1 ==> r.out == Elem(Span(n.text.value, Derive(m, n))))
  {
    if Dispatch(n) == ToText {
      TextLink(n, m, c);
      TextOutputLines(n.text.value, Derive(m, n));
    } else {
      assert NodeOutput(n, m, c) == Rendered(Nothing, c);
    }
  }

  /** The text branch on its own: one trimmed line per newline-separated piece, a
      break after every line but the last, all under `marks`; one untrimmed span
      when there is no newline. */
  lemma TextOutputLines(text: string, marks: Marks)
    ensures var r := TextOutput(text, marks);
            var k := Count(text, '\n') + 1;
            && (k > 1 ==>
                  && r.Lines?
                  && |r.lines| == k
                  && Breaks(r.lines) == k - 1
                  && !r.lines[k - 1].br
                  && forall i :: 0 <= i < k ==>
                       r.lines[i].text == Trim(Split(text, '\n')[i]) && r.lines[i].marks == marks)
            && (k == 1 ==> r == Elem(Span(text, marks)))
  {
    var lines := Split(text, '\n');
    if |lines| > 1 {
      TextLinesBreaks(lines, marks);
    }
  }

  lemma {:induction false} TextLinesBreaks(lines: seq<string>, marks: Marks)
    requires |lines| >= 1
    ensures Breaks(TextLines(lines, marks)) == |lines| - 1
  {
    var ls := TextLines(lines, marks);
    BreaksAllButLast(ls);
  }

  lemma {:induction false} BreaksAllButLast(ls: seq<Line>)
    requires |ls| >= 1
    requires forall i :: 0 <= i < |ls| ==> (ls[i].br <==> i < |ls| - 1)
    ensures Breaks(ls) == |ls| - 1
  {
    if |ls| > 1 {
      BreaksAllButLast(ls[1..]);
    }
  }
}
