/** The renderer as the component runs it: one walk over the tree that updates the
    three numbering variables in place. Every method is proved to return exactly
    what the pure description in module Render says, and to leave the counters
    where that description leaves them. */
module Renderer {
  import opened Doc
  import opened Strings
  import opened MarkContext
  import opened Numbering
  import opened Paragraph
  import opened Parties
  import opened Render

  /** `renderNode(node, key, parentMarks)` */
  method RenderNode(st: NumberingState, n: Node, parentMarks: Marks) returns (out: Out)
    requires NoThrow(n)
    modifies st
    ensures Rendered(out, st.State()) == NodeOutput(n, parentMarks, old(st.State()))
    decreases Size(n), 2
  {
    SizeOfNode(n);
    var marks := parentMarks;
    if n.bold {
      marks := marks.(bold := true);
    }
    if n.underline {
      marks := marks.(underline := true);
    }
    assert marks == Derive(parentMarks, n);
    ghost var c0 := st.State();

    if HasType(n, "mention") {
      WrapperLink(n, parentMarks, c0);
      out := RenderWrapper(st, ToMention, n, marks);
    } else if HasType(n, "clause") {
      ClauseLink(n, parentMarks, c0);
      out := RenderClause(st, n, marks);
    } else if HasType(n, "p") || HasType(n, "block") {
      ParagraphLink(n, parentMarks, c0);
      out := RenderParagraph(st, n, marks);
    } else if HasType(n, "block") && n.title == Some("Parties") {
      assert false;
    } else if HasType(n, "h1") {
      WrapperLink(n, parentMarks, c0);
      out := RenderWrapper(st, ToH1, n, marks);
    } else if HasType(n, "h4") {
      HeadingLink(n, parentMarks, c0);
      out := RenderHeading(st, n, marks);
    } else if HasType(n, "ul") {
      WrapperLink(n, parentMarks, c0);
      out := RenderWrapper(st, ToUl, n, marks);
    } else if HasType(n, "li") {
      WrapperLink(n, parentMarks, c0);
      out := RenderWrapper(st, ToLi, n, marks);
    } else if HasType(n, "lic") {
      WrapperLink(n, parentMarks, c0);
      out := RenderWrapper(st, ToLic, n, marks);
    } else if HasText(n) {
      TextLink(n, parentMarks, c0);
      out := RenderText(n.text.value, marks);
    } else {
      out := Nothing;
    }
  }

  /** The text branch: one span per line, with a break between lines, when the
      text holds a newline; a single span otherwise. */
  method RenderText(text: string, marks: Marks) returns (out: Out)
    ensures out == TextOutput(text, marks)
  {
    var lines := Split(text, '\n');
    if |lines| > 1 {
      out := Lines(TextLines(lines, marks));
    } else {
      out := Elem(Span(text, marks));
    }
  }

  /** The mention, h1, ul, li and lic branches: the element around the children. */
  method RenderWrapper(st: NumberingState, b: Branch, n: Node, marks: Marks) returns (out: Out)
    requires IsWrapper(b) && NoThrowList(Kids(n))
    modifies st
    ensures Rendered(out, st.State()) == WrapperOutput(b, n, marks, old(st.State()))
    decreases Size(n), 1
  {
    SizeOfNode(n);
    var kids := RenderChildren(st, n.children, marks);
    match b
    case ToMention => out := Elem(MentionEl(n.color, kids));
    case ToH1 => out := Elem(H1(kids));
    case ToUl => out := Elem(Ul(kids));
    case ToLi => out := Elem(Li(kids));
    case ToLic => out := Elem(Lic(kids));
  }

  /** The clause branch: the label is fixed, and the counters moved, before the
      children render. */
  method RenderClause(st: NumberingState, n: Node, marks: Marks) returns (out: Out)
    requires NoThrowList(Kids(n))
    modifies st
    ensures Rendered(out, st.State()) == ClauseOutput(n, marks, old(st.State()))
    decreases Size(n), 1
  {
    SizeOfNode(n);
    var index, isDefinition := st.EnterClause(n.title);
    var kids := RenderChildren(st, n.children, marks);
    out := Elem(ClauseEl(index, isDefinition, kids));
  }

  /** The "p"/"block" branch. */
  method RenderParagraph(st: NumberingState, n: Node, marks: Marks) returns (out: Out)
    requires ParagraphNoThrow(n)
    modifies st
    ensures Rendered(out, st.State()) == ParagraphOutput(n, marks, old(st.State()))
    decreases Size(n), 1
  {
    SizeOfNode(n);
    var processed := FlattenChildren(Kids(n));
    var isAgreementSection := IsAgreementTitle(n.title);
    var hasBlockChild := HasBlockChild(processed);
    var items;
    if isAgreementSection {
      items := RenderAgreement(st, processed, marks);
    } else {
      items := RenderEach(st, processed, marks);
    }
    out := Elem(Wrap(hasBlockChild, items));
  }

  /** The `h4` branch: the first child under the heading's marks, the others (if
      any) under no marks at all. */
  method RenderHeading(st: NumberingState, n: Node, marks: Marks) returns (out: Out)
    requires Kids(n) != [] && NoThrowList(Kids(n))
    modifies st
    ensures Rendered(out, st.State()) == HeadingOutput(n, marks, old(st.State()))
    decreases Size(n), 1
  {
    SizeOfNode(n);
    HeadingShape(n, marks, st.State());
    var all := Kids(n);
    var first, rest := all[0], all[1..];
    var title := RenderNode(st, first, marks);
    if |rest| > 0 {
      var description := RenderEach(st, rest, NoMarks);
      out := Elem(H4(title, Outputs(description)));
    } else {
      out := Elem(H4(title, NoOutput));
    }
  }

  /** `renderChildren(children, parentMarks)` */
  method RenderChildren(st: NumberingState, children: Children, parentMarks: Marks) returns (kids: ChildOutput)
    requires children.Array? ==> NoThrowList(children.items)
    modifies st
    ensures RenderedKids(kids, st.State()) == ChildrenOutput(children, parentMarks, old(st.State()))
    decreases if children.Array? then SumSize(children.items) else 0, 4
  {
    if children.Absent? {
      return NoOutput;
    }
    var outs := RenderEach(st, children.items, parentMarks);
    kids := Outputs(outs);
  }

  /** `children.map((child, i) => renderNode(child, i, parentMarks))` */
  method RenderEach(st: NumberingState, kids: seq<Node>, parentMarks: Marks) returns (outs: seq<Out>)
    requires NoThrowList(kids)
    modifies st
    ensures RenderedList(outs, st.State()) == ListOutput(kids, parentMarks, old(st.State()))
    decreases SumSize(kids), 3
  {
    outs := [];
    var i := 0;
    assert kids[0..] == kids;
    while i < |kids|
      invariant 0 <= i <= |kids|
      invariant NoThrowList(kids[i..])
      invariant var tail := ListOutput(kids[i..], parentMarks, st.State());
                ListOutput(kids, parentMarks, old(st.State())) == RenderedList(outs + tail.outs, tail.after)
    {
      SizeWithin(kids, i);
      ListOutputStep(kids, i);
      ghost var before := st.State();
      var o := RenderNode(st, kids[i], parentMarks);
      ListOutputAdvance(kids, i, parentMarks, before, o, st.State(), outs, ListOutput(kids, parentMarks, old(st.State())));
      outs := outs + [o];
      i := i + 1;
    }
  }

  /** The Agreement `map`: each child is rendered one level deep. */
  method RenderAgreement(st: NumberingState, kids: seq<Node>, marks: Marks) returns (outs: seq<Out>)
    requires AgreementNoThrow(kids)
    modifies st
    ensures RenderedList(outs, st.State()) == AgreementOutput(kids, marks, old(st.State()))
    decreases SumSize(kids), 3
  {
    outs := [];
    var i := 0;
    assert kids[0..] == kids;
    while i < |kids|
      invariant 0 <= i <= |kids|
      invariant AgreementNoThrow(kids[i..])
      invariant var tail := AgreementOutput(kids[i..], marks, st.State());
                AgreementOutput(kids, marks, old(st.State())) == RenderedList(outs + tail.outs, tail.after)
    {
      SizeWithin(kids, i);
      AgreementStep(kids, i);
      ghost var before := st.State();
      var o := RenderAgreementItem(st, kids[i], marks);
      AgreementAdvance(kids, i, marks, before, o, st.State(), outs, AgreementOutput(kids, marks, old(st.State())));
      outs := outs + [o];
      i := i + 1;
    }
  }

  /** The body of the Agreement `map` for one child. */
  method RenderAgreementItem(st: NumberingState, child: Node, marks: Marks) returns (out: Out)
    requires ItemNoThrow(child)
    modifies st
    ensures Rendered(out, st.State()) == AgreementItem(child, marks, old(st.State()))
    decreases Size(child), 2
  {
    SizeOfNode(child);
    var className := Marks(false, false);
    if child.bold {
      className := className.(bold := true);
    }
    if child.underline {
      className := className.(underline := true);
    }
    if HasType(child, "mention") {
      var inner := RenderChildren(st, child.children, marks);
      out := Elem(HighlightSpan(child.color, className, inner));
    } else {
      out := Elem(ClassSpan(child.text, className));
    }
  }

  /** The Parties handler, standing alone: `renderNode` never reaches it. */
  method RenderParties(st: NumberingState, n: Node, parentMarks: Marks) returns (out: Out)
    requires PartiesNoThrow(n)
    modifies st
    ensures Rendered(out, st.State()) == PartiesOutput(n, parentMarks, old(st.State()))
  {
    var marks := Derive(parentMarks, n);
    var partyParagraph := FirstParagraph(Kids(n));
    if partyParagraph.None? {
      return Nothing;
    }
    PartiesShape(n, parentMarks, st.State());
    var children := partyParagraph.value.children.items;
    var mentions, labels, rest := ScanParties(children);
    var lines := PartyLines(mentions, labels);
    var after := RenderEach(st, children[|mentions| + |labels|..], marks);
    out := Elem(Div(lines + after));
  }

  /** With a party paragraph present, the Parties output is the party lines of the
      collected prefix followed by the rendered rest, which starts right after the
      mentions and labels. */
  lemma PartiesShape(n: Node, parent: Marks, c: Counters)
    requires PartiesNoThrow(n) && FirstParagraph(Kids(n)).Some?
    ensures var kids := FirstParagraph(Kids(n)).value.children.items;
            var p := PrefixLen(kids);
            var mentions, labels := MentionsOf(kids[..p]), OthersOf(kids[..p]);
            && |mentions| + |labels| == p
            && NoThrowList(kids[p..])
            && var rest := ListOutput(kids[p..], Derive(parent, n), c);
               PartiesOutput(n, parent, c) == Rendered(Elem(Div(PartyLines(mentions, labels) + rest.outs)), rest.after)
  {
    var kids := FirstParagraph(Kids(n)).value.children.items;
    SplitSizes(kids[..PrefixLen(kids)]);
  }

  /** The root call: a `div` around the rendered top-level nodes. */
  method RenderDocument(st: NumberingState, data: Option<seq<Node>>) returns (root: Block)
    requires NoThrowList(DocumentRoots(data))
    modifies st
    ensures var r := ListOutput(DocumentRoots(data), NoMarks, old(st.State()));
            root == Div(r.outs) && st.State() == r.after
  {
    var roots := DocumentRoots(data);
    var outs := RenderEach(st, roots, NoMarks);
    root := Div(outs);
  }

  /** Child `i` of a list that renders without throwing renders without throwing,
      and so does the rest of the list after it. */
  lemma ListOutputStep(kids: seq<Node>, i: nat)
    requires i < |kids| && NoThrowList(kids[i..])
    ensures NoThrow(kids[i]) && NoThrowList(kids[i + 1..])
  {
    assert kids[i..][0] == kids[i] && kids[i..][1..] == kids[i + 1..];
  }

  /** One step of `map`: if the outputs `done` followed by the outputs from
      position `i` on make up `whole`, then so do `done + [o]` followed by the
      outputs from `i + 1` on, where `o` is child `i`'s output and `c'` the
      counters it left. */
  lemma ListOutputAdvance(kids: seq<Node>, i: nat, m: Marks, c: Counters, o: Out, c': Counters,
                          done: seq<Out>, whole: RenderedList)
    requires i < |kids| && NoThrowList(kids[i..]) && NoThrow(kids[i])
    requires NodeOutput(kids[i], m, c) == Rendered(o, c')
    requires var rest := ListOutput(kids[i..], m, c); whole == RenderedList(done + rest.outs, rest.after)
    ensures NoThrowList(kids[i + 1..])
    ensures var tail := ListOutput(kids[i + 1..], m, c');
            whole == RenderedList((done + [o]) + tail.outs, tail.after)
  {
    assert kids[i..][0] == kids[i] && kids[i..][1..] == kids[i + 1..];
    var tail := ListOutput(kids[i + 1..], m, c');
    assert ListOutput(kids[i..], m, c) == RenderedList([o] + tail.outs, tail.after);
    assert done + ([o] + tail.outs) == (done + [o]) + tail.outs;
  }

  /** The Agreement counterpart of `ListOutputStep`. */
  lemma AgreementStep(kids: seq<Node>, i: nat)
    requires i < |kids| && AgreementNoThrow(kids[i..])
    ensures ItemNoThrow(kids[i]) && AgreementNoThrow(kids[i + 1..])
  {
    assert kids[i..][0] == kids[i] && kids[i..][1..] == kids[i + 1..];
  }

  /** The Agreement counterpart of `ListOutputAdvance`. */
  lemma AgreementAdvance(kids: seq<Node>, i: nat, m: Marks, c: Counters, o: Out, c': Counters,
                         done: seq<Out>, whole: RenderedList)
    requires i < |kids| && AgreementNoThrow(kids[i..]) && ItemNoThrow(kids[i])
    requires AgreementItem(kids[i], m, c) == Rendered(o, c')
    requires var rest := AgreementOutput(kids[i..], m, c); whole == RenderedList(done + rest.outs, rest.after)
    ensures AgreementNoThrow(kids[i + 1..])
    ensures var tail := AgreementOutput(kids[i + 1..], m, c');
            whole == RenderedList((done + [o]) + tail.outs, tail.after)
  {
    assert kids[i..][0] == kids[i] && kids[i..][1..] == kids[i + 1..];
    var tail := AgreementOutput(kids[i + 1..], m, c');
    assert AgreementOutput(kids[i..], m, c) == RenderedList([o] + tail.outs, tail.after);
    assert done + ([o] + tail.outs) == (done + [o]) + tail.outs;
  }
}
