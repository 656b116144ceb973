/** What `renderNode` produces, as a function of the node, the inherited marks and
    the counters before the call: the output together with the counters after it.
    The imperative renderer (module Renderer) is proved to compute exactly this. */
module Render {
  import opened Doc
  import opened Strings
  import opened MarkContext
  import opened Numbering
  import opened Paragraph
  import opened Parties

  /** What one `renderNode` call returns: `null`, one element, or — for a text with
      line breaks — an array of line fragments. */
  datatype Out =
    | Nothing
    | Elem(block: Block)
    | Lines(lines: seq<Line>)

  /** One fragment of a multi-line text: a span holding the trimmed line, followed by
      a `<br />` or not. */
  datatype Line = Line(text: string, marks: Marks, br: bool)

  /** What `renderChildren` returns: `null`, or one output per child. */
  datatype ChildOutput = NoOutput | Outputs(items: seq<Out>)

  /** The elements the renderer builds, without keys, class strings or inline styles. */
  datatype Block =
    | MentionEl(color: Option<string>, kids: ChildOutput)
    | ClauseEl(index: int, isDefinition: bool, kids: ChildOutput)
    | Div(items: seq<Out>)
    | Para(items: seq<Out>)
    | H1(kids: ChildOutput)
      /** `description` is `NoOutput` when the heading has a single child. */
    | H4(title: Out, description: ChildOutput)
    | Ul(kids: ChildOutput)
    | Li(kids: ChildOutput)
    | Lic(kids: ChildOutput)
      /** A single-line text, classed by the marks it was rendered with. */
    | Span(text: string, marks: Marks)
      /** An "Agreement to Provide Services" child that is not a mention: its own
          `text`, classed by its own flags. */
    | ClassSpan(content: Option<string>, classes: Marks)
      /** An "Agreement to Provide Services" mention: background `color`, classed by
          its own flags, with its children rendered under the section's marks. */
    | HighlightSpan(background: Option<string>, classes: Marks, kids: ChildOutput)
      /** A "Parties" line: `{number}. <Mention color>{name}</Mention> (<strong>{role}</strong>)` */
    | PartyLine(number: int, color: Option<string>, name: string, role: string)

  /** The branch of `renderNode` a node takes, tested in the order of the source. */
  datatype Branch =
    ToMention | ToClause | ToParagraph | ToParties | ToH1 | ToH4 | ToUl | ToLi | ToLic | ToText | ToNull

  /** The "Parties" test comes after the "p"/"block" test, which already takes every
      "block" node, so no node reaches the Parties handler. */
  function Dispatch(n: Node): (b: Branch)
    ensures b != ToParties
    ensures b == ToParagraph <==> HasType(n, "p") || HasType(n, "block")
  {
    if HasType(n, "mention") then ToMention
    else if HasType(n, "clause") then ToClause
    else if HasType(n, "p") || HasType(n, "block") then ToParagraph
    else if HasType(n, "block") && n.title == Some("Parties") then ToParties
    else if HasType(n, "h1") then ToH1
    else if HasType(n, "h4") then ToH4
    else if HasType(n, "ul") then ToUl
    else if HasType(n, "li") then ToLi
    else if HasType(n, "lic") then ToLic
    else if HasText(n) then ToText
    else ToNull
  }

  /** The types that have a branch of their own. */
  const HandledTypes: set<string> := {"mention", "clause", "p", "block", "h1", "h4", "ul", "li", "lic"}

  /** A node reaches the text branch exactly when its type has no branch of its own
      (an "ol" included) and its text is a non-empty string. */
  lemma DispatchText(n: Node)
    ensures Dispatch(n) == ToText <==> (n.ty.None? || n.ty.value !in HandledTypes) && HasText(n)
  {
  }

  /** Rendering `n` does not throw: every `h4` that rendering reaches has a first
      child (otherwise `renderNode(undefined)` fails on `node.bold`). */
  predicate NoThrow(n: Node)
    decreases Size(n), 1
  {
    SizeOfNode(n);
    var b := Dispatch(n);
    if b == ToParagraph then ParagraphNoThrow(n)
    else if b == ToText || b == ToNull || b == ToParties then true
    else (b == ToH4 ==> Kids(n) != []) && NoThrowList(Kids(n))
  }

  /** A "p"/"block" node renders its flattened children, through the Agreement
      `map` when its title says so. */
  predicate ParagraphNoThrow(n: Node)
    decreases Size(n), 0
  {
    SizeOfNode(n);
    var processed := Flattened(Kids(n));
    if IsAgreementTitle(n.title) then AgreementNoThrow(processed) else NoThrowList(processed)
  }

  predicate NoThrowList(kids: seq<Node>)
    decreases SumSize(kids), 2
  {
    kids == [] || (NoThrow(kids[0]) && NoThrowList(kids[1..]))
  }

  /** The Agreement section renders only its mention children's children. */
  predicate AgreementNoThrow(kids: seq<Node>)
    decreases SumSize(kids), 2
  {
    kids == [] || (ItemNoThrow(kids[0]) && AgreementNoThrow(kids[1..]))
  }

  predicate ItemNoThrow(k: Node)
    decreases Size(k), 1
  {
    SizeOfNode(k);
    HasType(k, "mention") ==> NoThrowList(Kids(k))
  }

  datatype Rendered = Rendered(out: Out, after: Counters)
  datatype RenderedList = RenderedList(outs: seq<Out>, after: Counters)
  datatype RenderedKids = RenderedKids(kids: ChildOutput, after: Counters)

  /** The `div` or `p` wrapper of the "p"/"block" branch. */
  function Wrap(hasBlockChild: bool, items: seq<Out>): (b: Block)
    ensures b.Div? <==> hasBlockChild
    ensures b.Div? || b.Para?
    ensures b.items == items
  {
    if hasBlockChild then Div(items) else Para(items)
  }

  /** The fragments of a text with line breaks: one per line, the line trimmed, every
      fragment but the last followed by a break. */
  function TextLines(lines: seq<string>, marks: Marks): (r: seq<Line>)
    ensures |r| == |lines|
    ensures forall i :: 0 <= i < |r| ==> r[i].text == Trim(lines[i]) && r[i].marks == marks
    ensures forall i :: 0 <= i < |r| ==> (r[i].br <==> i < |r| - 1)
  {
    seq(|lines|, i requires 0 <= i < |lines| => Line(Trim(lines[i]), marks, i < |lines| - 1))
  }

  /** `renderNode(node, key, parentMarks)`: the marks are derived first, then the
      node goes to the branch its type selects. */
  function NodeOutput(n: Node, parent: Marks, c: Counters): (r: Rendered)
    requires NoThrow(n)
    decreases Size(n), 2
  {
    var marks := Derive(parent, n);
    match Dispatch(n)
    case ToClause => ClauseOutput(n, marks, c)
    case ToParagraph => ParagraphOutput(n, marks, c)
    case ToH4 => HeadingOutput(n, marks, c)
    case ToText => Rendered(TextOutput(n.text.value, marks), c)
    case ToParties =>
      assert false;
      Rendered(Nothing, c)
    case ToNull => Rendered(Nothing, c)
    case _ => WrapperOutput(Dispatch(n), n, marks, c)
  }

  /** Each branch of `renderNode` in isolation: what the node renders to, and what
      the branch needs in order not to throw. */
  lemma WrapperLink(n: Node, parent: Marks, c: Counters)
    requires NoThrow(n) && IsWrapper(Dispatch(n))
    ensures NoThrowList(Kids(n))
    ensures NodeOutput(n, parent, c) == WrapperOutput(Dispatch(n), n, Derive(parent, n), c)
  {
  }

  lemma ClauseLink(n: Node, parent: Marks, c: Counters)
    requires NoThrow(n) && Dispatch(n) == ToClause
    ensures NoThrowList(Kids(n))
    ensures NodeOutput(n, parent, c) == ClauseOutput(n, Derive(parent, n), c)
  {
  }

  lemma ParagraphLink(n: Node, parent: Marks, c: Counters)
    requires NoThrow(n) && Dispatch(n) == ToParagraph
    ensures ParagraphNoThrow(n)
    ensures NodeOutput(n, parent, c) == ParagraphOutput(n, Derive(parent, n), c)
  {
  }

  lemma HeadingLink(n: Node, parent: Marks, c: Counters)
    requires NoThrow(n) && Dispatch(n) == ToH4
    ensures Kids(n) != [] && NoThrowList(Kids(n))
    ensures NodeOutput(n, parent, c) == HeadingOutput(n, Derive(parent, n), c)
  {
  }

  lemma TextLink(n: Node, parent: Marks, c: Counters)
    requires Dispatch(n) == ToText
    ensures NoThrow(n)
    ensures NodeOutput(n, parent, c) == Rendered(TextOutput(n.text.value, Derive(parent, n)), c)
  {
  }

  /** The branches that only wrap the rendered children: mention, h1, ul, li, lic. */
  predicate IsWrapper(b: Branch) {
    b == ToMention || b == ToH1 || b == ToUl || b == ToLi || b == ToLic
  }

  /** The element of a wrapper branch around the rendered children. */
  function WrapperBlock(b: Branch, color: Option<string>, kids: ChildOutput): (r: Block)
    requires IsWrapper(b)
    ensures (r.MentionEl? || r.H1? || r.Ul? || r.Li? || r.Lic?) && r.kids == kids
    ensures r.MentionEl? <==> b == ToMention
    ensures r.MentionEl? ==> r.color == color
    ensures r.H1? <==> b == ToH1
    ensures r.Ul? <==> b == ToUl
    ensures r.Li? <==> b == ToLi
    ensures r.Lic? <==> b == ToLic
  {
    match b
    case ToMention => MentionEl(color, kids)
    case ToH1 => H1(kids)
    case ToUl => Ul(kids)
    case ToLi => Li(kids)
    case ToLic => Lic(kids)
  }

  /** A mention, h1, ul, li or lic node: its children rendered under `marks`. */
  function WrapperOutput(b: Branch, n: Node, marks: Marks, c: Counters): (r: Rendered)
    requires IsWrapper(b) && NoThrowList(Kids(n))
    decreases Size(n), 1
  {
    SizeOfNode(n);
    var kids := ChildrenOutput(n.children, marks, c);
    Rendered(Elem(WrapperBlock(b, n.color, kids.kids)), kids.after)
  }

  /** A clause: its label is taken from the counters before its children render. */
  function ClauseOutput(n: Node, marks: Marks, c: Counters): (r: Rendered)
    requires NoThrowList(Kids(n))
    decreases Size(n), 1
  {
    SizeOfNode(n);
    var s := ClauseStep(c, n.title);
    var kids := ChildrenOutput(n.children, marks, s.next);
    Rendered(Elem(ClauseEl(s.numberedAs.index, s.numberedAs.isDefinition, kids.kids)), kids.after)
  }

  /** A "p" or "block" node: its flattened children, through the Agreement `map` or
      rendered as usual, inside a `div` or a `p`. */
  function ParagraphOutput(n: Node, marks: Marks, c: Counters): (r: Rendered)
    requires ParagraphNoThrow(n)
    decreases Size(n), 1
  {
    SizeOfNode(n);
    var processed := Flattened(Kids(n));
    var items :=
      if IsAgreementTitle(n.title) then AgreementOutput(processed, marks, c)
      else ListOutput(processed, marks, c);
    Rendered(Elem(Wrap(HasBlockChild(processed), items.outs)), items.after)
  }

  /** An `h4`: the first child under `marks`, the others (if any) under `{}`. */
  function HeadingOutput(n: Node, marks: Marks, c: Counters): (r: Rendered)
    requires Kids(n) != [] && NoThrowList(Kids(n))
    decreases Size(n), 1
  {
    SizeOfNode(n);
    var title := NodeOutput(Kids(n)[0], marks, c);
    if |Kids(n)| == 1 then
      Rendered(Elem(H4(title.out, NoOutput)), title.after)
    else
      var desc := ListOutput(Kids(n)[1..], NoMarks, title.after);
      Rendered(Elem(H4(title.out, Outputs(desc.outs))), desc.after)
  }

  /** The heading's output in one piece: without a description part the counters
      are where the title left them, as after rendering an empty list. */
  lemma HeadingShape(n: Node, marks: Marks, c: Counters)
    requires Kids(n) != [] && NoThrowList(Kids(n))
    ensures NoThrow(Kids(n)[0]) && NoThrowList(Kids(n)[1..])
    ensures var title := NodeOutput(Kids(n)[0], marks, c);
            var desc := ListOutput(Kids(n)[1..], NoMarks, title.after);
            HeadingOutput(n, marks, c)
              == Rendered(Elem(H4(title.out, if desc.outs == [] then NoOutput else Outputs(desc.outs))), desc.after)
  {
    SizeOfNode(n);
  }

  /** A text leaf: several trimmed lines when it holds a newline, else one span. */
  function TextOutput(text: string, marks: Marks): (r: Out)
  {
    var lines := Split(text, '\n');
    if |lines| > 1 then Lines(TextLines(lines, marks)) else Elem(Span(text, marks))
  }

  /** `renderChildren(children, marks)`: `null` without an array, else one output
      per child. */
  function ChildrenOutput(ch: Children, marks: Marks, c: Counters): (r: RenderedKids)
    requires ch.Array? ==> NoThrowList(ch.items)
    ensures ch.Absent? <==> r.kids.NoOutput?
    ensures ch.Array? ==> |r.kids.items| == |ch.items|
    decreases if ch.Array? then SumSize(ch.items) else 0, 4
  {
    match ch
    case Absent => RenderedKids(NoOutput, c)
    case Array(kids) =>
      var l := ListOutput(kids, marks, c);
      RenderedKids(Outputs(l.outs), l.after)
  }

  /** `children.map(renderNode)`, left to right, each child seeing the counters its
      elder siblings left. */
  function ListOutput(kids: seq<Node>, marks: Marks, c: Counters): (r: RenderedList)
    requires NoThrowList(kids)
    ensures |r.outs| == |kids|
    decreases SumSize(kids), 3
  {
    if kids == [] then RenderedList([], c)
    else
      var head := NodeOutput(kids[0], marks, c);
      var tail := ListOutput(kids[1..], marks, head.after);
      RenderedList([head.out] + tail.outs, tail.after)
  }

  /** The "Agreement to Provide Services" `map`: one span per child, one level deep. */
  function AgreementOutput(kids: seq<Node>, marks: Marks, c: Counters): (r: RenderedList)
    requires AgreementNoThrow(kids)
    ensures |r.outs| == |kids|
    ensures forall i :: 0 <= i < |kids| ==>
              && r.outs[i].Elem?
              && (r.outs[i].block.ClassSpan? || r.outs[i].block.HighlightSpan?)
              && r.outs[i].block.classes == Marks(kids[i].bold, kids[i].underline)
              && (r.outs[i].block.HighlightSpan? <==> HasType(kids[i], "mention"))
    ensures forall i :: 0 <= i < |kids| && !HasType(kids[i], "mention") ==>
              r.outs[i] == Elem(ClassSpan(kids[i].text, Marks(kids[i].bold, kids[i].underline)))
    decreases SumSize(kids), 3
  {
    if kids == [] then RenderedList([], c)
    else
      var head := AgreementItem(kids[0], marks, c);
      var tail := AgreementOutput(kids[1..], marks, head.after);
      RenderedList([head.out] + tail.outs, tail.after)
  }

  /** One child of the Agreement section, classed by its own flags only: a mention
      becomes a highlighted span around its children rendered under the section's
      marks; any other child becomes a span holding its own `text`. */
  function AgreementItem(k: Node, marks: Marks, c: Counters): (r: Rendered)
    requires ItemNoThrow(k)
    ensures r.out.Elem? && (r.out.block.ClassSpan? || r.out.block.HighlightSpan?)
    ensures r.out.block.classes == Marks(k.bold, k.underline)
    ensures r.out.block.HighlightSpan? <==> HasType(k, "mention")
    ensures r.out.block.HighlightSpan? ==> r.out.block.background == k.color
    ensures !HasType(k, "mention") ==> r.out == Elem(ClassSpan(k.text, Marks(k.bold, k.underline))) && r.after == c
    decreases Size(k), 2
  {
    SizeOfNode(k);
    var classes := Marks(k.bold, k.underline);
    if HasType(k, "mention") then
      var inner := ChildrenOutput(k.children, marks, c);
      Rendered(Elem(HighlightSpan(k.color, classes, inner.kids)), inner.after)
    else
      Rendered(Elem(ClassSpan(k.text, classes)), c)
  }

  /** `data?.[0]?.children || []`: the top-level nodes of the document. */
  function DocumentRoots(data: Option<seq<Node>>): (r: seq<Node>)
    ensures data.None? || data.value == [] ==> r == []
    ensures data.Some? && data.value != [] ==> r == Kids(data.value[0])
  {
    if data.Some? && data.value != [] then Kids(data.value[0]) else []
  }

  /** `mention.children?.[0]?.text ?? ""` */
  function PartyName(k: Node): (r: string)
    ensures Kids(k) != [] && Kids(k)[0].text.Some? ==> r == Kids(k)[0].text.value
    ensures Kids(k) == [] || Kids(k)[0].text.None? ==> r == ""
  {
    if Kids(k) != [] && Kids(k)[0].text.Some? then Kids(k)[0].text.value else ""
  }

  /** The numbered party lines: the i-th mention with the i-th label, numbered from 1;
      a mention without a label gets the empty string as its role. */
  function PartyLines(mentions: seq<Node>, labels: seq<Node>): (r: seq<Out>)
    ensures |r| == |mentions|
    ensures forall i :: 0 <= i < |r| ==> r[i].Elem? && r[i].block.PartyLine?
    ensures forall i :: 0 <= i < |r| ==>
              && r[i].block.number == i + 1
              && r[i].block.color == mentions[i].color
              && r[i].block.name == PartyName(mentions[i])
    ensures forall i :: 0 <= i < |r| ==>
              r[i].block.role == (if i < |labels| && labels[i].text.Some? then labels[i].text.value else "")
  {
    seq(|mentions|, i requires 0 <= i < |mentions| =>
      Elem(PartyLine(i + 1, mentions[i].color, PartyName(mentions[i]),
                     if i < |labels| && labels[i].text.Some? then labels[i].text.value else "")))
  }

  /** The Parties handler would throw on a party paragraph without `children`, and
      on whatever its remaining children throw on. */
  predicate PartiesNoThrow(n: Node) {
    var para := FirstParagraph(Kids(n));
    para.Some? ==>
      && para.value.children.Array?
      && NoThrowList(para.value.children.items[PrefixLen(para.value.children.items)..])
  }

  /** What the Parties handler returns: `null` without a party paragraph; otherwise
      a `div` holding one numbered line per mention of the collected prefix, then
      the rest of the paragraph's children rendered under the node's marks. */
  function PartiesOutput(n: Node, parent: Marks, c: Counters): (r: Rendered)
    requires PartiesNoThrow(n)
    ensures r.out.Nothing? <==> FirstParagraph(Kids(n)).None?
    ensures r.out.Nothing? ==> r.after == c
    ensures r.out.Elem? ==>
              var kids := FirstParagraph(Kids(n)).value.children.items;
              var p := PrefixLen(kids);
              && r.out.block.Div?
              && |r.out.block.items| == |MentionsOf(kids[..p])| + |kids| - p
  {
    match FirstParagraph(Kids(n))
    case None => Rendered(Nothing, c)
    case Some(para) =>
      var kids := para.children.items;
      var p := PrefixLen(kids);
      var rest := ListOutput(kids[p..], Derive(parent, n), c);
      Rendered(Elem(Div(PartyLines(MentionsOf(kids[..p]), OthersOf(kids[..p])) + rest.outs)), rest.after)
  }
}
