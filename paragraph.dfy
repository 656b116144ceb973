/** What the "p" / "block" branch does before rendering: it collapses nested text
    paragraphs, recognises the "Agreement to Provide Services" section, and decides
    between a `div` and a `p` wrapper. */
module Paragraph {
  import opened Doc
  import opened Strings

  /** A nested `{ type: "p", text }` with a non-empty text: the upstream irregularity. */
  predicate IsTextParagraph(k: Node) {
    HasType(k, "p") && HasText(k)
  }

  /** One child after clean-up: a text paragraph becomes `{ text }`. */
  function FlattenOne(k: Node): (r: Node)
    ensures Size(r) <= Size(k)
  {
    if IsTextParagraph(k) then TextLeaf(k.text.value) else k
  }

  /** The children after the clean-up loop: same length and order; a text paragraph
      becomes a bare text leaf carrying only its text (its own flags and children are
      dropped); every other child is left as it is. */
  function Flattened(kids: seq<Node>): (r: seq<Node>)
    ensures |r| == |kids|
    ensures forall i :: 0 <= i < |kids| ==>
              r[i] == (if IsTextParagraph(kids[i]) then TextLeaf(kids[i].text.value) else kids[i])
    ensures SumSize(r) <= SumSize(kids)
  {
    if kids == [] then [] else [FlattenOne(kids[0])] + Flattened(kids[1..])
  }

  /** The clean-up loop: a copy of the children, overwritten in place where a child
      is a text paragraph. */
  method FlattenChildren(kids: seq<Node>) returns (processed: seq<Node>)
    ensures processed == Flattened(kids)
  {
    var a := new Node[|kids|](i requires 0 <= i < |kids| => kids[i]);
    var i := 0;
    while i < a.Length
      invariant 0 <= i <= a.Length
      invariant forall j :: 0 <= j < i ==> a[j] == FlattenOne(kids[j])
      invariant forall j :: i <= j < a.Length ==> a[j] == kids[j]
    {
      if HasType(a[i], "p") && HasText(a[i]) {
        a[i] := TextLeaf(a[i].text.value);
      }
      i := i + 1;
    }
    processed := a[..];
  }

  /** The types that make a child block-level: `["h1", "h4", "ul", "ol", "clause"]`. */
  predicate IsBlockLevel(k: Node) {
    k.ty.Some? && k.ty.value in ["h1", "h4", "ul", "ol", "clause"]
  }

  /** `processedChildren.some(...)`: whether the wrapper is a `div` rather than a `p`. */
  function HasBlockChild(kids: seq<Node>): (r: bool)
    ensures r <==> exists i :: 0 <= i < |kids| && IsBlockLevel(kids[i])
  {
    if kids == [] then false
    else if IsBlockLevel(kids[0]) then true
    else
      var rest := HasBlockChild(kids[1..]);
      assert forall i :: 1 <= i < |kids| ==> kids[i] == kids[1..][i - 1];
      rest
  }

  /** The clean-up never changes the `div`-or-`p` decision: a text paragraph is not
      block-level, and neither is the leaf it becomes. */
  lemma FlattenKeepsBlockChild(kids: seq<Node>)
    ensures HasBlockChild(Flattened(kids)) == HasBlockChild(kids)
  {
    var f := Flattened(kids);
    forall i | 0 <= i < |kids|
      ensures IsBlockLevel(f[i]) == IsBlockLevel(kids[i])
    {
    }
    if HasBlockChild(kids) {
      var i :| 0 <= i < |kids| && IsBlockLevel(kids[i]);
      assert IsBlockLevel(f[i]);
    }
    if HasBlockChild(f) {
      var i :| 0 <= i < |f| && IsBlockLevel(f[i]);
      assert IsBlockLevel(kids[i]);
    }
  }

  /** `node.title?.toLowerCase() === "agreement to provide services"` */
  predicate IsAgreementTitle(title: Option<string>) {
    title.Some? && Lower(title.value) == "agreement to provide services"
  }

  /** The Agreement test ignores letter case, and a paragraph without a title is
      never the Agreement section. */
  lemma AgreementTitleIgnoresCase(t: string)
    ensures IsAgreementTitle(Some(t)) <==> IsAgreementTitle(Some(Lower(t)))
    ensures !IsAgreementTitle(None)
  {
    LowerIdempotent(t);
  }
}
