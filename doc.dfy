/** The document tree that the editor produces: one node per JSON object.
    Absent JSON fields are `None` (or `false` for the two flags). */
module Doc {

  datatype Option<+T> = None | Some(value: T)

  /** A node of the input tree. `ty` is the `type` string the renderer dispatches on;
      `children` is `None` when the field is absent. */
  datatype Node = Node(
    ty: Option<string>,
    title: Option<string>,
    text: Option<string>,
    bold: bool,
    underline: bool,
    color: Option<string>,
    children: Children)

  /** The `children` field: absent, or an array of nodes. */
  datatype Children = Absent | Array(items: seq<Node>)

  /** `node.children || []` */
  function Kids(n: Node): (r: seq<Node>)
    ensures n.children.Array? ==> r == n.children.items
    ensures n.children.Absent? ==> r == []
  {
    if n.children.Array? then n.children.items else []
  }

  /** `node.type === t` */
  predicate HasType(n: Node, t: string) {
    n.ty == Some(t)
  }

  /** JavaScript truthiness of `node.text`: a string that is not empty. */
  predicate HasText(n: Node) {
    n.text.Some? && n.text.value != ""
  }

  /** The object literal `{ text: s }`: a plain text leaf with no other field. */
  function TextLeaf(s: string): (r: Node)
    ensures r.text == Some(s) && r.ty.None? && r.title.None? && r.color.None? && r.children.Absent?
    ensures !r.bold && !r.underline
  {
    Node(None, None, Some(s), false, false, None, Absent)
  }

  /** Number of nodes in a tree; the termination measure of every traversal. */
  function Size(n: Node): (r: nat)
    decreases n, 1
  {
    match n.children
    case Absent => 1
    case Array(kids) => 1 + SumSize(kids)
  }

  /** Number of nodes in a list of trees. */
  function SumSize(s: seq<Node>): (r: nat)
    ensures s != [] ==> r == Size(s[0]) + SumSize(s[1..])
    decreases s, 0
  {
    if s == [] then 0 else Size(s[0]) + SumSize(s[1..])
  }

  /** A node weighs one more than its children together. */
  lemma SizeOfNode(n: Node)
    ensures Size(n) == 1 + SumSize(Kids(n))
  {
  }

  /** Every element of a list weighs at most the whole list. */
  lemma {:induction false} SizeWithin(s: seq<Node>, i: nat)
    requires i < |s|
    ensures Size(s[i]) <= SumSize(s)
    decreases s
  {
    if i > 0 {
      SizeWithin(s[1..], i - 1);
    }
  }

  /** Dropping the first `k` elements never makes a list heavier. */
  lemma {:induction false} SizeOfSuffix(s: seq<Node>, k: nat)
    requires k <= |s|
    ensures SumSize(s[k..]) <= SumSize(s)
    ensures 0 < k ==> SumSize(s[k..]) < SumSize(s)
    decreases k
  {
    if k > 0 {
      SizeOfSuffix(s[1..], k - 1);
      assert s[1..][k - 1..] == s[k..];
    }
  }
}
