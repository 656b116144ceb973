/** Formatting marks inherited down the tree: `{ ...parentMarks }` followed by
    setting `bold` and `underline` when the node itself has them. */
module MarkContext {
  import opened Doc

  /** The marks object. An absent key and `false` render alike, so both are `false` here. */
  datatype Marks = Marks(bold: bool, underline: bool)

  /** `{}`: the marks of the root call and of the `h4` description. */
  const NoMarks := Marks(false, false)

  /** `m` keeps every flag that `floor` sets. */
  predicate Covers(m: Marks, floor: Marks) {
    (floor.bold ==> m.bold) && (floor.underline ==> m.underline)
  }

  /** The marks a node renders its content with: every inherited flag, plus the
      node's own truthy flags, and nothing else. */
  function Derive(parent: Marks, n: Node): (m: Marks)
    ensures Covers(m, parent)
    ensures n.bold ==> m.bold
    ensures n.underline ==> m.underline
    ensures m.bold ==> parent.bold || n.bold
    ensures m.underline ==> parent.underline || n.underline
  {
    var m := parent;
    var m := if n.bold then m.(bold := true) else m;
    if n.underline then m.(underline := true) else m
  }
}
