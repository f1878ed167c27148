/** The Markdown syntax tree nodes the plugin inspects and builds. */
module Mdast {
  import opened Wrappers
  import opened Errors

  /**
    * An mdast node. Only the node kinds the plugin tells apart get their own
    * constructor; every other kind (heading, list, code, ...) is `Other`.
    * Only paragraphs carry a source line, since markers are paragraphs.
    */
  datatype Node =
    | Paragraph(children: seq<Node>, line: Line)
    | Text(value: string)
    | Emphasis(children: seq<Node>)
    | Strong(children: seq<Node>)
    | Other(kind: string, children: seq<Node>)

  /** A bare inline node: text, emphasis or strong. */
  predicate IsInline(n: Node) {
    n.Text? || n.Emphasis? || n.Strong?
  }

  /** Neither a paragraph nor a bare inline node. */
  predicate IsOther(n: Node) {
    n.Other?
  }

  /** The bold decoration node holding `t`. */
  function Bold(t: string): Node {
    Strong([Text(t)])
  }

  /** The text values of `n`, in reading order. */
  function NodeTexts(n: Node): seq<string>
    decreases n, 1
  {
    match n
    case Text(v) => [v]
    case Paragraph(cs, _) => Texts(cs)
    case Emphasis(cs) => Texts(cs)
    case Strong(cs) => Texts(cs)
    case Other(_, cs) => Texts(cs)
  }

  /** The text values of a node sequence, in reading order. */
  function Texts(ns: seq<Node>): seq<string>
    decreases ns, 0
  {
    if ns == [] then [] else NodeTexts(ns[0]) + Texts(ns[1..])
  }

  /** Reading order distributes over concatenation. */
  lemma {:induction false} TextsAppend(a: seq<Node>, b: seq<Node>)
    ensures Texts(a + b) == Texts(a) + Texts(b)
    decreases |a|
  {
    if a == [] {
      assert a + b == b;
    } else {
      assert (a + b)[1..] == a[1..] + b;
      TextsAppend(a[1..], b);
    }
  }

  lemma TextsSingle(n: Node)
    ensures Texts([n]) == NodeTexts(n)
  {
    assert [n][1..] == [];
  }
}
