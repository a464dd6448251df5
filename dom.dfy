/**
 * The slice of the DOM the content script reads: a tree of text nodes and
 * elements (other node kinds, such as comments, carry nothing it uses), the
 * `textContent` of a node, and `querySelectorAll('li')`.
 */
module Dom {
  import opened JsString

  datatype Node =
    | Text(data: string)
    | Element(tagName: string, childNodes: seq<Node>)
    | Other

  /** `node.childNodes`; text and other nodes have none. */
  function Children(n: Node): seq<Node>
  {
    if n.Element? then n.childNodes else []
  }

  /** Number of nodes in the tree rooted at `n`, used as a termination measure. */
  function Size(n: Node): (r: nat)
    ensures r >= 1
  {
    match n
    case Element(_, cs) => 1 + SizeAll(cs)
    case _ => 1
  }

  function SizeAll(cs: seq<Node>): nat
  {
    if cs == [] then 0 else SizeAll(cs[..|cs| - 1]) + Size(cs[|cs| - 1])
  }

  /** The size of a node counts the node itself and its children. */
  lemma SizeUnfold(n: Node)
    ensures Size(n) == 1 + SizeAll(Children(n))
  {
  }

  /** A node of a sequence is no larger than the whole sequence. */
  lemma {:induction false} SizeAllAt(cs: seq<Node>, i: nat)
    requires i < |cs|
    ensures Size(cs[i]) <= SizeAll(cs)
  {
    if i < |cs| - 1 {
      SizeAllAt(cs[..|cs| - 1], i);
    }
  }

  /** Every child of `n` is smaller than `n`. */
  lemma ChildSmaller(n: Node, i: nat)
    requires i < |Children(n)|
    ensures Size(Children(n)[i]) < Size(n)
  {
    SizeAllAt(Children(n), i);
    SizeUnfold(n);
  }

  /** ASCII lower-casing of one character. */
  function LowerChar(c: char): char
  {
    if 'A' <= c <= 'Z' then (c as int - 'A' as int + 'a' as int) as char else c
  }

  /** `tagName.toLowerCase()`. */
  function Lower(s: string): (r: string)
    ensures |r| == |s|
    ensures forall k :: 0 <= k < |s| ==> r[k] == LowerChar(s[k])
  {
    if s == [] then [] else [LowerChar(s[0])] + Lower(s[1..])
  }

  /** The node is an element whose lower-cased tag name is `tag`. */
  predicate HasTag(n: Node, tag: string)
  {
    n.Element? && Lower(n.tagName) == tag
  }

  /** `node.textContent`: the data of every descendant text node, in document order. */
  function TextContent(n: Node): string
    decreases Size(n), 1
  {
    match n
    case Text(s) => s
    case Element(_, cs) => TextContentAll(cs)
    case Other => ""
  }

  function TextContentAll(cs: seq<Node>): string
    decreases SizeAll(cs), 2
  {
    if cs == [] then "" else TextContentAll(cs[..|cs| - 1]) + TextContent(cs[|cs| - 1])
  }

  /** The `li` elements among the nodes and their descendants, in document order. */
  function DescendantItems(cs: seq<Node>): (r: seq<Node>)
    ensures forall k :: 0 <= k < |r| ==> HasTag(r[k], "li") && Size(r[k]) <= SizeAll(cs)
    decreases SizeAll(cs)
  {
    if cs == [] then []
    else
      var last := cs[|cs| - 1];
      SizeUnfold(last);
      DescendantItems(cs[..|cs| - 1])
        + (if HasTag(last, "li") then [last] else [])
        + DescendantItems(Children(last))
  }

  /**
   * `n.querySelectorAll('li')`: every descendant `li` element of `n`, nested
   * ones included, in document order; each is strictly inside `n`.
   */
  function ListItems(n: Node): (r: seq<Node>)
    ensures forall k :: 0 <= k < |r| ==> HasTag(r[k], "li") && Size(r[k]) < Size(n)
  {
    SizeUnfold(n);
    DescendantItems(Children(n))
  }

  /** Document order: the items of a concatenation are the items of each part, in turn. */
  lemma {:induction false} DescendantItemsAppend(a: seq<Node>, b: seq<Node>)
    ensures DescendantItems(a + b) == DescendantItems(a) + DescendantItems(b)
    decreases |b|
  {
    if b == [] {
      assert a + b == a;
    } else {
      var last := b[|b| - 1];
      assert (a + b)[..|a + b| - 1] == a + b[..|b| - 1];
      DescendantItemsAppend(a, b[..|b| - 1]);
      SizeUnfold(last);
      var own := if HasTag(last, "li") then [last] else [];
      AppendAssoc(DescendantItems(a), DescendantItems(b[..|b| - 1]), own);
      AppendAssoc(DescendantItems(a), DescendantItems(b[..|b| - 1]) + own, DescendantItems(Children(last)));
    }
  }

  /** The items of a single node: the node itself if it is an `li`, then the items inside it. */
  lemma DescendantItemsOne(x: Node)
    ensures DescendantItems([x]) == (if HasTag(x, "li") then [x] else []) + DescendantItems(Children(x))
  {
    assert [x][..0] == [];
  }

  /** The items of two sibling nodes: those of the first, then those of the second. */
  lemma DescendantItemsTwo(x: Node, y: Node)
    ensures DescendantItems([x, y]) == DescendantItems([x]) + DescendantItems([y])
  {
    assert [x, y] == [x] + [y];
    DescendantItemsAppend([x], [y]);
  }

  /**
   * Nested items are included: an `li` child of `n` is among `n`'s items, and so is
   * every item of any child of `n`.
   */
  lemma ListItemsIncludeNested(n: Node, i: nat)
    requires i < |Children(n)|
    ensures HasTag(Children(n)[i], "li") ==> Children(n)[i] in ListItems(n)
    ensures forall x :: x in ListItems(Children(n)[i]) ==> x in ListItems(n)
  {
    var cs := Children(n);
    assert cs == cs[..i + 1] + cs[i + 1..];
    DescendantItemsAppend(cs[..i + 1], cs[i + 1..]);
    assert cs[..i + 1][..i] == cs[..i];
  }

  /** `textContent` of a concatenation of sibling runs is the concatenation. */
  lemma {:induction false} TextContentAllAppend(a: seq<Node>, b: seq<Node>)
    ensures TextContentAll(a + b) == TextContentAll(a) + TextContentAll(b)
    decreases |b|
  {
    if b == [] {
      assert a + b == a;
    } else {
      assert (a + b)[..|a + b| - 1] == a + b[..|b| - 1];
      TextContentAllAppend(a, b[..|b| - 1]);
      AppendAssoc(TextContentAll(a), TextContentAll(b[..|b| - 1]), TextContent(b[|b| - 1]));
    }
  }
}
