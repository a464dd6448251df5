/**
 * The content script: `extractTextContent` serialises a message element to
 * markdown-like text, and `extractConversation` turns the page's message
 * containers into the conversation record, at most one message per container.
 */
module Content {
  import opened JsString
  import opened Dom

  // ----- extractTextContent -----

  /**
   * The text `extractTextContent` returns for a present node: what its children
   * contribute, in order, trimmed.
   */
  function Extract(n: Node): string
    decreases Size(n), 3, 0
  {
    SizeUnfold(n);
    Trim(RenderNodes(Children(n)))
  }

  /** The untrimmed text accumulated over a run of sibling nodes. */
  function RenderNodes(cs: seq<Node>): string
    decreases SizeAll(cs), 5, 0
  {
    if cs == [] then "" else RenderNodes(cs[..|cs| - 1]) + Piece(cs[|cs| - 1])
  }

  /** How an element is rendered, chosen by its lower-cased tag name. */
  datatype Kind = LineBreak | Paragraph | CodeBlock | List | Heading | Inline

  /** The tag tests, in the order they are made. */
  function KindOf(t: string): (k: Kind)
    ensures k == LineBreak <==> t == "br"
    ensures k == Paragraph <==> t == "p"
    ensures k == CodeBlock <==> t == "pre" || t == "code"
    ensures k == List <==> t == "ul" || t == "ol"
    ensures k == Heading <==> t == "h1" || t == "h2" || t == "h3"
  {
    if t == "br" then LineBreak
    else if t == "p" then Paragraph
    else if t == "pre" || t == "code" then CodeBlock
    else if t == "ul" || t == "ol" then List
    else if t == "h1" || t == "h2" || t == "h3" then Heading
    else Inline
  }

  /** What one child node adds to its parent's text, by node kind and tag name. */
  function Piece(c: Node): string
    decreases Size(c), 4, 0
  {
    match c
    case Text(s) => s
    case Other => ""
    case Element(tag, _) =>
      match KindOf(Lower(tag))
      case LineBreak => "\n"
      case Paragraph => Extract(c) + "\n\n"
      case CodeBlock => "```\n" + TextContent(c) + "\n```\n"
      case List => ListBlock(ListItems(c), Size(c)) + "\n"
      case Heading => "\n### " + Extract(c) + "\n\n"
      case Inline => Extract(c)
  }

  /** One bullet line per list item, in the order given. */
  function ListBlock(items: seq<Node>, ghost bound: nat): string
    requires forall k :: 0 <= k < |items| ==> Size(items[k]) < bound
    decreases bound, 2, |items|
  {
    if items == [] then ""
    else ListBlock(items[..|items| - 1], bound) + Bullet(items[|items| - 1])
  }

  /** The bullet line of one list item. */
  function Bullet(item: Node): string
    decreases Size(item), 3, 1
  {
    "- " + Extract(item) + "\n"
  }

  /**
   * `extractTextContent(element)`: the empty string for an absent element,
   * otherwise the children's contributions accumulated in a loop and trimmed.
   */
  method ExtractTextContent(element: Option<Node>) returns (text: string)
    ensures element.None? ==> text == ""
    ensures element.Some? ==> text == Extract(element.value)
    ensures NoEdgeWs(text)
    decreases if element.Some? then Size(element.value) else 0, 2
  {
    if element.None? {
      return "";
    }
    var node := element.value;
    var children := Children(node);
    text := "";
    for i := 0 to |children|
      invariant text == RenderNodes(children[..i])
    {
      assert children[..i + 1][..i] == children[..i];
      ChildSmaller(node, i);
      var piece := ChildText(children[i]);
      text := text + piece;
    }
    assert children[..|children|] == children;
    text := Trim(text);
  }

  /** The body of `extractTextContent`'s loop: the text one child node adds. */
  method ChildText(child: Node) returns (piece: string)
    ensures piece == Piece(child)
    decreases Size(child), 3
  {
    match child {
      case Text(s) =>
        piece := s;
      case Other =>
        piece := "";
      case Element(tag, _) =>
        match KindOf(Lower(tag)) {
          case LineBreak =>
            piece := "\n";
          case Paragraph =>
            var inner := ExtractTextContent(Some(child));
            piece := inner + "\n\n";
          case CodeBlock =>
            piece := "```\n" + TextContent(child) + "\n```\n";
          case List =>
            piece := ListText(child);
          case Heading =>
            var inner := ExtractTextContent(Some(child));
            piece := "\n### " + inner + "\n\n";
          case Inline =>
            piece := ExtractTextContent(Some(child));
        }
    }
  }

  /** A `ul` or `ol`: one bullet line per `li` found inside it, then a blank line. */
  method ListText(list: Node) returns (piece: string)
    requires list.Element?
    ensures piece == ListBlock(ListItems(list), Size(list)) + "\n"
    decreases Size(list), 1
  {
    var items := ListItems(list);
    piece := "";
    for j := 0 to |items|
      invariant piece == ListBlock(items[..j], Size(list))
    {
      ListBlockStep(items, j, Size(list));
      var line := ExtractTextContent(Some(items[j]));
      piece := piece + ("- " + line + "\n");
    }
    assert items[..|items|] == items;
    piece := piece + "\n";
  }

  /** One more item adds its bullet line. */
  lemma ListBlockStep(items: seq<Node>, j: nat, bound: nat)
    requires j < |items| && forall k :: 0 <= k < |items| ==> Size(items[k]) < bound
    ensures ListBlock(items[..j + 1], bound) == ListBlock(items[..j], bound) + Bullet(items[j])
  {
    assert items[..j + 1][..j] == items[..j];
  }

  /** Rendering distributes over a split of the sibling run. */
  lemma {:induction false} RenderNodesAppend(a: seq<Node>, b: seq<Node>)
    ensures RenderNodes(a + b) == RenderNodes(a) + RenderNodes(b)
    decreases |b|
  {
    if b == [] {
      assert a + b == a;
    } else {
      assert (a + b)[..|a + b| - 1] == a + b[..|b| - 1];
      RenderNodesAppend(a, b[..|b| - 1]);
      AppendAssoc(RenderNodes(a), RenderNodes(b[..|b| - 1]), Piece(b[|b| - 1]));
    }
  }

  /** Text nodes are copied verbatim: a run of text nodes renders as its `textContent`. */
  lemma {:induction false} TextRunVerbatim(cs: seq<Node>)
    requires forall k :: 0 <= k < |cs| ==> cs[k].Text?
    ensures RenderNodes(cs) == TextContentAll(cs)
  {
    if cs != [] {
      TextRunVerbatim(cs[..|cs| - 1]);
    }
  }

  /** Nodes that are neither text nor elements contribute nothing wherever they stand. */
  lemma OtherNodeIgnored(a: seq<Node>, b: seq<Node>)
    ensures RenderNodes(a + [Other] + b) == RenderNodes(a + b)
  {
    RenderNodesAppend(a + [Other], b);
    RenderNodesAppend(a, b);
    assert (a + [Other])[..|a|] == a;
  }

  /**
   * A `pre` or `code` block is fenced raw text: two such elements whose
   * `textContent` agrees render the same, whatever markup they contain.
   */
  lemma CodeBlockIsRaw(tag: string, cs1: seq<Node>, cs2: seq<Node>)
    requires Lower(tag) == "pre" || Lower(tag) == "code"
    requires TextContentAll(cs1) == TextContentAll(cs2)
    ensures Piece(Element(tag, cs1)) == Piece(Element(tag, cs2)) == "```\n" + TextContentAll(cs1) + "\n```\n"
  {
  }

  // A list item holding a nested list, `<ul><li>a<ul><li>b</li></ul></li></ul>`,
  // for item texts a and b.
  function InnerItem(b: string): Node { Element("li", [Text(b)]) }
  function InnerList(b: string): Node { Element("ul", [InnerItem(b)]) }
  function OuterItem(a: string, b: string): Node { Element("li", [Text(a), InnerList(b)]) }
  function OuterList(a: string, b: string): Node { Element("ul", [OuterItem(a, b)]) }

  /** The tag names of the example, lower-cased and classified. */
  lemma ExampleTags()
    ensures Lower("li") == "li" && KindOf("li") == Inline
    ensures Lower("ul") == "ul" && KindOf("ul") == List
  {
    assert Lower("li") == [LowerChar('l')] + Lower("i");
    assert Lower("ul") == [LowerChar('u')] + Lower("l");
  }

  /** The inner list's only item. */
  lemma InnerListItems(b: string)
    ensures ListItems(InnerList(b)) == [InnerItem(b)]
  {
    ExampleTags();
    DescendantItemsOne(Text(b));
    DescendantItemsOne(InnerItem(b));
  }

  /** A text node holds no items. */
  lemma TextHoldsNoItems(a: string)
    ensures DescendantItems([Text(a)]) == []
  {
    DescendantItemsOne(Text(a));
  }

  /** The inner list, as a child, contributes its one item. */
  lemma InnerListAsChild(b: string)
    ensures DescendantItems([InnerList(b)]) == [InnerItem(b)]
  {
    ExampleTags();
    InnerListItems(b);
    DescendantItemsOne(InnerList(b));
  }

  /** The outer item's children hold one item, the nested one. */
  lemma OuterChildItems(a: string, b: string)
    ensures DescendantItems(Children(OuterItem(a, b))) == [InnerItem(b)]
  {
    TextHoldsNoItems(a);
    InnerListAsChild(b);
    DescendantItemsTwo(Text(a), InnerList(b));
  }

  /** `querySelectorAll('li')` on the outer list returns the outer item and then the nested one. */
  lemma NestedListItems(a: string, b: string)
    ensures ListItems(OuterList(a, b)) == [OuterItem(a, b), InnerItem(b)]
  {
    ExampleTags();
    OuterChildItems(a, b);
    DescendantItemsOne(OuterItem(a, b));
  }

  /** A run of one node renders as that node's piece. */
  lemma RenderOne(x: Node)
    ensures RenderNodes([x]) == Piece(x)
  {
    assert [x][..0] == [];
  }

  /** A run of two nodes renders as their pieces in turn. */
  lemma RenderTwo(x: Node, y: Node)
    ensures RenderNodes([x, y]) == Piece(x) + Piece(y)
  {
    assert [x, y][..1] == [x];
    RenderOne(x);
  }

  /** One item gives one bullet line. */
  lemma ListBlockOne(x: Node, bound: nat)
    requires Size(x) < bound
    ensures ListBlock([x], bound) == Bullet(x)
  {
    assert [x][..0] == [];
  }

  /** Two items give two bullet lines, in order. */
  lemma ListBlockTwo(x: Node, y: Node, bound: nat)
    requires Size(x) < bound && Size(y) < bound
    ensures ListBlock([x, y], bound) == Bullet(x) + Bullet(y)
  {
    var items := [x, y];
    assert items[..1] == [x];
    assert ListBlock(items, bound) == ListBlock([x], bound) + Bullet(y);
    ListBlockOne(x, bound);
  }

  /** The inner item is just its text. */
  lemma InnerItemText(b: string)
    requires NoEdgeWs(b)
    ensures Extract(InnerItem(b)) == b
  {
    RenderOne(Text(b));
    TrimOfTrimmed(b);
  }

  /** The inner list is one bullet and a blank line. */
  lemma InnerListPiece(b: string)
    requires NoEdgeWs(b)
    ensures Piece(InnerList(b)) == "- " + b + "\n" + "\n"
  {
    ExampleTags();
    InnerListItems(b);
    InnerItemText(b);
    ListPiece(InnerList(b));
    ListBlockOne(InnerItem(b), Size(InnerList(b)));
  }

  /** Trailing blank lines are dropped by `trim`. */
  lemma TrimBlankLines(core: string)
    requires core != [] && NoEdgeWs(core)
    ensures Trim(core + "\n" + "\n") == core
  {
    assert core + "\n" + "\n" == core + "\n\n";
    TrimPadded(core, "\n\n");
  }

  /** The outer item's own text runs the inner list's bullet into its text. */
  lemma OuterItemText(a: string, b: string)
    requires a != [] && NoEdgeWs(a) && b != [] && NoEdgeWs(b)
    ensures Extract(OuterItem(a, b)) == a + "- " + b
  {
    InnerListPiece(b);
    RenderTwo(Text(a), InnerList(b));
    OuterText(a, b);
  }

  /** The outer item's rendered children, trimmed. */
  lemma OuterText(a: string, b: string)
    requires a != [] && NoEdgeWs(a) && b != [] && NoEdgeWs(b)
    ensures Trim(a + ("- " + b + "\n" + "\n")) == a + "- " + b
  {
    var core := a + "- " + b;
    assert a + ("- " + b + "\n" + "\n") == core + "\n" + "\n";
    assert core[0] == a[0] && core[|core| - 1] == b[|b| - 1];
    TrimBlankLines(core);
  }

  /** Both items of the outer list get a bullet, and a blank line closes the list. */
  lemma NestedListBlock(a: string, b: string)
    requires a != [] && NoEdgeWs(a) && b != [] && NoEdgeWs(b)
    ensures Piece(OuterList(a, b)) == "- " + (a + "- " + b) + "\n" + ("- " + b + "\n") + "\n"
  {
    ExampleTags();
    NestedListItems(a, b);
    InnerItemText(b);
    OuterItemText(a, b);
    ListPiece(OuterList(a, b));
    ListBlockTwo(OuterItem(a, b), InnerItem(b), Size(OuterList(a, b)));
  }

  /**
   * A list nested in a list item is rendered twice: once inside the outer
   * item's text and once more as bullets of its own, because
   * `querySelectorAll('li')` also returns nested items.
   */
  lemma NestedListRepeated(a: string, b: string)
    requires a != [] && NoEdgeWs(a) && b != [] && NoEdgeWs(b)
    ensures Extract(Element("div", [OuterList(a, b)])) == "- " + a + "- " + b + "\n- " + b
  {
    NestedListBlock(a, b);
    RenderOne(OuterList(a, b));
    RepeatedText(a, b);
  }

  /** The rendered nested list, regrouped as its trimmed text and the closing blank lines. */
  lemma RepeatedText(a: string, b: string)
    requires b != [] && NoEdgeWs(b)
    ensures var core := "- " + a + "- " + b + "\n- " + b;
      Trim("- " + (a + "- " + b) + "\n" + ("- " + b + "\n") + "\n") == core
  {
    var core := "- " + a + "- " + b + "\n- " + b;
    assert "- " + (a + "- " + b) + "\n" + ("- " + b + "\n") + "\n" == core + "\n" + "\n";
    assert core[0] == '-' && core[|core| - 1] == b[|b| - 1];
    TrimBlankLines(core);
  }

  /** A list element renders as its bullet lines and a blank line. */
  lemma ListPiece(n: Node)
    requires n.Element? && KindOf(Lower(n.tagName)) == List
    ensures Piece(n) == ListBlock(ListItems(n), Size(n)) + "\n"
  {
  }

  // ----- extractConversation -----

  /**
   * What the content script reads from one `div[data-test-render-count]`
   * container. The class, style and selector tests are inputs.
   */
  datatype Container = Container(
    node: Node,                   // the container element (for `textContent`)
    hasFirstChild: bool,          // `firstElementChild` exists
    userClasses: bool,            // first child has classes `mb-1` and `mt-1`
    heightAuto: bool,             // first child's `style.height` is `auto`
    userContent: Option<Node>,    // `querySelector('[data-testid="user-message"]')`
    claudeContent: Option<Node>,  // `querySelector('.font-claude-message')`
    hasUserAvatar: bool)          // `querySelector('.bg-text-200')` found something

  datatype Message = Message(index: nat, role: string, content: string, timestamp: string)

  datatype Metadata = Metadata(
    sourceUrl: string,
    title: string,
    extractedAt: string,
    totalMessages: nat,
    extractionMethod: string)

  datatype Conversation = Conversation(metadata: Metadata, messages: seq<Message>)

  /** The assistant test: `style.height === 'auto'` or a `.font-claude-message` inside. */
  predicate LooksLikeClaude(c: Container)
  {
    c.heightAuto || c.claudeContent.Some?
  }

  /** Minimum trimmed `textContent` length (exclusive) for the fallback to keep a container. */
  const FallbackMinLength := 10

  /**
   * The message a container yields at position `index`, if any. The user flag
   * is tested first, then the assistant flag, then the text-length fallback.
   */
  function Classify(c: Container, index: nat, timestamp: string): (r: Option<Message>)
    ensures r.Some? ==> c.hasFirstChild && r.value.index == index && r.value.timestamp == timestamp
    ensures r.Some? ==> (r.value.role == "user" || r.value.role == "assistant") && NoEdgeWs(r.value.content)
    ensures c.hasFirstChild && c.userClasses && c.userContent.None? ==> r.None?
    ensures c.hasFirstChild && !c.userClasses && LooksLikeClaude(c) && c.claudeContent.None? ==> r.None?
    ensures r.Some? && !c.userClasses && !LooksLikeClaude(c) ==> |r.value.content| > FallbackMinLength
    // a user-flagged container yields its user message, whatever the assistant tests say
    ensures c.hasFirstChild && c.userClasses && c.userContent.Some? ==>
      r == Some(Message(index, "user", Extract(c.userContent.value), timestamp))
    // otherwise an assistant-flagged container yields its assistant message
    ensures c.hasFirstChild && !c.userClasses && LooksLikeClaude(c) && c.claudeContent.Some? ==>
      r == Some(Message(index, "assistant", Extract(c.claudeContent.value), timestamp))
    // the fallback keeps exactly the containers whose trimmed text is longer than the minimum
    ensures c.hasFirstChild && !c.userClasses && !LooksLikeClaude(c) ==>
      (r.Some? <==> |Trim(TextContent(c.node))| > FallbackMinLength)
    ensures c.hasFirstChild && !c.userClasses && !LooksLikeClaude(c) && r.Some? ==>
      r.value.content == Trim(TextContent(c.node)) &&
      r.value.role == (if c.hasUserAvatar then "user" else "assistant")
  {
    if !c.hasFirstChild then None
    else if c.userClasses then
      match c.userContent
      case None => None
      case Some(u) => Some(Message(index, "user", Extract(u), timestamp))
    else if LooksLikeClaude(c) then
      match c.claudeContent
      case None => None
      case Some(a) => Some(Message(index, "assistant", Extract(a), timestamp))
    else
      var text := Trim(TextContent(c.node));
      if |text| > FallbackMinLength then
        Some(Message(index, if c.hasUserAvatar then "user" else "assistant", text, timestamp))
      else None
  }

  /** The messages the containers yield, in container order. */
  function Messages(cs: seq<Container>, stamp: nat -> string): seq<Message>
  {
    if cs == [] then []
    else
      var i := |cs| - 1;
      Messages(cs[..i], stamp)
        + match Classify(cs[i], i, stamp(i)) case None => [] case Some(m) => [m]
  }

  /**
   * Each message comes from the container at its `index`: there are at most as
   * many messages as containers, and every message is what its container yields.
   */
  lemma {:induction false} MessagesFromContainers(cs: seq<Container>, stamp: nat -> string)
    ensures |Messages(cs, stamp)| <= |cs|
    ensures forall k :: 0 <= k < |Messages(cs, stamp)| ==>
      var m := Messages(cs, stamp)[k];
      m.index < |cs| && Classify(cs[m.index], m.index, stamp(m.index)) == Some(m)
  {
    if cs != [] {
      var i := |cs| - 1;
      var prev := Messages(cs[..i], stamp);
      MessagesFromContainers(cs[..i], stamp);
      var ms := Messages(cs, stamp);
      forall k | 0 <= k < |ms|
        ensures ms[k].index < |cs| && Classify(cs[ms[k].index], ms[k].index, stamp(ms[k].index)) == Some(ms[k])
      {
        if k < |prev| {
          assert ms[k] == prev[k];
          assert cs[..i][prev[k].index] == cs[prev[k].index];
        }
      }
    }
  }

  /** Messages keep container order: their indices strictly increase. */
  lemma {:induction false} MessagesIncreasing(cs: seq<Container>, stamp: nat -> string)
    ensures forall j, k :: 0 <= j < k < |Messages(cs, stamp)| ==>
      Messages(cs, stamp)[j].index < Messages(cs, stamp)[k].index
  {
    if cs != [] {
      var i := |cs| - 1;
      var prev := Messages(cs[..i], stamp);
      MessagesIncreasing(cs[..i], stamp);
      MessagesFromContainers(cs[..i], stamp);
      var ms := Messages(cs, stamp);
      forall j, k | 0 <= j < k < |ms| ensures ms[j].index < ms[k].index {
        assert ms[j] == prev[j];
        if k < |prev| {
          assert ms[k] == prev[k];
        }
      }
    }
  }

  /** Every container that yields a message is represented in the result. */
  lemma {:induction false} MessagesComplete(cs: seq<Container>, stamp: nat -> string, i: nat)
    requires i < |cs| && Classify(cs[i], i, stamp(i)).Some?
    ensures exists k :: 0 <= k < |Messages(cs, stamp)| && Messages(cs, stamp)[k].index == i
  {
    var n := |cs| - 1;
    var ms := Messages(cs, stamp);
    if i == n {
      assert ms[|ms| - 1].index == i;
    } else {
      assert cs[..n][i] == cs[i];
      MessagesComplete(cs[..n], stamp, i);
      var k :| 0 <= k < |Messages(cs[..n], stamp)| && Messages(cs[..n], stamp)[k].index == i;
      assert ms[k].index == i;
    }
  }

  const DefaultTitle := "Claude Conversation"

  /**
   * `extractConversation`: one pass over the containers pushing each yielded
   * message, then the metadata record. The URL, the document title and the
   * clock readings are inputs.
   */
  method ExtractConversation(
    containers: seq<Container>, sourceUrl: string, documentTitle: string,
    stamp: nat -> string, extractedAt: string)
    returns (conv: Conversation)
    ensures conv.messages == Messages(containers, stamp)
    ensures conv.metadata.totalMessages == |conv.messages|
    ensures conv.metadata.title == if documentTitle == "" then DefaultTitle else documentTitle
    ensures conv.metadata.sourceUrl == sourceUrl && conv.metadata.extractedAt == extractedAt
    ensures conv.metadata.extractionMethod == "browser_extension"
  {
    var messages: seq<Message> := [];
    for index := 0 to |containers|
      invariant messages == Messages(containers[..index], stamp)
    {
      var container := containers[index];
      assert containers[..index + 1][..index] == containers[..index];
      if container.hasFirstChild {
        var isUser := container.userClasses;
        var isClaude := container.heightAuto || container.claudeContent.Some?;
        if isUser {
          if container.userContent.Some? {
            var content := ExtractTextContent(container.userContent);
            messages := messages + [Message(index, "user", content, stamp(index))];
          }
        } else if isClaude {
          if container.claudeContent.Some? {
            var content := ExtractTextContent(container.claudeContent);
            messages := messages + [Message(index, "assistant", content, stamp(index))];
          }
        }
        if !isUser && !isClaude {
          var textContent := TextContent(container.node);
          if |Trim(textContent)| > FallbackMinLength {
            var role := if container.hasUserAvatar then "user" else "assistant";
            messages := messages + [Message(index, role, Trim(textContent), stamp(index))];
          }
        }
      }
    }
    assert containers[..|containers|] == containers;
    var title := if documentTitle == "" then DefaultTitle else documentTitle;
    conv := Conversation(
      Metadata(sourceUrl, title, extractedAt, |messages|, "browser_extension"),
      messages);
  }
}
