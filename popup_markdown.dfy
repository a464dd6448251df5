/**
 * The popup's two markdown builders: `convertToMarkdown` for an extracted
 * conversation and `convertToCompressedMarkdown` for a compressed one. The
 * clock reading (`toLocaleString`) is an input.
 */
module PopupMarkdown {
  import opened JsString
  import opened Content

  const UserLabel := "\U{1F464} **User**"
  const ClaudeLabel := "\U{1F916} **Claude**"

  /** Role `user` is labelled User; every other role is labelled Claude. */
  function RoleLabel(role: string): (r: string)
    ensures r == UserLabel || r == ClaudeLabel
    ensures r == UserLabel <==> role == "user"
  {
    if role == "user" then UserLabel else ClaudeLabel
  }

  // ----- convertToMarkdown -----

  const Separator := "---\n\n"

  /** Title, extraction time, message count and the header rule. */
  function Header(count: nat, extracted: string): string
  {
    "# Claude Conversation\n\n"
      + "**Extracted:** " + extracted + "\n"
      + "**Messages:** " + NatToString(count) + "\n\n"
      + Separator
  }

  /** The heading naming who spoke. */
  function Heading(m: Message): string
  {
    "## " + RoleLabel(m.role) + "\n\n"
  }

  /** The message text as a paragraph. */
  function Paragraph(m: Message): string
  {
    m.content + "\n\n"
  }

  /** The heading and body one message gets. */
  function Section(m: Message): string
  {
    Heading(m) + Paragraph(m)
  }

  /** The sections of the messages, in message order. */
  function Sections(ms: seq<Message>): (r: seq<string>)
  {
    MapStrings(ms, Section)
  }

  /** The whole document: the header, then the sections with a rule between consecutive ones. */
  function Markdown(ms: seq<Message>, extracted: string): string
  {
    Header(|ms|, extracted) + Join(Sections(ms), Separator)
  }

  /** Appending the heading and the paragraph of message i completes the first i + 1 sections. */
  lemma SectionStep(ms: seq<Message>, i: nat, done: string, body: string)
    requires i < |ms| && done == Join(Sections(ms[..i]), Separator)
    requires body == done + (if 0 < i then Separator else "") + Heading(ms[i]) + Paragraph(ms[i])
    ensures body == Join(Sections(ms[..i + 1]), Separator)
  {
    JoinMapStep(ms, i, Section, Separator);
  }

  /**
   * `convertToMarkdown`: the header, then for each message its section,
   * followed by a rule unless it is the last message.
   */
  method ConvertToMarkdown(messages: seq<Message>, extracted: string) returns (markdown: string)
    ensures markdown == Markdown(messages, extracted)
  {
    var n := |messages|;
    var body := "";
    for index := 0 to n
      invariant body == Join(Sections(messages[..index]), Separator)
        + (if 0 < index < n then Separator else "")
    {
      ghost var done := Join(Sections(messages[..index]), Separator);
      body := body + Heading(messages[index]);
      body := body + Paragraph(messages[index]);
      SectionStep(messages, index, done, body);
      if index < n - 1 {
        body := body + Separator;
      }
    }
    assert messages[..n] == messages;
    markdown := Header(n, extracted) + body;
  }

  /**
   * n messages give n sections and n - 1 rules between them, after the header's
   * own rule: the length is the header, the sections and n - 1 separators.
   */
  lemma MarkdownLength(ms: seq<Message>, extracted: string)
    requires ms != []
    ensures |Markdown(ms, extracted)|
      == |Header(|ms|, extracted)| + TotalLength(Sections(ms)) + (|ms| - 1) * |Separator|
  {
    JoinLength(Sections(ms), Separator);
  }

  /** No rule follows the last message: the document ends with the last section. */
  lemma MarkdownEndsWithLastSection(ms: seq<Message>, extracted: string)
    requires ms != []
    ensures var md := Markdown(ms, extracted); var last := Section(ms[|ms| - 1]);
      |last| <= |md| && md[|md| - |last|..] == last
  {
    var md := Markdown(ms, extracted);
    var j := Join(Sections(ms), Separator);
    var last := Section(ms[|ms| - 1]);
    JoinEndsWithLast(Sections(ms), Separator);
    assert md[|md| - |last|..] == j[|j| - |last|..];
  }

  /** Without messages the document is the header alone. */
  lemma MarkdownEmpty(extracted: string)
    ensures Markdown([], extracted) == Header(0, extracted)
  {
    assert Join(Sections([]), Separator) == "";
  }

  // ----- convertToCompressedMarkdown -----

  /**
   * Title, time, the original message count as the compressed payload reports it
   * (`originalCount`, already rendered), the compressed count, and the rule.
   */
  function CompressedHeader(originalCount: string, count: nat, extracted: string): string
  {
    "# Compressed Claude Conversation\n\n"
      + "**Extracted:** " + extracted + "\n"
      + "**Original messages:** " + originalCount + "\n"
      + "**Compressed messages:** " + NatToString(count) + "\n\n"
      + Separator
  }

  /** One `label: content` block. */
  function Block(m: Message): string
  {
    RoleLabel(m.role) + ": " + m.content + "\n\n"
  }

  /** The blocks of the messages, concatenated in message order. */
  function Blocks(ms: seq<Message>): string
  {
    Concat(MapStrings(ms, Block))
  }

  /**
   * `convertToCompressedMarkdown`: the header reports `messages.length` as the
   * compressed count, then one block per message, in order.
   */
  method ConvertToCompressedMarkdown(originalCount: string, messages: seq<Message>, extracted: string)
    returns (markdown: string)
    ensures markdown == CompressedHeader(originalCount, |messages|, extracted) + Blocks(messages)
  {
    var body := "";
    for i := 0 to |messages|
      invariant body == Blocks(messages[..i])
    {
      ConcatMapStep(messages, i, Block);
      body := body + Block(messages[i]);
    }
    assert messages[..|messages|] == messages;
    markdown := CompressedHeader(originalCount, |messages|, extracted) + body;
  }

  /** Blocks follow message order: the blocks of a concatenation are concatenated. */
  lemma BlocksAppend(a: seq<Message>, b: seq<Message>)
    ensures Blocks(a + b) == Blocks(a) + Blocks(b)
  {
    MapStringsAppend(a, b, Block);
    ConcatAppend(MapStrings(a, Block), MapStrings(b, Block));
  }

  /** The k-th message's block starts right after the blocks of the messages before it. */
  lemma BlockAt(ms: seq<Message>, k: nat)
    requires k < |ms|
    ensures var before := |Blocks(ms[..k])|; var b := Block(ms[k]);
      before + |b| <= |Blocks(ms)| && Blocks(ms)[before..before + |b|] == b
  {
    assert ms == ms[..k] + [ms[k]] + ms[k + 1..];
    BlocksAppend(ms[..k] + [ms[k]], ms[k + 1..]);
    BlocksAppend(ms[..k], [ms[k]]);
    assert Blocks([ms[k]]) == Block(ms[k]) by {
      assert MapStrings([ms[k]], Block) == [Block(ms[k])];
      assert [Block(ms[k])][..0] == [];
    }
  }
}
