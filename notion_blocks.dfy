/** The Markdown that `blocksToMarkdown` of scripts/notion-client.js produces for a block
    tree, as functions. A block's children are materialised: either it has none, or the
    listing of its children (getPageContent under withRetry) returned them, or it failed. */
module NotionBlocks {
  import opened Wrappers
  import opened JsString
  import opened NotionRichText

  datatype Children = NoChildren | Loaded(blocks: seq<Block>) | FetchFailed(message: string)

  datatype Block = Block(id: string, children: Children, body: Body)

  /** The payload of each block type; `caption`s are optional rich-text arrays, `hostname`
      is what `new URL(url).hostname` gives (None when the URL does not parse) and the
      language of a code block is "" when absent. */
  datatype Body =
    | Paragraph(text: seq<RichText>)
    | Heading1(text: seq<RichText>)
    | Heading2(text: seq<RichText>)
    | Heading3(text: seq<RichText>)
    | BulletedListItem(text: seq<RichText>)
    | NumberedListItem(text: seq<RichText>)
    | Code(text: seq<RichText>, language: string)
    | Quote(text: seq<RichText>)
    | Divider
    | LinkPreview(url: string, title: string, description: string, hostname: Option<string>)
    | Mention(mentionType: string)
    | Image(url: string, caption: Option<seq<RichText>>)
    | Callout(text: seq<RichText>, emoji: Option<string>, color: string)
    | Embed(url: string, caption: Option<seq<RichText>>)
    | Bookmark(url: string, caption: Option<seq<RichText>>)
    | Table
    | TableRow(cells: seq<seq<RichText>>)
    // every type the switch has no arm for; it never carries one of the names TypeName gives above
    | Other(typeName: string)

  /** The block's `type` string. */
  function TypeName(b: Body): string {
    match b
      case Paragraph(_) => "paragraph"
      case Heading1(_) => "heading_1"
      case Heading2(_) => "heading_2"
      case Heading3(_) => "heading_3"
      case BulletedListItem(_) => "bulleted_list_item"
      case NumberedListItem(_) => "numbered_list_item"
      case Code(_, _) => "code"
      case Quote(_) => "quote"
      case Divider => "divider"
      case LinkPreview(_, _, _, _) => "link_preview"
      case Mention(_) => "mention"
      case Image(_, _) => "image"
      case Callout(_, _, _) => "callout"
      case Embed(_, _) => "embed"
      case Bookmark(_, _) => "bookmark"
      case Table => "table"
      case TableRow(_) => "table_row"
      case Other(t) => t
  }

  /** The placeholder for a block whose arm throws. */
  function FailurePlaceholder(typeName: string): string {
    "<!-- 块处理失败: " + typeName + " -->\n\n"
  }

  const TablePlaceholder: string := "<!-- 表格处理失败 -->\n\n"

  /** Image URL resolution (processImage, which never throws) is a parameter. */
  type Resolver = string -> string

  // ---------------------------------------------------------------- line prefixes

  /** `line.trim() ? pad + line : line` on every line. */
  function PadLines(lines: seq<string>, pad: string): (r: seq<string>)
    ensures |r| == |lines|
    ensures forall k :: 0 <= k < |r| ==> r[k] == if IsBlank(lines[k]) then lines[k] else pad + lines[k]
  {
    if |lines| == 0 then []
    else [if IsBlank(lines[0]) then lines[0] else pad + lines[0]] + PadLines(lines[1..], pad)
  }

  /** The children of a list item, indented by `pad` on every non-blank line. */
  function Indent(s: string, pad: string): string {
    Join(PadLines(Split(s, '\n'), pad), "\n")
  }

  /** `line.trim() ? "> " + line : ">"` on every line. */
  function QuoteLines(lines: seq<string>): (r: seq<string>)
    ensures |r| == |lines|
    ensures forall k :: 0 <= k < |r| ==> r[k] == if IsBlank(lines[k]) then ">" else "> " + lines[k]
  {
    if |lines| == 0 then []
    else [if IsBlank(lines[0]) then ">" else "> " + lines[0]] + QuoteLines(lines[1..])
  }

  /** The children of a callout, as a quotation. */
  function QuoteBlock(s: string): string {
    Join(QuoteLines(Split(s, '\n')), "\n")
  }

  // ---------------------------------------------------------------- tables

  /** `.replace(/\|/g, "\\|")` on a rendered cell. */
  function EscapePipes(s: string): string {
    ReplaceChar(s, '|', "\\|")
  }

  /** The cells of the `table_row` children, rendered and escaped; other children are skipped. */
  function TableRows(children: seq<Block>): seq<seq<string>> {
    if |children| == 0 then []
    else
      TableRows(children[..|children| - 1])
      + match children[|children| - 1].body
          case TableRow(cells) => [EscapedCells(cells)]
          case _ => []
  }

  function EscapedCells(cells: seq<seq<RichText>>): (r: seq<string>)
    ensures |r| == |cells|
  {
    if |cells| == 0 then [] else EscapedCells(cells[..|cells| - 1]) + [EscapePipes(Runs(cells[|cells| - 1]))]
  }

  function Max(a: nat, b: nat): nat {
    if a < b then b else a
  }

  /** A row after `while (row.length < width) row.push("")`. */
  function Pad(row: seq<string>, width: nat): (r: seq<string>)
    ensures |r| == Max(|row|, width)
    ensures r[..|row|] == row
    ensures forall k :: |row| <= k < |r| ==> r[k] == ""
  {
    if |row| >= width then row
    else
      var r := row + seq(width - |row|, _ => "");
      assert r[..|row|] == row;
      r
  }

  /** `| a | b |` and a newline. */
  function RowLine(cells: seq<string>): string {
    "| " + Join(cells, " | ") + " |\n"
  }

  function Dashes(n: nat): (r: seq<string>)
    ensures |r| == n && forall k :: 0 <= k < n ==> r[k] == "---"
  {
    seq(n, _ => "---")
  }

  /** The data rows, each padded to the header width. */
  function DataLines(rows: seq<seq<string>>, width: nat): string {
    if |rows| == 0 then "" else DataLines(rows[..|rows| - 1], width) + RowLine(Pad(rows[|rows| - 1], width))
  }

  /** The Markdown of a table with these rows: nothing without rows, else the header, the
      separator and the padded data rows, then a blank line. */
  function TableText(rows: seq<seq<string>>): string {
    if |rows| == 0 then ""
    else RowLine(rows[0]) + RowLine(Dashes(|rows[0]|)) + DataLines(rows[1..], |rows[0]|) + "\n"
  }

  // ---------------------------------------------------------------- single-line arms

  function EmbedLine(url: string, caption: string): string {
    if Contains(url, "youtube.com") || Contains(url, "youtu.be") then
      "📺 **视频**: [" + (if caption != "" then caption else "YouTube 视频") + "](" + url + ")\n\n"
    else if Contains(url, "codepen.io") then
      "💻 **CodePen**: [" + (if caption != "" then caption else "CodePen 演示") + "](" + url + ")\n\n"
    else
      "🔗 **嵌入内容**: [" + (if caption != "" then caption else "查看内容") + "](" + url + ")\n\n"
  }

  function LinkPreviewText(url: string, title: string, description: string, hostname: Option<string>): string {
    var fallback := if hostname.Some? then hostname.value else url;
    var linkTitle := if title != "" then title else fallback;
    "### 🔗 [" + linkTitle + "](" + url + ")\n\n"
    + (if description != "" then description + "\n\n" else "")
    + "**链接**: " + url + "\n\n"
  }

  /** The icon text of a callout. `icon?.emoji || "💡"` is a string, and a string has no
      `type`, so the default icon is used whatever the block's icon or colour. */
  function CalloutIcon(emoji: Option<string>, color: string): string {
    var icon := if emoji.Some? && emoji.value != "" then emoji.value else "💡";
    "💡 "
  }

  function CalloutHeader(text: string, emoji: Option<string>, color: string): string {
    "> " + CalloutIcon(emoji, color) + " **注意**\n> \n> " + text + "\n\n"
  }

  // ---------------------------------------------------------------- the renderer

  /** The Markdown of every block in order. */
  function Render(bs: seq<Block>, resolve: Resolver): string
    decreases bs
  {
    if |bs| == 0 then "" else Render(bs[..|bs| - 1], resolve) + RenderBlock(bs[|bs| - 1], resolve)
  }

  /** One block: its arm's output, or the failure placeholder when the arm throws, which
      only a mention block's arm does. */
  function RenderBlock(b: Block, resolve: Resolver): (r: string)
    ensures b.body.Mention? ==> r == FailurePlaceholder("mention")
    ensures !b.body.Mention? ==> RenderArm(b, resolve).Some? && r == RenderArm(b, resolve).value
    decreases b, 2
  {
    match RenderArm(b, resolve)
      case Some(s) => s
      case None => FailurePlaceholder(TypeName(b.body))
  }

  /** The children's Markdown, "" when there are none or the listing failed (the arms that
      swallow child errors). */
  function ChildText(b: Block, resolve: Resolver): string
    decreases b, 0
  {
    match b.children
      case Loaded(kids) => Render(kids, resolve)
      case _ => ""
  }

  /** The output of a block's switch arm; None when the arm throws. */
  function RenderArm(b: Block, resolve: Resolver): Option<string>
    decreases b, 1
  {
    match b.body
      case Paragraph(t) => Some(Runs(t) + "\n\n")
      case Heading1(t) => Some("# " + Runs(t) + "\n\n")
      case Heading2(t) => Some("## " + Runs(t) + "\n\n")
      case Heading3(t) => Some("### " + Runs(t) + "\n\n")
      case BulletedListItem(t) =>
        Some("- " + Runs(t) + "\n" + (if b.children.Loaded? then Indent(ChildText(b, resolve), "  ") else ""))
      case NumberedListItem(t) =>
        Some("1. " + Runs(t) + "\n" + (if b.children.Loaded? then Indent(ChildText(b, resolve), "   ") else ""))
      case Code(t, lang) => Some("```" + lang + "\n" + Runs(t) + "\n```\n\n")
      case Quote(t) => Some("> " + Runs(t) + "\n\n")
      case Divider => Some("---\n\n")
      case LinkPreview(url, title, desc, host) => Some(LinkPreviewText(url, title, desc, host))
      case Mention(_) => None
      case Image(url, caption) =>
        Some("![" + RichTextToMarkdown(caption) + "](" + resolve(url) + ")\n\n")
      case Callout(t, emoji, color) =>
        Some(CalloutHeader(Runs(t), emoji, color)
          + (if b.children.Loaded? then QuoteBlock(ChildText(b, resolve)) + "\n\n" else ""))
      case Embed(url, caption) => Some(EmbedLine(url, RichTextToMarkdown(caption)))
      case Bookmark(url, caption) =>
        var c := RichTextToMarkdown(caption);
        Some("🔖 **书签**: [" + (if c != "" then c else url) + "](" + url + ")\n\n")
      case Table =>
        Some(match b.children
          case NoChildren => ""
          case FetchFailed(_) => TablePlaceholder
          case Loaded(kids) => TableText(TableRows(kids)))
      case TableRow(_) => Some(ChildText(b, resolve))
      case Other(_) => Some(ChildText(b, resolve))
  }

  // ---------------------------------------------------------------- properties

  /** The output of a block list is the outputs of its parts, in order. */
  lemma {:induction false} RenderAppend(a: seq<Block>, b: seq<Block>, resolve: Resolver)
    ensures Render(a + b, resolve) == Render(a, resolve) + Render(b, resolve)
    decreases |b|
  {
    if |b| == 0 {
      assert a + b == a;
    } else {
      var init, last := b[..|b| - 1], b[|b| - 1];
      assert (a + b)[..|a + b| - 1] == a + init;
      assert (a + b)[|a + b| - 1] == last;
      RenderAppend(a, init, resolve);
      var m := RenderBlock(last, resolve);
      assert Render(a + b, resolve) == Render(a + init, resolve) + m;
      assert Render(b, resolve) == Render(init, resolve) + m;
      AssociateStrings(Render(a, resolve), Render(init, resolve), m);
    }
  }

  lemma AssociateStrings(x: string, y: string, z: string)
    ensures (x + y) + z == x + (y + z)
  {
  }

  /** A block that throws costs its siblings nothing: it contributes exactly its placeholder.
      A mention block always throws. */
  lemma MentionIsolated(before: seq<Block>, m: Block, after: seq<Block>, resolve: Resolver)
    requires m.body.Mention?
    ensures Render(before + [m] + after, resolve)
      == Render(before, resolve) + FailurePlaceholder("mention") + Render(after, resolve)
  {
    MentionPlaceholder(m, resolve);
    RenderAppend(before + [m], after, resolve);
    RenderAppend(before, [m], resolve);
    RenderOne(m, resolve);
  }

  lemma MentionPlaceholder(m: Block, resolve: Resolver)
    requires m.body.Mention?
    ensures RenderBlock(m, resolve) == FailurePlaceholder("mention")
  {
    assert RenderArm(m, resolve) == None;
  }

  lemma RenderOne(b: Block, resolve: Resolver)
    ensures Render([b], resolve) == RenderBlock(b, resolve)
  {
    assert [b][..0] == [];
  }

  /** A block of an unknown type shows exactly its children's output, or nothing. */
  lemma UnknownShowsChildren(b: Block, resolve: Resolver)
    requires b.body.Other?
    ensures b.children.Loaded? ==> RenderBlock(b, resolve) == Render(b.children.blocks, resolve)
    ensures !b.children.Loaded? ==> RenderBlock(b, resolve) == ""
  {
    assert RenderArm(b, resolve) == Some(ChildText(b, resolve));
  }

  /** A failed child listing is swallowed: except for a table, the block renders as if it
      had no children. */
  lemma ChildFailureSwallowed(b: Block, resolve: Resolver)
    requires b.children.FetchFailed? && !b.body.Table?
    ensures RenderBlock(b, resolve) == RenderBlock(b.(children := NoChildren), resolve)
  {
    var b' := b.(children := NoChildren);
    assert ChildText(b, resolve) == ChildText(b', resolve) == "";
    assert RenderArm(b, resolve) == RenderArm(b', resolve);
  }

  /** A table whose rows cannot be listed renders as the table placeholder. */
  lemma TableFailure(b: Block, resolve: Resolver)
    requires b.body.Table? && b.children.FetchFailed?
    ensures RenderBlock(b, resolve) == TablePlaceholder
  {
  }

  /** The lines of the indented children are the children's lines, each non-blank one
      prefixed with the pad. */
  lemma {:induction false} IndentLines(s: string, pad: string)
    requires '\n' !in pad
    ensures Split(Indent(s, pad), '\n') == PadLines(Split(s, '\n'), pad)
  {
    var lines := PadLines(Split(s, '\n'), pad);
    forall k | 0 <= k < |lines|
      ensures '\n' !in lines[k]
    {
      var line := Split(s, '\n')[k];
      assert forall i :: 0 <= i < |pad + line| ==> (pad + line)[i] in pad || (pad + line)[i] in line;
    }
    SplitJoin(lines, '\n');
  }

  /** The lines of the quoted children: ">" for each blank line, "> " and the line otherwise. */
  lemma {:induction false} QuoteBlockLines(s: string)
    ensures Split(QuoteBlock(s), '\n') == QuoteLines(Split(s, '\n'))
  {
    var lines := QuoteLines(Split(s, '\n'));
    forall k | 0 <= k < |lines|
      ensures '\n' !in lines[k]
    {
      var line := Split(s, '\n')[k];
      assert forall i :: 0 <= i < |"> " + line| ==> ("> " + line)[i] in "> " || ("> " + line)[i] in line;
    }
    SplitJoin(lines, '\n');
  }

  /** The children of a list item: indentation never changes the children's text apart from
      the pad, so taking the pad off the non-blank lines gives them back. */
  lemma ListItemChildLines(b: Block, resolve: Resolver)
    requires b.body.BulletedListItem? && b.children.Loaded?
    ensures var lines := Split(ChildText(b, resolve), '\n');
      var out := Split(Indent(ChildText(b, resolve), "  "), '\n');
      && |out| == |lines|
      && forall k :: 0 <= k < |lines| ==> out[k] == if IsBlank(lines[k]) then lines[k] else "  " + lines[k]
  {
    IndentLines(ChildText(b, resolve), "  ");
  }

  /** Every numbered item is written "1. ", whatever its position. */
  lemma NumberedAlwaysOne(b: Block, resolve: Resolver)
    requires b.body.NumberedListItem?
    ensures StartsWith(RenderBlock(b, resolve), "1. " + Runs(b.body.text) + "\n")
  {
    var head := "1. " + Runs(b.body.text) + "\n";
    var tail := if b.children.Loaded? then Indent(ChildText(b, resolve), "   ") else "";
    assert RenderArm(b, resolve) == Some(head + tail);
    assert (head + tail)[..|head|] == head;
  }

  /** The callout header is the same for every icon and colour. */
  lemma CalloutIconFixed(b: Block, resolve: Resolver)
    requires b.body.Callout?
    ensures StartsWith(RenderBlock(b, resolve), "> 💡  **注意**\n> \n> " + Runs(b.body.text) + "\n\n")
  {
    var head := CalloutHeader(Runs(b.body.text), b.body.emoji, b.body.color);
    CalloutHeaderText(Runs(b.body.text), b.body.emoji, b.body.color);
    var tail := CalloutArm(b, resolve);
    assert (head + tail)[..|head|] == head;
  }

  lemma CalloutHeaderText(text: string, emoji: Option<string>, color: string)
    ensures CalloutHeader(text, emoji, color) == "> 💡  **注意**\n> \n> " + text + "\n\n"
  {
    var p: string := "> " + "💡 " + " **注意**\n> \n> ";
    assert p == "> 💡  **注意**\n> \n> ";
  }

  lemma CalloutArm(b: Block, resolve: Resolver) returns (tail: string)
    requires b.body.Callout?
    ensures RenderBlock(b, resolve) == CalloutHeader(Runs(b.body.text), b.body.emoji, b.body.color) + tail
  {
    tail := if b.children.Loaded? then QuoteBlock(ChildText(b, resolve)) + "\n\n" else "";
    assert RenderArm(b, resolve) == Some(CalloutHeader(Runs(b.body.text), b.body.emoji, b.body.color) + tail);
  }

  /** `\|` back to `|`, scanning left to right. */
  function UnescapePipes(s: string): string {
    if |s| == 0 then ""
    else if |s| >= 2 && s[0] == '\\' && s[1] == '|' then "|" + UnescapePipes(s[2..])
    else [s[0]] + UnescapePipes(s[1..])
  }

  lemma {:induction false} EscapeStartsWithoutPipe(s: string)
    ensures |EscapePipes(s)| == 0 || EscapePipes(s)[0] != '|'
  {
  }

  /** Escaping loses nothing: the cell's text can be recovered. */
  lemma {:induction false} EscapeRoundTrip(s: string)
    ensures UnescapePipes(EscapePipes(s)) == s
  {
    if |s| > 0 {
      EscapeRoundTrip(s[1..]);
      var e := EscapePipes(s[1..]);
      if s[0] == '|' {
        assert EscapePipes(s) == "\\|" + e;
        assert ("\\|" + e)[2..] == e;
      } else {
        assert EscapePipes(s) == [s[0]] + e;
        EscapeStartsWithoutPipe(s[1..]);
        assert ([s[0]] + e)[1..] == e;
      }
    }
  }

  /** An escaped cell has no bare `|`: each one follows a backslash, so no cell text adds a
      column. */
  lemma {:induction false} EscapedPipesFollowBackslash(s: string)
    ensures var r := EscapePipes(s);
      forall i :: 0 <= i < |r| && r[i] == '|' ==> i > 0 && r[i - 1] == '\\'
  {
    if |s| > 0 {
      EscapedPipesFollowBackslash(s[1..]);
      var e := EscapePipes(s[1..]);
      var head: string := if s[0] == '|' then "\\|" else [s[0]];
      assert EscapePipes(s) == head + e;
      EscapeStartsWithoutPipe(s[1..]);
      forall i | 0 <= i < |head + e| && (head + e)[i] == '|'
        ensures i > 0 && (head + e)[i - 1] == '\\'
      {
        if i >= |head| {
          assert (head + e)[i] == e[i - |head|];
          if i - |head| > 0 {
            assert (head + e)[i - 1] == e[i - |head| - 1];
          }
        }
      }
    }
  }

  /** Only table_row children make rows: there are none exactly when no child is one. */
  lemma {:induction false} NoRowsIffNoTableRow(children: seq<Block>)
    ensures TableRows(children) == [] <==> forall k :: 0 <= k < |children| ==> !children[k].body.TableRow?
  {
    if |children| > 0 {
      NoRowsIffNoTableRow(children[..|children| - 1]);
      var last := |children| - 1;
      if !children[last].body.TableRow? {
        assert forall k :: 0 <= k < last ==> children[..last][k] == children[k];
      }
    }
  }

  /** A table without table_row children renders as nothing. */
  lemma TableWithoutRows(b: Block, resolve: Resolver)
    requires b.body.Table? && b.children.Loaded?
    requires forall k :: 0 <= k < |b.children.blocks| ==> !b.children.blocks[k].body.TableRow?
    ensures RenderBlock(b, resolve) == ""
  {
    NoRowsIffNoTableRow(b.children.blocks);
  }
}
