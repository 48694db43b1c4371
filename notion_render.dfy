/** `blocksToMarkdown` of scripts/notion-client.js as the source runs it: a loop that
    appends each block's Markdown to an accumulator, recursing into loaded children, and a
    table arm that collects rows and pads them in place. Each method is proved to compute
    the Markdown the functions of NotionBlocks define. */
module NotionRender {
  import opened Wrappers
  import opened JsString
  import opened NotionRichText
  import opened NotionBlocks

  /** The Markdown of a list of sibling blocks; a block that throws leaves its placeholder
      and the loop goes on. */
  method BlocksToMarkdown(blocks: seq<Block>, resolve: Resolver) returns (markdown: string)
    ensures markdown == Render(blocks, resolve)
    decreases blocks, 1
  {
    markdown := "";
    for i := 0 to |blocks|
      invariant markdown == Render(blocks[..i], resolve)
    {
      var piece := BlockToMarkdown(blocks[i], resolve);
      assert blocks[..i + 1][..i] == blocks[..i];
      markdown := markdown + piece;
    }
    assert blocks[..|blocks|] == blocks;
  }

  /** One iteration of the loop: the switch arm, inside the per-block try. */
  method BlockToMarkdown(b: Block, resolve: Resolver) returns (out: string)
    ensures out == RenderBlock(b, resolve)
    decreases b, 0
  {
    match b.body {
      case Paragraph(t) =>
        out := Runs(t) + "\n\n";
      case Heading1(t) =>
        out := "# " + Runs(t) + "\n\n";
      case Heading2(t) =>
        out := "## " + Runs(t) + "\n\n";
      case Heading3(t) =>
        out := "### " + Runs(t) + "\n\n";
      case BulletedListItem(t) =>
        out := "- " + Runs(t) + "\n";
        if b.children.Loaded? {
          var child := BlocksToMarkdown(b.children.blocks, resolve);
          assert child == ChildText(b, resolve);
          out := out + Indent(child, "  ");
        }
      case NumberedListItem(t) =>
        out := "1. " + Runs(t) + "\n";
        if b.children.Loaded? {
          var child := BlocksToMarkdown(b.children.blocks, resolve);
          assert child == ChildText(b, resolve);
          out := out + Indent(child, "   ");
        }
      case Code(t, lang) =>
        out := "```" + lang + "\n" + Runs(t) + "\n```\n\n";
      case Quote(t) =>
        out := "> " + Runs(t) + "\n\n";
      case Divider =>
        out := "---\n\n";
      case LinkPreview(url, title, desc, host) =>
        out := LinkPreviewText(url, title, desc, host);
      case Mention(_) =>
        out := FailurePlaceholder("mention");
      case Image(url, caption) =>
        out := "![" + RichTextToMarkdown(caption) + "](" + resolve(url) + ")\n\n";
      case Callout(t, emoji, color) =>
        out := CalloutHeader(Runs(t), emoji, color);
        if b.children.Loaded? {
          var child := BlocksToMarkdown(b.children.blocks, resolve);
          assert child == ChildText(b, resolve);
          out := out + QuoteBlock(child) + "\n\n";
        }
      case Embed(url, caption) =>
        out := EmbedLine(url, RichTextToMarkdown(caption));
      case Bookmark(url, caption) =>
        var c := RichTextToMarkdown(caption);
        out := "🔖 **书签**: [" + (if c != "" then c else url) + "](" + url + ")\n\n";
      case Table =>
        match b.children {
          case NoChildren => out := "";
          case FetchFailed(_) => out := TablePlaceholder;
          case Loaded(kids) => out := RenderTable(kids);
        }
      case TableRow(_) =>
        out := "";
        if b.children.Loaded? {
          out := BlocksToMarkdown(b.children.blocks, resolve);
          assert out == ChildText(b, resolve);
        }
      case Other(_) =>
        out := "";
        if b.children.Loaded? {
          out := BlocksToMarkdown(b.children.blocks, resolve);
          assert out == ChildText(b, resolve);
        }
    }
  }

  /** The table arm: collect the cells of the table_row children, then write the header,
      the separator and each data row padded with "" to the header's width. */
  method RenderTable(children: seq<Block>) returns (markdown: string)
    ensures markdown == TableText(TableRows(children))
  {
    var tableRows := CollectRows(children);
    if |tableRows| == 0 {
      markdown := "";
    } else {
      var header := tableRows[0];
      var data := WriteDataRows(tableRows[1..], |header|);
      markdown := RowLine(header) + RowLine(Dashes(|header|)) + data + "\n";
    }
  }

  /** `for (const child of children) if (child.type === "table_row") tableRows.push(cells)`. */
  method CollectRows(children: seq<Block>) returns (tableRows: seq<seq<string>>)
    ensures tableRows == TableRows(children)
  {
    tableRows := [];
    for i := 0 to |children|
      invariant tableRows == TableRows(children[..i])
    {
      assert children[..i + 1][..i] == children[..i];
      if children[i].body.TableRow? {
        tableRows := tableRows + [EscapedCells(children[i].body.cells)];
      }
    }
    assert children[..|children|] == children;
  }

  /** The data rows, each padded to the header's width before it is written. */
  method WriteDataRows(rows: seq<seq<string>>, width: nat) returns (markdown: string)
    ensures markdown == DataLines(rows, width)
  {
    markdown := "";
    for i := 0 to |rows|
      invariant markdown == DataLines(rows[..i], width)
    {
      var row := PadRow(rows[i], width);
      assert rows[..i + 1][..i] == rows[..i];
      markdown := markdown + RowLine(row);
    }
    assert rows[..|rows|] == rows;
  }

  /** `while (row.length < width) row.push("")`. */
  method PadRow(row: seq<string>, width: nat) returns (padded: seq<string>)
    ensures padded == Pad(row, width)
  {
    padded := row;
    while |padded| < width
      invariant |row| <= |padded| <= Max(|row|, width)
      invariant padded[..|row|] == row
      invariant forall k :: |row| <= k < |padded| ==> padded[k] == ""
      decreases width - |padded|
    {
      padded := padded + [""];
    }
    var p := Pad(row, width);
    assert |padded| == |p|;
    assert forall k :: 0 <= k < |p| ==> padded[k] == p[k] by {
      forall k | 0 <= k < |p| ensures padded[k] == p[k] {
        if k < |row| {
          assert padded[k] == padded[..|row|][k] && p[k] == p[..|row|][k];
        }
      }
    }
  }
}
