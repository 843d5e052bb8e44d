/** Documents from the renderer's test suite (test/draft-to-markdown.spec.js)
    and the Markdown the model gives them. */
module RenderExamples {
  import opened Js
  import opened Draft
  import opened MarkdownTags
  import opened Render
  import opened RenderFacts

  /** An `unstyled` block with the given text and style ranges. */
  function Unstyled(text: string, styles: seq<StyleRange>): Block
  {
    Block("unstyled", text, 0, styles, [], map[])
  }

  /** A one-block document whose block type has no handler and whose one
      style has the tags `open` and `close` renders as the reference
      rendering. */
  lemma DefaultOneStyle(d: Document, open: string, close: string)
    requires |d.blocks| == 1 && StyleTags(Merge(NoOptions), d.blocks[0].kind) == None
    requires OneStyle(Merge(NoOptions), d.blocks[0])
    requires StyleTags(Merge(NoOptions), d.blocks[0].styles[0].style) == Some(Tags(open, close))
    ensures DocKeysResolve(d)
    ensures var b := d.blocks[0];
      var s := b.styles[0];
      DraftToMarkdown(NoOptions, d)
        == b.text[..s.offset] + open + b.text[s.offset..s.End()] + close + b.text[s.End()..]
  {
    SingleBlockDocument(NoOptions, d);
    OneStyleBody(Env(Merge(NoOptions), d.entityMap), d.blocks[0]);
  }

  /** Bold text in the middle of a block (the suite's case at line 224):
      "Hello I am bold yay" with characters 6 to 14 bold. */
  lemma BoldExample()
    ensures var d := Document([Unstyled("Hello " + "I am bold" + " yay", [StyleRange(6, 9, "BOLD")])], map[]);
      DocKeysResolve(d) && DraftToMarkdown(NoOptions, d) == "Hello " + "**" + "I am bold" + "**" + " yay"
  {
    var t := "Hello " + "I am bold" + " yay";
    var d := Document([Unstyled(t, [StyleRange(6, 9, "BOLD")])], map[]);
    DefaultBlockTags();
    DefaultInlineTags();
    DefaultOneStyle(d, "**", "**");
    assert t[..6] == "Hello ";
    assert t[6..15] == "I am bold";
    assert t[15..] == " yay";
  }

  /** Inline code reaching the end of the block (the suite's case at line
      213): the trailing scan closes it. */
  lemma CodeAtEndExample()
    ensures var d := Document([Unstyled("Hello " + "I am some inline code", [StyleRange(6, 21, "CODE")])], map[]);
      DocKeysResolve(d) && DraftToMarkdown(NoOptions, d) == "Hello " + "`" + "I am some inline code" + "`"
  {
    var t := "Hello " + "I am some inline code";
    var d := Document([Unstyled(t, [StyleRange(6, 21, "CODE")])], map[]);
    DefaultBlockTags();
    DefaultInlineTags();
    DefaultOneStyle(d, "`", "`");
    assert t[..6] == "Hello ";
    assert t[6..27] == "I am some inline code";
    assert t[27..] == "";
  }

  /** The Markdown of a block without ranges: its tags around its text,
      then the separator. */
  lemma PlainBlock(reg: Registry, d: Document, i: nat)
    requires i < |d.blocks| && Plain(d.blocks[i])
    ensures DocKeysResolve(d) ==>
      RenderBlock(reg, d, i) == OpenOf(reg, d.blocks[i].kind) + d.blocks[i].text + CloseOf(reg, d.blocks[i].kind) + Separator(d.blocks, i)
  {
    if DocKeysResolve(d) {
      PlainBody(Env(reg, d.entityMap), d.blocks[i]);
    }
  }
}
