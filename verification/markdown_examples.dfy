/** The block constructors on single tokens, and whole token streams from
    the parser's test suite (test/markdown-to-draft.spec.js). */
module MarkdownExamples {
  import opened Js
  import opened Draft
  import opened Tokens
  import opened InlineParser
  import opened InlineExamples
  import opened BlockParser
  import opened MarkdownFacts
  import MarkdownTags
  import Render
  import RenderFacts
  import RenderExamples

  /** A top-level token without content or attributes. */
  function Top(kind: string): Token
  {
    Token(kind, 0, None, 0, map[], [])
  }

  /** `heading_open` and `paragraph_open` open something. */
  lemma OpenNames()
    ensures Contains("heading_open", "_open")
    ensures Contains("paragraph_open", "_open")
  {
    assert OccursAt("heading_open", "_open", 7);
    assert OccursAt("paragraph_open", "_open", 9);
  }

  /** Without a custom `heading_open` constructor, a top-level heading
      token pushes a block named after its level, with no text. */
  lemma HeadingBlock(opts: ParseOptions, item: Token, st: ParseState)
    requires "heading_open" !in opts.blockTypes
    requires item.kind == "heading_open" && item.level == 0
    ensures TokenStep(Resolve(opts), item, st)
      == Ok(st.(blocks := st.blocks + [Block(HeaderName(item.hLevel), "", 0, [], [], map[])]))
  {
    OpenNames();
    assert Resolve(opts).blockTypes["heading_open"] == DefaultBlockTypes["heading_open"];
  }

  /** The heading names the parser gives levels 1 to 6 are those the
      renderer writes back with that many `#`. */
  lemma HeadingRoundTrip(level: int)
    requires 1 <= level <= 6
    ensures HeaderName(level) == MarkdownTags.HeaderType(level)
    ensures MarkdownTags.OpenOf(MarkdownTags.Merge(MarkdownTags.NoOptions), HeaderName(level)) == MarkdownTags.Hashes(level) + " "
  {
    MarkdownTags.DefaultHeaderTags(level);
  }

  /** Without a custom `fence` constructor, a top-level fence pushes a code
      block holding the fence's content, or nothing when it has none. */
  lemma FenceBlock(opts: ParseOptions, item: Token, st: ParseState)
    requires "fence" !in opts.blockTypes
    requires item.kind == "fence" && item.level == 0
    ensures TokenStep(Resolve(opts), item, st)
      == Ok(st.(blocks := st.blocks + [Block("code-block", if Truthy(item.content) then item.content.value else "", 0, [], [], map[])]))
  {
    assert Resolve(opts).blockTypes["fence"] == DefaultBlockTypes["fence"];
  }

  /** A custom constructor for a top-level opening token (other than a
      list's) decides the new block's type, text and data; its depth is 0
      unless the constructor sets one. */
  lemma CustomBlock(opts: ParseOptions, item: Token, st: ParseState)
    requires item.kind in opts.blockTypes && item.level == 0
    requires Contains(item.kind, "_open") || item.kind == "fence"
    requires item.kind != "list_item_open" && ListItemTypeOf(item.kind).None?
    ensures var init := opts.blockTypes[item.kind](item);
      TokenStep(Resolve(opts), item, st)
        == Ok(st.(blocks := st.blocks + [Block(init.kind, init.text, init.depth.GetOr(0), [], [], init.data)]))
  {
    NotContained("inline", "_open");
  }

  /** The tokens of `-`: a bullet list holding one empty item. */
  function EmptyBulletList(): seq<Token>
  {
    [Top("bullet_list_open"), Token("list_item_open", 1, None, 0, map[], []),
     Token("list_item_close", 1, None, 0, map[], []), Top("bullet_list_close")]
  }

  /** Tables in which the unordered item type makes an empty unordered
      list block and no other token of an empty list makes a block, as in
      the defaults. */
  ghost predicate BulletTables(t: Tables)
  {
    && "unordered_list_item_open" in t.blockTypes
    && t.blockTypes["unordered_list_item_open"](Token("list_item_open", 1, None, 0, map[], []))
         == BlockInit("unordered-list-item", "", None, map[])
    && "bullet_list_open" !in t.blockTypes
    && "list_item_close" !in t.blockTypes
    && "bullet_list_close" !in t.blockTypes
  }

  lemma DefaultBulletTables()
    ensures BulletTables(Defaults())
  {
    assert Defaults().blockTypes == DefaultBlockTypes;
  }

  /** The item type `bullet_list_open` selects opens a block. */
  lemma BulletItemOpens()
    ensures Contains("unordered_list_item_open", "_open")
  {
    assert OccursAt("unordered_list_item_open", "_open", 19);
  }

  /** After `bullet_list_open`: no block, and list items are unordered. */
  lemma EmptyBulletFirst(t: Tables)
    requires BulletTables(t)
    ensures ParseRun(t, EmptyBulletList(), 1) == Ok(ParseState([], map[], Some("unordered_list_item_open"), -1))
  {
    var ts := EmptyBulletList();
    assert ParseRun(t, ts, 1) == TokenStep(t, ts[0], ParseStart);
  }

  /** After `list_item_open`: one empty unordered list block. */
  lemma EmptyBulletSecond(t: Tables)
    requires BulletTables(t)
    ensures ParseRun(t, EmptyBulletList(), 2)
      == Ok(ParseState([Block("unordered-list-item", "", 0, [], [], map[])], map[], Some("unordered_list_item_open"), -1))
  {
    var ts := EmptyBulletList();
    EmptyBulletFirst(t);
    BulletItemOpens();
    var s1 := ParseState([], map[], Some("unordered_list_item_open"), -1);
    var item := Block("unordered-list-item", "", 0, [], [], map[]);
    assert [] + [item] == [item];
    assert ParseRun(t, ts, 2) == TokenStep(t, ts[1], s1);
  }

  /** The closing tokens of the list change nothing. */
  lemma EmptyBulletRun(t: Tables)
    requires BulletTables(t)
    ensures ParseRun(t, EmptyBulletList(), 4)
      == Ok(ParseState([Block("unordered-list-item", "", 0, [], [], map[])], map[], Some("unordered_list_item_open"), -1))
  {
    var ts := EmptyBulletList();
    EmptyBulletSecond(t);
    var s2 := ParseState([Block("unordered-list-item", "", 0, [], [], map[])], map[], Some("unordered_list_item_open"), -1);
    assert ParseRun(t, ts, 3) == TokenStep(t, ts[2], s2);
    assert ParseRun(t, ts, 4) == TokenStep(t, ts[3], s2);
  }

  /** An empty bullet item becomes one empty unordered list block (the
      parser suite's case at line 227): the list-opening token pushes no
      block of its own but selects the item type. */
  lemma EmptyBulletItem()
    ensures MarkdownToDraft(NoParseOptions, EmptyBulletList())
      == Ok(Document([Block("unordered-list-item", "", 0, [], [], map[])], map[]))
  {
    DefaultBulletTables();
    EmptyBulletRun(Defaults());
  }

  /** An image entity's data: its `src` when it has one, the type
      `placeholder`, and its `alt` exactly when the alt text has at least
      two characters. */
  lemma ImageDataFields(t: Token)
    ensures ImageData(t)["type"] == "placeholder"
    ensures "src" in ImageData(t) <==> "src" in t.attrs
    ensures "src" in t.attrs ==> ImageData(t)["src"] == t.attrs["src"]
    ensures "alt" in ImageData(t) <==> "alt" in t.attrs && |t.attrs["alt"]| >= 2
    ensures "alt" in ImageData(t) ==> ImageData(t)["alt"] == t.attrs["alt"]
  {
  }

  /** A list item with no list opened before it throws, and so does an
      inline token before any block. */
  lemma CrashExamples()
    ensures MarkdownToDraft(NoParseOptions, [Top("list_item_open")]).TypeError?
    ensures MarkdownToDraft(NoParseOptions, [Top("inline")]).TypeError?
  {
    var t := Resolve(NoParseOptions);
    assert ParseRun(t, [Top("list_item_open")], 0) == Ok(ParseStart);
    assert ItemType(Top("list_item_open"), None) == None;
    assert ParseRun(t, [Top("list_item_open")], 1) == TokenStep(t, Top("list_item_open"), ParseStart);
    assert ParseRun(t, [Top("inline")], 0) == Ok(ParseStart);
    assert ItemType(Top("inline"), None) == Some("inline");
    assert ParseRun(t, [Top("inline")], 1) == TokenStep(t, Top("inline"), ParseStart);
  }

  /** The inline children of `Hello **I am bold** I am not bold.`. */
  function BoldSentence(): seq<Token>
  {
    [Child("text", Some("Hello ")), Child("strong_open", None), Child("text", Some("I am bold")),
     Child("strong_close", None), Child("text", Some(" I am not bold."))]
  }

  /** The sentence's text. */
  const BoldText := "Hello " + "I am bold" + " I am not bold."

  /** After `Hello **I am bold`: the bold range starts at 6 with length 1. */
  lemma BoldSentenceOpen(t: Tables)
    requires BoldTables(t)
    ensures InlineRun(t, BoldSentence(), 3, -1)
      == InlineState("Hello " + "I am bold", map[], [], [StyleRange(6, 1, "BOLD")], [BoldEntry(0)], -1)
  {
    var cs := BoldSentence();
    var s0 := InlineStart(-1);
    TextStep(t, s0, "Hello ");
    var s1 := InlineStep(t, cs[0], s0);
    assert s1 == InlineRun(t, cs, 1, -1);
    BoldOpenStep(t, s1);
    var s2 := InlineStep(t, cs[1], s1);
    assert s2 == InlineRun(t, cs, 2, -1);
    TextStep(t, s2, "I am bold");
  }

  /** The whole sentence: the close sets the bold range's length to 9. */
  lemma BoldSentenceInline(t: Tables)
    requires BoldTables(t)
    ensures InlineRun(t, BoldSentence(), 5, -1)
      == InlineState(BoldText, map[], [], [StyleRange(6, 9, "BOLD")], [BoldEntry(0)], -1)
  {
    var cs := BoldSentence();
    BoldSentenceOpen(t);
    var s3 := InlineRun(t, cs, 3, -1);
    BoldCloseStep(t, s3);
    assert LastTagIndex(s3.history, "strong_open") == 0;
    var s4 := InlineStep(t, cs[3], s3);
    assert s4 == InlineRun(t, cs, 4, -1);
    TextStep(t, s4, " I am not bold.");
  }

  /** The tokens of the paragraph `Hello **I am bold** I am not bold.`. */
  function BoldParagraph(): seq<Token>
  {
    [Top("paragraph_open"), Token("inline", 1, None, 0, map[], BoldSentence()), Top("paragraph_close")]
  }

  /** Tables with the default bold and paragraph entries. */
  ghost predicate ParagraphTables(t: Tables)
  {
    && BoldTables(t)
    && "paragraph_open" in t.blockTypes
    && t.blockTypes["paragraph_open"](Top("paragraph_open")) == BlockInit("unstyled", "", None, map[])
    && "paragraph_close" !in t.blockTypes
  }

  lemma DefaultParagraphTables()
    ensures ParagraphTables(Defaults())
  {
    DefaultInlineTables();
    assert Defaults().blockTypes == DefaultBlockTypes;
  }

  /** A top-level `paragraph_open` pushes an empty unstyled block. */
  lemma ParagraphOpenStep(t: Tables, st: ParseState)
    requires ParagraphTables(t)
    ensures TokenStep(t, Top("paragraph_open"), st) == Ok(st.(blocks := st.blocks + [Block("unstyled", "", 0, [], [], map[])]))
  {
    OpenNames();
  }

  /** A `paragraph_close` changes nothing. */
  lemma ParagraphCloseStep(t: Tables, st: ParseState)
    requires ParagraphTables(t)
    ensures TokenStep(t, Top("paragraph_close"), st) == Ok(st)
  {
  }

  /** The paragraph's block before and after its inline token. */
  const EmptyParagraph := Block("unstyled", "", 0, [], [], map[])
  const BoldBlock := Block("unstyled", BoldText, 0, [StyleRange(6, 9, "BOLD")], [], map[])

  /** The inline token fills the paragraph's block. */
  lemma BoldInlineStep(t: Tables, st: ParseState)
    requires ParagraphTables(t) && st.blocks == [EmptyParagraph] && st.counter == -1
    ensures TokenStep(t, Token("inline", 1, None, 0, map[], BoldSentence()), st) == Ok(st.(blocks := [BoldBlock]))
  {
    var item := Token("inline", 1, None, 0, map[], BoldSentence());
    assert |item.children| == 5;
    BoldSentenceInline(t);
    var parsed := ParseInline(t, item, -1);
    assert parsed == InlineState(BoldText, map[], [], [StyleRange(6, 9, "BOLD")], [BoldEntry(0)], -1);
    assert FillBlock(t, EmptyParagraph, item, -1) == BoldBlock;
    assert st.blocks[..0] + [BoldBlock] == [BoldBlock];
    assert st.entityMap + parsed.entities == st.entityMap;
  }

  /** After `paragraph_open`: one empty block. */
  lemma BoldParagraphFirst(t: Tables)
    requires ParagraphTables(t)
    ensures ParseRun(t, BoldParagraph(), 1) == Ok(ParseState([EmptyParagraph], map[], None, -1))
  {
    var ts := BoldParagraph();
    assert ts[0] == Top("paragraph_open");
    ParagraphOpenStep(t, ParseStart);
    assert ParseRun(t, ts, 1) == TokenStep(t, ts[0], ParseStart);
    assert ParseStart.blocks + [EmptyParagraph] == [EmptyParagraph];
  }

  /** After the inline token: the block holds the sentence. */
  lemma BoldParagraphSecond(t: Tables)
    requires ParagraphTables(t)
    ensures ParseRun(t, BoldParagraph(), 2) == Ok(ParseState([BoldBlock], map[], None, -1))
  {
    BoldParagraphFirst(t);
    BoldInlineStep(t, ParseState([EmptyParagraph], map[], None, -1));
  }

  /** The paragraph's tokens fold into one unstyled block with one bold
      range. */
  lemma BoldParagraphRun(t: Tables)
    requires ParagraphTables(t)
    ensures ParseRun(t, BoldParagraph(), 3) == Ok(ParseState([BoldBlock], map[], None, -1))
  {
    BoldParagraphSecond(t);
    ParagraphCloseStep(t, ParseState([BoldBlock], map[], None, -1));
  }

  /** The paragraph parses to one unstyled block with one bold range. */
  lemma BoldParagraphParse()
    ensures MarkdownToDraft(NoParseOptions, BoldParagraph()) == Ok(Document([BoldBlock], map[]))
  {
    DefaultParagraphTables();
    BoldParagraphRun(Defaults());
  }

  /** The pieces of the sentence around the bold range. */
  lemma BoldTextSlices()
    ensures BoldText[..6] == "Hello " && BoldText[6..15] == "I am bold" && BoldText[15..] == " I am not bold."
  {
  }

  /** The parsed paragraph renders with the bold range between `**`. */
  lemma BoldBlockMarkdown()
    ensures Render.DocKeysResolve(Document([BoldBlock], map[]))
    ensures Render.DraftToMarkdown(MarkdownTags.NoOptions, Document([BoldBlock], map[]))
      == "Hello " + "**" + "I am bold" + "**" + " I am not bold."
  {
    MarkdownTags.DefaultBlockTags();
    MarkdownTags.DefaultInlineTags();
    RenderExamples.DefaultOneStyle(Document([BoldBlock], map[]), "**", "**");
    BoldTextSlices();
  }

  /** Parsing `Hello **I am bold** I am not bold.` and rendering the result
      gives the same Markdown back (the idempotency suite's case at line
      61). */
  lemma BoldRoundTrip()
    ensures MarkdownToDraft(NoParseOptions, BoldParagraph()).Ok?
    ensures var d := MarkdownToDraft(NoParseOptions, BoldParagraph()).value;
      Render.DocKeysResolve(d)
      && Render.DraftToMarkdown(MarkdownTags.NoOptions, d) == "Hello " + "**" + "I am bold" + "**" + " I am not bold."
  {
    BoldParagraphParse();
    BoldBlockMarkdown();
  }
}
