/** The reverse parser's block pass: the token stream folds into a list of
    blocks and an entity map. Block-opening tokens push a block, an `inline`
    token fills in the most recent block, and list-opening tokens record
    which kind of list item follows. Where the source throws a TypeError the
    model returns an error. */
module BlockParser {
  import opened Js
  import opened Draft
  import opened Tokens
  import opened InlineParser
  import opened InlineFacts

  /** A computation that may throw. */
  datatype Result<T> = Ok(value: T) | TypeError(message: string)

  /** The state of the token fold: the blocks so far, the entity map, the
      current list item type (`null` until a list opens), and the key
      counter. */
  datatype ParseState = ParseState(
    blocks: seq<Block>,
    entityMap: map<int, Entity>,
    listType: Option<string>,
    counter: int)

  /** The state before the first token: the key counter is reset to -1. */
  const ParseStart := ParseState([], map[], None, -1)

  /** The list item type a list-opening token selects, if it is one. */
  function ListItemTypeOf(kind: string): Option<string>
  {
    if kind == "bullet_list_open" then Some("unordered_list_item_open")
    else if kind == "ordered_list_open" then Some("ordered_list_item_open")
    else None
  }

  /** The type a token is looked up under: a list item takes the current
      list item type. */
  function ItemType(item: Token, listType: Option<string>): Option<string>
  {
    if item.kind == "list_item_open" then listType else Some(item.kind)
  }

  /** A new block from a constructor's result: depth 0 unless the
      constructor sets one, and no ranges until an inline token fills them.
      Most constructors of the source return no range lists at all; the
      empty list stands for that missing field here. */
  function NewBlock(init: BlockInit): (b: Block)
    ensures b.kind == init.kind && b.text == init.text && b.data == init.data
    ensures b.styles == [] && b.entities == []
    ensures b.depth == init.depth.GetOr(0)
  {
    Block(init.kind, init.text, init.depth.GetOr(0), [], [], init.data)
  }

  /** True when the token pushes a block: its lookup type opens something
      (or is `fence`), the tables have a constructor for it, and it sits at
      the top level or is a list item. */
  predicate PushesBlock(tables: Tables, item: Token, itemType: string)
  {
    (Contains(itemType, "_open") || itemType == "fence")
    && itemType in tables.blockTypes
    && (item.level == 0 || item.kind == "list_item_open")
  }

  /** The list item type after `kind`: the one a list-opening token
      selects, else the current one. */
  function NextListType(kind: string, listType: Option<string>): Option<string>
  {
    if ListItemTypeOf(kind).Some? then ListItemTypeOf(kind) else listType
  }

  /** True when the inline token has a single child with a block
      constructor; that constructor then supplies the block's type and
      text. */
  predicate SingleBlockChild(tables: Tables, item: Token)
  {
    |item.children| == 1 && item.children[0].kind in tables.blockTypes
  }

  /** The text an inline token gives its block: the single child's
      constructor text, else the text of its children. */
  function FillText(tables: Tables, item: Token): string
  {
    if SingleBlockChild(tables, item) then tables.blockTypes[item.children[0].kind](item.children[0]).text
    else ChildrenText(tables, item.children)
  }

  /** The most recent block after an inline token: the inline pass's text
      and ranges, then, when the token has a single child with a block
      constructor, that constructor's type and text. */
  function FillBlock(tables: Tables, b: Block, item: Token, counter: int): Block
  {
    var parsed := ParseInline(tables, item, counter);
    var filled := b.(text := parsed.content, styles := parsed.styleRanges, entities := parsed.entityRanges);
    if SingleBlockChild(tables, item) then
      var init := tables.blockTypes[item.children[0].kind](item.children[0]);
      filled.(kind := init.kind, text := init.text)
    else filled
  }

  /** The filled block carries the inline pass's ranges and the
      children's text (or the single child's constructor text); its type
      changes only for such a child, its depth and data never. */
  lemma FillBlockContent(tables: Tables, b: Block, item: Token, counter: int)
    ensures var r := FillBlock(tables, b, item, counter);
      && r.text == FillText(tables, item)
      && r.kind == (if SingleBlockChild(tables, item) then tables.blockTypes[item.children[0].kind](item.children[0]).kind else b.kind)
      && r.depth == b.depth && r.data == b.data
      && r.styles == ParseInline(tables, item, counter).styleRanges
      && r.entities == ParseInline(tables, item, counter).entityRanges
  {
    InlineText(tables, item.children, |item.children|, counter);
    assert item.children[..|item.children|] == item.children;
  }

  /** One token of the stream. */
  function TokenStep(tables: Tables, item: Token, st: ParseState): (r: Result<ParseState>)
    ensures r.Ok? ==> r.value.listType == NextListType(item.kind, st.listType)
    ensures r.Ok? ==> st.counter <= r.value.counter
    ensures r.Ok? ==> |st.blocks| <= |r.value.blocks| <= |st.blocks| + 1
    ensures r.Ok? ==> forall i :: 0 <= i < |st.blocks| - 1 ==> r.value.blocks[i] == st.blocks[i]
  {
    var listType := NextListType(item.kind, st.listType);
    var itemType := ItemType(item, listType);
    if itemType == Some("inline") then
      if |st.blocks| == 0 then TypeError("Cannot set properties of undefined (setting 'text')")
      else
        var parsed := ParseInline(tables, item, st.counter);
        var n := |st.blocks|;
        Ok(ParseState(
          st.blocks[..n - 1] + [FillBlock(tables, st.blocks[n - 1], item, st.counter)],
          st.entityMap + parsed.entities,
          listType,
          parsed.counter))
    else if itemType.None? then
      TypeError("Cannot read properties of null (reading 'indexOf')")
    else if PushesBlock(tables, item, itemType.value) then
      Ok(st.(blocks := st.blocks + [NewBlock(tables.blockTypes[itemType.value](item))], listType := listType))
    else
      Ok(st.(listType := listType))
  }

  /** An inline token rewrites only the most recent block, giving it the
      text `FillText` names; a block-opening token appends the
      constructor's block; any other token leaves the blocks alone. */
  lemma TokenStepBlocks(tables: Tables, item: Token, st: ParseState)
    ensures var r := TokenStep(tables, item, st);
      var itemType := ItemType(item, NextListType(item.kind, st.listType));
      && (r.Ok? && itemType == Some("inline") ==>
            && |st.blocks| > 0 && |r.value.blocks| == |st.blocks|
            && r.value.blocks[|st.blocks| - 1] == FillBlock(tables, st.blocks[|st.blocks| - 1], item, st.counter))
      && (r.Ok? && itemType != Some("inline") ==> r.value.blocks[..|st.blocks|] == st.blocks)
      && (r.Ok? && |r.value.blocks| > |st.blocks| ==>
            && itemType.Some? && PushesBlock(tables, item, itemType.value)
            && r.value.blocks[|st.blocks|] == NewBlock(tables.blockTypes[itemType.value](item)))
  {
  }

  /** The fold over the first `k` tokens; the first error stops it. */
  function ParseRun(tables: Tables, tokens: seq<Token>, k: nat): Result<ParseState>
    requires k <= |tokens|
  {
    if k == 0 then Ok(ParseStart)
    else
      match ParseRun(tables, tokens, k - 1)
      case TypeError(m) => TypeError(m)
      case Ok(st) => TokenStep(tables, tokens[k - 1], st)
  }

  /** `markdownToDraft` on the tokenizer's output: the blocks and the entity
      map. */
  function MarkdownToDraft(opts: ParseOptions, tokens: seq<Token>): Result<Document>
  {
    match ParseRun(Resolve(opts), tokens, |tokens|)
    case TypeError(m) => TypeError(m)
    case Ok(st) => Ok(Document(st.blocks, st.entityMap))
  }
}
