/** The reverse parser's input and tables: the tokens the Markdown tokenizer
    produces, and the tables that map token types to Draft block types,
    entities and inline styles. The user's tables are laid over the defaults
    (`Object.assign({}, defaults, custom)`). */
module Tokens {
  import opened Js
  import opened Draft

  /** One token: its type, its nesting level, its `content`, the heading
      level of a `heading_open`, its string attributes (`href`, `src`, `alt`)
      and, for an `inline` token, its children. */
  datatype Token = Token(
    kind: string,
    level: int,
    content: Option<string>,
    hLevel: int,
    attrs: map<string, string>,
    children: seq<Token>)

  /** A string as JavaScript's `+` appends it: a missing value appends the
      word `undefined`. */
  function JsText(s: Option<string>): string
  {
    s.GetOr("undefined")
  }

  /** A string's JavaScript truthiness: present and not empty. */
  predicate Truthy(s: Option<string>)
  {
    s.Some? && s.value != ""
  }

  /** What a block constructor returns: the block's type and text, and the
      optional depth and data a custom constructor may add. */
  datatype BlockInit = BlockInit(kind: string, text: string, depth: Option<int>, data: map<string, string>)

  /** `'header-' + {1: 'one', ..., 6: 'six'}[hLevel]`: outside 1..6 the lookup
      is `undefined`, and so is the name's suffix. */
  function HeaderName(hLevel: int): string
  {
    "header-" + (
      if hLevel == 1 then "one"
      else if hLevel == 2 then "two"
      else if hLevel == 3 then "three"
      else if hLevel == 4 then "four"
      else if hLevel == 5 then "five"
      else if hLevel == 6 then "six"
      else "undefined")
  }

  /** A fence's text: `item.content || ''`. */
  function FenceText(t: Token): string
  {
    if Truthy(t.content) then t.content.value else ""
  }

  /** The default block constructors. */
  const DefaultBlockTypes: map<string, Token -> BlockInit> := map[
    "paragraph_open" := (t: Token) => BlockInit("unstyled", "", None, map[]),
    "image" := (t: Token) => BlockInit("atomic", " ", None, map[]),
    "blockquote_open" := (t: Token) => BlockInit("blockquote", "", None, map[]),
    "ordered_list_item_open" := (t: Token) => BlockInit("ordered-list-item", "", None, map[]),
    "unordered_list_item_open" := (t: Token) => BlockInit("unordered-list-item", "", None, map[]),
    "fence" := (t: Token) => BlockInit("code-block", FenceText(t), None, map[]),
    "heading_open" := (t: Token) => BlockInit(HeaderName(t.hLevel), "", None, map[])
  ]

  /** A link's data: its `href` as `url`; a missing `href` leaves `url` out. */
  function LinkData(t: Token): map<string, string>
  {
    if "href" in t.attrs then map["url" := t.attrs["href"]] else map[]
  }

  /** An image's data: its `src`, the type `placeholder`, and its `alt` only
      when it is longer than one character. */
  function ImageData(t: Token): map<string, string>
  {
    var base := map["type" := "placeholder"];
    var withSrc := if "src" in t.attrs then base["src" := t.attrs["src"]] else base;
    if "alt" in t.attrs && |t.attrs["alt"]| > 1 then withSrc["alt" := t.attrs["alt"]] else withSrc
  }

  /** The default entity constructors. */
  const DefaultBlockEntities: map<string, Token -> Entity> := map[
    "link_open" := (t: Token) => Entity("LINK", "MUTABLE", LinkData(t)),
    "image" := (t: Token) => Entity("image", "IMMUTABLE", ImageData(t))
  ]

  /** The default inline styles, by token type. */
  const DefaultBlockStyles: map<string, string> := map[
    "strong_open" := "BOLD",
    "em_open" := "ITALIC",
    "ins_open" := "UNDERLINE",
    "code" := "CODE",
    "del_open" := "STRIKETHROUGH",
    "sup" := "SUPERSCRIPT",
    "sub" := "SUBSCRIPT"
  ]

  /** The user's `blockTypes`, `blockEntities` and `blockStyles` options. */
  datatype ParseOptions = ParseOptions(
    blockTypes: map<string, Token -> BlockInit>,
    blockEntities: map<string, Token -> Entity>,
    blockStyles: map<string, string>)

  /** No custom tables. */
  const NoParseOptions := ParseOptions(map[], map[], map[])

  /** The tables the parser consults. */
  datatype Tables = Tables(
    blockTypes: map<string, Token -> BlockInit>,
    blockEntities: map<string, Token -> Entity>,
    blockStyles: map<string, string>)

  /** The defaults with the user's entries laid over them: a user entry
      replaces the default of the same name, the other defaults stay. */
  function Resolve(opts: ParseOptions): (t: Tables)
    ensures forall k :: k in opts.blockTypes ==> k in t.blockTypes && t.blockTypes[k] == opts.blockTypes[k]
    ensures forall k :: k !in opts.blockTypes ==>
      (k in t.blockTypes <==> k in DefaultBlockTypes) && (k in DefaultBlockTypes ==> t.blockTypes[k] == DefaultBlockTypes[k])
    ensures forall k :: k in opts.blockEntities ==> k in t.blockEntities && t.blockEntities[k] == opts.blockEntities[k]
    ensures forall k :: k !in opts.blockEntities ==>
      (k in t.blockEntities <==> k in DefaultBlockEntities) && (k in DefaultBlockEntities ==> t.blockEntities[k] == DefaultBlockEntities[k])
    ensures forall k :: k in opts.blockStyles ==> k in t.blockStyles && t.blockStyles[k] == opts.blockStyles[k]
    ensures forall k :: k !in opts.blockStyles ==>
      (k in t.blockStyles <==> k in DefaultBlockStyles) && (k in DefaultBlockStyles ==> t.blockStyles[k] == DefaultBlockStyles[k])
  {
    Tables(
      DefaultBlockTypes + opts.blockTypes,
      DefaultBlockEntities + opts.blockEntities,
      DefaultBlockStyles + opts.blockStyles)
  }

  /** The style a token type maps to, if its entry is truthy (a non-empty
      string). */
  function StyleFor(tables: Tables, kind: string): Option<string>
  {
    if kind in tables.blockStyles && tables.blockStyles[kind] != "" then Some(tables.blockStyles[kind]) else None
  }
}
