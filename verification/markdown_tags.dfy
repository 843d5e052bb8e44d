/** The forward renderer's registries: the open/close strings for block types
    and inline styles (one table for both), those for entity types, and the
    block types after which a following list item needs only one newline.
    User-supplied tables override the defaults name by name. */
module MarkdownTags {
  import opened Js
  import opened Draft

  /** The strings a block type or an inline style opens and closes with;
      the source calls both handlers with no argument. */
  datatype Tags = Tags(open: string, close: string)

  /** An entity handler: both strings are computed from the entity. */
  datatype EntityTags = EntityTags(open: Entity -> string, close: Entity -> string)

  /** The user's `styleItems` and `entityItems` options. */
  datatype Options = Options(styleItems: map<string, Tags>, entityItems: map<string, EntityTags>)

  /** No custom handlers. */
  const NoOptions := Options(map[], map[])

  /** Names of the six heading block types, by level. */
  function HeaderType(level: int): string
  {
    if level == 1 then "header-one"
    else if level == 2 then "header-two"
    else if level == 3 then "header-three"
    else if level == 4 then "header-four"
    else if level == 5 then "header-five"
    else "header-six"
  }

  /** The default block and inline tags. */
  const StyleItems: map<string, Tags> := map[
    "unordered-list-item" := Tags("- ", ""),
    "ordered-list-item" := Tags("1. ", ""),
    "blockquote" := Tags("> ", ""),
    "header-one" := Tags("# ", ""),
    "header-two" := Tags("## ", ""),
    "header-three" := Tags("### ", ""),
    "header-four" := Tags("#### ", ""),
    "header-five" := Tags("##### ", ""),
    "header-six" := Tags("###### ", ""),
    "code-block" := Tags("```\n", "\n```"),
    "BOLD" := Tags("**", "**"),
    "ITALIC" := Tags("_", "_"),
    "STRIKETHROUGH" := Tags("~~", "~~"),
    "CODE" := Tags("`", "`")
  ]

  /** The `url` data field as a template literal prints it: a missing field
      prints as `undefined`. */
  function UrlOf(e: Entity): string
  {
    if "url" in e.data then e.data["url"] else "undefined"
  }

  /** The default entity tags: only links. */
  const EntityItems: map<string, EntityTags> := map[
    "LINK" := EntityTags((e: Entity) => "[", (e: Entity) => "](" + UrlOf(e) + ")")
  ]

  /** Block types that take a single newline when followed by another such block. */
  const SingleNewlineAfterBlock: seq<string> := ["unordered-list-item", "ordered-list-item"]

  /** The tables the renderer consults: the defaults overlaid with the
      user's handlers. */
  datatype Registry = Registry(styles: map<string, Tags>, entities: map<string, EntityTags>)

  /** Merges the user's handlers over the defaults. The source looks a name up
      as `custom[name] || defaults[name]`; a user handler is an object and so
      always wins, which a map overlay expresses. */
  function Merge(opts: Options): (reg: Registry)
    ensures forall name :: name in opts.styleItems ==> name in reg.styles && reg.styles[name] == opts.styleItems[name]
    ensures forall name :: name !in opts.styleItems ==>
      (name in reg.styles <==> name in StyleItems) && (name in StyleItems ==> reg.styles[name] == StyleItems[name])
    ensures forall kind :: kind in opts.entityItems ==> kind in reg.entities && reg.entities[kind] == opts.entityItems[kind]
    ensures forall kind :: kind !in opts.entityItems ==>
      (kind in reg.entities <==> kind in EntityItems) && (kind in EntityItems ==> reg.entities[kind] == EntityItems[kind])
  {
    Registry(StyleItems + opts.styleItems, EntityItems + opts.entityItems)
  }

  /** The handler for a block type or inline style, if any. */
  function StyleTags(reg: Registry, name: string): Option<Tags>
  {
    if name in reg.styles then Some(reg.styles[name]) else None
  }

  /** The handler for an entity type, if any. */
  function EntityTagsFor(reg: Registry, kind: string): Option<EntityTags>
  {
    if kind in reg.entities then Some(reg.entities[kind]) else None
  }

  /** The open string of a registered style or block type ("" when none). */
  function OpenOf(reg: Registry, name: string): string
  {
    match StyleTags(reg, name)
    case Some(t) => t.open
    case None => ""
  }

  /** The close string of a registered style or block type ("" when none). */
  function CloseOf(reg: Registry, name: string): string
  {
    match StyleTags(reg, name)
    case Some(t) => t.close
    case None => ""
  }

  /** `n` copies of `#`. */
  function Hashes(n: nat): (r: string)
    ensures |r| == n && forall i :: 0 <= i < n ==> r[i] == '#'
  {
    seq(n, _ => '#')
  }

  /** Without custom handlers, a heading of level n opens with n `#` and a
      space and closes with nothing. */
  lemma DefaultHeaderTags(level: int)
    requires 1 <= level <= 6
    ensures StyleTags(Merge(NoOptions), HeaderType(level)) == Some(Tags(Hashes(level) + " ", ""))
  {
    assert Merge(NoOptions).styles == StyleItems;
    if level <= 3 {
      UpperHeaderTags(level);
    } else {
      LowerHeaderTags(level);
    }
  }

  /** The default tags of headings of levels 1 to 3. */
  lemma UpperHeaderTags(level: int)
    requires 1 <= level <= 3
    ensures HeaderType(level) in StyleItems && StyleItems[HeaderType(level)] == Tags(Hashes(level) + " ", "")
  {
    if level == 1 { assert Hashes(1) + " " == "# "; }
    else if level == 2 { assert Hashes(2) + " " == "## "; }
    else { assert Hashes(3) + " " == "### "; }
  }

  /** The default tags of headings of levels 4 to 6. */
  lemma LowerHeaderTags(level: int)
    requires 4 <= level <= 6
    ensures HeaderType(level) in StyleItems && StyleItems[HeaderType(level)] == Tags(Hashes(level) + " ", "")
  {
    if level == 4 { assert Hashes(4) + " " == "#### "; }
    else if level == 5 { assert Hashes(5) + " " == "##### "; }
    else { assert Hashes(6) + " " == "###### "; }
  }

  /** Without custom handlers, list items open with `- ` and `1. `, a
      blockquote with `> `, a code block is fenced with three back-ticks on
      lines of their own, only the fence emits anything on close, and
      `unstyled` has no handler. */
  lemma DefaultBlockTags()
    ensures StyleTags(Merge(NoOptions), "unordered-list-item") == Some(Tags("- ", ""))
    ensures StyleTags(Merge(NoOptions), "ordered-list-item") == Some(Tags("1. ", ""))
    ensures StyleTags(Merge(NoOptions), "blockquote") == Some(Tags("> ", ""))
    ensures StyleTags(Merge(NoOptions), "code-block") == Some(Tags("```\n", "\n```"))
    ensures StyleTags(Merge(NoOptions), "unstyled") == None
  {
    assert Merge(NoOptions).styles == StyleItems;
    ListItemTags();
    QuoteAndCodeTags();
  }

  /** The default tags of the two list item types. */
  lemma ListItemTags()
    ensures "unordered-list-item" in StyleItems && StyleItems["unordered-list-item"] == Tags("- ", "")
    ensures "ordered-list-item" in StyleItems && StyleItems["ordered-list-item"] == Tags("1. ", "")
  {
  }

  /** The default tags of blockquotes and code blocks; `unstyled` has none. */
  lemma QuoteAndCodeTags()
    ensures "blockquote" in StyleItems && StyleItems["blockquote"] == Tags("> ", "")
    ensures "code-block" in StyleItems && StyleItems["code-block"] == Tags("```\n", "\n```")
    ensures "unstyled" !in StyleItems
  {
  }

  /** Without custom handlers, bold text is wrapped in `**`, italic text in
      `_`, struck-through text in `~~` and inline code in back-ticks. */
  lemma DefaultInlineTags()
    ensures StyleTags(Merge(NoOptions), "BOLD") == Some(Tags("**", "**"))
    ensures StyleTags(Merge(NoOptions), "ITALIC") == Some(Tags("_", "_"))
    ensures StyleTags(Merge(NoOptions), "STRIKETHROUGH") == Some(Tags("~~", "~~"))
    ensures StyleTags(Merge(NoOptions), "CODE") == Some(Tags("`", "`"))
  {
    assert Merge(NoOptions).styles == StyleItems;
  }

  /** Without a custom LINK handler, a link opens with `[` and closes with
      `](`, its url and `)`. */
  lemma LinkTags(opts: Options, e: Entity)
    requires "LINK" !in opts.entityItems
    requires "url" in e.data
    ensures EntityTagsFor(Merge(opts), "LINK").Some?
    ensures EntityTagsFor(Merge(opts), "LINK").value.open(e) == "["
    ensures EntityTagsFor(Merge(opts), "LINK").value.close(e) == "](" + e.data["url"] + ")"
  {
  }
}
