/** The reverse parser's inline pass: the children of one `inline` token
    become the text of a block, its style ranges, its entity ranges and the
    entities they point at. A history of opened tags lets a closing token
    fix the length of the range its opening token started. */
module InlineParser {
  import opened Js
  import opened Draft
  import opened Tokens

  /** Which range a history entry refers to. The source keeps the range
      object itself in both the history and the range list; an index into
      the range list stands for that shared object. */
  datatype RangeRef = StyleAt(i: nat) | EntityAt(i: nat)

  /** One opened tag: the token type that opened it and its range. */
  datatype HistoryEntry = HistoryEntry(tag: string, item: RangeRef)

  /** The state of the inline pass: the text so far, the entities created,
      the entity and style ranges, the tag history, and the key counter
      (the last key handed out). */
  datatype InlineState = InlineState(
    content: string,
    entities: map<int, Entity>,
    entityRanges: seq<EntityRange>,
    styleRanges: seq<StyleRange>,
    history: seq<HistoryEntry>,
    counter: int)

  /** The state before the first child, continuing from key counter `counter`. */
  function InlineStart(counter: int): InlineState
  {
    InlineState("", map[], [], [], [], counter)
  }

  /** Every history entry refers to a range that exists. */
  ghost predicate RefsValid(st: InlineState)
  {
    forall j :: 0 <= j < |st.history| ==>
      match st.history[j].item
      case StyleAt(i) => i < |st.styleRanges|
      case EntityAt(i) => i < |st.entityRanges|
  }

  /** `generateUniqueKey`: the next key after `counter`. */
  function GenerateUniqueKey(counter: int): (key: int)
    ensures key > counter && key - 1 == counter
  {
    counter + 1
  }

  /** `addStyledBlock`: a style range at `offset` whose length is that of
      the token's content, or 1 when the content is missing or empty. */
  function AddStyledBlock(offset: int, content: Option<string>, style: string): (r: StyleRange)
    ensures r.offset == offset && r.style == style
    ensures Truthy(content) ==> r.length == |content.value|
    ensures !Truthy(content) ==> r.length == 1
  {
    StyleRange(offset, if Truthy(content) then |content.value| else 1, style)
  }

  /** `addEntityBlock`: hands out the next key, records `entity` under it,
      and returns a range of length `length` at the end of the text. While
      no stored key is above the counter, the key handed out is fresh and
      that stays so. */
  function AddEntityBlock(st: InlineState, length: int, entity: Entity): (r: InlineState)
    ensures r.counter > st.counter && r.counter in r.entities && r.entities[r.counter] == entity
    ensures (forall key :: key in st.entities ==> key <= st.counter) ==>
      r.counter !in st.entities && forall key :: key in r.entities ==> key <= r.counter
    ensures forall key :: key in st.entities && key <= st.counter ==> key in r.entities && r.entities[key] == st.entities[key]
    ensures r.entities.Keys == st.entities.Keys + {r.counter}
    ensures r.entityRanges == st.entityRanges + [EntityRange(|st.content|, length, r.counter)]
    ensures r.content == st.content && r.styleRanges == st.styleRanges && r.history == st.history
  {
    var key := GenerateUniqueKey(st.counter);
    st.(counter := key,
        entities := st.entities[key := entity],
        entityRanges := st.entityRanges + [EntityRange(|st.content|, length, key)])
  }

  /** The position of the most recent history entry opened by `tag`, or -1. */
  function LastTagIndex(history: seq<HistoryEntry>, tag: string): (k: int)
    ensures -1 <= k < |history|
    ensures k >= 0 ==> history[k].tag == tag
    ensures forall j :: k < j < |history| ==> history[j].tag != tag
  {
    if |history| == 0 then -1
    else if history[|history| - 1].tag == tag then |history| - 1
    else LastTagIndex(history[..|history| - 1], tag)
  }

  /** Sets the length of the referenced range to reach the end of the text. */
  function CloseRange(st: InlineState, item: RangeRef): InlineState
    requires item.StyleAt? ==> item.i < |st.styleRanges|
    requires item.EntityAt? ==> item.i < |st.entityRanges|
  {
    match item
    case StyleAt(i) =>
      st.(styleRanges := st.styleRanges[i := st.styleRanges[i].(length := |st.content| - st.styleRanges[i].offset)])
    case EntityAt(i) =>
      st.(entityRanges := st.entityRanges[i := st.entityRanges[i].(length := |st.content| - st.entityRanges[i].offset)])
  }

  /** `updateHistoryTag`: the most recent entry opened by `tag` has its
      range's length set so that the range ends at the end of the text. The
      source then slices the history into a local variable and drops it, so
      the history itself never shrinks and a second close of the same tag
      finds the same entry again. */
  function UpdateHistoryTag(tag: string, st: InlineState): (r: InlineState)
    requires RefsValid(st)
    ensures r.content == st.content && r.history == st.history
    ensures r.counter == st.counter && r.entities == st.entities
    ensures |r.styleRanges| == |st.styleRanges| && |r.entityRanges| == |st.entityRanges|
    ensures LastTagIndex(st.history, tag) == -1 ==> r == st
    ensures LastTagIndex(st.history, tag) >= 0 ==>
      match st.history[LastTagIndex(st.history, tag)].item
      case StyleAt(i) =>
        r.entityRanges == st.entityRanges
        && r.styleRanges[i].End() == |st.content|
        && r.styleRanges[i].offset == st.styleRanges[i].offset && r.styleRanges[i].style == st.styleRanges[i].style
        && forall j :: 0 <= j < |r.styleRanges| && j != i ==> r.styleRanges[j] == st.styleRanges[j]
      case EntityAt(i) =>
        r.styleRanges == st.styleRanges
        && r.entityRanges[i].End() == |st.content|
        && r.entityRanges[i].offset == st.entityRanges[i].offset && r.entityRanges[i].key == st.entityRanges[i].key
        && forall j :: 0 <= j < |r.entityRanges| && j != i ==> r.entityRanges[j] == st.entityRanges[j]
  {
    var k := LastTagIndex(st.history, tag);
    if k == -1 then st else CloseRange(st, st.history[k].item)
  }

  /** The tag a closing token type closes: `_close` replaced by `_open`. */
  function OpenTagOf(kind: string): string
  {
    ReplaceFirst(kind, "_close", "_open")
  }

  /** True when the child closes a tag the tables know. */
  predicate ClosesKnownTag(tables: Tables, kind: string)
  {
    Contains(kind, "_close")
    && (OpenTagOf(kind) in tables.blockEntities || StyleFor(tables, OpenTagOf(kind)).Some?)
  }

  /** The token types whose content a style token appends to the text. The
      source lists `sup` twice and `sub` not at all. */
  const ContentStyleTypes: seq<string> := ["code", "sup", "sup"]

  /** True when the child opens a style range: the style branch is the
      first that matches it. */
  predicate OpensStyle(tables: Tables, child: Token)
  {
    child.kind != "text" && child.kind != "softbreak" && StyleFor(tables, child.kind).Some?
  }

  /** True when the child opens an entity range: the entity branch is the
      first that matches it. */
  predicate OpensEntity(tables: Tables, child: Token)
  {
    child.kind != "text" && child.kind != "softbreak" && StyleFor(tables, child.kind).None?
    && child.kind in tables.blockEntities
  }

  /** One child of the inline token. Branches are tried in the source's
      order: text, soft break, style, entity, closing tag. An `htmltag`
      child leaves the state as it is here (see the README). The text only
      grows at its end, no range or history entry is ever removed, and the
      counter advances once per entity range added. */
  function InlineStep(tables: Tables, child: Token, st: InlineState): (r: InlineState)
    requires RefsValid(st)
    ensures RefsValid(r)
    ensures |st.content| <= |r.content| && r.content[..|st.content|] == st.content
    ensures st.history <= r.history
    ensures |st.styleRanges| <= |r.styleRanges| && |st.entityRanges| <= |r.entityRanges|
    ensures r.counter == st.counter + |r.entityRanges| - |st.entityRanges|
  {
    if child.kind == "text" then
      st.(content := st.content + JsText(child.content))
    else if child.kind == "softbreak" then
      st.(content := st.content + "\n")
    else if StyleFor(tables, child.kind).Some? then
      var range := AddStyledBlock(|st.content|, child.content, StyleFor(tables, child.kind).value);
      var text := if child.kind in ContentStyleTypes then st.content + JsText(child.content) else st.content;
      st.(content := text,
          history := st.history + [HistoryEntry(child.kind, StyleAt(|st.styleRanges|))],
          styleRanges := st.styleRanges + [range])
    else if child.kind in tables.blockEntities then
      var added := AddEntityBlock(st, 1, tables.blockEntities[child.kind](child));
      added.(history := st.history + [HistoryEntry(child.kind, EntityAt(|st.entityRanges|))])
    else if ClosesKnownTag(tables, child.kind) then
      UpdateHistoryTag(OpenTagOf(child.kind), st)
    else
      st
  }

  /** The inline pass over the first `k` children. */
  function InlineRun(tables: Tables, children: seq<Token>, k: nat, counter: int): (r: InlineState)
    requires k <= |children|
    ensures RefsValid(r)
    ensures r.counter == counter + |r.entityRanges|
  {
    if k == 0 then InlineStart(counter)
    else InlineStep(tables, children[k - 1], InlineRun(tables, children, k - 1, counter))
  }

  /** `parseInline`: the inline pass over all children of `item`, with keys
      continuing from `counter`. */
  function ParseInline(tables: Tables, item: Token, counter: int): InlineState
  {
    InlineRun(tables, item.children, |item.children|, counter)
  }
}
