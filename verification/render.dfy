/** The forward renderer: one block's text and ranges to Markdown, and a whole
    document as the concatenation of its rendered blocks.

    The renderer walks the text one character at a time. Before each
    character it runs four scans over the block's ranges (close styles, close
    entities, open styles, open entities), each starting at its own cursor,
    then appends the character. After the text it closes what is left and
    appends the block's close string and the separator to the next block.

    Output is kept as a sequence of pieces, a character of the text or a tag
    string; the Markdown string is their concatenation. */
module Render {
  import opened Js
  import opened Draft
  import opened MarkdownTags

  /** One unit of output: a character copied from the text, or a tag string. */
  datatype Piece = Char(c: char) | Tag(s: string) {
    function Text(): string {
      match this
      case Char(c) => [c]
      case Tag(s) => s
    }
  }

  /** The Markdown string the pieces spell. */
  function Flatten(ps: seq<Piece>): string
  {
    if |ps| == 0 then "" else Flatten(ps[..|ps| - 1]) + ps[|ps| - 1].Text()
  }

  /** The text characters among the pieces, in order; tags are skipped. */
  function Chars(ps: seq<Piece>): string
  {
    if |ps| == 0 then ""
    else Chars(ps[..|ps| - 1]) + (if ps[|ps| - 1].Char? then [ps[|ps| - 1].c] else "")
  }

  /** `ext` is `ps` followed by tag pieces only. */
  predicate AddsOnlyTags(ps: seq<Piece>, ext: seq<Piece>)
  {
    && |ps| <= |ext|
    && ext[..|ps|] == ps
    && forall i :: |ps| <= i < |ext| ==> ext[i].Tag?
  }

  /** A style the renderer has opened and not yet closed: `at` is its index
      among the block's style ranges, which stands for the range object's
      identity in the source's `indexOf`. */
  datatype OpenStyle = OpenStyle(at: nat, style: string)

  /** The renderer's state within one block: the output so far, the open
      styles from outermost to innermost, and the four search cursors. */
  datatype RenderState = RenderState(
    out: seq<Piece>,
    open: seq<OpenStyle>,
    styleSearch: nat,
    styleClose: nat,
    entitySearch: nat,
    entityClose: nat)

  /** The state before the first character. */
  const Initial := RenderState([], [], 0, 0, 0, 0)

  /** What a render call sees besides the block: the user's handlers and the
      document's entity map. */
  datatype Env = Env(reg: Registry, entityMap: map<int, Entity>)

  /** Every entity range of the block names an entry of the entity map (the
      source fails on the lookup otherwise). */
  predicate KeysResolve(env: Env, b: Block)
  {
    forall i :: 0 <= i < |b.entities| ==> b.entities[i].key in env.entityMap
  }

  /** Every open style is a registered style range of the block. */
  predicate OpenValid(reg: Registry, b: Block, open: seq<OpenStyle>)
  {
    forall e :: e in open ==>
      e.at < |b.styles| && b.styles[e.at].style == e.style && StyleTags(reg, e.style).Some?
  }

  /** The close string (if `closing`) or open string of a style. */
  function TagOf(reg: Registry, name: string, closing: bool): string
  {
    if closing then CloseOf(reg, name) else OpenOf(reg, name)
  }

  /** Tag pieces for the open styles in `entries`, taken from the last
      (innermost) to the first, as the loops at source lines 215 and 224 walk
      the open list. */
  function InnermostFirst(reg: Registry, entries: seq<OpenStyle>, closing: bool): (ts: seq<Piece>)
    ensures |ts| == |entries|
    ensures forall i :: 0 <= i < |ts| ==> ts[i] == Tag(TagOf(reg, entries[|entries| - 1 - i].style, closing))
  {
    seq(|entries|, i requires 0 <= i < |entries| => Tag(TagOf(reg, entries[|entries| - 1 - i].style, closing)))
  }

  /** The tags that closing `target` emits when `inner` were opened after it:
      close the inner styles, close the target, reopen the inner styles. */
  function NestedCloseTags(reg: Registry, inner: seq<OpenStyle>, target: OpenStyle): (ts: seq<Piece>)
    ensures forall i :: 0 <= i < |ts| ==> ts[i].Tag?
  {
    var closes := InnermostFirst(reg, inner, true);
    var reopens := InnermostFirst(reg, inner, false);
    var ts := closes + [Tag(CloseOf(reg, target.style))] + reopens;
    assert forall i :: 0 <= i < |ts| ==> ts[i].Tag? by {
      forall i | 0 <= i < |ts| ensures ts[i].Tag? {
        if i < |closes| { assert ts[i] == closes[i]; }
        else if i > |closes| { assert ts[i] == reopens[i - |closes| - 1]; }
      }
    }
    ts
  }

  /** Closes the open style `target`: closes every style opened after it
      (innermost first), closes the target, reopens those styles (again
      innermost first) and removes the target from the open list
      (source lines 211-229). */
  function CloseNested(reg: Registry, target: OpenStyle, st: RenderState): (r: RenderState)
    ensures r.styleSearch == st.styleSearch && r.styleClose == st.styleClose
    ensures r.entitySearch == st.entitySearch && r.entityClose == st.entityClose
    ensures AddsOnlyTags(st.out, r.out)
    ensures forall e :: e in r.open ==> e in st.open
  {
    var k := IndexOf(st.open, target);
    var ts := NestedCloseTags(reg, st.open[k + 1..], target);
    AppendTags(st.out, ts);
    st.(out := st.out + ts, open := SpliceOne(st.open, k))
  }

  /** The open styles opened after `target`: all of them when `target` is
      not open. */
  function OpenedAfter(open: seq<OpenStyle>, target: OpenStyle): seq<OpenStyle>
  {
    open[IndexOf(open, target) + 1..]
  }

  /** What `CloseNested` emits, position by position: with `n` styles opened
      after the target, first the close strings of those `n` styles from the
      innermost outwards, then the target's close string, then the open
      strings of the same `n` styles, again from the innermost outwards; and
      nothing else is emitted. */
  lemma CloseNestedEmits(reg: Registry, target: OpenStyle, st: RenderState)
    ensures var r := CloseNested(reg, target, st);
      var inner := OpenedAfter(st.open, target);
      var n := |inner|;
      && |r.out| == |st.out| + 2 * n + 1
      && r.out[..|st.out|] == st.out
      && var emitted := r.out[|st.out|..];
      && var closed := emitted[..n];
      && var reopened := emitted[n + 1..];
      && (forall i :: 0 <= i < n ==> closed[i] == Tag(CloseOf(reg, inner[n - 1 - i].style)))
      && emitted[n] == Tag(CloseOf(reg, target.style))
      && (forall i :: 0 <= i < n ==> reopened[i] == Tag(OpenOf(reg, inner[n - 1 - i].style)))
  {
    var r := CloseNested(reg, target, st);
    var inner := OpenedAfter(st.open, target);
    var n := |inner|;
    var closes := InnermostFirst(reg, inner, true);
    var reopens := InnermostFirst(reg, inner, false);
    var emitted := closes + [Tag(CloseOf(reg, target.style))] + reopens;
    assert r.out == st.out + emitted;
    assert r.out[|st.out|..] == emitted;
    assert emitted[..n] == closes;
    assert emitted[n + 1..] == reopens;
  }

  /** Closing an open style removes exactly that style from the open list,
      keeping the others in order. */
  lemma CloseNestedRemovesTarget(reg: Registry, target: OpenStyle, st: RenderState)
    requires target in st.open
    ensures var k := IndexOf(st.open, target);
      && CloseNested(reg, target, st).open == st.open[..k] + st.open[k + 1..]
      && target !in st.open[..k]
  {
  }

  /** The close-style scan before character `ci` (source lines 208-236): a
      `forEach` over the style ranges from the close cursor on. A range ending
      at `ci` is closed through `CloseNested` if its style is registered, and
      advances the cursor either way; a range that ended earlier also advances
      the cursor. Its `return true` does not stop a `forEach`, so the scan
      always runs to the end. */
  function CloseStyles(reg: Registry, b: Block, ci: int, j: nat, st: RenderState): (r: RenderState)
    requires OpenValid(reg, b, st.open)
    ensures AddsOnlyTags(st.out, r.out)
    ensures OpenValid(reg, b, r.open)
    ensures r.styleSearch == st.styleSearch
    ensures r.entitySearch == st.entitySearch && r.entityClose == st.entityClose
    decreases |b.styles| - j
  {
    if j >= |b.styles| then st
    else
      var s := b.styles[j];
      var next :=
        if s.End() == ci then
          var closed := if StyleTags(reg, s.style).Some? then CloseNested(reg, OpenStyle(j, s.style), st) else st;
          closed.(styleClose := closed.styleClose + 1)
        else if s.End() < ci then st.(styleClose := st.styleClose + 1)
        else st;
      CloseStyles(reg, b, ci, j + 1, next)
  }

  /** The close (if `closing`) or open string of an entity, when its type
      has a handler. */
  function EntityTagText(reg: Registry, e: Entity, closing: bool): Option<string>
  {
    match EntityTagsFor(reg, e.kind)
    case Some(t) => Some(if closing then t.close(e) else t.open(e))
    case None => None
  }

  /** Appends an entity's close or open string to the output; an entity type
      without a handler emits nothing (source lines 242-244, 269-271 and
      294-296). */
  function EmitEntityTag(reg: Registry, e: Entity, closing: bool, st: RenderState): (r: RenderState)
    ensures r == st.(out := r.out)
    ensures AddsOnlyTags(st.out, r.out)
  {
    match EntityTagText(reg, e, closing)
    case Some(text) =>
      AppendTags(st.out, [Tag(text)]);
      st.(out := st.out + [Tag(text)])
    case None => st
  }

  /** The close-entity scan before character `ci` (source lines 239-250): a
      `some` over the entity ranges from the close cursor on. A range ending
      at `ci` emits its entity's close string if the entity type is
      registered and advances the cursor; the first range that ended earlier
      advances the cursor and stops the scan. */
  function CloseEntities(env: Env, b: Block, ci: int, j: nat, st: RenderState): (r: RenderState)
    requires KeysResolve(env, b)
    ensures AddsOnlyTags(st.out, r.out)
    ensures r.open == st.open
    ensures r.styleSearch == st.styleSearch && r.styleClose == st.styleClose
    ensures r.entitySearch == st.entitySearch
    decreases |b.entities| - j
  {
    if j >= |b.entities| then st
    else
      var range := b.entities[j];
      if range.End() == ci then
        var e := env.entityMap[range.key];
        var emitted := EmitEntityTag(env.reg, e, true, st);
        CloseEntities(env, b, ci, j + 1, emitted.(entityClose := emitted.entityClose + 1))
      else if range.End() < ci then st.(entityClose := st.entityClose + 1)
      else CloseEntities(env, b, ci, j + 1, st)
  }

  /** The open-style scan before character `ci` (source lines 253-263): a
      `some` over the style ranges from index `start` (the search cursor) on.
      A range starting at `ci` with a registered style emits its open string
      and is pushed on the open list; the first range starting after `ci`
      stops the scan and sets the cursor to its position RELATIVE to `start`. */
  function OpenStyles(reg: Registry, b: Block, ci: int, start: nat, j: nat, st: RenderState): (r: RenderState)
    requires start <= j
    requires OpenValid(reg, b, st.open)
    ensures AddsOnlyTags(st.out, r.out)
    ensures OpenValid(reg, b, r.open)
    ensures |st.open| <= |r.open| && r.open[..|st.open|] == st.open
    ensures r.styleClose == st.styleClose
    ensures r.entitySearch == st.entitySearch && r.entityClose == st.entityClose
    decreases |b.styles| - j
  {
    if j >= |b.styles| then st
    else
      var s := b.styles[j];
      if s.offset == ci then
        var pushed := match StyleTags(reg, s.style)
          case Some(t) => st.(out := st.out + [Tag(t.open)], open := st.open + [OpenStyle(j, s.style)])
          case None => st;
        OpenStyles(reg, b, ci, start, j + 1, pushed)
      else if s.offset > ci then st.(styleSearch := j - start)
      else OpenStyles(reg, b, ci, start, j + 1, st)
  }

  /** The open-entity scan before character `ci` (source lines 266-276): like
      the open-style scan, with the entity's open string and no open list. */
  function OpenEntities(env: Env, b: Block, ci: int, start: nat, j: nat, st: RenderState): (r: RenderState)
    requires start <= j
    requires KeysResolve(env, b)
    ensures AddsOnlyTags(st.out, r.out)
    ensures r.open == st.open
    ensures r.styleSearch == st.styleSearch && r.styleClose == st.styleClose
    ensures r.entityClose == st.entityClose
    decreases |b.entities| - j
  {
    if j >= |b.entities| then st
    else
      var range := b.entities[j];
      if range.offset == ci then
        var e := env.entityMap[range.key];
        var emitted := EmitEntityTag(env.reg, e, false, st);
        OpenEntities(env, b, ci, start, j + 1, emitted)
      else if range.offset > ci then st.(entitySearch := j - start)
      else OpenEntities(env, b, ci, start, j + 1, st)
  }

  /** The state after the close scans for character `ci`. */
  function ClosePhase(env: Env, b: Block, ci: int, st: RenderState): (r: RenderState)
    requires KeysResolve(env, b) && OpenValid(env.reg, b, st.open)
    ensures AddsOnlyTags(st.out, r.out)
    ensures OpenValid(env.reg, b, r.open)
    ensures r.styleSearch == st.styleSearch && r.entitySearch == st.entitySearch
  {
    var s1 := CloseStyles(env.reg, b, ci, st.styleClose, st);
    var s2 := CloseEntities(env, b, ci, s1.entityClose, s1);
    AddsOnlyTagsTrans(st.out, s1.out, s2.out);
    s2
  }

  /** The state after the open-style scan for character `ci`. */
  function StyleOpenPhase(env: Env, b: Block, ci: int, st: RenderState): (r: RenderState)
    requires KeysResolve(env, b) && OpenValid(env.reg, b, st.open)
    ensures AddsOnlyTags(st.out, r.out)
    ensures OpenValid(env.reg, b, r.open)
    ensures r.entitySearch == st.entitySearch
  {
    var s2 := ClosePhase(env, b, ci, st);
    var s3 := OpenStyles(env.reg, b, ci, s2.styleSearch, s2.styleSearch, s2);
    AddsOnlyTagsTrans(st.out, s2.out, s3.out);
    s3
  }

  /** The four scans before character `ci`. */
  function Scans(env: Env, b: Block, ci: nat, st: RenderState): (r: RenderState)
    requires KeysResolve(env, b) && OpenValid(env.reg, b, st.open)
    ensures AddsOnlyTags(st.out, r.out)
    ensures OpenValid(env.reg, b, r.open)
  {
    var s3 := StyleOpenPhase(env, b, ci, st);
    var s4 := OpenEntities(env, b, ci, s3.entitySearch, s3.entitySearch, s3);
    AddsOnlyTagsTrans(st.out, s3.out, s4.out);
    s4
  }

  /** One iteration of the character loop (source lines 206-279): the four
      scans, then the character itself. */
  function Step(env: Env, b: Block, ci: nat, st: RenderState): (r: RenderState)
    requires ci < |b.text|
    requires KeysResolve(env, b) && OpenValid(env.reg, b, st.open)
    ensures Chars(r.out) == Chars(st.out) + [b.text[ci]]
    ensures OpenValid(env.reg, b, r.open)
  {
    var s4 := Scans(env, b, ci, st);
    TagsKeepChars(st.out, s4.out);
    var out := s4.out + [Char(b.text[ci])];
    assert out[..|out| - 1] == s4.out;
    s4.(out := out)
  }

  /** The state after the first `k` characters. */
  function Run(env: Env, b: Block, k: nat): (r: RenderState)
    requires k <= |b.text|
    requires KeysResolve(env, b)
    ensures Chars(r.out) == b.text[..k]
    ensures OpenValid(env.reg, b, r.open)
  {
    if k == 0 then Initial
    else
      var prev := Run(env, b, k - 1);
      assert b.text[..k] == b.text[..k - 1] + [b.text[k - 1]];
      Step(env, b, k - 1, prev)
  }

  /** The character loop after `k` characters is one more step after `k - 1`. */
  lemma RunSnoc(env: Env, b: Block, k: nat)
    requires 0 < k <= |b.text| && KeysResolve(env, b)
    ensures Run(env, b, k) == Step(env, b, k - 1, Run(env, b, k - 1))
  {
  }

  /** The trailing style closes (source lines 282-288): a `forEach` over the
      style ranges from the close cursor on, emitting the close string of each
      registered style whose range reaches the end of the text, in array
      order, with no regard to nesting. */
  function TrailingStyles(reg: Registry, b: Block, j: nat, st: RenderState): (r: RenderState)
    ensures AddsOnlyTags(st.out, r.out)
    decreases |b.styles| - j
  {
    if j >= |b.styles| then st
    else
      var s := b.styles[j];
      var next :=
        if s.End() >= |b.text| && StyleTags(reg, s.style).Some? then
          st.(out := st.out + [Tag(CloseOf(reg, s.style))])
        else st;
      TrailingStyles(reg, b, j + 1, next)
  }

  /** The trailing entity closes (source lines 291-298): each entity range
      from the close cursor on that ends exactly at the end of the text emits
      its close string, if its type is registered. */
  function TrailingEntities(env: Env, b: Block, j: nat, st: RenderState): (r: RenderState)
    requires KeysResolve(env, b)
    ensures AddsOnlyTags(st.out, r.out)
    decreases |b.entities| - j
  {
    if j >= |b.entities| then st
    else
      var range := b.entities[j];
      var next :=
        if range.End() == |b.text| then
          EmitEntityTag(env.reg, env.entityMap[range.key], true, st)
        else st;
      TrailingEntities(env, b, j + 1, next)
  }

  /** The trailing closes after the last character. */
  function Trailing(env: Env, b: Block, st: RenderState): (r: RenderState)
    requires KeysResolve(env, b)
    ensures AddsOnlyTags(st.out, r.out)
  {
    var s1 := TrailingStyles(env.reg, b, st.styleClose, st);
    var s2 := TrailingEntities(env, b, s1.entityClose, s1);
    AddsOnlyTagsTrans(st.out, s1.out, s2.out);
    s2
  }

  /** The block's inline output: the character loop and the trailing closes. */
  function BodyPieces(env: Env, b: Block): (ps: seq<Piece>)
    requires KeysResolve(env, b)
    ensures Chars(ps) == b.text
  {
    var looped := Run(env, b, |b.text|);
    var done := Trailing(env, b, looped);
    TagsKeepChars(looped.out, done.out);
    assert b.text[..|b.text|] == b.text;
    done.out
  }

  /** The separator after block `i` (source lines 306-310). */
  function Separator(blocks: seq<Block>, i: nat): (sep: string)
    requires i < |blocks|
    ensures i + 1 == |blocks| ==> sep == ""
    ensures i + 1 < |blocks| ==>
      (sep == "\n" <==> blocks[i].kind in SingleNewlineAfterBlock && blocks[i + 1].kind in SingleNewlineAfterBlock)
    ensures i + 1 < |blocks| ==> sep == "\n" || sep == "\n\n"
  {
    if IndexOf(SingleNewlineAfterBlock, blocks[i].kind) != -1 && i + 1 < |blocks|
       && IndexOf(SingleNewlineAfterBlock, blocks[i + 1].kind) != -1
    then "\n"
    else if i + 1 < |blocks| then "\n\n"
    else ""
  }

  /** Every entity range of every block resolves in the entity map. */
  predicate DocKeysResolve(d: Document)
  {
    forall i, j :: 0 <= i < |d.blocks| && 0 <= j < |d.blocks[i].entities| ==> d.blocks[i].entities[j].key in d.entityMap
  }

  /** `renderBlock` (source lines 185-313): the block's open string, its
      inline output, its close string and the separator to the next block.
      The inline output carries the block's text, every character in order,
      with only markup between. */
  function RenderBlock(reg: Registry, d: Document, i: nat): (md: string)
    requires i < |d.blocks| && DocKeysResolve(d)
    ensures exists body: seq<Piece> ::
      && Chars(body) == d.blocks[i].text
      && md == OpenOf(reg, d.blocks[i].kind) + Flatten(body) + CloseOf(reg, d.blocks[i].kind) + Separator(d.blocks, i)
  {
    var b := d.blocks[i];
    var body := BodyPieces(Env(reg, d.entityMap), b);
    assert Chars(body) == b.text;
    OpenOf(reg, b.kind) + Flatten(body) + CloseOf(reg, b.kind) + Separator(d.blocks, i)
  }

  /** The block strings, one after another. */
  function Concat(parts: seq<string>): string
  {
    if |parts| == 0 then "" else Concat(parts[..|parts| - 1]) + parts[|parts| - 1]
  }

  /** Every block's Markdown, in document order. */
  function RenderBlocks(reg: Registry, d: Document): (parts: seq<string>)
    requires DocKeysResolve(d)
    ensures |parts| == |d.blocks|
  {
    seq(|d.blocks|, i requires 0 <= i < |d.blocks| && DocKeysResolve(d) => RenderBlock(reg, d, i))
  }

  /** `draftToMarkdown` (source lines 325-333): the blocks' Markdown appended
      one after another, as its `forEach` does. */
  function DraftToMarkdown(opts: Options, d: Document): (md: string)
    requires DocKeysResolve(d)
    ensures |d.blocks| == 0 ==> md == ""
  {
    Concat(RenderBlocks(Merge(opts), d))
  }

  // ---------------------------------------------------------------------
  // Facts about pieces

  /** Appending pieces that are all tags is a tag-only extension. */
  lemma AppendTags(ps: seq<Piece>, ts: seq<Piece>)
    requires forall i :: 0 <= i < |ts| ==> ts[i].Tag?
    ensures AddsOnlyTags(ps, ps + ts)
  {
    assert (ps + ts)[..|ps|] == ps;
    forall i | |ps| <= i < |ps + ts|
      ensures (ps + ts)[i].Tag?
    {
      assert (ps + ts)[i] == ts[i - |ps|];
    }
  }

  /** Tag-only extensions compose. */
  lemma AddsOnlyTagsTrans(a: seq<Piece>, b: seq<Piece>, c: seq<Piece>)
    requires AddsOnlyTags(a, b) && AddsOnlyTags(b, c)
    ensures AddsOnlyTags(a, c)
  {
    assert c[..|a|] == c[..|b|][..|a|];
  }

  /** Appending tag pieces leaves the characters unchanged. */
  lemma {:induction false} TagsKeepChars(ps: seq<Piece>, ext: seq<Piece>)
    requires AddsOnlyTags(ps, ext)
    ensures Chars(ext) == Chars(ps)
    decreases |ext|
  {
    if |ext| > |ps| {
      var shorter := ext[..|ext| - 1];
      assert shorter[..|ps|] == ps;
      TagsKeepChars(ps, shorter);
    } else {
      assert ext == ps;
    }
  }
}
