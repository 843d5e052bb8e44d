/** What the renderer produces for the shapes of block the source's own
    examples use: a block without ranges, a block with one style range and a
    block with one entity range; and how a document's Markdown is assembled
    from its blocks. */
module RenderFacts {
  import opened Js
  import opened Draft
  import opened MarkdownTags
  import opened Render

  /** Appending one piece appends its text. */
  lemma FlattenSnoc(ps: seq<Piece>, p: Piece)
    ensures Flatten(ps + [p]) == Flatten(ps) + p.Text()
  {
    assert (ps + [p])[..|ps|] == ps;
  }

  // ---------------------------------------------------------------------
  // A block with no ranges

  /** A block with neither style nor entity ranges. */
  predicate Plain(b: Block)
  {
    b.styles == [] && b.entities == []
  }

  /** The state after `k` characters of a block with no ranges: the
      characters so far and nothing else. */
  predicate PlainState(b: Block, k: nat, st: RenderState)
    requires k <= |b.text|
  {
    && Flatten(st.out) == b.text[..k]
    && st.open == [] && st.styleSearch == 0 && st.styleClose == 0
    && st.entitySearch == 0 && st.entityClose == 0
  }

  /** With no ranges, every scan finds nothing: the state after `k`
      characters has those characters as output and nothing open. */
  lemma {:induction false} PlainRun(env: Env, b: Block, k: nat)
    requires Plain(b) && k <= |b.text|
    ensures KeysResolve(env, b)
    ensures PlainState(b, k, Run(env, b, k))
  {
    if k > 0 {
      PlainRun(env, b, k - 1);
      var prev := Run(env, b, k - 1);
      PlainStep(env, b, k - 1, prev);
      RunSnoc(env, b, k);
    }
  }

  /** One character of a block with no ranges appends just that character. */
  lemma PlainStep(env: Env, b: Block, ci: nat, st: RenderState)
    requires Plain(b) && ci < |b.text|
    requires PlainState(b, ci, st)
    ensures KeysResolve(env, b) && OpenValid(env.reg, b, st.open)
    ensures PlainState(b, ci + 1, Step(env, b, ci, st))
  {
    PlainScans(env, b, ci, st);
    assert st.(open := []) == st;
    var r := st.(out := st.out + [Char(b.text[ci])]);
    assert Step(env, b, ci, st) == r;
    FlattenSnoc(st.out, Char(b.text[ci]));
    assert b.text[..ci + 1] == b.text[..ci] + [b.text[ci]];
  }

  /** With no ranges, the scans change nothing. */
  lemma PlainScans(env: Env, b: Block, ci: nat, st: RenderState)
    requires Plain(b)
    ensures KeysResolve(env, b) && OpenValid(env.reg, b, [])
    ensures Scans(env, b, ci, st.(open := [])) == st.(open := [])
  {
    var st0 := st.(open := []);
    assert ClosePhase(env, b, ci, st0) == st0;
    assert StyleOpenPhase(env, b, ci, st0) == st0;
  }

  /** A block with no ranges renders its text unchanged between its block
      tags: the text passes through the renderer as it is. */
  lemma PlainBody(env: Env, b: Block)
    requires Plain(b)
    ensures KeysResolve(env, b)
    ensures Flatten(BodyPieces(env, b)) == b.text
  {
    PlainRun(env, b, |b.text|);
    var looped := Run(env, b, |b.text|);
    assert Trailing(env, b, looped) == looped;
    assert b.text[..|b.text|] == b.text;
  }

  // ---------------------------------------------------------------------
  // A block with one style range

  /** A block whose only range is one registered style over at least one
      character of its text. */
  predicate OneStyle(reg: Registry, b: Block)
  {
    && |b.styles| == 1 && b.entities == []
    && var s := b.styles[0];
    && 0 <= s.offset && 1 <= s.length && s.End() <= |b.text|
    && StyleTags(reg, s.style).Some?
  }

  /** The reference rendering of the first `k` characters of a one-style
      block: the style's open string before its first character and its close
      string after its last, the text unchanged. */
  function OneStyleText(reg: Registry, b: Block, k: nat): string
    requires OneStyle(reg, b) && k <= |b.text|
  {
    var s := b.styles[0];
    var t := b.text;
    if k <= s.offset then t[..k]
    else if k <= s.End() then t[..s.offset] + OpenOf(reg, s.style) + t[s.offset..k]
    else t[..s.offset] + OpenOf(reg, s.style) + t[s.offset..s.End()] + CloseOf(reg, s.style) + t[s.End()..k]
  }

  /** The renderer's state after `k` characters of a one-style block. */
  predicate OneStyleState(reg: Registry, b: Block, k: nat, st: RenderState)
    requires OneStyle(reg, b) && k <= |b.text|
  {
    var s := b.styles[0];
    && st.styleSearch == 0 && st.entitySearch == 0 && st.entityClose == 0
    && st.styleClose == (if k > s.End() then 1 else 0)
    && st.open == (if s.offset < k <= s.End() then [OpenStyle(0, s.style)] else [])
    && Flatten(st.out) == OneStyleText(reg, b, k)
  }

  /** The close scan of a one-style block before character `ci`. */
  lemma OneStyleClose(env: Env, b: Block, ci: nat, st: RenderState)
    requires OneStyle(env.reg, b) && ci < |b.text| && OneStyleState(env.reg, b, ci, st)
    ensures KeysResolve(env, b) && OpenValid(env.reg, b, st.open)
    ensures var s := b.styles[0];
      var r := ClosePhase(env, b, ci, st);
      && r.open == (if s.offset < ci < s.End() then [OpenStyle(0, s.style)] else [])
      && r.styleClose == (if ci >= s.End() then 1 else 0)
      && r.styleSearch == 0 && r.entitySearch == 0 && r.entityClose == 0
      && Flatten(r.out) == Flatten(st.out) + (if ci == s.End() then CloseOf(env.reg, s.style) else "")
  {
    var s := b.styles[0];
    var r1 := CloseStyles(env.reg, b, ci, st.styleClose, st);
    if ci == s.End() {
      var target := OpenStyle(0, s.style);
      assert st.open == [target];
      assert IndexOf(st.open, target) == 0;
      var c := CloseNested(env.reg, target, st);
      assert InnermostFirst(env.reg, [], true) == [];
      assert InnermostFirst(env.reg, [], false) == [];
      assert c.out == st.out + [Tag(CloseOf(env.reg, s.style))];
      FlattenSnoc(st.out, Tag(CloseOf(env.reg, s.style)));
      assert c.open == [];
      assert r1 == CloseStyles(env.reg, b, ci, 1, c.(styleClose := 1));
    } else if ci < s.End() {
      assert r1 == CloseStyles(env.reg, b, ci, 1, st);
      assert r1 == st;
    } else {
      assert st.styleClose == 1;
      assert r1 == st;
    }
    assert ClosePhase(env, b, ci, st) == r1;
  }

  /** The open scan of a one-style block before character `ci`. */
  lemma OneStyleOpen(env: Env, b: Block, ci: nat, st: RenderState)
    requires OneStyle(env.reg, b) && ci < |b.text|
    requires st.open == (if b.styles[0].offset < ci < b.styles[0].End() then [OpenStyle(0, b.styles[0].style)] else [])
    requires st.styleSearch == 0
    ensures var s := b.styles[0];
      var r := OpenStyles(env.reg, b, ci, 0, 0, st);
      && r == st.(out := r.out, open := r.open)
      && r.open == (if s.offset <= ci < s.End() then [OpenStyle(0, s.style)] else [])
      && Flatten(r.out) == Flatten(st.out) + (if ci == s.offset then OpenOf(env.reg, s.style) else "")
  {
    var s := b.styles[0];
    var r := OpenStyles(env.reg, b, ci, 0, 0, st);
    if ci == s.offset {
      var t := StyleTags(env.reg, s.style).value;
      assert OpenOf(env.reg, s.style) == t.open;
      var pushed := st.(out := st.out + [Tag(t.open)], open := st.open + [OpenStyle(0, s.style)]);
      assert st.open == [];
      assert r == OpenStyles(env.reg, b, ci, 0, 1, pushed);
      FlattenSnoc(st.out, Tag(OpenOf(env.reg, s.style)));
    } else if ci < s.offset {
      assert r == st.(styleSearch := 0);
    } else {
      assert r == OpenStyles(env.reg, b, ci, 0, 1, st);
    }
  }

  /** The reference rendering grows, character by character, by the close
      string where the range ends, the open string where it starts, and the
      character. */
  lemma OneStyleTextSnoc(reg: Registry, b: Block, ci: nat)
    requires OneStyle(reg, b) && ci < |b.text|
    ensures var s := b.styles[0];
      OneStyleText(reg, b, ci + 1)
        == OneStyleText(reg, b, ci)
           + (if ci == s.End() then CloseOf(reg, s.style) else "")
           + (if ci == s.offset then OpenOf(reg, s.style) else "")
           + [b.text[ci]]
  {
    var s := b.styles[0];
    var t := b.text;
    assert t[..ci + 1] == t[..ci] + [t[ci]];
    if s.offset < ci + 1 {
      assert t[s.offset..ci + 1] == t[s.offset..ci] + [t[ci]];
    }
    if s.End() < ci + 1 {
      assert t[s.End()..ci + 1] == t[s.End()..ci] + [t[ci]];
    }
    if ci == s.offset {
      assert t[s.offset..ci] == [];
    }
    if ci == s.End() {
      assert t[s.End()..ci] == [];
    }
  }

  /** One character of a one-style block: the scans keep the state in step
      with the reference rendering. */
  lemma OneStyleStep(env: Env, b: Block, ci: nat, st: RenderState)
    requires OneStyle(env.reg, b) && ci < |b.text| && OneStyleState(env.reg, b, ci, st)
    ensures KeysResolve(env, b) && OpenValid(env.reg, b, st.open)
    ensures OneStyleState(env.reg, b, ci + 1, Step(env, b, ci, st))
  {
    var t := b.text;
    OneStyleClose(env, b, ci, st);
    var s2 := ClosePhase(env, b, ci, st);
    OneStyleOpen(env, b, ci, s2);
    var s3 := OpenStyles(env.reg, b, ci, 0, 0, s2);
    assert StyleOpenPhase(env, b, ci, st) == s3;
    assert Scans(env, b, ci, st) == s3;
    var r := Step(env, b, ci, st);
    assert r == s3.(out := s3.out + [Char(t[ci])]);
    FlattenSnoc(s3.out, Char(t[ci]));
    OneStyleTextSnoc(env.reg, b, ci);
  }

  /** The character loop over a one-style block follows the reference
      rendering at every prefix. */
  lemma {:induction false} OneStyleRun(env: Env, b: Block, k: nat)
    requires OneStyle(env.reg, b) && k <= |b.text|
    ensures KeysResolve(env, b)
    ensures OneStyleState(env.reg, b, k, Run(env, b, k))
  {
    if k > 0 {
      OneStyleRun(env, b, k - 1);
      var prev := Run(env, b, k - 1);
      OneStyleStep(env, b, k - 1, prev);
      RunSnoc(env, b, k);
    }
  }

  /** A block with one registered style range over characters
      `offset .. offset + length` renders as the text before the range, the
      style's open string, the styled text, its close string and the rest:
      a range that reaches the end of the text is closed by the trailing
      scan, any other by the scan before the character after it. */
  lemma OneStyleBody(env: Env, b: Block)
    requires OneStyle(env.reg, b)
    ensures KeysResolve(env, b)
    ensures var s := b.styles[0];
      var t := b.text;
      Flatten(BodyPieces(env, b))
        == t[..s.offset] + OpenOf(env.reg, s.style) + t[s.offset..s.End()] + CloseOf(env.reg, s.style) + t[s.End()..]
  {
    OneStyleRun(env, b, |b.text|);
    OneStyleTrailing(env, b, Run(env, b, |b.text|));
  }

  /** The trailing scans of a one-style block close the style when its range
      reaches the end of the text. */
  lemma OneStyleTrailing(env: Env, b: Block, st: RenderState)
    requires OneStyle(env.reg, b) && OneStyleState(env.reg, b, |b.text|, st)
    ensures KeysResolve(env, b)
    ensures var s := b.styles[0];
      var t := b.text;
      Flatten(Trailing(env, b, st).out)
        == t[..s.offset] + OpenOf(env.reg, s.style) + t[s.offset..s.End()] + CloseOf(env.reg, s.style) + t[s.End()..]
  {
    var s := b.styles[0];
    var t := b.text;
    var s1 := TrailingStyles(env.reg, b, st.styleClose, st);
    if s.End() == |t| {
      assert st.styleClose == 0;
      var closed := st.(out := st.out + [Tag(CloseOf(env.reg, s.style))]);
      assert s1 == TrailingStyles(env.reg, b, 1, closed);
      FlattenSnoc(st.out, Tag(CloseOf(env.reg, s.style)));
      assert Flatten(s1.out) == OneStyleText(env.reg, b, |t|) + CloseOf(env.reg, s.style);
    } else {
      assert s1 == st;
    }
    assert Trailing(env, b, st) == s1;
    assert t[..|t|] == t;
  }

  // ---------------------------------------------------------------------
  // A block with one entity range

  /** The string an entity emits on closing (or opening): its handler's,
      or nothing when its type has no handler. */
  function EntityText(reg: Registry, e: Entity, closing: bool): string
  {
    EntityTagText(reg, e, closing).GetOr("")
  }

  /** Emitting an entity tag appends its string. */
  lemma EmitEntityText(reg: Registry, e: Entity, closing: bool, st: RenderState)
    ensures Flatten(EmitEntityTag(reg, e, closing, st).out) == Flatten(st.out) + EntityText(reg, e, closing)
  {
    match EntityTagText(reg, e, closing)
    case Some(text) => FlattenSnoc(st.out, Tag(text));
    case None =>
  }

  /** A block whose only range is one entity range over at least one
      character of its text, naming an entry of the entity map. */
  predicate OneEntity(env: Env, b: Block)
  {
    && b.styles == [] && |b.entities| == 1
    && var r := b.entities[0];
    && 0 <= r.offset && 1 <= r.length && r.End() <= |b.text|
    && r.key in env.entityMap
  }

  /** The entity of a one-entity block. */
  function TheEntity(env: Env, b: Block): Entity
    requires OneEntity(env, b)
  {
    env.entityMap[b.entities[0].key]
  }

  /** The reference rendering of the first `k` characters of a one-entity
      block. */
  function OneEntityText(env: Env, b: Block, k: nat): string
    requires OneEntity(env, b) && k <= |b.text|
  {
    var r := b.entities[0];
    var e := TheEntity(env, b);
    var t := b.text;
    if k <= r.offset then t[..k]
    else if k <= r.End() then t[..r.offset] + EntityText(env.reg, e, false) + t[r.offset..k]
    else t[..r.offset] + EntityText(env.reg, e, false) + t[r.offset..r.End()] + EntityText(env.reg, e, true) + t[r.End()..k]
  }

  /** The renderer's state after `k` characters of a one-entity block. */
  predicate OneEntityState(env: Env, b: Block, k: nat, st: RenderState)
    requires OneEntity(env, b) && k <= |b.text|
  {
    && st.open == [] && st.styleSearch == 0 && st.styleClose == 0 && st.entitySearch == 0
    && st.entityClose == (if k > b.entities[0].End() then 1 else 0)
    && Flatten(st.out) == OneEntityText(env, b, k)
  }

  /** The scans of a one-entity block before character `ci`. */
  lemma OneEntityScans(env: Env, b: Block, ci: nat, st: RenderState)
    requires OneEntity(env, b) && ci < |b.text| && OneEntityState(env, b, ci, st)
    ensures KeysResolve(env, b) && OpenValid(env.reg, b, st.open)
    ensures var r := b.entities[0];
      var e := TheEntity(env, b);
      var s4 := Scans(env, b, ci, st);
      && s4 == st.(out := s4.out, entityClose := if ci >= r.End() then 1 else 0)
      && Flatten(s4.out) == Flatten(st.out)
           + (if ci == r.End() then EntityText(env.reg, e, true) else "")
           + (if ci == r.offset then EntityText(env.reg, e, false) else "")
  {
    var r := b.entities[0];
    var e := TheEntity(env, b);
    assert CloseStyles(env.reg, b, ci, 0, st) == st;
    var s2 := CloseEntities(env, b, ci, st.entityClose, st);
    if ci == r.End() {
      var closed := EmitEntityTag(env.reg, e, true, st);
      assert s2 == CloseEntities(env, b, ci, 1, closed.(entityClose := 1));
      EmitEntityText(env.reg, e, true, st);
    } else if ci < r.End() {
      assert s2 == CloseEntities(env, b, ci, 1, st);
    } else {
      assert st.entityClose == 1;
    }
    assert ClosePhase(env, b, ci, st) == s2;
    assert OpenStyles(env.reg, b, ci, 0, 0, s2) == s2;
    assert StyleOpenPhase(env, b, ci, st) == s2;
    var s4 := OpenEntities(env, b, ci, 0, 0, s2);
    if ci == r.offset {
      var withOpen := EmitEntityTag(env.reg, e, false, s2);
      assert s4 == OpenEntities(env, b, ci, 0, 1, withOpen);
      EmitEntityText(env.reg, e, false, s2);
    } else if ci < r.offset {
      assert s4 == s2.(entitySearch := 0);
    } else {
      assert s4 == OpenEntities(env, b, ci, 0, 1, s2);
    }
  }

  /** The reference rendering of a one-entity block grows like that of a
      one-style block. */
  lemma OneEntityTextSnoc(env: Env, b: Block, ci: nat)
    requires OneEntity(env, b) && ci < |b.text|
    ensures var r := b.entities[0];
      var e := TheEntity(env, b);
      OneEntityText(env, b, ci + 1)
        == OneEntityText(env, b, ci)
           + (if ci == r.End() then EntityText(env.reg, e, true) else "")
           + (if ci == r.offset then EntityText(env.reg, e, false) else "")
           + [b.text[ci]]
  {
    var r := b.entities[0];
    var t := b.text;
    assert t[..ci + 1] == t[..ci] + [t[ci]];
    if r.offset < ci + 1 {
      assert t[r.offset..ci + 1] == t[r.offset..ci] + [t[ci]];
    }
    if r.End() < ci + 1 {
      assert t[r.End()..ci + 1] == t[r.End()..ci] + [t[ci]];
    }
    if ci == r.offset {
      assert t[r.offset..ci] == [];
    }
    if ci == r.End() {
      assert t[r.End()..ci] == [];
    }
  }

  /** One character of a one-entity block keeps the state in step with the
      reference rendering. */
  lemma OneEntityStep(env: Env, b: Block, ci: nat, st: RenderState)
    requires OneEntity(env, b) && ci < |b.text| && OneEntityState(env, b, ci, st)
    ensures KeysResolve(env, b) && OpenValid(env.reg, b, st.open)
    ensures OneEntityState(env, b, ci + 1, Step(env, b, ci, st))
  {
    OneEntityScans(env, b, ci, st);
    var s4 := Scans(env, b, ci, st);
    assert Step(env, b, ci, st) == s4.(out := s4.out + [Char(b.text[ci])]);
    FlattenSnoc(s4.out, Char(b.text[ci]));
    OneEntityTextSnoc(env, b, ci);
  }

  /** The character loop over a one-entity block follows the reference
      rendering at every prefix. */
  lemma {:induction false} OneEntityRun(env: Env, b: Block, k: nat)
    requires OneEntity(env, b) && k <= |b.text|
    ensures KeysResolve(env, b)
    ensures OneEntityState(env, b, k, Run(env, b, k))
  {
    if k > 0 {
      OneEntityRun(env, b, k - 1);
      var prev := Run(env, b, k - 1);
      OneEntityStep(env, b, k - 1, prev);
      assert Run(env, b, k) == Step(env, b, k - 1, prev);
    }
  }

  /** A block with one entity range renders as the text before the range,
      the entity's open string, the covered text, its close string and the
      rest. */
  lemma OneEntityBody(env: Env, b: Block)
    requires OneEntity(env, b)
    ensures KeysResolve(env, b)
    ensures var r := b.entities[0];
      var e := TheEntity(env, b);
      var t := b.text;
      Flatten(BodyPieces(env, b))
        == t[..r.offset] + EntityText(env.reg, e, false) + t[r.offset..r.End()] + EntityText(env.reg, e, true) + t[r.End()..]
  {
    OneEntityRun(env, b, |b.text|);
    OneEntityTrailing(env, b, Run(env, b, |b.text|));
  }

  /** The trailing scans of a one-entity block close the entity when its
      range reaches the end of the text. */
  lemma OneEntityTrailing(env: Env, b: Block, st: RenderState)
    requires OneEntity(env, b) && OneEntityState(env, b, |b.text|, st)
    ensures KeysResolve(env, b)
    ensures var r := b.entities[0];
      var e := TheEntity(env, b);
      var t := b.text;
      Flatten(Trailing(env, b, st).out)
        == t[..r.offset] + EntityText(env.reg, e, false) + t[r.offset..r.End()] + EntityText(env.reg, e, true) + t[r.End()..]
  {
    var r := b.entities[0];
    var e := TheEntity(env, b);
    var t := b.text;
    assert TrailingStyles(env.reg, b, st.styleClose, st) == st;
    var s2 := TrailingEntities(env, b, st.entityClose, st);
    if r.End() == |t| {
      var closed := EmitEntityTag(env.reg, e, true, st);
      assert s2 == TrailingEntities(env, b, 1, closed);
      EmitEntityText(env.reg, e, true, st);
      assert Flatten(s2.out) == OneEntityText(env, b, |t|) + EntityText(env.reg, e, true);
    } else {
      assert s2 == st;
    }
    assert Trailing(env, b, st) == s2;
    assert t[..|t|] == t;
  }

  /** With the default link handler, a link over characters
      `offset .. offset + length` renders as `[`, the linked text, `](`, the
      url and `)`. */
  lemma LinkBody(opts: Options, entityMap: map<int, Entity>, b: Block)
    requires OneEntity(Env(Merge(opts), entityMap), b)
    requires "LINK" !in opts.entityItems
    requires var e := entityMap[b.entities[0].key]; e.kind == "LINK" && "url" in e.data
    ensures var env := Env(Merge(opts), entityMap);
      var r := b.entities[0];
      var t := b.text;
      && KeysResolve(env, b)
      && Flatten(BodyPieces(env, b))
           == t[..r.offset] + "[" + t[r.offset..r.End()] + "](" + entityMap[r.key].data["url"] + ")" + t[r.End()..]
  {
    var env := Env(Merge(opts), entityMap);
    var e := TheEntity(env, b);
    LinkTags(opts, e);
    assert EntityText(env.reg, e, false) == "[";
    assert EntityText(env.reg, e, true) == "](" + e.data["url"] + ")";
    OneEntityBody(env, b);
  }

  // ---------------------------------------------------------------------
  // The trailing closes

  /** The close strings the trailing style scan emits from index `j` on:
      every registered style whose range reaches the end of the text, in
      array order. */
  function TrailingStyleCloses(reg: Registry, b: Block, j: nat): seq<Piece>
    decreases |b.styles| - j
  {
    if j >= |b.styles| then []
    else
      var s := b.styles[j];
      (if s.End() >= |b.text| && StyleTags(reg, s.style).Some? then [Tag(CloseOf(reg, s.style))] else [])
        + TrailingStyleCloses(reg, b, j + 1)
  }

  /** The trailing style scan appends exactly the reference closes, in array
      order, and changes nothing but the output: it never consults the open
      list, so the closes ignore the order in which the styles were opened
      and the open list keeps the styles it closes. */
  lemma {:induction false} TrailingStylesOrder(reg: Registry, b: Block, j: nat, st: RenderState)
    ensures TrailingStyles(reg, b, j, st) == st.(out := st.out + TrailingStyleCloses(reg, b, j))
    decreases |b.styles| - j
  {
    if j < |b.styles| {
      var s := b.styles[j];
      var emitted := if s.End() >= |b.text| && StyleTags(reg, s.style).Some? then [Tag(CloseOf(reg, s.style))] else [];
      var next := st.(out := st.out + emitted);
      TrailingStylesOrder(reg, b, j + 1, next);
      assert st.out + emitted + TrailingStyleCloses(reg, b, j + 1) == st.out + TrailingStyleCloses(reg, b, j);
    }
  }

  // ---------------------------------------------------------------------
  // Whole documents

  /** A prefix of `q` is a prefix of `q + x`. */
  lemma PrefixOfAppend(p: string, q: string, x: string)
    requires |p| <= |q| && q[..|p|] == p
    ensures |p| <= |q + x| && (q + x)[..|p|] == p
  {
    assert (q + x)[..|p|] == q[..|p|];
  }

  /** Joining a prefix of the parts gives a prefix of joining them all:
      rendering a document only ever appends. */
  lemma {:induction false} ConcatPrefix(parts: seq<string>, n: nat)
    requires n <= |parts|
    ensures |Concat(parts[..n])| <= |Concat(parts)|
    ensures Concat(parts)[..|Concat(parts[..n])|] == Concat(parts[..n])
    decreases |parts|
  {
    if n < |parts| {
      var init := parts[..|parts| - 1];
      assert parts[..n] == init[..n];
      ConcatPrefix(init, n);
      PrefixOfAppend(Concat(init[..n]), Concat(init), parts[|parts| - 1]);
    } else {
      assert parts[..n] == parts;
    }
  }

  /** Each block's Markdown appears in the document's right after the
      Markdown of the blocks before it. */
  lemma BlockInDocument(opts: Options, d: Document, i: nat)
    requires i < |d.blocks| && DocKeysResolve(d)
    ensures var parts := RenderBlocks(Merge(opts), d);
      var upto := Concat(parts[..i]) + RenderBlock(Merge(opts), d, i);
      |upto| <= |DraftToMarkdown(opts, d)| && DraftToMarkdown(opts, d)[..|upto|] == upto
  {
    var parts := RenderBlocks(Merge(opts), d);
    assert parts[..i + 1][..i] == parts[..i];
    assert parts[i] == RenderBlock(Merge(opts), d, i);
    assert Concat(parts[..i + 1]) == Concat(parts[..i]) + parts[i];
    ConcatPrefix(parts, i + 1);
  }

  /** A one-block document renders as the block's open string, its inline
      output and its close string, with no separator. */
  lemma SingleBlockDocument(opts: Options, d: Document)
    requires |d.blocks| == 1 && DocKeysResolve(d)
    ensures var reg := Merge(opts);
      var b := d.blocks[0];
      DraftToMarkdown(opts, d)
        == OpenOf(reg, b.kind) + Flatten(BodyPieces(Env(reg, d.entityMap), b)) + CloseOf(reg, b.kind)
  {
    var parts := RenderBlocks(Merge(opts), d);
    assert parts[..0] == [];
    assert Concat(parts) == parts[0];
  }
}
