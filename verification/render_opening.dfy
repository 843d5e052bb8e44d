/** When a block's ranges are sorted by offset, the open scans emit, before
    each character, exactly the open strings of the ranges that start there.
    This holds although each scan stores its stopping point relative to
    where it started (source lines 260 and 273): the stored cursor is never
    past the first range that has not yet started. */
module RenderOpening {
  import opened Js
  import opened Draft
  import opened MarkdownTags
  import opened Render

  /** The style ranges are in order of non-decreasing offset. */
  predicate SortedStyles(b: Block)
  {
    forall i, j :: 0 <= i < j < |b.styles| ==> b.styles[i].offset <= b.styles[j].offset
  }

  /** The entity ranges are in order of non-decreasing offset. */
  predicate SortedEntities(b: Block)
  {
    forall i, j :: 0 <= i < j < |b.entities| ==> b.entities[i].offset <= b.entities[j].offset
  }

  /** The open strings of the registered styles whose ranges start at `ci`,
      from index `j` on, in array order. */
  function StyleOpensAt(reg: Registry, b: Block, ci: int, j: nat): seq<Piece>
    decreases |b.styles| - j
  {
    if j >= |b.styles| then []
    else
      var s := b.styles[j];
      (if s.offset == ci && StyleTags(reg, s.style).Some? then [Tag(OpenOf(reg, s.style))] else [])
        + StyleOpensAt(reg, b, ci, j + 1)
  }

  /** The open strings of the entities with a handler whose ranges start at
      `ci`, from index `j` on, in array order. */
  function EntityOpensAt(env: Env, b: Block, ci: int, j: nat): seq<Piece>
    requires KeysResolve(env, b)
    decreases |b.entities| - j
  {
    if j >= |b.entities| then []
    else
      var range := b.entities[j];
      (match EntityTagText(env.reg, env.entityMap[range.key], false)
       case Some(text) => if range.offset == ci then [Tag(text)] else []
       case None => [])
        + EntityOpensAt(env, b, ci, j + 1)
  }

  // ---------------------------------------------------------------------
  // Styles

  /** No style range from `j` on starts at `ci` when the one at `j` starts
      later and the ranges are sorted. */
  lemma {:induction false} NoStyleOpensAfter(reg: Registry, b: Block, ci: int, j: nat, k: nat)
    requires SortedStyles(b) && j <= k && j < |b.styles| && b.styles[j].offset > ci
    ensures StyleOpensAt(reg, b, ci, k) == []
    decreases |b.styles| - k
  {
    if k < |b.styles| {
      NoStyleOpensAfter(reg, b, ci, j, k + 1);
    }
  }

  /** Ranges before `c` that start before `ci` contribute nothing. */
  lemma {:induction false} StyleOpensSkip(reg: Registry, b: Block, ci: int, j: nat, c: nat)
    requires j <= c <= |b.styles|
    requires forall i :: j <= i < c ==> b.styles[i].offset < ci
    ensures StyleOpensAt(reg, b, ci, j) == StyleOpensAt(reg, b, ci, c)
    decreases c - j
  {
    if j < c {
      StyleOpensSkip(reg, b, ci, j + 1, c);
    }
  }

  /** Pushing a registered range keeps the open list valid. */
  lemma PushKeepsValid(reg: Registry, b: Block, j: nat, open: seq<OpenStyle>)
    requires OpenValid(reg, b, open) && j < |b.styles| && StyleTags(reg, b.styles[j].style).Some?
    ensures OpenValid(reg, b, open + [OpenStyle(j, b.styles[j].style)])
  {
  }

  /** The open-style scan from `j` emits exactly the reference open strings
      from `j` on. */
  lemma {:induction false} OpenStylesExact(reg: Registry, b: Block, ci: int, start: nat, j: nat, st: RenderState)
    requires start <= j && OpenValid(reg, b, st.open) && SortedStyles(b)
    ensures OpenStyles(reg, b, ci, start, j, st).out == st.out + StyleOpensAt(reg, b, ci, j)
    decreases |b.styles| - j
  {
    if j < |b.styles| {
      var s := b.styles[j];
      if s.offset == ci {
        match StyleTags(reg, s.style)
        case Some(t) =>
          var pushed := st.(out := st.out + [Tag(t.open)], open := st.open + [OpenStyle(j, s.style)]);
          PushKeepsValid(reg, b, j, st.open);
          OpenStylesExact(reg, b, ci, start, j + 1, pushed);
          assert OpenStyles(reg, b, ci, start, j, st) == OpenStyles(reg, b, ci, start, j + 1, pushed);
          assert StyleOpensAt(reg, b, ci, j) == [Tag(t.open)] + StyleOpensAt(reg, b, ci, j + 1);
          assert st.out + [Tag(t.open)] + StyleOpensAt(reg, b, ci, j + 1)
            == st.out + ([Tag(t.open)] + StyleOpensAt(reg, b, ci, j + 1));
        case None =>
          OpenStylesExact(reg, b, ci, start, j + 1, st);
          assert OpenStyles(reg, b, ci, start, j, st) == OpenStyles(reg, b, ci, start, j + 1, st);
          assert StyleOpensAt(reg, b, ci, j) == StyleOpensAt(reg, b, ci, j + 1);
      } else if s.offset > ci {
        NoStyleOpensAfter(reg, b, ci, j, j);
      } else {
        OpenStylesExact(reg, b, ci, start, j + 1, st);
        assert OpenStyles(reg, b, ci, start, j, st) == OpenStyles(reg, b, ci, start, j + 1, st);
        assert StyleOpensAt(reg, b, ci, j) == StyleOpensAt(reg, b, ci, j + 1);
      }
    }
  }

  /** The cursor the open-style scan stores, though relative to `start`, is
      not past any range that starts after `ci`. */
  lemma {:induction false} OpenStylesCursor(reg: Registry, b: Block, ci: int, start: nat, j: nat, st: RenderState)
    requires start <= j && st.styleSearch == start && OpenValid(reg, b, st.open) && SortedStyles(b)
    requires forall i :: 0 <= i < j && i < |b.styles| ==> b.styles[i].offset <= ci
    ensures var c := OpenStyles(reg, b, ci, start, j, st).styleSearch;
      forall i :: 0 <= i < c && i < |b.styles| ==> b.styles[i].offset <= ci
    decreases |b.styles| - j
  {
    if j < |b.styles| {
      var s := b.styles[j];
      if s.offset == ci {
        match StyleTags(reg, s.style)
        case Some(t) =>
          var pushed := st.(out := st.out + [Tag(t.open)], open := st.open + [OpenStyle(j, s.style)]);
          PushKeepsValid(reg, b, j, st.open);
          OpenStylesCursor(reg, b, ci, start, j + 1, pushed);
          assert OpenStyles(reg, b, ci, start, j, st) == OpenStyles(reg, b, ci, start, j + 1, pushed);
        case None =>
          OpenStylesCursor(reg, b, ci, start, j + 1, st);
          assert OpenStyles(reg, b, ci, start, j, st) == OpenStyles(reg, b, ci, start, j + 1, st);
      } else if s.offset < ci {
        OpenStylesCursor(reg, b, ci, start, j + 1, st);
        assert OpenStyles(reg, b, ci, start, j, st) == OpenStyles(reg, b, ci, start, j + 1, st);
      }
    }
  }

  /** The style cursor before character `ci` is not past any range that
      starts at `ci` or later. */
  ghost predicate StyleCursorBefore(b: Block, c: nat, ci: int)
  {
    forall i :: 0 <= i < c && i < |b.styles| ==> b.styles[i].offset < ci
  }

  /** Before character `ci`, after the close scans, the open-style scan
      emits exactly the open strings of the registered styles starting at
      `ci`, and leaves the cursor ready for the next character. */
  lemma StyleOpenPhaseExact(env: Env, b: Block, ci: nat, st: RenderState)
    requires KeysResolve(env, b) && OpenValid(env.reg, b, st.open) && SortedStyles(b)
    requires StyleCursorBefore(b, st.styleSearch, ci)
    ensures var r := StyleOpenPhase(env, b, ci, st);
      && r.out == ClosePhase(env, b, ci, st).out + StyleOpensAt(env.reg, b, ci, 0)
      && StyleCursorBefore(b, r.styleSearch, ci + 1)
  {
    var s2 := ClosePhase(env, b, ci, st);
    var c := s2.styleSearch;
    OpenStylesExact(env.reg, b, ci, c, c, s2);
    OpenStylesCursor(env.reg, b, ci, c, c, s2);
    if c <= |b.styles| {
      StyleOpensSkip(env.reg, b, ci, 0, c);
    } else {
      StyleOpensSkip(env.reg, b, ci, 0, |b.styles|);
    }
  }

  // ---------------------------------------------------------------------
  // Entities

  lemma {:induction false} NoEntityOpensAfter(env: Env, b: Block, ci: int, j: nat, k: nat)
    requires KeysResolve(env, b) && SortedEntities(b) && j <= k && j < |b.entities| && b.entities[j].offset > ci
    ensures EntityOpensAt(env, b, ci, k) == []
    decreases |b.entities| - k
  {
    if k < |b.entities| {
      NoEntityOpensAfter(env, b, ci, j, k + 1);
    }
  }

  lemma {:induction false} EntityOpensSkip(env: Env, b: Block, ci: int, j: nat, c: nat)
    requires KeysResolve(env, b) && j <= c <= |b.entities|
    requires forall i :: j <= i < c ==> b.entities[i].offset < ci
    ensures EntityOpensAt(env, b, ci, j) == EntityOpensAt(env, b, ci, c)
    decreases c - j
  {
    if j < c {
      EntityOpensSkip(env, b, ci, j + 1, c);
    }
  }

  /** The open-entity scan from `j` emits exactly the reference open strings
      from `j` on. */
  lemma {:induction false} OpenEntitiesExact(env: Env, b: Block, ci: int, start: nat, j: nat, st: RenderState)
    requires start <= j && KeysResolve(env, b) && SortedEntities(b)
    ensures OpenEntities(env, b, ci, start, j, st).out == st.out + EntityOpensAt(env, b, ci, j)
    decreases |b.entities| - j
  {
    if j < |b.entities| {
      var range := b.entities[j];
      if range.offset == ci {
        var emitted := EmitEntityTag(env.reg, env.entityMap[range.key], false, st);
        OpenEntitiesExact(env, b, ci, start, j + 1, emitted);
        assert OpenEntities(env, b, ci, start, j, st) == OpenEntities(env, b, ci, start, j + 1, emitted);
      } else if range.offset > ci {
        NoEntityOpensAfter(env, b, ci, j, j);
      } else {
        OpenEntitiesExact(env, b, ci, start, j + 1, st);
        assert OpenEntities(env, b, ci, start, j, st) == OpenEntities(env, b, ci, start, j + 1, st);
      }
    }
  }

  /** The cursor the open-entity scan stores, though relative to `start`, is
      not past any range that starts after `ci`. */
  lemma {:induction false} OpenEntitiesCursor(env: Env, b: Block, ci: int, start: nat, j: nat, st: RenderState)
    requires start <= j && st.entitySearch == start && KeysResolve(env, b) && SortedEntities(b)
    requires forall i :: 0 <= i < j && i < |b.entities| ==> b.entities[i].offset <= ci
    ensures var c := OpenEntities(env, b, ci, start, j, st).entitySearch;
      forall i :: 0 <= i < c && i < |b.entities| ==> b.entities[i].offset <= ci
    decreases |b.entities| - j
  {
    if j < |b.entities| {
      var range := b.entities[j];
      if range.offset == ci {
        var emitted := EmitEntityTag(env.reg, env.entityMap[range.key], false, st);
        OpenEntitiesCursor(env, b, ci, start, j + 1, emitted);
        assert OpenEntities(env, b, ci, start, j, st) == OpenEntities(env, b, ci, start, j + 1, emitted);
      } else if range.offset < ci {
        OpenEntitiesCursor(env, b, ci, start, j + 1, st);
        assert OpenEntities(env, b, ci, start, j, st) == OpenEntities(env, b, ci, start, j + 1, st);
      }
    }
  }

  /** The entity cursor before character `ci` is not past any range that
      starts at `ci` or later. */
  ghost predicate EntityCursorBefore(b: Block, c: nat, ci: int)
  {
    forall i :: 0 <= i < c && i < |b.entities| ==> b.entities[i].offset < ci
  }

  /** Before character `ci`, after the other three scans, the open-entity
      scan emits exactly the open strings of the entities starting at `ci`. */
  lemma EntityOpenPhaseExact(env: Env, b: Block, ci: nat, st: RenderState)
    requires KeysResolve(env, b) && OpenValid(env.reg, b, st.open) && SortedEntities(b)
    requires EntityCursorBefore(b, st.entitySearch, ci)
    ensures var r := Scans(env, b, ci, st);
      && r.out == StyleOpenPhase(env, b, ci, st).out + EntityOpensAt(env, b, ci, 0)
      && EntityCursorBefore(b, r.entitySearch, ci + 1)
  {
    var s3 := StyleOpenPhase(env, b, ci, st);
    var c := s3.entitySearch;
    OpenEntitiesExact(env, b, ci, c, c, s3);
    OpenEntitiesCursor(env, b, ci, c, c, s3);
    if c <= |b.entities| {
      EntityOpensSkip(env, b, ci, 0, c);
    } else {
      EntityOpensSkip(env, b, ci, 0, |b.entities|);
    }
  }

  // ---------------------------------------------------------------------
  // The character loop

  /** Sorted ranges keep both open cursors behind every range that has not
      started yet, whatever relative positions the scans store. */
  lemma {:induction false} CursorsBefore(env: Env, b: Block, k: nat)
    requires k <= |b.text| && KeysResolve(env, b) && SortedStyles(b) && SortedEntities(b)
    ensures StyleCursorBefore(b, Run(env, b, k).styleSearch, k)
    ensures EntityCursorBefore(b, Run(env, b, k).entitySearch, k)
  {
    if k > 0 {
      CursorsBefore(env, b, k - 1);
      var prev := Run(env, b, k - 1);
      StyleOpenPhaseExact(env, b, k - 1, prev);
      EntityOpenPhaseExact(env, b, k - 1, prev);
      RunSnoc(env, b, k);
    }
  }

  /** With ranges sorted by offset, the output for character `ci` is: the
      close strings, then the open strings of exactly the registered styles
      starting at `ci` in array order, then those of exactly the entities
      starting at `ci`, then the character. So every registered range that
      starts inside the text is opened once, immediately before its first
      character, and an unregistered one emits nothing. */
  lemma SortedOpens(env: Env, b: Block, ci: nat)
    requires ci < |b.text| && KeysResolve(env, b) && SortedStyles(b) && SortedEntities(b)
    ensures var prev := Run(env, b, ci);
      Run(env, b, ci + 1).out
        == ClosePhase(env, b, ci, prev).out
           + StyleOpensAt(env.reg, b, ci, 0)
           + EntityOpensAt(env, b, ci, 0)
           + [Char(b.text[ci])]
  {
    var prev := Run(env, b, ci);
    CursorsBefore(env, b, ci);
    StyleOpenPhaseExact(env, b, ci, prev);
    EntityOpenPhaseExact(env, b, ci, prev);
    assert Run(env, b, ci + 1) == Step(env, b, ci, prev);
  }
}
