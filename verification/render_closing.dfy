/** Which entity ranges the close scans close. The scan before a character
    stops at the first range behind it that ended earlier, and counts that
    range as closed, so it is exact only while the ranges are sorted by
    their ends: then every range is closed once, just before the character
    at its end, or by the trailing scan when it ends with the text. */
module RenderClosing {
  import opened Js
  import opened Draft
  import opened MarkdownTags
  import opened Render
  import opened RenderFacts

  /** The entity ranges end in array order, none before the text starts. */
  predicate EndsSorted(b: Block)
  {
    && (forall i :: 0 <= i < |b.entities| ==> 0 <= b.entities[i].End())
    && (forall i, j :: 0 <= i < j < |b.entities| ==> b.entities[i].End() <= b.entities[j].End())
  }

  /** The close tag of entity range `i`, or nothing when its entity type
      has no handler. */
  function CloseTag(env: Env, b: Block, i: nat): seq<Piece>
    requires KeysResolve(env, b) && i < |b.entities|
  {
    match EntityTagText(env.reg, env.entityMap[b.entities[i].key], true)
    case Some(text) => [Tag(text)]
    case None => []
  }

  /** The reference: the close tags, in array order, of the entity ranges
      from index `j` on that end at `x`. */
  function ClosesAt(env: Env, b: Block, x: int, j: nat): seq<Piece>
    requires KeysResolve(env, b)
    decreases |b.entities| - j
  {
    if j >= |b.entities| then []
    else (if b.entities[j].End() == x then CloseTag(env, b, j) else []) + ClosesAt(env, b, x, j + 1)
  }

  /** The first entity range from index `j` on that ends at `x` or later;
      the number of ranges when there is none. */
  function FirstEndFrom(b: Block, x: int, j: nat): (r: nat)
    requires j <= |b.entities|
    ensures j <= r <= |b.entities|
    ensures forall i :: j <= i < r ==> b.entities[i].End() < x
    ensures r < |b.entities| ==> b.entities[r].End() >= x
    decreases |b.entities| - j
  {
    if j == |b.entities| || b.entities[j].End() >= x then j else FirstEndFrom(b, x, j + 1)
  }

  /** With sorted ends, every range past the first one ending at `x` or
      later ends at `x` or later too. */
  lemma SortedTail(b: Block, x: int, j: nat)
    requires EndsSorted(b) && j <= |b.entities|
    ensures forall i :: FirstEndFrom(b, x, j) <= i < |b.entities| ==> b.entities[i].End() >= x
  {
    var r := FirstEndFrom(b, x, j);
    forall i | r <= i < |b.entities|
      ensures b.entities[i].End() >= x
    {
      if r < i {
        assert b.entities[r].End() <= b.entities[i].End();
      }
    }
  }

  /** Ranges that end before `x` do not move the first one ending at `x`
      or later. */
  lemma {:induction false} FirstEndSkip(b: Block, x: int, j: nat, c: nat)
    requires j <= c <= |b.entities|
    requires forall i :: j <= i < c ==> b.entities[i].End() < x
    ensures FirstEndFrom(b, x, j) == FirstEndFrom(b, x, c)
    decreases c - j
  {
    if j < c {
      FirstEndSkip(b, x, j + 1, c);
    }
  }

  /** Ranges that do not end at `x` add no closes at `x`. */
  lemma {:induction false} ClosesSkip(env: Env, b: Block, x: int, j: nat, c: nat)
    requires KeysResolve(env, b) && j <= c <= |b.entities|
    requires forall i :: j <= i < c ==> b.entities[i].End() != x
    ensures ClosesAt(env, b, x, j) == ClosesAt(env, b, x, c)
    decreases c - j
  {
    if j < c {
      ClosesSkip(env, b, x, j + 1, c);
      assert ClosesAt(env, b, x, j) == [] + ClosesAt(env, b, x, j + 1);
    }
  }

  /** Emitting a range's close appends its close tag. */
  lemma EmitClose(env: Env, b: Block, i: nat, st: RenderState)
    requires KeysResolve(env, b) && i < |b.entities|
    ensures EmitEntityTag(env.reg, env.entityMap[b.entities[i].key], true, st)
      == st.(out := st.out + CloseTag(env, b, i))
  {
  }

  /** The close-entity scan, started where no range ends before `ci`, never
      stops early: over sorted ranges it appends the close tags of exactly
      the ranges ending at `ci`, in array order, and moves its cursor past
      them to the first range ending after `ci`. */
  lemma {:induction false} CloseEntitiesSorted(env: Env, b: Block, ci: int, j: nat, st: RenderState)
    requires KeysResolve(env, b) && EndsSorted(b) && j <= |b.entities|
    requires forall i :: j <= i < |b.entities| ==> b.entities[i].End() >= ci
    ensures var r := CloseEntities(env, b, ci, j, st);
      && r.out == st.out + ClosesAt(env, b, ci, j)
      && r.entityClose == st.entityClose + (FirstEndFrom(b, ci + 1, j) - j)
    decreases |b.entities| - j
  {
    if j < |b.entities| {
      var range := b.entities[j];
      if range.End() == ci {
        EmitClose(env, b, j, st);
        var next := st.(out := st.out + CloseTag(env, b, j), entityClose := st.entityClose + 1);
        assert CloseEntities(env, b, ci, j, st) == CloseEntities(env, b, ci, j + 1, next);
        CloseEntitiesSorted(env, b, ci, j + 1, next);
        assert FirstEndFrom(b, ci + 1, j) == FirstEndFrom(b, ci + 1, j + 1);
        assert ClosesAt(env, b, ci, j) == CloseTag(env, b, j) + ClosesAt(env, b, ci, j + 1);
        assert st.out + CloseTag(env, b, j) + ClosesAt(env, b, ci, j + 1) == st.out + ClosesAt(env, b, ci, j);
      } else {
        CloseAfter(env, b, ci, j, st);
      }
    }
  }

  /** A range ending after `ci` ends the scan's work over sorted ranges:
      every later range ends after `ci` too, so none is closed and the
      cursor stays. */
  lemma {:induction false} CloseAfter(env: Env, b: Block, ci: int, j: nat, st: RenderState)
    requires KeysResolve(env, b) && EndsSorted(b) && j < |b.entities|
    requires b.entities[j].End() > ci
    ensures CloseEntities(env, b, ci, j, st) == st
    ensures ClosesAt(env, b, ci, j) == []
    ensures FirstEndFrom(b, ci + 1, j) == j
    decreases |b.entities| - j
  {
    assert CloseEntities(env, b, ci, j, st) == CloseEntities(env, b, ci, j + 1, st);
    assert ClosesAt(env, b, ci, j) == [] + ClosesAt(env, b, ci, j + 1);
    if j + 1 < |b.entities| {
      assert b.entities[j].End() <= b.entities[j + 1].End();
      CloseAfter(env, b, ci, j + 1, st);
    }
  }

  /** The close-entity scan before character `ci` of a block with sorted
      entity ends, when the close cursor stands at the first range ending
      at `ci` or later: it appends the close tags of exactly the ranges
      ending at `ci` and moves the cursor to the first range ending after
      `ci`. */
  lemma CloseScanSorted(env: Env, b: Block, ci: nat, s1: RenderState)
    requires KeysResolve(env, b) && EndsSorted(b)
    requires s1.entityClose == FirstEndFrom(b, ci, 0)
    ensures var r := CloseEntities(env, b, ci, s1.entityClose, s1);
      && r.out == s1.out + ClosesAt(env, b, ci, 0)
      && r.entityClose == FirstEndFrom(b, ci + 1, 0)
  {
    var c := s1.entityClose;
    SortedTail(b, ci, 0);
    CloseEntitiesSorted(env, b, ci, c, s1);
    FirstEndSkip(b, ci + 1, 0, c);
    ClosesSkip(env, b, ci, 0, c);
  }

  /** One character of a block with sorted entity ends: the close scans
      append the style closes and then the close tags of exactly the ranges
      ending at `ci`. */
  lemma StepCloses(env: Env, b: Block, ci: nat, st: RenderState)
    requires KeysResolve(env, b) && EndsSorted(b) && OpenValid(env.reg, b, st.open)
    requires ci < |b.text| && st.entityClose == FirstEndFrom(b, ci, 0)
    ensures var s1 := CloseStyles(env.reg, b, ci, st.styleClose, st);
      ClosePhase(env, b, ci, st).out == s1.out + ClosesAt(env, b, ci, 0)
  {
    var s1 := CloseStyles(env.reg, b, ci, st.styleClose, st);
    CloseScanSorted(env, b, ci, s1);
  }

  /** One character of a block with sorted entity ends moves the close
      cursor from the first range ending at `ci` or later to the first one
      ending after `ci`. */
  lemma StepCursor(env: Env, b: Block, ci: nat, st: RenderState)
    requires KeysResolve(env, b) && EndsSorted(b) && OpenValid(env.reg, b, st.open)
    requires ci < |b.text| && st.entityClose == FirstEndFrom(b, ci, 0)
    ensures Step(env, b, ci, st).entityClose == FirstEndFrom(b, ci + 1, 0)
  {
    var s1 := CloseStyles(env.reg, b, ci, st.styleClose, st);
    CloseScanSorted(env, b, ci, s1);
    var s2 := ClosePhase(env, b, ci, st);
    assert s2 == CloseEntities(env, b, ci, s1.entityClose, s1);
    var s3 := StyleOpenPhase(env, b, ci, st);
    assert s3 == OpenStyles(env.reg, b, ci, s2.styleSearch, s2.styleSearch, s2);
    var s4 := Scans(env, b, ci, st);
    assert s4 == OpenEntities(env, b, ci, s3.entitySearch, s3.entitySearch, s3);
  }

  /** Over sorted entity ends, the close cursor after `k` characters stands
      at the first range ending at `k` or later. */
  lemma {:induction false} CursorRun(env: Env, b: Block, k: nat)
    requires KeysResolve(env, b) && EndsSorted(b) && k <= |b.text|
    ensures Run(env, b, k).entityClose == FirstEndFrom(b, k, 0)
  {
    if k == 0 {
      assert FirstEndFrom(b, 0, 0) == 0;
    } else {
      CursorRun(env, b, k - 1);
      var prev := Run(env, b, k - 1);
      StepCursor(env, b, k - 1, prev);
      RunSnoc(env, b, k);
      assert Run(env, b, k) == Step(env, b, k - 1, prev);
    }
  }

  /** Over sorted entity ends, the close scans before character `ci` of the
      character loop close exactly the entity ranges ending at `ci`, after
      the style closes, in array order. */
  lemma EntityClosesExact(env: Env, b: Block, ci: nat)
    requires KeysResolve(env, b) && EndsSorted(b) && ci < |b.text|
    ensures var st := Run(env, b, ci);
      ClosePhase(env, b, ci, st).out == CloseStyles(env.reg, b, ci, st.styleClose, st).out + ClosesAt(env, b, ci, 0)
  {
    CursorRun(env, b, ci);
    StepCloses(env, b, ci, Run(env, b, ci));
  }

  /** The trailing entity scan appends the close tags of exactly the ranges
      from the cursor on that end with the text, in array order. */
  lemma {:induction false} TrailingEntitiesExact(env: Env, b: Block, j: nat, st: RenderState)
    requires KeysResolve(env, b)
    ensures TrailingEntities(env, b, j, st) == st.(out := st.out + ClosesAt(env, b, |b.text|, j))
    decreases |b.entities| - j
  {
    if j < |b.entities| {
      var range := b.entities[j];
      var emitted := if range.End() == |b.text| then CloseTag(env, b, j) else [];
      var next := if range.End() == |b.text| then EmitEntityTag(env.reg, env.entityMap[range.key], true, st) else st;
      EmitClose(env, b, j, st);
      assert st.out + [] == st.out;
      assert next == st.(out := st.out + emitted);
      assert TrailingEntities(env, b, j, st) == TrailingEntities(env, b, j + 1, next);
      TrailingEntitiesExact(env, b, j + 1, next);
      assert st.out + emitted + ClosesAt(env, b, |b.text|, j + 1) == st.out + ClosesAt(env, b, |b.text|, j);
    }
  }

  /** Over sorted entity ends, the trailing scans after the last character
      close exactly the entity ranges ending with the text, after the
      trailing style closes: together with `EntityClosesExact`, every range
      ending inside the text or at its end is closed once, at its end. */
  lemma TrailingClosesExact(env: Env, b: Block)
    requires KeysResolve(env, b) && EndsSorted(b)
    ensures var looped := Run(env, b, |b.text|);
      Trailing(env, b, looped).out
        == TrailingStyles(env.reg, b, looped.styleClose, looped).out + ClosesAt(env, b, |b.text|, 0)
  {
    var looped := Run(env, b, |b.text|);
    CursorRun(env, b, |b.text|);
    TrailingStylesOrder(env.reg, b, looped.styleClose, looped);
    var s1 := TrailingStyles(env.reg, b, looped.styleClose, looped);
    TrailingEntitiesExact(env, b, s1.entityClose, s1);
    ClosesSkip(env, b, |b.text|, 0, s1.entityClose);
  }

  // ---------------------------------------------------------------------
  // The close-style scan and the open list

  /** The open entry `e` is one that the close-style scan from index `j`
      closes before character `ci`. */
  predicate ClosedBy(b: Block, ci: int, j: nat, e: OpenStyle)
  {
    j <= e.at < |b.styles| && b.styles[e.at].End() == ci
  }

  /** The reference: the open list without the entries the scan closes, in
      order. */
  function Remaining(b: Block, ci: int, j: nat, open: seq<OpenStyle>): seq<OpenStyle>
  {
    if |open| == 0 then []
    else (if ClosedBy(b, ci, j, open[0]) then [] else [open[0]]) + Remaining(b, ci, j, open[1..])
  }

  /** What is left is what was open and is not closed. */
  lemma {:induction false} RemainingMembers(b: Block, ci: int, j: nat, open: seq<OpenStyle>)
    ensures forall e :: e in Remaining(b, ci, j, open) <==> e in open && !ClosedBy(b, ci, j, e)
    decreases |open|
  {
    if |open| > 0 {
      RemainingMembers(b, ci, j, open[1..]);
      assert forall e :: e in open <==> e == open[0] || e in open[1..];
    }
  }

  /** No style range is open twice. */
  predicate Distinct(open: seq<OpenStyle>)
  {
    forall p, q :: 0 <= p < q < |open| ==> open[p].at != open[q].at
  }

  /** Every registered style range from index `j` on that ends at `ci` is
      open. */
  predicate ClosingOpen(reg: Registry, b: Block, ci: int, j: nat, open: seq<OpenStyle>)
  {
    forall i :: j <= i < |b.styles| && b.styles[i].End() == ci && StyleTags(reg, b.styles[i].style).Some? ==>
      OpenStyle(i, b.styles[i].style) in open
  }

  /** How many style ranges from index `j` on end at `ci` or earlier. */
  function EndedBy(b: Block, ci: int, j: nat): (n: nat)
    ensures n <= |b.styles| - j || j > |b.styles|
    decreases |b.styles| - j
  {
    if j >= |b.styles| then 0
    else (if b.styles[j].End() <= ci then 1 else 0) + EndedBy(b, ci, j + 1)
  }

  /** Filtering distributes over concatenation. */
  lemma {:induction false} RemainingConcat(b: Block, ci: int, j: nat, x: seq<OpenStyle>, y: seq<OpenStyle>)
    ensures Remaining(b, ci, j, x + y) == Remaining(b, ci, j, x) + Remaining(b, ci, j, y)
    decreases |x|
  {
    if |x| > 0 {
      assert (x + y)[0] == x[0];
      assert (x + y)[1..] == x[1..] + y;
      RemainingConcat(b, ci, j, x[1..], y);
      var head := if ClosedBy(b, ci, j, x[0]) then [] else [x[0]];
      assert head + Remaining(b, ci, j, x[1..]) + Remaining(b, ci, j, y)
        == head + (Remaining(b, ci, j, x[1..]) + Remaining(b, ci, j, y));
    } else {
      assert x + y == y;
    }
  }

  /** An open list the scan closes nothing of is kept whole. */
  lemma {:induction false} RemainingAll(b: Block, ci: int, j: nat, open: seq<OpenStyle>)
    requires forall e :: e in open ==> !ClosedBy(b, ci, j, e)
    ensures Remaining(b, ci, j, open) == open
    decreases |open|
  {
    if |open| > 0 {
      assert open[0] in open;
      assert forall e :: e in open[1..] ==> e in open;
      RemainingAll(b, ci, j, open[1..]);
      assert open == [open[0]] + open[1..];
    }
  }

  /** When no entry stands for range `j` ending at `ci`, moving the scan
      index past `j` does not change what it closes. */
  lemma {:induction false} RemainingShift(b: Block, ci: int, j: nat, open: seq<OpenStyle>)
    requires forall i :: 0 <= i < |open| && open[i].at == j && j < |b.styles| ==> b.styles[j].End() != ci
    ensures Remaining(b, ci, j, open) == Remaining(b, ci, j + 1, open)
    decreases |open|
  {
    if |open| > 0 {
      assert forall i :: 0 <= i < |open| - 1 ==> open[1..][i] == open[i + 1];
      RemainingShift(b, ci, j, open[1..]);
    }
  }

  /** Dropping the entry at `k` keeps the others apart. */
  lemma DropKeepsDistinct(open: seq<OpenStyle>, k: nat)
    requires Distinct(open) && k < |open|
    ensures Distinct(open[..k] + open[k + 1..])
  {
    var r := open[..k] + open[k + 1..];
    forall p, q | 0 <= p < q < |r|
      ensures r[p].at != r[q].at
    {
      var p' := if p < k then p else p + 1;
      var q' := if q < k then q else q + 1;
      assert r[p] == open[p'] && r[q] == open[q'];
    }
  }

  /** With the entry at `k` standing for range `j`, the other entries
      stand for other ranges, and each of them is among the rest. */
  lemma DropOthers(open: seq<OpenStyle>, k: nat, j: nat)
    requires Distinct(open) && k < |open| && open[k].at == j
    ensures forall e :: e in open[..k] + open[k + 1..] ==> e.at != j
    ensures forall e :: e in open && e.at != j ==> e in open[..k] + open[k + 1..]
  {
    var r := open[..k] + open[k + 1..];
    forall e | e in r
      ensures e.at != j
    {
      var p :| 0 <= p < |r| && r[p] == e;
      if p < k {
        assert open[p] == e;
      } else {
        assert open[p + 1] == e;
      }
    }
    forall e | e in open && e.at != j
      ensures e in r
    {
      var p :| 0 <= p < |open| && open[p] == e;
      if p < k {
        assert r[p] == e;
      } else {
        assert p != k;
        assert r[p - 1] == e;
      }
    }
  }

  /** With the entry at `k` standing for range `j`, no entry before or
      after it does, so the scan index can move past `j` on either side. */
  lemma DropShift(b: Block, ci: int, j: nat, open: seq<OpenStyle>, k: nat)
    requires Distinct(open) && k < |open| && open[k].at == j
    ensures Remaining(b, ci, j, open[..k]) == Remaining(b, ci, j + 1, open[..k])
    ensures Remaining(b, ci, j, open[k + 1..]) == Remaining(b, ci, j + 1, open[k + 1..])
  {
    var pre, post := open[..k], open[k + 1..];
    assert forall i :: 0 <= i < |pre| ==> pre[i] == open[i];
    assert forall i :: 0 <= i < |post| ==> post[i] == open[k + 1 + i];
    RemainingShift(b, ci, j, pre);
    RemainingShift(b, ci, j, post);
  }

  /** The entry at `k`, closed by the scan, leaves nothing of itself. */
  lemma DropSplit(b: Block, ci: int, j: nat, open: seq<OpenStyle>, k: nat)
    requires k < |open| && ClosedBy(b, ci, j, open[k])
    ensures Remaining(b, ci, j, open) == Remaining(b, ci, j, open[..k]) + Remaining(b, ci, j, open[k + 1..])
  {
    var pre, post := open[..k], open[k + 1..];
    assert open == pre + ([open[k]] + post);
    RemainingConcat(b, ci, j, pre, [open[k]] + post);
    RemainingConcat(b, ci, j, [open[k]], post);
    assert Remaining(b, ci, j, [open[k]]) == [];
  }

  /** Dropping the entry for range `j` and moving the scan index past `j`
      leaves the same entries to keep. */
  lemma DropRemaining(b: Block, ci: int, j: nat, open: seq<OpenStyle>, k: nat)
    requires Distinct(open) && k < |open| && open[k].at == j && ClosedBy(b, ci, j, open[k])
    ensures Remaining(b, ci, j + 1, open[..k] + open[k + 1..]) == Remaining(b, ci, j, open)
  {
    DropShift(b, ci, j, open, k);
    DropSplit(b, ci, j, open, k);
    RemainingConcat(b, ci, j + 1, open[..k], open[k + 1..]);
  }

  /** Closing the entry for range `j` through `CloseNested` leaves the other
      entries to the rest of the scan. */
  lemma CloseOneStep(reg: Registry, b: Block, ci: int, j: nat, st: RenderState)
    requires OpenValid(reg, b, st.open) && Distinct(st.open) && ClosingOpen(reg, b, ci, j, st.open)
    requires j < |b.styles| && b.styles[j].End() == ci && StyleTags(reg, b.styles[j].style).Some?
    ensures var r := CloseNested(reg, OpenStyle(j, b.styles[j].style), st);
      && OpenValid(reg, b, r.open) && Distinct(r.open) && ClosingOpen(reg, b, ci, j + 1, r.open)
      && Remaining(b, ci, j + 1, r.open) == Remaining(b, ci, j, st.open)
  {
    var target := OpenStyle(j, b.styles[j].style);
    var k := IndexOf(st.open, target);
    CloseNestedRemovesTarget(reg, target, st);
    DropKeepsDistinct(st.open, k);
    DropOthers(st.open, k, j);
    DropRemaining(b, ci, j, st.open, k);
  }

  /** The close-style scan from index `j`, when every registered range
      ending at `ci` is open once: it removes exactly the entries of the
      ranges ending at `ci` from the open list, keeping the others in order,
      and moves its cursor past every range that has ended by `ci`. */
  lemma {:induction false} CloseStylesOpen(reg: Registry, b: Block, ci: int, j: nat, st: RenderState)
    requires OpenValid(reg, b, st.open) && Distinct(st.open) && ClosingOpen(reg, b, ci, j, st.open)
    ensures var r := CloseStyles(reg, b, ci, j, st);
      && r.open == Remaining(b, ci, j, st.open)
      && r.styleClose == st.styleClose + EndedBy(b, ci, j)
    decreases |b.styles| - j
  {
    if j < |b.styles| {
      var s := b.styles[j];
      if s.End() == ci && StyleTags(reg, s.style).Some? {
        CloseOneStep(reg, b, ci, j, st);
        var closed := CloseNested(reg, OpenStyle(j, s.style), st);
        var next := closed.(styleClose := closed.styleClose + 1);
        assert CloseStyles(reg, b, ci, j, st) == CloseStyles(reg, b, ci, j + 1, next);
        CloseStylesOpen(reg, b, ci, j + 1, next);
        assert EndedBy(b, ci, j) == 1 + EndedBy(b, ci, j + 1);
      } else {
        var next := if s.End() <= ci then st.(styleClose := st.styleClose + 1) else st;
        assert CloseStyles(reg, b, ci, j, st) == CloseStyles(reg, b, ci, j + 1, next);
        assert forall i :: 0 <= i < |st.open| ==> st.open[i] in st.open;
        RemainingShift(b, ci, j, st.open);
        CloseStylesOpen(reg, b, ci, j + 1, next);
        assert EndedBy(b, ci, j) == (if s.End() <= ci then 1 else 0) + EndedBy(b, ci, j + 1);
      }
    } else {
      RemainingAll(b, ci, j, st.open);
    }
  }

  // ---------------------------------------------------------------------
  // Unsorted ends: the close cursor skips a range

  /** Two links over "abcdef": the first over characters 0 to 4, the second
      over character 1 alone, so the second ends first. */
  function SkipBlock(): Block
  {
    Block("unstyled", "abcdef", 0, [], [EntityRange(0, 5, 0), EntityRange(1, 1, 1)], map[])
  }

  /** Handlers and entity map under which both links open with `[` and
      close with `](` and their url, `u0` and `u1`. */
  predicate SkipLinks(env: Env)
  {
    && 0 in env.entityMap && 1 in env.entityMap
    && EntityTagText(env.reg, env.entityMap[0], false) == Some("[")
    && EntityTagText(env.reg, env.entityMap[1], false) == Some("[")
    && EntityTagText(env.reg, env.entityMap[0], true) == Some("](u0)")
    && EntityTagText(env.reg, env.entityMap[1], true) == Some("](u1)")
  }

  /** The loop state after each character of the skip block. */
  function SkipState(k: nat): RenderState
    requires k <= 6
  {
    if k == 0 then Initial
    else if k == 1 then RenderState([Tag("["), Char('a')], [], 0, 0, 1, 0)
    else if k == 2 then RenderState([Tag("["), Char('a'), Tag("["), Char('b')], [], 0, 0, 1, 0)
    else
      var closed := [Tag("["), Char('a'), Tag("["), Char('b'), Tag("](u1)"), Char('c')];
      if k == 3 then RenderState(closed, [], 0, 0, 1, 1)
      else if k == 4 then RenderState(closed + [Char('d')], [], 0, 0, 1, 2)
      else if k == 5 then RenderState(closed + [Char('d'), Char('e')], [], 0, 0, 1, 2)
      else RenderState(closed + [Char('d'), Char('e'), Char('f')], [], 0, 0, 1, 2)
  }

  /** In a block without style ranges a step is the two entity scans and
      the character. */
  lemma NoStyleStep(env: Env, b: Block, ci: nat, st: RenderState)
    requires KeysResolve(env, b) && |b.styles| == 0 && st.open == [] && ci < |b.text|
    ensures OpenValid(env.reg, b, st.open)
    ensures var s2 := CloseEntities(env, b, ci, st.entityClose, st);
      var s4 := OpenEntities(env, b, ci, st.entitySearch, st.entitySearch, s2);
      Step(env, b, ci, st) == s4.(out := s4.out + [Char(b.text[ci])])
  {
    var s1 := CloseStyles(env.reg, b, ci, st.styleClose, st);
    assert s1 == st;
    var s2 := CloseEntities(env, b, ci, st.entityClose, st);
    assert ClosePhase(env, b, ci, st) == s2;
    assert OpenStyles(env.reg, b, ci, st.styleSearch, st.styleSearch, s2) == s2;
    assert StyleOpenPhase(env, b, ci, st) == s2;
  }

  /** Before 'a' the first link opens. */
  lemma SkipStep0(env: Env)
    requires SkipLinks(env)
    ensures KeysResolve(env, SkipBlock())
    ensures Step(env, SkipBlock(), 0, SkipState(0)) == SkipState(1)
  {
    var b, st := SkipBlock(), Initial;
    NoStyleStep(env, b, 0, st);
    assert CloseEntities(env, b, 0, 1, st) == st;
    assert CloseEntities(env, b, 0, 0, st) == st;
    var emitted := st.(out := [Tag("[")]);
    assert EmitEntityTag(env.reg, env.entityMap[0], false, st) == emitted;
    assert OpenEntities(env, b, 0, 0, 1, emitted) == emitted.(entitySearch := 1);
    assert OpenEntities(env, b, 0, 0, 0, st) == emitted.(entitySearch := 1);
  }

  /** Before 'b' the second link opens. */
  lemma SkipStep1(env: Env)
    requires SkipLinks(env)
    ensures KeysResolve(env, SkipBlock())
    ensures Step(env, SkipBlock(), 1, SkipState(1)) == SkipState(2)
  {
    var b, st := SkipBlock(), SkipState(1);
    NoStyleStep(env, b, 1, st);
    assert CloseEntities(env, b, 1, 1, st) == st;
    assert CloseEntities(env, b, 1, 0, st) == st;
    var emitted := st.(out := st.out + [Tag("[")]);
    assert EmitEntityTag(env.reg, env.entityMap[1], false, st) == emitted;
    assert OpenEntities(env, b, 1, 1, 2, emitted) == emitted;
    assert OpenEntities(env, b, 1, 1, 1, st) == emitted;
  }

  /** Before 'c' the second link closes and the cursor moves on by one, as
      if the first link had closed. */
  lemma SkipStep2(env: Env)
    requires SkipLinks(env)
    ensures KeysResolve(env, SkipBlock())
    ensures Step(env, SkipBlock(), 2, SkipState(2)) == SkipState(3)
  {
    var b, st := SkipBlock(), SkipState(2);
    NoStyleStep(env, b, 2, st);
    var emitted := st.(out := st.out + [Tag("](u1)")]);
    assert EmitEntityTag(env.reg, env.entityMap[1], true, st) == emitted;
    var closed := emitted.(entityClose := 1);
    assert CloseEntities(env, b, 2, 2, closed) == closed;
    assert CloseEntities(env, b, 2, 1, st) == closed;
    assert CloseEntities(env, b, 2, 0, st) == closed;
    assert OpenEntities(env, b, 2, 1, 2, closed) == closed;
    assert OpenEntities(env, b, 2, 1, 1, closed) == closed;
  }

  /** Before 'd' the scan meets the second link, which ended earlier, moves
      the cursor past it and stops. */
  lemma SkipStep3(env: Env)
    requires SkipLinks(env)
    ensures KeysResolve(env, SkipBlock())
    ensures Step(env, SkipBlock(), 3, SkipState(3)) == SkipState(4)
  {
    var b, st := SkipBlock(), SkipState(3);
    NoStyleStep(env, b, 3, st);
    var moved := st.(entityClose := 2);
    assert CloseEntities(env, b, 3, 1, st) == moved;
    assert OpenEntities(env, b, 3, 1, 2, moved) == moved;
    assert OpenEntities(env, b, 3, 1, 1, moved) == moved;
  }

  /** Before 'e' the cursor is past both links: nothing closes. */
  lemma SkipStep4(env: Env)
    requires SkipLinks(env)
    ensures KeysResolve(env, SkipBlock())
    ensures Step(env, SkipBlock(), 4, SkipState(4)) == SkipState(5)
  {
    var b, st := SkipBlock(), SkipState(4);
    NoStyleStep(env, b, 4, st);
    assert CloseEntities(env, b, 4, 2, st) == st;
    assert OpenEntities(env, b, 4, 1, 1, st) == st;
  }

  /** Nor before 'f', where the reference closes the first link. */
  lemma SkipStep5(env: Env)
    requires SkipLinks(env)
    ensures KeysResolve(env, SkipBlock())
    ensures Step(env, SkipBlock(), 5, SkipState(5)) == SkipState(6)
  {
    var b, st := SkipBlock(), SkipState(5);
    NoStyleStep(env, b, 5, st);
    assert CloseEntities(env, b, 5, 2, st) == st;
    assert OpenEntities(env, b, 5, 1, 1, st) == st;
  }

  /** Each of the first three characters takes the loop from one listed
      state to the next. */
  lemma SkipStepEarly(env: Env, ci: nat)
    requires SkipLinks(env) && ci < 3
    ensures KeysResolve(env, SkipBlock())
    ensures Step(env, SkipBlock(), ci, SkipState(ci)) == SkipState(ci + 1)
  {
    if ci == 0 {
      SkipStep0(env);
    } else if ci == 1 {
      SkipStep1(env);
    } else {
      SkipStep2(env);
    }
  }

  /** And so does each of the last three. */
  lemma SkipStepLate(env: Env, ci: nat)
    requires SkipLinks(env) && 3 <= ci < 6
    ensures KeysResolve(env, SkipBlock())
    ensures Step(env, SkipBlock(), ci, SkipState(ci)) == SkipState(ci + 1)
  {
    if ci == 3 {
      SkipStep3(env);
    } else if ci == 4 {
      SkipStep4(env);
    } else {
      SkipStep5(env);
    }
  }

  /** Each character takes the loop from one listed state to the next. */
  lemma SkipStepAt(env: Env, ci: nat)
    requires SkipLinks(env) && ci < 6
    ensures KeysResolve(env, SkipBlock())
    ensures Step(env, SkipBlock(), ci, SkipState(ci)) == SkipState(ci + 1)
  {
    if ci < 3 {
      SkipStepEarly(env, ci);
    } else {
      SkipStepLate(env, ci);
    }
  }

  /** The character loop over the skip block. */
  lemma {:induction false} SkipRun(env: Env, k: nat)
    requires SkipLinks(env) && k <= 6
    ensures KeysResolve(env, SkipBlock())
    ensures Run(env, SkipBlock(), k) == SkipState(k)
  {
    var b := SkipBlock();
    assert KeysResolve(env, b);
    if k > 0 {
      SkipRun(env, k - 1);
      SkipStepAt(env, k - 1);
      RunSnoc(env, b, k);
      assert Run(env, b, k) == Step(env, b, k - 1, SkipState(k - 1));
    }
  }

  /** After the loop the close cursor is past both links: the trailing
      scans add nothing. */
  lemma SkipTrailing(env: Env)
    requires SkipLinks(env)
    ensures KeysResolve(env, SkipBlock())
    ensures Trailing(env, SkipBlock(), SkipState(6)) == SkipState(6)
  {
    var b := SkipBlock();
    var st := SkipState(6);
    assert KeysResolve(env, b);
    assert TrailingStyles(env.reg, b, 0, st) == st;
    assert TrailingEntities(env, b, 2, st) == st;
  }

  /** The first half of the skip block's pieces spells "[a[b". */
  lemma SkipTextOpens()
    ensures Flatten([Tag("["), Char('a')] + [Tag("["), Char('b')]) == "[a[b"
  {
    var p1: seq<Piece> := [Tag("[")];
    var p2 := p1 + [Char('a')];
    var p3 := p2 + [Tag("[")];
    assert Flatten(p1) == "[";
    FlattenSnoc(p1, Char('a'));
    assert Flatten(p2) == "[a";
    FlattenSnoc(p2, Tag("["));
    assert Flatten(p3) == "[a[";
    FlattenSnoc(p3, Char('b'));
    assert p3 + [Char('b')] == [Tag("["), Char('a')] + [Tag("["), Char('b')];
  }

  /** The skip block's pieces spell "[a[b](u1)cdef". */
  lemma SkipText()
    ensures Flatten(SkipState(6).out) == "[a[b](u1)cdef"
  {
    var p4 := [Tag("["), Char('a')] + [Tag("["), Char('b')];
    var p5 := p4 + [Tag("](u1)")];
    var p6 := p5 + [Char('c')];
    var p7 := p6 + [Char('d')];
    var p8 := p7 + [Char('e')];
    var p9 := p8 + [Char('f')];
    assert SkipState(6).out == p9;
    SkipTextOpens();
    FlattenSnoc(p4, Tag("](u1)"));
    assert Flatten(p5) == "[a[b](u1)";
    FlattenSnoc(p5, Char('c'));
    assert Flatten(p6) == "[a[b](u1)c";
    FlattenSnoc(p6, Char('d'));
    assert Flatten(p7) == "[a[b](u1)cd";
    FlattenSnoc(p7, Char('e'));
    assert Flatten(p8) == "[a[b](u1)cde";
    FlattenSnoc(p8, Char('f'));
  }

  /** Ends out of order make the close cursor skip a range (source lines
      239-250): the second link's close counts for the first, the next scan
      steps past the second and stops, and the first link, which the
      reference closes before 'f', is never closed. */
  lemma SkipExample(env: Env)
    requires SkipLinks(env)
    ensures !EndsSorted(SkipBlock()) && KeysResolve(env, SkipBlock())
    ensures ClosesAt(env, SkipBlock(), 5, 0) == [Tag("](u0)")]
    ensures Flatten(BodyPieces(env, SkipBlock())) == "[a[b](u1)cdef"
  {
    var b := SkipBlock();
    assert b.entities[0].End() > b.entities[1].End();
    assert KeysResolve(env, b);
    assert ClosesAt(env, b, 5, 2) == [];
    assert ClosesAt(env, b, 5, 1) == [];
    SkipRun(env, 6);
    SkipTrailing(env);
    SkipText();
  }

  /** With the default link handler, links to `u0` and `u1` are such
      handlers. */
  lemma DefaultSkipLinks()
    ensures SkipLinks(Env(Merge(NoOptions), map[0 := Entity("LINK", "MUTABLE", map["url" := "u0"]), 1 := Entity("LINK", "MUTABLE", map["url" := "u1"])]))
  {
    var env := Env(Merge(NoOptions), map[0 := Entity("LINK", "MUTABLE", map["url" := "u0"]), 1 := Entity("LINK", "MUTABLE", map["url" := "u1"])]);
    LinkTags(NoOptions, env.entityMap[0]);
    LinkTags(NoOptions, env.entityMap[1]);
    assert env.entityMap[0].data["url"] == "u0" && env.entityMap[1].data["url"] == "u1";
    assert "](" + "u0" + ")" == "](u0)" && "](" + "u1" + ")" == "](u1)";
  }
}
