/** Properties of the inline pass: the text it builds, the keys it hands
    out, where its ranges start, and how its history of opened tags grows. */
module InlineFacts {
  import opened Js
  import opened Draft
  import opened Tokens
  import opened InlineParser

  /** The text one child contributes: a text child its content, a soft break
      a newline, and a style token of type `code` or `sup` its content. */
  function ChildText(tables: Tables, child: Token): string
  {
    if child.kind == "text" then JsText(child.content)
    else if child.kind == "softbreak" then "\n"
    else if StyleFor(tables, child.kind).Some? && child.kind in ContentStyleTypes then JsText(child.content)
    else ""
  }

  /** The text of a run of children, read from the front. */
  function ChildrenText(tables: Tables, children: seq<Token>): string
  {
    if |children| == 0 then "" else ChildText(tables, children[0]) + ChildrenText(tables, children[1..])
  }

  lemma ChildrenTextSnoc(tables: Tables, children: seq<Token>, child: Token)
    ensures ChildrenText(tables, children + [child]) == ChildrenText(tables, children) + ChildText(tables, child)
  {
    if |children| > 0 {
      assert (children + [child])[1..] == children[1..] + [child];
    }
  }

  /** One more child: the pass so far, then that child's step. */
  lemma InlineRunStep(tables: Tables, children: seq<Token>, k: nat, counter: int)
    requires 0 < k <= |children|
    ensures InlineRun(tables, children, k, counter) == InlineStep(tables, children[k - 1], InlineRun(tables, children, k - 1, counter))
  {
  }

  /** Each child appends exactly its own text. */
  lemma InlineTextStep(tables: Tables, child: Token, st: InlineState)
    requires RefsValid(st)
    ensures InlineStep(tables, child, st).content == st.content + ChildText(tables, child)
  {
  }

  /** The text of the inline pass is the text of its children, in order. */
  lemma {:induction false} InlineText(tables: Tables, children: seq<Token>, k: nat, counter: int)
    requires k <= |children|
    ensures InlineRun(tables, children, k, counter).content == ChildrenText(tables, children[..k])
  {
    if k > 0 {
      var prev := InlineRun(tables, children, k - 1, counter);
      var child := children[k - 1];
      InlineRunStep(tables, children, k, counter);
      InlineText(tables, children, k - 1, counter);
      InlineTextStep(tables, child, prev);
      ChildrenTextSnoc(tables, children[..k - 1], child);
      assert children[..k] == children[..k - 1] + [child];
    }
  }

  /** The entity keys of a pass that started after `counter`: the i-th range
      has key `counter + 1 + i`, and the entities are exactly those keys. */
  ghost predicate KeysFrom(st: InlineState, counter: int)
  {
    && st.counter == counter + |st.entityRanges|
    && (forall i :: 0 <= i < |st.entityRanges| ==> st.entityRanges[i].key == counter + 1 + i)
    && (forall key :: key in st.entities <==> counter < key <= st.counter)
  }

  lemma KeysStep(tables: Tables, child: Token, st: InlineState, counter: int)
    requires RefsValid(st) && KeysFrom(st, counter)
    ensures KeysFrom(InlineStep(tables, child, st), counter)
  {
  }

  /** Keys are handed out consecutively after the starting counter, and the
      entities created are exactly the keys handed out. */
  lemma {:induction false} InlineKeys(tables: Tables, children: seq<Token>, k: nat, counter: int)
    requires k <= |children|
    ensures KeysFrom(InlineRun(tables, children, k, counter), counter)
  {
    if k > 0 {
      InlineKeys(tables, children, k - 1, counter);
      KeysStep(tables, children[k - 1], InlineRun(tables, children, k - 1, counter), counter);
    }
  }

  /** No step moves a range or changes its style or key: a close changes
      only a length. */
  lemma StepKeepsRanges(tables: Tables, child: Token, st: InlineState)
    requires RefsValid(st)
    ensures var r := InlineStep(tables, child, st);
      && (forall i :: 0 <= i < |st.styleRanges| ==>
            r.styleRanges[i].offset == st.styleRanges[i].offset && r.styleRanges[i].style == st.styleRanges[i].style)
      && (forall i :: 0 <= i < |st.entityRanges| ==>
            r.entityRanges[i].offset == st.entityRanges[i].offset && r.entityRanges[i].key == st.entityRanges[i].key)
  {
  }

  /** A style opener adds one style range, starting at the current end of
      the text with the opener's style, as long as the token's content or 1
      when it has none, and records it as the newest history entry; entity
      ranges and keys stay as they are. */
  lemma StyleOpenerStep(tables: Tables, child: Token, st: InlineState)
    requires RefsValid(st) && OpensStyle(tables, child)
    ensures var r := InlineStep(tables, child, st);
      && |r.styleRanges| == |st.styleRanges| + 1 && r.entityRanges == st.entityRanges
      && r.styleRanges[|st.styleRanges|].offset == |st.content|
      && r.styleRanges[|st.styleRanges|].style == StyleFor(tables, child.kind).value
      && r.styleRanges[|st.styleRanges|].length == (if Truthy(child.content) then |child.content.value| else 1)
      && r.history == st.history + [HistoryEntry(child.kind, StyleAt(|st.styleRanges|))]
      && r.counter == st.counter && r.entities == st.entities
  {
  }

  /** A `code` or `sup` child with content opens a range over exactly the
      text it appends: reading the new range back out of the text gives the
      token's content. */
  lemma ContentStyleCovers(tables: Tables, child: Token, st: InlineState)
    requires RefsValid(st) && OpensStyle(tables, child) && child.kind in ContentStyleTypes && Truthy(child.content)
    ensures var r := InlineStep(tables, child, st);
      && |st.styleRanges| < |r.styleRanges|
      && var g := r.styleRanges[|st.styleRanges|];
      && 0 <= g.offset <= g.offset + g.length == |r.content|
      && r.content[g.offset..g.offset + g.length] == child.content.value
  {
  }

  /** An entity opener adds one entity range of length 1 at the current end
      of the text under a fresh key, stores the constructor's entity under
      that key and records the range as the newest history entry. */
  lemma EntityOpenerStep(tables: Tables, child: Token, st: InlineState)
    requires RefsValid(st) && OpensEntity(tables, child)
    ensures var r := InlineStep(tables, child, st);
      && r.styleRanges == st.styleRanges && r.content == st.content
      && r.entityRanges == st.entityRanges + [EntityRange(|st.content|, 1, st.counter + 1)]
      && r.history == st.history + [HistoryEntry(child.kind, EntityAt(|st.entityRanges|))]
      && r.counter == st.counter + 1 && st.counter + 1 in r.entities
      && r.entities[st.counter + 1] == tables.blockEntities[child.kind](child)
  {
  }

  /** Any other child adds no range, no history entry and no key. */
  lemma NonOpenerStep(tables: Tables, child: Token, st: InlineState)
    requires RefsValid(st) && !OpensStyle(tables, child) && !OpensEntity(tables, child)
    ensures var r := InlineStep(tables, child, st);
      && |r.styleRanges| == |st.styleRanges| && |r.entityRanges| == |st.entityRanges|
      && r.history == st.history && r.counter == st.counter && r.entities == st.entities
  {
  }

  /** A closing child whose opening type has a style or an entity handler
      sets the length of the range of the most recent history entry of that
      opening type, and does nothing else. */
  lemma CloserStep(tables: Tables, child: Token, st: InlineState)
    requires RefsValid(st) && !OpensStyle(tables, child) && !OpensEntity(tables, child)
    requires child.kind != "text" && child.kind != "softbreak" && ClosesKnownTag(tables, child.kind)
    ensures InlineStep(tables, child, st) == UpdateHistoryTag(OpenTagOf(child.kind), st)
  {
  }

  /** How many of the children open a style range. */
  function StyleOpeners(tables: Tables, children: seq<Token>): nat
  {
    if |children| == 0 then 0
    else StyleOpeners(tables, children[..|children| - 1]) + (if OpensStyle(tables, children[|children| - 1]) then 1 else 0)
  }

  /** How many of the children open an entity range. */
  function EntityOpeners(tables: Tables, children: seq<Token>): nat
  {
    if |children| == 0 then 0
    else EntityOpeners(tables, children[..|children| - 1]) + (if OpensEntity(tables, children[|children| - 1]) then 1 else 0)
  }

  /** After the first `k` children: one style range per style opener and one
      entity range per entity opener, in order, and the range the opener at
      `p` made starts at the length of the text of the children before `p`,
      with the opener's style. */
  ghost predicate OffsetsAt(tables: Tables, children: seq<Token>, k: nat, st: InlineState)
    requires k <= |children|
  {
    && |st.styleRanges| == StyleOpeners(tables, children[..k])
    && |st.entityRanges| == EntityOpeners(tables, children[..k])
    && (forall p :: 0 <= p < k && OpensStyle(tables, children[p]) ==>
          var i := StyleOpeners(tables, children[..p]);
          i < |st.styleRanges|
          && st.styleRanges[i].offset == |ChildrenText(tables, children[..p])|
          && st.styleRanges[i].style == StyleFor(tables, children[p].kind).value)
    && (forall p :: 0 <= p < k && OpensEntity(tables, children[p]) ==>
          var i := EntityOpeners(tables, children[..p]);
          i < |st.entityRanges| && st.entityRanges[i].offset == |ChildrenText(tables, children[..p])|)
  }

  lemma OpenersSnoc(tables: Tables, children: seq<Token>, k: nat)
    requires 0 < k <= |children|
    ensures StyleOpeners(tables, children[..k])
      == StyleOpeners(tables, children[..k - 1]) + (if OpensStyle(tables, children[k - 1]) then 1 else 0)
    ensures EntityOpeners(tables, children[..k])
      == EntityOpeners(tables, children[..k - 1]) + (if OpensEntity(tables, children[k - 1]) then 1 else 0)
  {
    assert children[..k][..k - 1] == children[..k - 1];
  }

  /** The style half of one step of `InlineOffsets`. */
  lemma StyleOffsetsStep(tables: Tables, children: seq<Token>, k: nat, counter: int)
    requires 0 < k <= |children|
    requires OffsetsAt(tables, children, k - 1, InlineRun(tables, children, k - 1, counter))
    ensures var r := InlineRun(tables, children, k, counter);
      && |r.styleRanges| == StyleOpeners(tables, children[..k])
      && forall p :: 0 <= p < k && OpensStyle(tables, children[p]) ==>
           var i := StyleOpeners(tables, children[..p]);
           i < |r.styleRanges|
           && r.styleRanges[i].offset == |ChildrenText(tables, children[..p])|
           && r.styleRanges[i].style == StyleFor(tables, children[p].kind).value
  {
    var prev := InlineRun(tables, children, k - 1, counter);
    var r := InlineRun(tables, children, k, counter);
    assert r == InlineStep(tables, children[k - 1], prev);
    OpenersSnoc(tables, children, k);
    InlineText(tables, children, k - 1, counter);
    StepKeepsRanges(tables, children[k - 1], prev);
    if OpensStyle(tables, children[k - 1]) {
      StyleOpenerStep(tables, children[k - 1], prev);
    } else if OpensEntity(tables, children[k - 1]) {
      EntityOpenerStep(tables, children[k - 1], prev);
    } else {
      NonOpenerStep(tables, children[k - 1], prev);
    }
  }

  /** The entity half of one step of `InlineOffsets`. */
  lemma EntityOffsetsStep(tables: Tables, children: seq<Token>, k: nat, counter: int)
    requires 0 < k <= |children|
    requires OffsetsAt(tables, children, k - 1, InlineRun(tables, children, k - 1, counter))
    ensures var r := InlineRun(tables, children, k, counter);
      && |r.entityRanges| == EntityOpeners(tables, children[..k])
      && forall p :: 0 <= p < k && OpensEntity(tables, children[p]) ==>
           var i := EntityOpeners(tables, children[..p]);
           i < |r.entityRanges| && r.entityRanges[i].offset == |ChildrenText(tables, children[..p])|
  {
    var prev := InlineRun(tables, children, k - 1, counter);
    var r := InlineRun(tables, children, k, counter);
    assert r == InlineStep(tables, children[k - 1], prev);
    OpenersSnoc(tables, children, k);
    InlineText(tables, children, k - 1, counter);
    StepKeepsRanges(tables, children[k - 1], prev);
    if OpensStyle(tables, children[k - 1]) {
      StyleOpenerStep(tables, children[k - 1], prev);
    } else if OpensEntity(tables, children[k - 1]) {
      EntityOpenerStep(tables, children[k - 1], prev);
    } else {
      NonOpenerStep(tables, children[k - 1], prev);
    }
  }

  /** Every range the inline pass makes belongs to exactly one opening
      child, in order, and starts where the text stood when that child was
      met: at the length of the text of the children before it. Closing
      tokens change lengths only. */
  lemma {:induction false} InlineOffsets(tables: Tables, children: seq<Token>, k: nat, counter: int)
    requires k <= |children|
    ensures OffsetsAt(tables, children, k, InlineRun(tables, children, k, counter))
  {
    if k > 0 {
      InlineOffsets(tables, children, k - 1, counter);
      StyleOffsetsStep(tables, children, k, counter);
      EntityOffsetsStep(tables, children, k, counter);
    }
  }

  /** One history entry per range opened: closing a tag never removes an
      entry. */
  ghost predicate HistoryCounts(st: InlineState)
  {
    |st.history| == |st.styleRanges| + |st.entityRanges|
  }

  lemma HistoryStep(tables: Tables, child: Token, st: InlineState)
    requires RefsValid(st) && HistoryCounts(st)
    ensures HistoryCounts(InlineStep(tables, child, st))
  {
  }

  /** The history holds one entry for every style or entity range ever
      opened, however many tags have been closed. */
  lemma {:induction false} InlineHistoryCounts(tables: Tables, children: seq<Token>, k: nat, counter: int)
    requires k <= |children|
    ensures HistoryCounts(InlineRun(tables, children, k, counter))
  {
    if k > 0 {
      InlineHistoryCounts(tables, children, k - 1, counter);
      HistoryStep(tables, children[k - 1], InlineRun(tables, children, k - 1, counter));
    }
  }

  /** The history after fewer children is a prefix of the history after
      more: it only ever grows. */
  lemma {:induction false} HistoryGrows(tables: Tables, children: seq<Token>, j: nat, k: nat, counter: int)
    requires j <= k <= |children|
    ensures InlineRun(tables, children, j, counter).history <= InlineRun(tables, children, k, counter).history
  {
    if j < k {
      HistoryGrows(tables, children, j, k - 1, counter);
      GrowsStep(tables, children, j, k, counter);
    }
  }

  /** A prefix of the history after `k - 1` children is a prefix of the
      history after `k`. */
  lemma GrowsStep(tables: Tables, children: seq<Token>, j: nat, k: nat, counter: int)
    requires j < k <= |children|
    requires InlineRun(tables, children, j, counter).history <= InlineRun(tables, children, k - 1, counter).history
    ensures InlineRun(tables, children, j, counter).history <= InlineRun(tables, children, k, counter).history
  {
    HistoryOneStep(tables, children, k, counter);
    PrefixTrans(InlineRun(tables, children, j, counter).history,
                InlineRun(tables, children, k - 1, counter).history,
                InlineRun(tables, children, k, counter).history);
  }

  /** One more child keeps the history as a prefix. */
  lemma HistoryOneStep(tables: Tables, children: seq<Token>, k: nat, counter: int)
    requires 0 < k <= |children|
    ensures InlineRun(tables, children, k - 1, counter).history <= InlineRun(tables, children, k, counter).history
  {
    InlineRunStep(tables, children, k, counter);
  }

  /** Being a prefix is transitive. */
  lemma PrefixTrans<T>(a: seq<T>, b: seq<T>, c: seq<T>)
    requires a <= b && b <= c
    ensures a <= c
  {
    assert a == b[..|a|] && b == c[..|b|];
    assert c[..|b|][..|a|] == c[..|a|];
  }

  /** Two entity range lists cover the same spans, whatever their keys. */
  predicate SameSpans(a: seq<EntityRange>, b: seq<EntityRange>)
  {
    && |a| == |b|
    && forall i :: 0 <= i < |a| ==> a[i].offset == b[i].offset && a[i].length == b[i].length
  }

  /** Two inline states that differ at most in their keys and entities. */
  predicate SameShape(s1: InlineState, s2: InlineState)
  {
    && s1.content == s2.content && s1.styleRanges == s2.styleRanges && s1.history == s2.history
    && SameSpans(s1.entityRanges, s2.entityRanges)
  }

  lemma ShapeStep(tables: Tables, child: Token, s1: InlineState, s2: InlineState)
    requires RefsValid(s1) && RefsValid(s2) && SameShape(s1, s2)
    ensures SameShape(InlineStep(tables, child, s1), InlineStep(tables, child, s2))
  {
    if child.kind == "text" || child.kind == "softbreak" || StyleFor(tables, child.kind).Some? {
    } else if child.kind in tables.blockEntities {
      ShapeEntity(tables, child, s1, s2);
    } else if ClosesKnownTag(tables, child.kind) {
      ShapeClose(OpenTagOf(child.kind), s1, s2);
    }
  }

  lemma ShapeEntity(tables: Tables, child: Token, s1: InlineState, s2: InlineState)
    requires RefsValid(s1) && RefsValid(s2) && SameShape(s1, s2)
    requires child.kind in tables.blockEntities
    ensures var e := tables.blockEntities[child.kind](child);
      var a1 := AddEntityBlock(s1, 1, e);
      var a2 := AddEntityBlock(s2, 1, e);
      SameShape(a1.(history := s1.history + [HistoryEntry(child.kind, EntityAt(|s1.entityRanges|))]),
                a2.(history := s2.history + [HistoryEntry(child.kind, EntityAt(|s2.entityRanges|))]))
  {
  }

  lemma ShapeClose(tag: string, s1: InlineState, s2: InlineState)
    requires RefsValid(s1) && RefsValid(s2) && SameShape(s1, s2)
    ensures SameShape(UpdateHistoryTag(tag, s1), UpdateHistoryTag(tag, s2))
  {
    var k := LastTagIndex(s1.history, tag);
    if k >= 0 {
      var r1 := UpdateHistoryTag(tag, s1);
      var r2 := UpdateHistoryTag(tag, s2);
      assert r1 == CloseRange(s1, s1.history[k].item);
      assert r2 == CloseRange(s2, s1.history[k].item);
    }
  }

  /** Keys aside, the inline pass does not depend on the counter it starts
      from: the text, the style ranges, the history and the spans of the
      entity ranges are the same for any two counters. */
  lemma {:induction false} InlineShape(tables: Tables, children: seq<Token>, k: nat, c1: int, c2: int)
    requires k <= |children|
    ensures SameShape(InlineRun(tables, children, k, c1), InlineRun(tables, children, k, c2))
  {
    if k > 0 {
      InlineShape(tables, children, k - 1, c1, c2);
      var p1, p2 := InlineRun(tables, children, k - 1, c1), InlineRun(tables, children, k - 1, c2);
      InlineRunStep(tables, children, k, c1);
      InlineRunStep(tables, children, k, c2);
      ShapeStep(tables, children[k - 1], p1, p2);
    }
  }
}
