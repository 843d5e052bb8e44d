/** Properties of the token fold: which list item type is current, which
    tokens push blocks, when the source throws, that finished blocks stay
    as they are, and that every entity range points into the entity map. */
module MarkdownFacts {
  import opened Js
  import opened Draft
  import opened Tokens
  import opened InlineParser
  import opened InlineFacts
  import opened BlockParser
  import Render

  /** One more token: an error stays an error, otherwise the token is
      applied to the state so far. */
  lemma RunStep(tables: Tables, ts: seq<Token>, k: nat)
    requires 0 < k <= |ts|
    ensures ParseRun(tables, ts, k - 1).TypeError? ==> ParseRun(tables, ts, k).TypeError?
    ensures ParseRun(tables, ts, k - 1).Ok? ==>
      ParseRun(tables, ts, k) == TokenStep(tables, ts[k - 1], ParseRun(tables, ts, k - 1).value)
  {
  }

  /** The position of the last list-opening token among the first `k`
      tokens, or -1. */
  function LastListOpen(ts: seq<Token>, k: nat): (j: int)
    requires k <= |ts|
    ensures -1 <= j < k
    ensures j >= 0 ==> ListItemTypeOf(ts[j].kind).Some?
    ensures forall i :: j < i < k ==> ListItemTypeOf(ts[i].kind).None?
  {
    if k == 0 then -1
    else if ListItemTypeOf(ts[k - 1].kind).Some? then k - 1
    else LastListOpen(ts, k - 1)
  }

  /** The list item type after the first `k` tokens: that of the last list
      opened among them, or none. */
  function ListTypeAt(ts: seq<Token>, k: nat): Option<string>
    requires k <= |ts|
  {
    var j := LastListOpen(ts, k);
    if j == -1 then None else ListItemTypeOf(ts[j].kind)
  }

  lemma ListTypeSnoc(ts: seq<Token>, k: nat)
    requires 0 < k <= |ts|
    ensures ListTypeAt(ts, k) == NextListType(ts[k - 1].kind, ListTypeAt(ts, k - 1))
  {
  }

  /** The type token `i` is looked up under. */
  function RefItemType(ts: seq<Token>, i: nat): Option<string>
    requires i < |ts|
  {
    ItemType(ts[i], ListTypeAt(ts, i + 1))
  }

  /** True when token `i` pushes a block. */
  predicate Pushes(tables: Tables, ts: seq<Token>, i: nat)
    requires i < |ts|
  {
    RefItemType(ts, i).Some? && PushesBlock(tables, ts[i], RefItemType(ts, i).value)
  }

  /** How many of the first `k` tokens push a block. */
  function BlockCount(tables: Tables, ts: seq<Token>, k: nat): nat
    requires k <= |ts|
  {
    if k == 0 then 0 else BlockCount(tables, ts, k - 1) + (if Pushes(tables, ts, k - 1) then 1 else 0)
  }

  /** True when the source throws at token `i`: a list item with no list
      opened before it, or an inline token before any block. */
  predicate Crashes(tables: Tables, ts: seq<Token>, i: nat)
    requires i < |ts|
  {
    RefItemType(ts, i).None? || (RefItemType(ts, i) == Some("inline") && BlockCount(tables, ts, i) == 0)
  }

  /** A pattern whose first character is absent does not occur. */
  lemma NotContained(s: string, pat: string)
    requires |pat| > 0 && pat[0] !in s
    ensures !Contains(s, pat)
  {
  }

  /** The fold's state after `k` tokens agrees with the references. */
  ghost predicate Tracks(tables: Tables, ts: seq<Token>, k: nat, st: ParseState)
    requires k <= |ts|
  {
    st.listType == ListTypeAt(ts, k) && |st.blocks| == BlockCount(tables, ts, k)
  }

  lemma TrackStep(tables: Tables, ts: seq<Token>, k: nat, st: ParseState)
    requires 0 < k <= |ts| && Tracks(tables, ts, k - 1, st)
    ensures TokenStep(tables, ts[k - 1], st).TypeError? <==> Crashes(tables, ts, k - 1)
    ensures TokenStep(tables, ts[k - 1], st).Ok? ==> Tracks(tables, ts, k, TokenStep(tables, ts[k - 1], st).value)
  {
    ListTypeSnoc(ts, k);
    var item := ts[k - 1];
    var lt := ListTypeAt(ts, k);
    assert lt == if ListItemTypeOf(item.kind).Some? then ListItemTypeOf(item.kind) else st.listType;
    var it := RefItemType(ts, k - 1);
    assert it == ItemType(item, lt);
    assert BlockCount(tables, ts, k) == |st.blocks| + (if Pushes(tables, ts, k - 1) then 1 else 0);
    if it == Some("inline") {
      NotContained("inline", "_open");
    } else if it.Some? && PushesBlock(tables, item, it.value) {
      assert Pushes(tables, ts, k - 1);
    }
  }

  /** While the fold has not thrown, its list item type and block count
      are the references'. */
  lemma {:induction false} ParseTracks(tables: Tables, ts: seq<Token>, k: nat)
    requires k <= |ts|
    ensures ParseRun(tables, ts, k).Ok? ==> Tracks(tables, ts, k, ParseRun(tables, ts, k).value)
  {
    if k > 0 {
      ParseTracks(tables, ts, k - 1);
      TrackRunStep(tables, ts, k);
    }
  }

  lemma TrackRunStep(tables: Tables, ts: seq<Token>, k: nat)
    requires 0 < k <= |ts|
    requires ParseRun(tables, ts, k - 1).Ok? ==> Tracks(tables, ts, k - 1, ParseRun(tables, ts, k - 1).value)
    ensures ParseRun(tables, ts, k).Ok? ==> Tracks(tables, ts, k, ParseRun(tables, ts, k).value)
  {
    RunStep(tables, ts, k);
    if ParseRun(tables, ts, k - 1).Ok? {
      var st := ParseRun(tables, ts, k - 1).value;
      TrackStep(tables, ts, k, st);
      assert ParseRun(tables, ts, k) == TokenStep(tables, ts[k - 1], st);
    }
  }

  /** One more token leaves the fold running exactly when it was running
      and that token does not crash. */
  lemma OkStep(tables: Tables, ts: seq<Token>, k: nat)
    requires 0 < k <= |ts|
    ensures ParseRun(tables, ts, k).Ok? <==> ParseRun(tables, ts, k - 1).Ok? && !Crashes(tables, ts, k - 1)
  {
    RunStep(tables, ts, k);
    if ParseRun(tables, ts, k - 1).Ok? {
      var st := ParseRun(tables, ts, k - 1).value;
      ParseTracks(tables, ts, k - 1);
      TrackStep(tables, ts, k, st);
      assert ParseRun(tables, ts, k) == TokenStep(tables, ts[k - 1], st);
    }
  }

  /** None of the first `k` tokens crashes, stated as a fold. */
  predicate NoCrashUpTo(tables: Tables, ts: seq<Token>, k: nat)
    requires k <= |ts|
  {
    k == 0 || (NoCrashUpTo(tables, ts, k - 1) && !Crashes(tables, ts, k - 1))
  }

  /** The fold form and the quantified form agree. */
  lemma {:induction false} NoCrashAll(tables: Tables, ts: seq<Token>, k: nat)
    requires k <= |ts|
    ensures NoCrashUpTo(tables, ts, k) <==> forall i :: 0 <= i < k ==> !Crashes(tables, ts, i)
  {
    if k > 0 {
      NoCrashAll(tables, ts, k - 1);
    }
  }

  /** The fold keeps running exactly while no token has crashed. */
  lemma {:induction false} ParseOk(tables: Tables, ts: seq<Token>, k: nat)
    requires k <= |ts|
    ensures ParseRun(tables, ts, k).Ok? <==> NoCrashUpTo(tables, ts, k)
  {
    if k > 0 {
      ParseOk(tables, ts, k - 1);
      OkStep(tables, ts, k);
    }
  }

  /** The fold throws exactly when some token crashes, and otherwise its
      list item type and block count are the references'. */
  lemma ParseOutcome(tables: Tables, ts: seq<Token>, k: nat)
    requires k <= |ts|
    ensures ParseRun(tables, ts, k).Ok? <==> forall i :: 0 <= i < k ==> !Crashes(tables, ts, i)
    ensures ParseRun(tables, ts, k).Ok? ==> Tracks(tables, ts, k, ParseRun(tables, ts, k).value)
  {
    ParseTracks(tables, ts, k);
    ParseOk(tables, ts, k);
    NoCrashAll(tables, ts, k);
  }

  /** The entity map holds exactly the keys 0 to the counter, and every
      entity range of every block points into it. */
  ghost predicate EntitiesResolve(st: ParseState)
  {
    && st.counter >= -1
    && (forall key :: key in st.entityMap <==> 0 <= key <= st.counter)
    && Render.DocKeysResolve(Document(st.blocks, st.entityMap))
  }

  lemma EntitiesInline(tables: Tables, item: Token, st: ParseState)
    requires EntitiesResolve(st) && |st.blocks| > 0
    requires ItemType(item, NextListType(item.kind, st.listType)) == Some("inline")
    ensures TokenStep(tables, item, st).Ok? && EntitiesResolve(TokenStep(tables, item, st).value)
  {
    var parsed := ParseInline(tables, item, st.counter);
    InlineKeys(tables, item.children, |item.children|, st.counter);
    var r := TokenStep(tables, item, st).value;
    var n := |st.blocks|;
    assert r.blocks == st.blocks[..n - 1] + [FillBlock(tables, st.blocks[n - 1], item, st.counter)];
    assert r.entityMap == st.entityMap + parsed.entities;
    var last := r.blocks[n - 1];
    assert last.entities == parsed.entityRanges;
    assert forall i :: 0 <= i < n - 1 ==> r.blocks[i] == st.blocks[i];
  }

  lemma EntitiesStep(tables: Tables, item: Token, st: ParseState)
    requires EntitiesResolve(st)
    ensures TokenStep(tables, item, st).Ok? ==> EntitiesResolve(TokenStep(tables, item, st).value)
  {
    if ItemType(item, NextListType(item.kind, st.listType)) == Some("inline") && |st.blocks| > 0 {
      EntitiesInline(tables, item, st);
    }
  }

  /** After every prefix of the stream that does not throw, the entity map
      holds exactly the keys handed out, 0 upwards, and every entity range
      of every block resolves in it. */
  lemma {:induction false} ParseEntities(tables: Tables, ts: seq<Token>, k: nat)
    requires k <= |ts|
    ensures ParseRun(tables, ts, k).Ok? ==> EntitiesResolve(ParseRun(tables, ts, k).value)
  {
    if k > 0 {
      ParseEntities(tables, ts, k - 1);
      var prev := ParseRun(tables, ts, k - 1);
      RunStep(tables, ts, k);
      if prev.Ok? {
        EntitiesStep(tables, ts[k - 1], prev.value);
      }
    }
  }

  /** The keys of a list of entity ranges, in order. */
  function RangeKeys(es: seq<EntityRange>): (ks: seq<int>)
    ensures |ks| == |es| && forall i :: 0 <= i < |es| ==> ks[i] == es[i].key
  {
    seq(|es|, i requires 0 <= i < |es| => es[i].key)
  }

  /** The keys of every entity range of the blocks, in document order:
      block by block, and range by range within a block. */
  function DocKeys(blocks: seq<Block>): seq<int>
  {
    if |blocks| == 0 then [] else DocKeys(blocks[..|blocks| - 1]) + RangeKeys(blocks[|blocks| - 1].entities)
  }

  /** Each number is above every number before it. */
  predicate Rising(ks: seq<int>)
  {
    forall p, q :: 0 <= p < q < |ks| ==> ks[p] < ks[q]
  }

  /** The entity range keys rise in document order and none is above the
      last key handed out. */
  ghost predicate KeysInOrder(st: ParseState)
  {
    var ks := DocKeys(st.blocks);
    && Rising(ks)
    && forall i :: 0 <= i < |ks| ==> ks[i] <= st.counter
  }

  /** Numbers up to `bound` followed by numbers above it rise when both
      runs do. */
  lemma RisingAppend(a: seq<int>, b: seq<int>, bound: int)
    requires Rising(a) && Rising(b)
    requires forall i :: 0 <= i < |a| ==> a[i] <= bound
    requires forall i :: 0 <= i < |b| ==> b[i] > bound
    ensures Rising(a + b)
  {
  }

  /** The inline token rewrites the most recent block with keys numbered
      on from the counter, above every key left in the earlier blocks. */
  lemma KeysInline(tables: Tables, item: Token, st: ParseState)
    requires KeysInOrder(st) && |st.blocks| > 0
    requires ItemType(item, NextListType(item.kind, st.listType)) == Some("inline")
    ensures TokenStep(tables, item, st).Ok? && KeysInOrder(TokenStep(tables, item, st).value)
  {
    var n := |st.blocks|;
    var parsed := ParseInline(tables, item, st.counter);
    InlineKeys(tables, item.children, |item.children|, st.counter);
    FillBlockContent(tables, st.blocks[n - 1], item, st.counter);
    var r := TokenStep(tables, item, st).value;
    var pre := st.blocks[..n - 1];
    assert r.blocks == pre + [FillBlock(tables, st.blocks[n - 1], item, st.counter)];
    assert r.blocks[..n - 1] == pre;
    var old_ks, new_ks := DocKeys(pre), RangeKeys(parsed.entityRanges);
    assert DocKeys(st.blocks) == old_ks + RangeKeys(st.blocks[n - 1].entities);
    assert DocKeys(r.blocks) == old_ks + new_ks;
    assert forall i :: 0 <= i < |old_ks| ==> old_ks[i] == DocKeys(st.blocks)[i];
    RisingAppend(old_ks, new_ks, st.counter);
  }

  /** A pushed block has no ranges, so it adds no keys. */
  lemma KeysPush(blocks: seq<Block>, b: Block)
    requires b.entities == []
    ensures DocKeys(blocks + [b]) == DocKeys(blocks)
  {
  }

  lemma KeysStep(tables: Tables, item: Token, st: ParseState)
    requires KeysInOrder(st)
    ensures TokenStep(tables, item, st).Ok? ==> KeysInOrder(TokenStep(tables, item, st).value)
  {
    var r := TokenStep(tables, item, st);
    var itemType := ItemType(item, NextListType(item.kind, st.listType));
    if itemType == Some("inline") && |st.blocks| > 0 {
      KeysInline(tables, item, st);
    } else if r.Ok? {
      TokenStepBlocks(tables, item, st);
      if |r.value.blocks| > |st.blocks| {
        assert r.value.blocks == st.blocks + [r.value.blocks[|st.blocks|]];
        KeysPush(st.blocks, r.value.blocks[|st.blocks|]);
      } else {
        assert r.value.blocks == st.blocks;
      }
    }
  }

  /** After every prefix of the stream that does not throw, the entity
      range keys rise in document order. */
  lemma {:induction false} ParseKeys(tables: Tables, ts: seq<Token>, k: nat)
    requires k <= |ts|
    ensures ParseRun(tables, ts, k).Ok? ==> KeysInOrder(ParseRun(tables, ts, k).value)
  {
    if k > 0 {
      ParseKeys(tables, ts, k - 1);
      KeysRunStep(tables, ts, k);
    }
  }

  lemma KeysRunStep(tables: Tables, ts: seq<Token>, k: nat)
    requires 0 < k <= |ts|
    requires ParseRun(tables, ts, k - 1).Ok? ==> KeysInOrder(ParseRun(tables, ts, k - 1).value)
    ensures ParseRun(tables, ts, k).Ok? ==> KeysInOrder(ParseRun(tables, ts, k).value)
  {
    RunStep(tables, ts, k);
    if ParseRun(tables, ts, k - 1).Ok? {
      var st := ParseRun(tables, ts, k - 1).value;
      KeysStep(tables, ts[k - 1], st);
      assert ParseRun(tables, ts, k) == TokenStep(tables, ts[k - 1], st);
    }
  }

  /** The keys of the first `m` blocks are a prefix of the keys of all. */
  lemma {:induction false} DocKeysPrefix(blocks: seq<Block>, m: nat)
    requires m <= |blocks|
    ensures DocKeys(blocks[..m]) <= DocKeys(blocks)
  {
    if m < |blocks| {
      var n := |blocks|;
      assert blocks[..n - 1][..m] == blocks[..m];
      DocKeysPrefix(blocks[..n - 1], m);
    } else {
      assert blocks[..m] == blocks;
    }
  }

  /** Range `j` of block `m` sits in the document's key list just after
      the keys of the blocks before `m`. */
  lemma KeyAt(blocks: seq<Block>, m: nat, j: nat)
    requires m < |blocks| && j < |blocks[m].entities|
    ensures |DocKeys(blocks[..m])| + j < |DocKeys(blocks[..m + 1])| <= |DocKeys(blocks)|
    ensures DocKeys(blocks)[|DocKeys(blocks[..m])| + j] == blocks[m].entities[j].key
  {
    assert blocks[..m + 1][..m] == blocks[..m];
    assert DocKeys(blocks[..m + 1]) == DocKeys(blocks[..m]) + RangeKeys(blocks[m].entities);
    DocKeysPrefix(blocks, m + 1);
  }

  /** Rising keys in document order, stated range by range: a range in an
      earlier block, or earlier in the same block, has the smaller key. */
  lemma RisingRanges(blocks: seq<Block>, m1: nat, j1: nat, m2: nat, j2: nat)
    requires Rising(DocKeys(blocks))
    requires m1 <= m2 < |blocks| && j1 < |blocks[m1].entities| && j2 < |blocks[m2].entities|
    requires m1 < m2 || j1 < j2
    ensures blocks[m1].entities[j1].key < blocks[m2].entities[j2].key
  {
    KeyAt(blocks, m1, j1);
    KeyAt(blocks, m2, j2);
    if m1 < m2 {
      assert blocks[..m2][..m1 + 1] == blocks[..m1 + 1];
      DocKeysPrefix(blocks[..m2], m1 + 1);
    }
  }

  /** Once a later block exists, an earlier one never changes again: an
      inline token rewrites only the most recent block. */
  lemma {:induction false} BlocksSettle(tables: Tables, ts: seq<Token>, j: nat, k: nat)
    requires j <= k <= |ts| && ParseRun(tables, ts, k).Ok?
    ensures ParseRun(tables, ts, j).Ok?
    ensures |ParseRun(tables, ts, j).value.blocks| <= |ParseRun(tables, ts, k).value.blocks|
    ensures forall i :: 0 <= i < |ParseRun(tables, ts, j).value.blocks| - 1 ==>
      ParseRun(tables, ts, k).value.blocks[i] == ParseRun(tables, ts, j).value.blocks[i]
  {
    if j < k {
      SettleRunStep(tables, ts, k);
      BlocksSettle(tables, ts, j, k - 1);
    }
  }

  lemma SettleRunStep(tables: Tables, ts: seq<Token>, k: nat)
    requires 0 < k <= |ts| && ParseRun(tables, ts, k).Ok?
    ensures ParseRun(tables, ts, k - 1).Ok?
    ensures |ParseRun(tables, ts, k - 1).value.blocks| <= |ParseRun(tables, ts, k).value.blocks|
    ensures forall i :: 0 <= i < |ParseRun(tables, ts, k - 1).value.blocks| - 1 ==>
      ParseRun(tables, ts, k).value.blocks[i] == ParseRun(tables, ts, k - 1).value.blocks[i]
  {
    RunStep(tables, ts, k);
    var st := ParseRun(tables, ts, k - 1).value;
    SettleStep(tables, ts[k - 1], st);
    assert ParseRun(tables, ts, k) == TokenStep(tables, ts[k - 1], st);
  }

  /** One token never shortens the block list and changes no block but
      the most recent one. */
  lemma SettleStep(tables: Tables, item: Token, st: ParseState)
    ensures TokenStep(tables, item, st).Ok? ==>
      && |st.blocks| <= |TokenStep(tables, item, st).value.blocks|
      && forall i :: 0 <= i < |st.blocks| - 1 ==> TokenStep(tables, item, st).value.blocks[i] == st.blocks[i]
  {
    TokenStepBlocks(tables, item, st);
  }

  /** While the state tracks the references, the type the next token is
      looked up under is its reference type. */
  lemma RefTypeOf(tables: Tables, ts: seq<Token>, k: nat, st: ParseState)
    requires 0 < k <= |ts| && Tracks(tables, ts, k - 1, st)
    ensures RefItemType(ts, k - 1) == ItemType(ts[k - 1], NextListType(ts[k - 1].kind, st.listType))
  {
    ListTypeSnoc(ts, k);
  }

  /** Entity range keys in document order: a range in an earlier block,
      or earlier in the same block, has the smaller key; so no two ranges
      share a key. */
  predicate KeysRiseInRanges(blocks: seq<Block>)
  {
    forall m1, j1, m2, j2 ::
      0 <= m1 <= m2 < |blocks| && 0 <= j1 < |blocks[m1].entities| && 0 <= j2 < |blocks[m2].entities| &&
      (m1 < m2 || j1 < j2) ==>
        blocks[m1].entities[j1].key < blocks[m2].entities[j2].key
  }

  /** Keys that rise along the document's key list rise range by range. */
  lemma RisingKeysRanges(blocks: seq<Block>)
    requires Rising(DocKeys(blocks))
    ensures KeysRiseInRanges(blocks)
  {
    forall m1, j1, m2, j2 |
      0 <= m1 <= m2 < |blocks| && 0 <= j1 < |blocks[m1].entities| && 0 <= j2 < |blocks[m2].entities| &&
      (m1 < m2 || j1 < j2)
      ensures blocks[m1].entities[j1].key < blocks[m2].entities[j2].key
    {
      RisingRanges(blocks, m1, j1, m2, j2);
    }
  }

  /** `markdownToDraft` throws exactly when some token crashes; otherwise it
      returns one block per block-opening token, every entity range
      resolves in the entity map, so the renderer finds an entity for every
      range it reaches, and the keys of the entity ranges rise in document
      order, so no two ranges share an entity. */
  lemma MarkdownToDraftOutcome(opts: ParseOptions, ts: seq<Token>)
    ensures MarkdownToDraft(opts, ts).Ok? <==> forall i :: 0 <= i < |ts| ==> !Crashes(Resolve(opts), ts, i)
    ensures MarkdownToDraft(opts, ts).Ok? ==>
      && |MarkdownToDraft(opts, ts).value.blocks| == BlockCount(Resolve(opts), ts, |ts|)
      && Render.DocKeysResolve(MarkdownToDraft(opts, ts).value)
      && (forall key :: key in MarkdownToDraft(opts, ts).value.entityMap ==> key >= 0)
      && KeysRiseInRanges(MarkdownToDraft(opts, ts).value.blocks)
  {
    ParseOutcome(Resolve(opts), ts, |ts|);
    ParseEntities(Resolve(opts), ts, |ts|);
    ParseKeys(Resolve(opts), ts, |ts|);
    if MarkdownToDraft(opts, ts).Ok? {
      RisingKeysRanges(MarkdownToDraft(opts, ts).value.blocks);
    }
  }
}
