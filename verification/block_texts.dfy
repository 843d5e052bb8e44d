/** Where each block of the token fold comes from: the block-opening token
    whose constructor made it, and the last inline token that found it the
    most recent block and so gave it its text. */
module BlockTexts {
  import opened Js
  import opened Tokens
  import opened Draft
  import opened InlineParser
  import opened InlineFacts
  import opened BlockParser
  import opened MarkdownFacts

  /** The block count never goes down. */
  lemma {:induction false} BlockCountGrows(tables: Tables, ts: seq<Token>, i: nat, k: nat)
    requires i <= k <= |ts|
    ensures BlockCount(tables, ts, i) <= BlockCount(tables, ts, k)
  {
    if i < k {
      BlockCountGrows(tables, ts, i, k - 1);
    }
  }

  /** True when token `i` is an inline token that finds block `m` the most
      recent block, and so rewrites it. */
  predicate Fills(tables: Tables, ts: seq<Token>, i: nat, m: nat)
    requires i < |ts|
  {
    RefItemType(ts, i) == Some("inline") && BlockCount(tables, ts, i) == m + 1
  }

  /** The last of the first `k` tokens that fills block `m`, or -1. */
  function LastFill(tables: Tables, ts: seq<Token>, m: nat, k: nat): (j: int)
    requires k <= |ts|
    ensures -1 <= j < k
    ensures j >= 0 ==> Fills(tables, ts, j, m)
    ensures forall i :: j < i < k ==> !Fills(tables, ts, i, m)
  {
    if k == 0 then -1
    else if Fills(tables, ts, k - 1, m) then k - 1
    else LastFill(tables, ts, m, k - 1)
  }

  /** The last of the first `k` tokens that fills block `m` and whose only
      child has a block constructor, or -1: the token that set the block's
      type last. */
  function LastSingleFill(tables: Tables, ts: seq<Token>, m: nat, k: nat): (j: int)
    requires k <= |ts|
    ensures -1 <= j <= LastFill(tables, ts, m, k)
    ensures j >= 0 ==> Fills(tables, ts, j, m) && SingleBlockChild(tables, ts[j])
    ensures forall i :: j < i < k && Fills(tables, ts, i, m) ==> !SingleBlockChild(tables, ts[i])
  {
    if k == 0 then -1
    else if Fills(tables, ts, k - 1, m) && SingleBlockChild(tables, ts[k - 1]) then k - 1
    else LastSingleFill(tables, ts, m, k - 1)
  }

  /** The type a token's single block child gives the block it fills. */
  function ChildKind(tables: Tables, item: Token): string
    requires SingleBlockChild(tables, item)
  {
    tables.blockTypes[item.children[0].kind](item.children[0]).kind
  }

  /** The one of the first `k` tokens that pushed block `m`, or -1. */
  function PushOf(tables: Tables, ts: seq<Token>, m: nat, k: nat): (j: int)
    requires k <= |ts|
    ensures -1 <= j < k
    ensures j >= 0 ==> Pushes(tables, ts, j) && BlockCount(tables, ts, j) == m
  {
    if k == 0 then -1
    else if Pushes(tables, ts, k - 1) && BlockCount(tables, ts, k - 1) == m then k - 1
    else PushOf(tables, ts, m, k - 1)
  }

  /** The reference for block `m` after `k` tokens: some token pushed it;
      while no inline token has filled it, it is that token's constructor
      block unchanged. Once one has, its text is the last such token's
      text; its type is that of the last single block child among the
      filling tokens, or the constructor's when there was none; its style
      ranges are the last filling token's inline pass's, and its entity
      ranges cover that pass's spans (their keys depend on the counter the
      pass started from: see `MarkdownFacts.KeysRiseInRanges`); its depth and data are still
      the constructor's. */
  ghost predicate FromTokens(tables: Tables, ts: seq<Token>, k: nat, m: nat, b: Block)
    requires k <= |ts|
  {
    var p := PushOf(tables, ts, m, k);
    var q := LastFill(tables, ts, m, k);
    var s := LastSingleFill(tables, ts, m, k);
    && p >= 0
    && var pushed := NewBlock(tables.blockTypes[RefItemType(ts, p).value](ts[p]));
    && b.kind == (if s >= 0 then ChildKind(tables, ts[s]) else pushed.kind)
    && (q == -1 ==> b == pushed)
    && (q >= 0 ==>
          && b.text == FillText(tables, ts[q])
          && b.styles == ParseInline(tables, ts[q], -1).styleRanges
          && SameSpans(b.entities, ParseInline(tables, ts[q], -1).entityRanges)
          && b.depth == pushed.depth && b.data == pushed.data)
  }

  /** Every block of the state matches its reference. */
  ghost predicate AllFromTokens(tables: Tables, ts: seq<Token>, k: nat, st: ParseState)
    requires k <= |ts|
  {
    forall m :: 0 <= m < |st.blocks| ==> FromTokens(tables, ts, k, m, st.blocks[m])
  }

  /** A token that neither fills nor pushes block `m` leaves its reference
      where it was. */
  lemma RefsKept(tables: Tables, ts: seq<Token>, k: nat, m: nat)
    requires 0 < k <= |ts|
    requires !Fills(tables, ts, k - 1, m)
    requires !(Pushes(tables, ts, k - 1) && BlockCount(tables, ts, k - 1) == m)
    ensures LastFill(tables, ts, m, k) == LastFill(tables, ts, m, k - 1)
    ensures LastSingleFill(tables, ts, m, k) == LastSingleFill(tables, ts, m, k - 1)
    ensures PushOf(tables, ts, m, k) == PushOf(tables, ts, m, k - 1)
  {
  }

  /** A block the new token does not touch keeps its reference. */
  lemma KeptStep(tables: Tables, ts: seq<Token>, k: nat, st: ParseState, r: ParseState, m: nat)
    requires 0 < k <= |ts| && Tracks(tables, ts, k - 1, st) && AllFromTokens(tables, ts, k - 1, st)
    requires m < |st.blocks| && m < |r.blocks| && r.blocks[m] == st.blocks[m]
    requires !Fills(tables, ts, k - 1, m)
    ensures FromTokens(tables, ts, k, m, r.blocks[m])
  {
    assert FromTokens(tables, ts, k - 1, m, st.blocks[m]);
    RefsKept(tables, ts, k, m);
  }

  /** `b` is what an inline token `item` makes of the block `prev`, keys
      aside: the token's text, the type of its single block child if it
      has one, the style ranges and entity spans of its inline pass, and
      `prev`'s depth and data. */
  ghost predicate FilledFrom(tables: Tables, prev: Block, item: Token, b: Block)
  {
    && b.text == FillText(tables, item)
    && b.kind == (if SingleBlockChild(tables, item) then ChildKind(tables, item) else prev.kind)
    && b.styles == ParseInline(tables, item, -1).styleRanges
    && SameSpans(b.entities, ParseInline(tables, item, -1).entityRanges)
    && b.depth == prev.depth && b.data == prev.data
  }

  /** Whatever counter the inline pass starts from, the block it fills is
      filled from the token. */
  lemma FillBlockFills(tables: Tables, prev: Block, item: Token, counter: int)
    ensures FilledFrom(tables, prev, item, FillBlock(tables, prev, item, counter))
  {
    FillBlockContent(tables, prev, item, counter);
    InlineShape(tables, item.children, |item.children|, counter, -1);
  }

  /** An inline token rewrites the block it fills to match the reference
      that names it the last filling token. */
  lemma FilledStep(tables: Tables, ts: seq<Token>, k: nat, m: nat, prev: Block, b: Block)
    requires 0 < k <= |ts| && FromTokens(tables, ts, k - 1, m, prev) && Fills(tables, ts, k - 1, m)
    requires FilledFrom(tables, prev, ts[k - 1], b)
    ensures FromTokens(tables, ts, k, m, b)
  {
    FilledRefs(tables, ts, k, m);
  }

  /** The token that fills block `m` becomes its last filling token, and
      its last single block child filler when it has such a child. */
  lemma FilledRefs(tables: Tables, ts: seq<Token>, k: nat, m: nat)
    requires 0 < k <= |ts| && Fills(tables, ts, k - 1, m)
    ensures LastFill(tables, ts, m, k) == k - 1
    ensures PushOf(tables, ts, m, k) == PushOf(tables, ts, m, k - 1)
    ensures LastSingleFill(tables, ts, m, k) ==
      (if SingleBlockChild(tables, ts[k - 1]) then k - 1 else LastSingleFill(tables, ts, m, k - 1))
  {
  }

  /** A block-opening token's block is its constructor's, not yet filled. */
  lemma PushedStep(tables: Tables, ts: seq<Token>, k: nat, st: ParseState, b: Block)
    requires 0 < k <= |ts| && Tracks(tables, ts, k - 1, st)
    requires Pushes(tables, ts, k - 1)
    requires b == NewBlock(tables.blockTypes[RefItemType(ts, k - 1).value](ts[k - 1]))
    ensures FromTokens(tables, ts, k, |st.blocks|, b)
  {
    var n := |st.blocks|;
    var q := LastFill(tables, ts, n, k - 1);
    if q >= 0 {
      BlockCountGrows(tables, ts, q, k - 1);
      assert false;
    }
  }

  /** One token keeps every block matching its reference. */
  lemma FromTokensStep(tables: Tables, ts: seq<Token>, k: nat, st: ParseState)
    requires 0 < k <= |ts| && Tracks(tables, ts, k - 1, st) && AllFromTokens(tables, ts, k - 1, st)
    ensures TokenStep(tables, ts[k - 1], st).Ok? ==> AllFromTokens(tables, ts, k, TokenStep(tables, ts[k - 1], st).value)
  {
    var item := ts[k - 1];
    var r := TokenStep(tables, item, st);
    if r.Ok? {
      var n := |st.blocks|;
      RefTypeOf(tables, ts, k, st);
      TokenStepBlocks(tables, item, st);
      TrackStep(tables, ts, k, st);
      forall m | 0 <= m < |r.value.blocks|
        ensures FromTokens(tables, ts, k, m, r.value.blocks[m])
      {
        if Fills(tables, ts, k - 1, m) {
          FillBlockFills(tables, st.blocks[m], item, st.counter);
          FilledStep(tables, ts, k, m, st.blocks[m], r.value.blocks[m]);
        } else if m < n {
          if RefItemType(ts, k - 1) != Some("inline") {
            assert r.value.blocks[..n][m] == st.blocks[m];
          }
          KeptStep(tables, ts, k, st, r.value, m);
        } else {
          PushedStep(tables, ts, k, st, r.value.blocks[m]);
        }
      }
    }
  }

  /** After every prefix of the stream that does not throw, every block
      matches its reference. */
  lemma {:induction false} FromTokensRun(tables: Tables, ts: seq<Token>, k: nat)
    requires k <= |ts|
    ensures ParseRun(tables, ts, k).Ok? ==> AllFromTokens(tables, ts, k, ParseRun(tables, ts, k).value)
  {
    if k > 0 {
      FromTokensRun(tables, ts, k - 1);
      ParseTracks(tables, ts, k - 1);
      RunStep(tables, ts, k);
      if ParseRun(tables, ts, k - 1).Ok? {
        FromTokensStep(tables, ts, k, ParseRun(tables, ts, k - 1).value);
      }
    }
  }

  /** Each block `markdownToDraft` returns was pushed by a block-opening
      token; its text is that of the last inline token that found it the
      most recent block, and a block no inline token filled is exactly its
      constructor's block. */
  lemma MarkdownToDraftBlocks(opts: ParseOptions, ts: seq<Token>)
    ensures MarkdownToDraft(opts, ts).Ok? ==>
      forall m :: 0 <= m < |MarkdownToDraft(opts, ts).value.blocks| ==>
        FromTokens(Resolve(opts), ts, |ts|, m, MarkdownToDraft(opts, ts).value.blocks[m])
  {
    FromTokensRun(Resolve(opts), ts, |ts|);
  }
}
