/** The inline pass on small token sequences with the default tables. */
module InlineExamples {
  import opened Js
  import opened Draft
  import opened Tokens
  import opened InlineParser
  import opened InlineFacts

  /** The tables without custom entries. */
  function Defaults(): Tables
  {
    Resolve(NoParseOptions)
  }

  /** A child token without attributes. */
  function Child(kind: string, content: Option<string>): Token
  {
    Token(kind, 1, content, 0, map[], [])
  }

  /** With the default tables, `strong_open` is bold and `sub` is subscript,
      and `strong_close` is neither a style nor an entity. */
  lemma DefaultInlineTables()
    ensures StyleFor(Defaults(), "strong_open") == Some("BOLD")
    ensures StyleFor(Defaults(), "sub") == Some("SUBSCRIPT")
    ensures StyleFor(Defaults(), "sup") == Some("SUPERSCRIPT")
    ensures StyleFor(Defaults(), "strong_close") == None
    ensures "strong_close" !in Defaults().blockEntities
  {
    assert Defaults().blockStyles == DefaultBlockStyles;
    assert Defaults().blockEntities == DefaultBlockEntities;
  }

  /** `strong_close` closes the tag `strong_open`. */
  lemma StrongCloseTag()
    ensures Contains("strong_close", "_close")
    ensures OpenTagOf("strong_close") == "strong_open"
  {
    var s := "strong_close";
    assert OccursAt(s, "_close", 6);
    assert forall i :: 0 <= i < 6 ==> !OccursAt(s, "_close", i) by {
      assert s[0] != '_' && s[1] != '_' && s[2] != '_' && s[3] != '_' && s[4] != '_' && s[5] != '_';
    }
    assert IndexOfText(s, "_close") == 6;
    assert s[..6] + "_open" + s[12..] == "strong_open";
  }

  /** A `sub` token's content is left out of the text, though its range is
      as long as that content; a `sup` token's content is appended. */
  lemma SubContentDropped(st: InlineState, content: string)
    requires RefsValid(st) && content != ""
    ensures InlineStep(Defaults(), Child("sub", Some(content)), st).content == st.content
    ensures InlineStep(Defaults(), Child("sub", Some(content)), st).styleRanges
      == st.styleRanges + [StyleRange(|st.content|, |content|, "SUBSCRIPT")]
    ensures InlineStep(Defaults(), Child("sup", Some(content)), st).content == st.content + content
  {
    DefaultInlineTables();
  }

  /** Tables in which `strong_open` is bold and `strong_close` is neither
      a style nor an entity, as in the defaults. */
  ghost predicate BoldTables(t: Tables)
  {
    StyleFor(t, "strong_open") == Some("BOLD") && StyleFor(t, "strong_close") == None && "strong_close" !in t.blockEntities
  }

  /** `strong_open` opens a bold range of length 1 at the end of the text
      and records it in the history. */
  lemma BoldOpenStep(t: Tables, st: InlineState)
    requires BoldTables(t) && RefsValid(st)
    ensures InlineStep(t, Child("strong_open", None), st)
      == st.(history := st.history + [HistoryEntry("strong_open", StyleAt(|st.styleRanges|))],
             styleRanges := st.styleRanges + [StyleRange(|st.content|, 1, "BOLD")])
  {
  }

  /** A text child appends its content and changes nothing else. */
  lemma TextStep(t: Tables, st: InlineState, text: string)
    requires RefsValid(st)
    ensures InlineStep(t, Child("text", Some(text)), st) == st.(content := st.content + text)
  {
  }

  /** `strong_close` updates the most recent `strong_open` entry. */
  lemma BoldCloseStep(t: Tables, st: InlineState)
    requires BoldTables(t) && RefsValid(st)
    ensures InlineStep(t, Child("strong_close", None), st) == UpdateHistoryTag("strong_open", st)
  {
    StrongCloseTag();
  }

  /** The children of `**a **b** c**`: the spaces stay in the text
      children. */
  function NestedBold(): seq<Token>
  {
    [Child("strong_open", None), Child("text", Some("a ")), Child("strong_open", None), Child("text", Some("b")),
     Child("strong_close", None), Child("text", Some(" c")), Child("strong_close", None)]
  }

  /** The entry the `k`-th bold token opens. */
  function BoldEntry(k: nat): HistoryEntry
  {
    HistoryEntry("strong_open", StyleAt(k))
  }

  /** After `**a `: one bold range, opened at 0 with length 1. */
  lemma NestedBoldFirst(t: Tables)
    requires BoldTables(t)
    ensures InlineRun(t, NestedBold(), 2, -1)
      == InlineState("a ", map[], [], [StyleRange(0, 1, "BOLD")], [BoldEntry(0)], -1)
  {
    var cs := NestedBold();
    var s0 := InlineStart(-1);
    assert cs[0] == Child("strong_open", None);
    BoldOpenStep(t, s0);
    InlineRunStep(t, cs, 1, -1);
    var s1 := InlineState("", map[], [], [StyleRange(0, 1, "BOLD")], [BoldEntry(0)], -1);
    assert InlineRun(t, cs, 1, -1) == s1;
    assert cs[1] == Child("text", Some("a "));
    TextStep(t, s1, "a ");
    InlineRunStep(t, cs, 2, -1);
  }

  /** After `**a **`: the inner bold opens a second range at 2. */
  lemma NestedBoldInnerOpen(t: Tables)
    requires BoldTables(t)
    ensures InlineRun(t, NestedBold(), 3, -1)
      == InlineState("a ", map[], [], [StyleRange(0, 1, "BOLD"), StyleRange(2, 1, "BOLD")], [BoldEntry(0), BoldEntry(1)], -1)
  {
    var cs := NestedBold();
    NestedBoldFirst(t);
    var s2 := InlineState("a ", map[], [], [StyleRange(0, 1, "BOLD")], [BoldEntry(0)], -1);
    assert cs[2] == Child("strong_open", None);
    BoldOpenStep(t, s2);
    InlineRunStep(t, cs, 3, -1);
  }

  /** After `**a **b`: a second bold range, opened at 2 with length 1. */
  lemma NestedBoldSecond(t: Tables)
    requires BoldTables(t)
    ensures InlineRun(t, NestedBold(), 4, -1)
      == InlineState("a " + "b", map[], [], [StyleRange(0, 1, "BOLD"), StyleRange(2, 1, "BOLD")], [BoldEntry(0), BoldEntry(1)], -1)
  {
    var cs := NestedBold();
    NestedBoldInnerOpen(t);
    var s3 := InlineState("a ", map[], [], [StyleRange(0, 1, "BOLD"), StyleRange(2, 1, "BOLD")], [BoldEntry(0), BoldEntry(1)], -1);
    assert cs[3] == Child("text", Some("b"));
    TextStep(t, s3, "b");
    InlineRunStep(t, cs, 4, -1);
  }

  /** After `**a **b** c`: the inner close found the inner entry and set
      its length to 1, which it already had. */
  lemma NestedBoldThird(t: Tables)
    requires BoldTables(t)
    ensures InlineRun(t, NestedBold(), 6, -1)
      == InlineState("a " + "b" + " c", map[], [], [StyleRange(0, 1, "BOLD"), StyleRange(2, 1, "BOLD")], [BoldEntry(0), BoldEntry(1)], -1)
  {
    var cs := NestedBold();
    NestedBoldSecond(t);
    var s4 := InlineState("a " + "b", map[], [], [StyleRange(0, 1, "BOLD"), StyleRange(2, 1, "BOLD")], [BoldEntry(0), BoldEntry(1)], -1);
    assert cs[4] == Child("strong_close", None);
    BoldCloseStep(t, s4);
    assert LastTagIndex(s4.history, "strong_open") == 1;
    assert UpdateHistoryTag("strong_open", s4) == CloseRange(s4, StyleAt(1));
    InlineRunStep(t, cs, 5, -1);
    assert InlineRun(t, cs, 5, -1) == s4;
    assert cs[5] == Child("text", Some(" c"));
    TextStep(t, s4, " c");
    InlineRunStep(t, cs, 6, -1);
  }

  /** The whole of `**a **b** c**`: the second close finds the inner
      entry again. */
  lemma NestedBoldLast(t: Tables)
    requires BoldTables(t)
    ensures var r := InlineRun(t, NestedBold(), 7, -1);
      r.content == "a b c" && r.styleRanges == [StyleRange(0, 1, "BOLD"), StyleRange(2, 3, "BOLD")]
  {
    var cs := NestedBold();
    NestedBoldThird(t);
    var s6 := InlineState("a b c", map[], [], [StyleRange(0, 1, "BOLD"), StyleRange(2, 1, "BOLD")], [BoldEntry(0), BoldEntry(1)], -1);
    assert InlineRun(t, cs, 6, -1) == s6;
    assert cs[6] == Child("strong_close", None);
    BoldCloseStep(t, s6);
    assert LastTagIndex(s6.history, "strong_open") == 1;
    assert UpdateHistoryTag("strong_open", s6) == CloseRange(s6, StyleAt(1));
    InlineRunStep(t, cs, 7, -1);
  }

  /** Bold inside bold (`**a **b** c**`) with the default tables: both
      closes find the inner entry, because the history is never cut back,
      so the inner range grows to the end of the text and the outer range
      keeps its opening length of 1. */
  lemma NestedBoldExample()
    ensures var r := ParseInline(Defaults(), Token("inline", 1, None, 0, map[], NestedBold()), -1);
      r.content == "a b c" && r.styleRanges == [StyleRange(0, 1, "BOLD"), StyleRange(2, 3, "BOLD")]
  {
    DefaultInlineTables();
    NestedBoldLast(Defaults());
    assert |NestedBold()| == 7;
  }
}
