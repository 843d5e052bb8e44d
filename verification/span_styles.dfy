/** `handlSpanStyles`: the inline styles a `<span style="...">` tag asks
    for. Only `color` and `background-color` declarations count, written
    exactly as `name:value` with no spaces around the name. */
module SpanStyles {
  import opened Js

  /** The style a declaration asks for, if it is a colour declaration. */
  function DeclarationStyle(decl: string): Option<string>
  {
    var pair := Split(decl, ':');
    if |pair| == 2 && (pair[0] == "color" || pair[0] == "background-color") then Some(pair[0] + "-" + pair[1]) else None
  }

  /** The styles of the declarations, in order. */
  function DeclarationStyles(decls: seq<string>): (r: seq<string>)
    ensures |r| <= |decls|
  {
    if |decls| == 0 then []
    else
      var rest := DeclarationStyles(decls[1..]);
      match DeclarationStyle(decls[0])
      case Some(s) => [s] + rest
      case None => rest
  }

  /** `handlSpanStyles(attribs)`: nothing unless the `style` attribute is
      present and not empty; otherwise the colour styles of its
      `;`-separated declarations. */
  function HandleSpanStyles(attribs: map<string, string>): (r: seq<string>)
    ensures "style" !in attribs || attribs["style"] == "" ==> r == []
    ensures "style" in attribs ==> |r| <= 1 + multiset(attribs["style"])[';']
  {
    if "style" in attribs && attribs["style"] != "" then DeclarationStyles(Split(attribs["style"], ';')) else []
  }

  /** A colour declaration `name:value` and the style it yields. */
  predicate ColourDeclaration(decl: string, name: string, value: string)
  {
    (name == "color" || name == "background-color") && ':' !in value && decl == name + ":" + value
  }

  /** Splitting `name:value` on `:` gives back the name and the value. */
  lemma ColourSplit(name: string, value: string)
    requires ':' !in name && ':' !in value
    ensures Split(name + ":" + value, ':') == [name, value]
  {
    var decl := name + ":" + value;
    assert decl[..|name|] == name;
    assert decl[|name|] == ':';
    assert IndexOf(decl, ':') == |name|;
    assert decl[|name| + 1..] == value;
    assert Split(value, ':') == [value];
  }

  /** The colour names hold no colon. */
  lemma ColourNameNoColon(name: string)
    requires name == "color" || name == "background-color"
    ensures ':' !in name
  {
    if name == "color" {
      assert ':' !in "color";
    } else {
      assert ':' !in "background-color";
    }
  }

  /** A declaration that splits into a colour name and a value yields the
      name, a dash and the value. */
  lemma PairStyle(decl: string, name: string, value: string)
    requires Split(decl, ':') == [name, value]
    requires name == "color" || name == "background-color"
    ensures DeclarationStyle(decl) == Some(name + "-" + value)
  {
  }

  /** A colour declaration yields its name, a dash and its value. */
  lemma ColourDeclarationStyle(name: string, value: string)
    requires ColourDeclaration(name + ":" + value, name, value)
    ensures DeclarationStyle(name + ":" + value) == Some(name + "-" + value)
  {
    ColourNameNoColon(name);
    ColourSplit(name, value);
    PairStyle(name + ":" + value, name, value);
  }

  /** A declaration that yields a style is a colour declaration, split at
      its one colon. */
  lemma DeclarationStyleSound(decl: string)
    requires DeclarationStyle(decl).Some?
    ensures var pair := Split(decl, ':');
      ColourDeclaration(decl, pair[0], pair[1]) && DeclarationStyle(decl) == Some(pair[0] + "-" + pair[1])
  {
    var pair := Split(decl, ':');
    assert Join(pair, ':') == pair[0] + [':'] + pair[1];
  }

  /** A style is collected from a non-empty list exactly when the first
      declaration yields it or the rest collect it. */
  lemma DeclarationStylesCons(decls: seq<string>, st: string)
    requires |decls| > 0
    ensures st in DeclarationStyles(decls) <==> DeclarationStyle(decls[0]) == Some(st) || st in DeclarationStyles(decls[1..])
  {
  }

  /** The styles collected are exactly those of the declarations that
      yield one. */
  lemma {:induction false} DeclarationStylesMembers(decls: seq<string>)
    ensures forall st :: st in DeclarationStyles(decls) <==>
      exists i :: 0 <= i < |decls| && DeclarationStyle(decls[i]) == Some(st)
  {
    if |decls| > 0 {
      DeclarationStylesMembers(decls[1..]);
      forall st | (exists i :: 0 <= i < |decls| && DeclarationStyle(decls[i]) == Some(st))
        ensures st in DeclarationStyles(decls)
      {
        DeclarationStylesCons(decls, st);
        var i :| 0 <= i < |decls| && DeclarationStyle(decls[i]) == Some(st);
        if i > 0 {
          assert decls[1..][i - 1] == decls[i];
        }
      }
      forall st | st in DeclarationStyles(decls)
        ensures exists i :: 0 <= i < |decls| && DeclarationStyle(decls[i]) == Some(st)
      {
        DeclarationStylesCons(decls, st);
        if DeclarationStyle(decls[0]) != Some(st) {
          var i :| 0 <= i < |decls| - 1 && DeclarationStyle(decls[1..][i]) == Some(st);
          assert decls[1..][i] == decls[i + 1];
        }
      }
    }
  }

  /** Every colour declaration among the declarations is reported, as its
      name, a dash and its value. */
  lemma ColourStylesComplete(decls: seq<string>, i: nat, name: string, value: string)
    requires i < |decls| && ColourDeclaration(decls[i], name, value)
    ensures name + "-" + value in DeclarationStyles(decls)
  {
    DeclarationStylesMembers(decls);
    ColourDeclarationStyle(name, value);
  }

  /** Every style reported comes from a colour declaration. */
  lemma ColourStylesSound(decls: seq<string>, st: string)
    requires st in DeclarationStyles(decls)
    ensures exists i, name, value :: 0 <= i < |decls| && ColourDeclaration(decls[i], name, value) && st == name + "-" + value
  {
    DeclarationStylesMembers(decls);
    var i :| 0 <= i < |decls| && DeclarationStyle(decls[i]) == Some(st);
    DeclarationStyleSound(decls[i]);
    var pair := Split(decls[i], ':');
    assert ColourDeclaration(decls[i], pair[0], pair[1]);
  }
}
