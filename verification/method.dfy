/**
 * Method: a class method in its full form, its abstract form (signature
 * only) and its interface-signature form. Arguments are properties rendered
 * in their argument form.
 */
module Methods {
  import opened Wrappers
  import opened Text
  import opened Base
  import opened Properties

  datatype Method = Method(
    name: string,
    typeName: string,
    args: seq<Property>,
    body: string,
    isAbstract: bool,
    modifier: string,
    isStatic: bool)

  /** A method with every field at its documented default. */
  function DefaultMethod(name: string): Method {
    Method(name := name, typeName := "void", args := [], body := "return;",
           isAbstract := false, modifier := Public, isStatic := false)
  }

  /** `setBody`: a missing body falls back to `return;`. */
  function SetBody(m: Method, body: Option<string>): (r: Method)
    ensures r.body == (if body.None? then "return;" else body.value)
    ensures r.(body := m.body) == m
  {
    m.(body := body.GetOr("return;"))
  }

  /** The argument forms of the arguments, blank ones included. */
  function ArgTexts(args: seq<Property>, f: Format): (r: seq<string>)
    ensures |r| == |args|
    ensures forall i :: 0 <= i < |args| ==> r[i] == ArgText(args[i], f)
  {
    seq(|args|, i requires 0 <= i < |args| => ArgText(args[i], f))
  }

  /** The arguments' text without whitespace; a blank-named argument leaves an empty entry. */
  function BareArgs(args: seq<Property>): (r: seq<string>)
    ensures |r| == |args|
    ensures forall i :: 0 <= i < |args| ==> r[i] == ArgWords(args[i])
  {
    seq(|args|, i requires 0 <= i < |args| => ArgWords(args[i]))
  }

  /** The opening of the first line: `[abstract ]modifier[ static] name(`. */
  function SignatureOpen(m: Method): seq<Piece> {
    [TB, Lit((if m.isAbstract then "abstract " else "") + m.modifier + (if m.isStatic then " static" else "") + " " + m.name + "(")]
  }

  /** The close of the first line: `): type {`, or `): type ;` for an abstract method. */
  function SignatureClose(m: Method): seq<Piece> {
    [Lit("):"), SP, Lit(m.typeName), SP, Lit(if m.isAbstract then ";" else "{")]
  }

  function SignatureLine(m: Method, f: Format): string {
    ListIn(SignatureOpen(m), ArgTexts(m.args, f), SignatureClose(m), f)
  }

  /** The body line, indented twice; an abstract method has none. */
  function BodyLine(m: Method, f: Format): string {
    Fill([TB, TB, Lit(if m.isAbstract then "" else m.body)], f)
  }

  /** The closing line; an abstract method has only the indentation. */
  function CloseLine(m: Method, f: Format): string {
    Fill([TB, Lit(if m.isAbstract then "" else "}")], f)
  }

  function Lines(m: Method, f: Format): seq<string> {
    [SignatureLine(m, f), BodyLine(m, f), CloseLine(m, f)]
  }

  /** `toString`: the three lines joined, blank ones dropped; empty exactly when the name is blank. */
  function MethodText(m: Method, f: Format): (r: string)
    ensures r == "" <==> Blank(m.name)
    ensures Blank(r) <==> r == ""
  {
    if Blank(m.name) then ""
    else
      SignatureLineNotBlank(m, f);
      assert Lines(m, f)[0] == SignatureLine(m, f);
      FormatStringArray(Lines(m, f), f)
  }

  lemma SignatureLineNotBlank(m: Method, f: Format)
    ensures NotBlank(SignatureLine(m, f))
    ensures SignatureLine(m, f)[|SignatureLine(m, f)| - 1] == (if m.isAbstract then ';' else '{')
  {
    var c := SignatureClose(m);
    assert c[0].text[0] == ')';
    FillNotBlank(c, 0, f);
    FillEnds(c, f);
    var pre := Fill(SignatureOpen(m), f) + Join(ArgTexts(m.args, f), "," + Space(f));
    assert SignatureLine(m, f) == pre + Fill(c, f);
    var r := SignatureLine(m, f);
    assert r[|r| - 1] == Fill(c, f)[|Fill(c, f)| - 1];
    FillOccurs(c, 0, f);
    assert c[..0] == [];
    assert r[|pre|] == Fill(c, f)[0] == ')';
  }

  /** Whitespace and nothing else: the body and closing lines of an abstract method. */
  lemma IndentOnly(k: string, f: Format)
    requires Blank(k)
    ensures Blank(Fill([TB, Lit(k)], f)) && Blank(Fill([TB, TB, Lit(k)], f))
  {
    TokensReset(f);
    var t2: seq<Piece> := [TB, TB, Lit(k)];
    var t1: seq<Piece> := [TB, Lit(k)];
    assert t1[..1] == [TB] && [TB][..0] == [];
    assert t2[..2] == [TB, TB] && [TB, TB][..1] == [TB];
    FillStrip(t1, f);
    FillStrip(t2, f);
    StripBlank(k);
    StripBlank(Fill(t1, f));
    StripBlank(Fill(t2, f));
  }

  /**
   * After the indentation the first line opens with the abstract keyword, if
   * any, the modifier, ` static` for a static method, a space, the name and
   * `(`.
   */
  lemma SignatureLineOpens(m: Method, f: Format)
    ensures OccursAt(SignatureLine(m, f),
      (if m.isAbstract then "abstract " else "") + m.modifier + (if m.isStatic then " static" else "") + " " + m.name + "(", |Tab(f)|)
  {
    var o := SignatureOpen(m);
    Fill2(o[0], o[1], f);
    assert OccursAt(Fill(o, f), o[1].text, |Tab(f)|);
    ListInOpens(o, ArgTexts(m.args, f), SignatureClose(m), f, o[1].text, |Tab(f)|);
  }

  /**
   * Whitespace aside, the first line is its opening, the arguments' text
   * joined by commas with nothing filtered out, `):`, the return type, and
   * `;` for an abstract method or `{` otherwise.
   */
  lemma SignatureLineContent(m: Method, f: Format)
    ensures Strip(SignatureLine(m, f))
      == Strip((if m.isAbstract then "abstract " else "") + m.modifier + (if m.isStatic then " static" else "") + " " + m.name + "("
           + Join(BareArgs(m.args), ",") + "):" + m.typeName + (if m.isAbstract then ";" else "{"))
  {
    var head := SignatureOpen(m)[1].text;
    var end := if m.isAbstract then ";" else "{";
    var j := Join(BareArgs(m.args), ",");
    calc {
      Strip(SignatureLine(m, f));
      { assert SignatureOpen(m) == [TB, Lit(head)];
        CloseStrip(m.typeName, end, f);
        IndentedListStrip(head, ArgTexts(m.args, f), BareArgs(m.args), SignatureClose(m), "):" + m.typeName + end, f); }
      Strip(head + j + ("):" + m.typeName + end));
      { assert head + j + ("):" + m.typeName + end) == head + j + "):" + m.typeName + end; }
      Strip(head + j + "):" + m.typeName + end);
    }
  }

  /** Whitespace aside, a signature's close is `):`, the return type and the final character. */
  lemma CloseStrip(typeName: string, end: string, f: Format)
    ensures Strip(Fill([Lit("):"), SP, Lit(typeName), SP, Lit(end)], f)) == Strip("):" + typeName + end)
  {
    var a: seq<Piece> := [Lit("):"), SP, Lit(typeName)];
    assert [Lit("):"), SP, Lit(typeName), SP, Lit(end)] == a + [SP, Lit(end)];
    FillConcat(a, [SP, Lit(end)], f);
    Fill2(SP, Lit(end), f);
    TokensReset(f);
    SpacedStrip("):", typeName, f);
    StripConcat(Fill(a, f), Space(f) + end);
    StripConcat(Space(f), end);
    StripConcat("):" + typeName, end);
  }

  /**
   * An abstract method renders as its signature line alone, ending in `;`
   * and starting `abstract ` after the indentation, whatever its body says.
   */
  lemma AbstractIgnoresBody(m: Method, body: string, f: Format)
    requires m.isAbstract && !Blank(m.name)
    ensures MethodText(m, f) == SignatureLine(m, f)
    ensures MethodText(m, f)[|MethodText(m, f)| - 1] == ';'
    ensures OccursAt(MethodText(m, f), "abstract " + m.modifier, |Tab(f)|)
    ensures MethodText(m.(body := body), f) == MethodText(m, f)
  {
    AbstractAlone(m, f);
    AbstractAlone(m.(body := body), f);
    SignatureLineNotBlank(m, f);
    AbstractOpens(m, f);
  }

  lemma AbstractOpens(m: Method, f: Format)
    requires m.isAbstract
    ensures OccursAt(SignatureLine(m, f), "abstract " + m.modifier, |Tab(f)|)
  {
    var key, st := "abstract " + m.modifier, if m.isStatic then " static" else "";
    var t, i := SignatureLine(m, f), |Tab(f)|;
    SignatureLineOpens(m, f);
    OccursFirst(t, key + st + " " + m.name, "(", i);
    OccursFirst(t, key + st + " ", m.name, i);
    OccursFirst(t, key + st, " ", i);
    OccursFirst(t, key, st, i);
  }

  lemma AbstractAlone(m: Method, f: Format)
    requires m.isAbstract && !Blank(m.name)
    ensures MethodText(m, f) == SignatureLine(m, f)
  {
    SignatureLineNotBlank(m, f);
    IndentOnly("", f);
    var s, b, c := SignatureLine(m, f), BodyLine(m, f), CloseLine(m, f);
    assert Lines(m, f) == [s] + [b, c];
    FormatStringArrayAlone(s, [b, c], f);
  }

  /**
   * A concrete method with a non-blank body renders as three lines: the
   * signature ending in `{`, the body indented twice, and the closing brace.
   */
  lemma ConcreteMethod(m: Method, f: Format)
    requires !m.isAbstract && !Blank(m.name) && !Blank(m.body)
    ensures MethodText(m, f)
      == SignatureLine(m, f) + Separator(f) + BodyLine(m, f) + Separator(f) + CloseLine(m, f)
    ensures BodyLine(m, f) == Tab(f) + Tab(f) + m.body
    ensures CloseLine(m, f) == Tab(f) + "}"
  {
    ConcreteJoin(m, f);
    ConcreteLines(m, f);
    Assoc(SignatureLine(m, f), Separator(f), BodyLine(m, f));
  }

  lemma ConcreteJoin(m: Method, f: Format)
    requires !m.isAbstract && !Blank(m.name) && !Blank(m.body)
    ensures MethodText(m, f)
      == SignatureLine(m, f) + (Separator(f) + BodyLine(m, f)) + Separator(f) + CloseLine(m, f)
  {
    SignatureLineNotBlank(m, f);
    ConcreteLines(m, f);
    FormatStringArrayThree(SignatureLine(m, f), BodyLine(m, f), CloseLine(m, f), f);
  }

  lemma ConcreteLines(m: Method, f: Format)
    requires !m.isAbstract && !Blank(m.body)
    ensures BodyLine(m, f) == Tab(f) + Tab(f) + m.body && NotBlank(BodyLine(m, f))
    ensures CloseLine(m, f) == Tab(f) + "}" && NotBlank(CloseLine(m, f))
  {
    var b: seq<Piece> := [TB, TB, Lit(m.body)];
    var c: seq<Piece> := [TB, Lit("}")];
    FillNotBlank(b, 2, f);
    assert c[1].text[0] == '}';
    FillNotBlank(c, 1, f);
    Fill3(TB, TB, Lit(m.body), f);
    Fill2(TB, Lit("}"), f);
  }

  /** `toInterfaceString` argument: `name[?]: type`, blank names and default values not checked. */
  function SignatureArg(a: Property, f: Format): string {
    Fill([Lit(a.name + OptionalMark(a) + ":"), SP, Lit(a.typeName)], f)
  }

  function SignatureArgs(args: seq<Property>, f: Format): (r: seq<string>)
    ensures |r| == |args|
    ensures forall i :: 0 <= i < |args| ==> r[i] == SignatureArg(args[i], f)
  {
    seq(|args|, i requires 0 <= i < |args| => SignatureArg(args[i], f))
  }

  /** The signature arguments without whitespace: `name[?]:type` each, blank names kept. */
  function BareSignatureArgs(args: seq<Property>): (r: seq<string>)
    ensures |r| == |args|
    ensures forall i :: 0 <= i < |args| ==> r[i] == Declared(args[i])
  {
    seq(|args|, i requires 0 <= i < |args| => Declared(args[i]))
  }

  /**
   * `toInterfaceString`: the indented `name(args): type;`. Empty exactly when
   * the name is blank; otherwise ends in `;` and, whitespace aside, lists
   * every argument as `name[?]:type`, unfiltered and without default values.
   */
  function MethodSignatureText(m: Method, f: Format): (r: string)
    ensures r == "" <==> Blank(m.name)
    ensures r != "" ==> r[|r| - 1] == ';'
    ensures r != "" ==> Strip(r) == Strip(m.name + "(" + Join(BareSignatureArgs(m.args), ",") + "):" + m.typeName + ";")
  {
    if Blank(m.name) then ""
    else
      var c := [Lit("):"), SP, Lit(m.typeName + ";")];
      var pre := Fill([TB, Lit(m.name + "(")], f) + Join(SignatureArgs(m.args, f), "," + Space(f));
      assert c[..2] + [c[2]] == c;
      assert Fill(c, f) == Fill(c[..2], f) + (m.typeName + ";");
      assert (m.typeName + ";")[|m.typeName|] == ';';
      SignatureTextStrip(m, f);
      ListIn([TB, Lit(m.name + "(")], SignatureArgs(m.args, f), c, f)
  }

  lemma SignatureTextStrip(m: Method, f: Format)
    ensures Strip(ListIn([TB, Lit(m.name + "(")], SignatureArgs(m.args, f), [Lit("):"), SP, Lit(m.typeName + ";")], f))
      == Strip(m.name + "(" + Join(BareSignatureArgs(m.args), ",") + "):" + m.typeName + ";")
  {
    var head, j := m.name + "(", Join(BareSignatureArgs(m.args), ",");
    var items := SignatureArgs(m.args, f);
    forall i | 0 <= i < |items| ensures Strip(items[i]) == Strip(BareSignatureArgs(m.args)[i]) {
      var a := m.args[i];
      SpacedStrip(a.name + OptionalMark(a) + ":", a.typeName, f);
    }
    SpacedStrip("):", m.typeName + ";", f);
    IndentedListStrip(head, items, BareSignatureArgs(m.args), [Lit("):"), SP, Lit(m.typeName + ";")], "):" + (m.typeName + ";"), f);
    assert head + j + ("):" + (m.typeName + ";")) == head + j + "):" + m.typeName + ";";
  }

  /**
   * The interface signature depends only on the name, the arguments and the
   * return type: the body, the abstract flag, the modifier and the static
   * flag play no part in it.
   */
  lemma SignatureIgnoresImplementation(m: Method, body: string, isAbstract: bool, modifier: string, isStatic: bool, f: Format)
    ensures MethodSignatureText(m, f)
      == MethodSignatureText(m.(body := body, isAbstract := isAbstract, modifier := modifier, isStatic := isStatic), f)
  {
  }

  // ---------------------------------------------------------------------
  // Pretty and compact output agree once whitespace is deleted
  // ---------------------------------------------------------------------

  lemma SignatureLineModuloWhitespace(m: Method, f1: Format, f2: Format)
    ensures Strip(SignatureLine(m, f1)) == Strip(SignatureLine(m, f2))
  {
    var a1, a2 := ArgTexts(m.args, f1), ArgTexts(m.args, f2);
    forall i | 0 <= i < |m.args| ensures Strip(a1[i]) == Strip(a2[i]) {
      ArgTextModuloWhitespace(m.args[i], f1, f2);
    }
    ListInModuloWhitespace(SignatureOpen(m), a1, a2, SignatureClose(m), f1, f2);
  }

  lemma MethodTextModuloWhitespace(m: Method, f1: Format, f2: Format)
    ensures Strip(MethodText(m, f1)) == Strip(MethodText(m, f2))
  {
    if !Blank(m.name) {
      var l1, l2 := Lines(m, f1), Lines(m, f2);
      forall i | 0 <= i < 3 ensures Strip(l1[i]) == Strip(l2[i]) {
        LineModuloWhitespace(m, i, f1, f2);
      }
      StripAllPointwise(l1, l2);
    }
  }

  lemma LineModuloWhitespace(m: Method, i: nat, f1: Format, f2: Format)
    requires i < 3
    ensures Strip(Lines(m, f1)[i]) == Strip(Lines(m, f2)[i])
  {
    if i == 0 {
      SignatureLineModuloWhitespace(m, f1, f2);
    } else if i == 1 {
      FillModuloWhitespace([TB, TB, Lit(if m.isAbstract then "" else m.body)], f1, f2);
    } else {
      FillModuloWhitespace([TB, Lit(if m.isAbstract then "" else "}")], f1, f2);
    }
  }

  lemma MethodSignatureTextModuloWhitespace(m: Method, f1: Format, f2: Format)
    ensures Strip(MethodSignatureText(m, f1)) == Strip(MethodSignatureText(m, f2))
  {
    if !Blank(m.name) {
      var a1, a2 := SignatureArgs(m.args, f1), SignatureArgs(m.args, f2);
      forall i | 0 <= i < |m.args| ensures Strip(a1[i]) == Strip(a2[i]) {
        FillModuloWhitespace([Lit(m.args[i].name + OptionalMark(m.args[i]) + ":"), SP, Lit(m.args[i].typeName)], f1, f2);
      }
      ListInModuloWhitespace([TB, Lit(m.name + "(")], a1, a2, [Lit("):"), SP, Lit(m.typeName + ";")], f1, f2);
    }
  }
}
