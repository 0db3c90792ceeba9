/**
 * Interface: `export interface Name extends Base { members }`, listing the
 * properties in their interface-member form and then the method signatures.
 */
module Interfaces {
  import opened Text
  import opened Base
  import opened Properties
  import opened Methods

  datatype Interface = Interface(
    name: string,
    baseName: string,
    imports: seq<Import>,
    methods: seq<Method>,
    properties: seq<Property>)

  function Header(it: Interface): seq<Piece> {
    [Lit("export interface " + it.name + (if Blank(it.baseName) then "" else " extends " + it.baseName)), SP, Lit("{")]
  }

  function MemberTexts(ps: seq<Property>, f: Format): (r: seq<string>)
    ensures |r| == |ps|
    ensures forall i :: 0 <= i < |ps| ==> r[i] == MemberText(ps[i], f)
  {
    seq(|ps|, i requires 0 <= i < |ps| => MemberText(ps[i], f))
  }

  function SignatureTexts(ms: seq<Method>, f: Format): (r: seq<string>)
    ensures |r| == |ms|
    ensures forall i :: 0 <= i < |ms| ==> r[i] == MethodSignatureText(ms[i], f)
  {
    seq(|ms|, i requires 0 <= i < |ms| => MethodSignatureText(ms[i], f))
  }

  /** The member block: the joined property members and the joined method signatures, each only when the list is non-empty. */
  function Body(it: Interface, f: Format): seq<string> {
    Optional(|it.properties| > 0, FormatStringArray(MemberTexts(it.properties, f), f))
      + Optional(|it.methods| > 0, FormatStringArray(SignatureTexts(it.methods, f), f))
  }

  /** `toString`: empty exactly when the name is blank. */
  function InterfaceText(it: Interface, f: Format): (r: string)
    ensures r == "" <==> Blank(it.name)
  {
    if Blank(it.name) then ""
    else
      assert Header(it)[0].text[0] == 'e';
      FillNotBlank(Header(it), 0, f);
      assert ([Fill(Header(it), f)] + Body(it, f) + ["}"])[0] == Fill(Header(it), f);
      FormatStringArray([Fill(Header(it), f)] + Body(it, f) + ["}"], f)
  }

  /**
   * The whole interface is one flat list: the header, every non-blank
   * property member and then every non-blank method signature, in order, and
   * the closing brace. The non-empty checks on the two lists change nothing.
   */
  lemma InterfaceFlat(it: Interface, f: Format)
    requires !Blank(it.name)
    ensures InterfaceText(it, f)
      == FormatStringArray([Fill(Header(it), f)] + MemberTexts(it.properties, f) + SignatureTexts(it.methods, f) + ["}"], f)
  {
    var h := Fill(Header(it), f);
    var ps, ms := MemberTexts(it.properties, f), SignatureTexts(it.methods, f);
    assert NotBlank(h) && NotBlank("}") by {
      assert Header(it)[0].text[0] == 'e';
      FillNotBlank(Header(it), 0, f);
      assert "}"[0] == '}';
    }
    assert FormatStringArray(Body(it, f), f) == FormatStringArray(ps + ms, f) by {
      FormatStringArrayFlatten(ps, ms, f);
      BodyDropsEmpty(it, f);
    }
    FormatStringArrayFrameSame(h, Body(it, f), ps + ms, "}", f);
    Regroup(h, ps, ms, "}");
  }

  /** The joined lists the member block leaves out for empty lists would have been empty fragments anyway. */
  lemma BodyDropsEmpty(it: Interface, f: Format)
    ensures var p := FormatStringArray(MemberTexts(it.properties, f), f);
      var m := FormatStringArray(SignatureTexts(it.methods, f), f);
      FormatStringArray(Body(it, f), f) == FormatStringArray([p, m], f)
  {
    var p := FormatStringArray(MemberTexts(it.properties, f), f);
    var m := FormatStringArray(SignatureTexts(it.methods, f), f);
    FormatStringArrayOptional(|it.properties| > 0, p, |it.methods| > 0, m, f);
  }

  /** Whitespace aside, the member block is the property members followed by the method signatures. */
  lemma BodyStrip(it: Interface, f: Format)
    ensures StripAll(Body(it, f)) == StripAll(MemberTexts(it.properties, f)) + StripAll(SignatureTexts(it.methods, f))
  {
    var ps, ms := MemberTexts(it.properties, f), SignatureTexts(it.methods, f);
    var bp := Optional(|it.properties| > 0, FormatStringArray(ps, f));
    var bm := Optional(|it.methods| > 0, FormatStringArray(ms, f));
    StripAllConcat(bp, bm);
    assert StripAll(bp) == StripAll(ps) by {
      if |it.properties| > 0 { StripAllAppend([], FormatStringArray(ps, f)); assert [] + [FormatStringArray(ps, f)] == bp; }
    }
    assert StripAll(bm) == StripAll(ms) by {
      if |it.methods| > 0 { StripAllAppend([], FormatStringArray(ms, f)); assert [] + [FormatStringArray(ms, f)] == bm; }
    }
  }

  lemma BodyModuloWhitespace(it: Interface, f1: Format, f2: Format)
    ensures StripAll(Body(it, f1)) == StripAll(Body(it, f2))
  {
    var ps1, ps2 := MemberTexts(it.properties, f1), MemberTexts(it.properties, f2);
    var ms1, ms2 := SignatureTexts(it.methods, f1), SignatureTexts(it.methods, f2);
    forall i | 0 <= i < |ps1| ensures Strip(ps1[i]) == Strip(ps2[i]) {
      MemberTextModuloWhitespace(it.properties[i], f1, f2);
    }
    forall i | 0 <= i < |ms1| ensures Strip(ms1[i]) == Strip(ms2[i]) {
      MethodSignatureTextModuloWhitespace(it.methods[i], f1, f2);
    }
    StripAllPointwise(ps1, ps2);
    StripAllPointwise(ms1, ms2);
    BodyStrip(it, f1);
    BodyStrip(it, f2);
  }

  lemma InterfaceTextModuloWhitespace(it: Interface, f1: Format, f2: Format)
    ensures Strip(InterfaceText(it, f1)) == Strip(InterfaceText(it, f2))
  {
    if !Blank(it.name) {
      BodyModuloWhitespace(it, f1, f2);
      FillModuloWhitespace(Header(it), f1, f2);
      StripAllFrame(Fill(Header(it), f1), Body(it, f1), "}", Fill(Header(it), f2), Body(it, f2), "}");
    }
  }
}
