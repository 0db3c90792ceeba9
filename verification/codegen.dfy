/**
 * CodeGen: the orchestrator. It renders every enum, then every interface,
 * then every class, collects the imports of the interfaces and classes, and
 * writes the import preamble followed by the rendered declarations. Once a
 * base model has been seen, every later class that is not itself a base
 * model is made cloneable and exportable before it is rendered.
 */
module Generator {
  import opened Wrappers
  import opened Text
  import opened Base
  import opened Properties
  import opened Enums
  import opened Interfaces
  import opened Classes

  datatype CodeGen = CodeGen(
    prettify: bool,
    tabSize: nat,
    classes: seq<Class>,
    enums: seq<Enum>,
    interfaces: seq<Interface>)

  /** What `generate` returns: the names of what was generated and the output text. */
  datatype Generated = Generated(
    classes: seq<string>,
    enums: seq<string>,
    interfaces: seq<string>,
    output: string)

  /** The generator pretty-prints with four-space indents unless the options say otherwise. */
  function NewCodeGen(options: Option<Options>, classes: seq<Class>, enums: seq<Enum>, interfaces: seq<Interface>): (g: CodeGen)
    ensures g.classes == classes && g.enums == enums && g.interfaces == interfaces
    ensures (options.None? || options.value.prettify.None?) ==> g.prettify
    ensures (options.None? || options.value.tabSize.None?) ==> g.tabSize == 4
    ensures options.Some? && options.value.prettify.Some? ==> g.prettify == options.value.prettify.value
    ensures options.Some? && options.value.tabSize.Some? ==> g.tabSize == options.value.tabSize.value
  {
    match options
    case None => CodeGen(true, 4, classes, enums, interfaces)
    case Some(o) => CodeGen(o.prettify.GetOr(true), o.tabSize.GetOr(4), classes, enums, interfaces)
  }

  function FormatOf(g: CodeGen): Format {
    Format(g.prettify, g.tabSize)
  }

  /** Every property of every class can be rendered. */
  predicate AllRenderable(cs: seq<Class>) {
    forall c :: c in cs ==> ClassRenderable(c)
  }

  // ---------------------------------------------------------------------
  // Base-model propagation
  // ---------------------------------------------------------------------

  /** A class that follows a base model becomes cloneable and exportable. */
  function Promote(c: Class): Class {
    c.(canClone := true, canExport := true)
  }

  /**
   * The pass over the classes as the source makes it, carrying whether a
   * base model has been seen so far (the current class included).
   */
  function PropagateFrom(cs: seq<Class>, seen: bool): (r: seq<Class>)
    ensures |r| == |cs|
  {
    if |cs| == 0 then []
    else
      var c := cs[0];
      var seen' := seen || c.isBaseModel;
      [if !c.isBaseModel && seen' then Promote(c) else c] + PropagateFrom(cs[1..], seen')
  }

  function Propagate(cs: seq<Class>): (r: seq<Class>)
    ensures |r| == |cs|
  {
    PropagateFrom(cs, false)
  }

  /** Some class before position `i` is a base model. */
  predicate AfterBaseModel(cs: seq<Class>, i: int) {
    exists j :: 0 <= j < i && j < |cs| && cs[j].isBaseModel
  }

  lemma {:induction false} PropagateFromSpec(cs: seq<Class>, seen: bool)
    ensures var r := PropagateFrom(cs, seen);
      forall i :: 0 <= i < |cs| ==>
        r[i] == (if !cs[i].isBaseModel && (seen || AfterBaseModel(cs, i)) then Promote(cs[i]) else cs[i])
  {
    if |cs| > 0 {
      var seen' := seen || cs[0].isBaseModel;
      var r := PropagateFrom(cs, seen);
      PropagateFromSpec(cs[1..], seen');
      forall i | 0 <= i < |cs|
        ensures r[i] == (if !cs[i].isBaseModel && (seen || AfterBaseModel(cs, i)) then Promote(cs[i]) else cs[i])
      {
        if i > 0 {
          assert r[i] == PropagateFrom(cs[1..], seen')[i - 1];
          assert cs[1..][i - 1] == cs[i];
          assert (seen' || AfterBaseModel(cs[1..], i - 1)) <==> (seen || AfterBaseModel(cs, i)) by {
            if AfterBaseModel(cs[1..], i - 1) {
              var j :| 0 <= j < i - 1 && j < |cs[1..]| && cs[1..][j].isBaseModel;
              assert cs[j + 1].isBaseModel;
            }
            if AfterBaseModel(cs, i) && !cs[0].isBaseModel {
              var j :| 0 <= j < i && j < |cs| && cs[j].isBaseModel;
              assert cs[1..][j - 1].isBaseModel;
            }
            if cs[0].isBaseModel {
              assert AfterBaseModel(cs, i);
            }
          }
        }
      }
    }
  }

  /**
   * A class is promoted exactly when it is not a base model and some earlier
   * class is; every other class is rendered as it was configured. Names,
   * imports and the other flags never change.
   */
  lemma PropagateSpec(cs: seq<Class>)
    ensures var r := Propagate(cs);
      forall i :: 0 <= i < |cs| ==>
        r[i] == (if !cs[i].isBaseModel && AfterBaseModel(cs, i) then Promote(cs[i]) else cs[i])
  {
    PropagateFromSpec(cs, false);
  }

  /**
   * A class that follows a base model gets clone accumulation in its
   * constructor from any cloneable property, whatever its own flags said:
   * the promoted class's clone list is non-empty, and when a constructor is
   * written it extends `_clones` with spread syntax.
   */
  lemma PromotedClassClones(cs: seq<Class>, i: nat, p: Property, f: Format)
    requires i < |cs| && !cs[i].isBaseModel && AfterBaseModel(cs, i)
    requires p in cs[i].properties && p.canClone
    ensures Propagate(cs)[i].canClone && Propagate(cs)[i].canExport
    ensures p in Clones(Propagate(cs)[i])
    ensures HasConstructor(Propagate(cs)[i], f) ==> Contains(ConstructorText(Propagate(cs)[i], f), "...this._clones,")
  {
    PropagateSpec(cs);
    var c := Propagate(cs)[i];
    assert c == Promote(cs[i]);
    Membership(c, p);
    ConstructorSpreads(c, f);
  }

  /** Promotion keeps every class renderable. */
  lemma PropagateRenderable(cs: seq<Class>)
    requires AllRenderable(cs)
    ensures AllRenderable(Propagate(cs))
  {
    PropagateSpec(cs);
    var r := Propagate(cs);
    forall c | c in r ensures ClassRenderable(c) {
      var i :| 0 <= i < |r| && r[i] == c;
      assert cs[i] in cs;
    }
  }

  // ---------------------------------------------------------------------
  // Generation
  // ---------------------------------------------------------------------

  function EnumNames(es: seq<Enum>): (r: seq<string>)
    ensures |r| == |es|
    ensures forall i :: 0 <= i < |es| ==> r[i] == es[i].name
  {
    seq(|es|, i requires 0 <= i < |es| => es[i].name)
  }

  function InterfaceNames(its: seq<Interface>): (r: seq<string>)
    ensures |r| == |its|
    ensures forall i :: 0 <= i < |its| ==> r[i] == its[i].name
  {
    seq(|its|, i requires 0 <= i < |its| => its[i].name)
  }

  /** The names of the classes that are not base classes, in order. */
  function ClassNames(cs: seq<Class>): (r: seq<string>)
    ensures |r| <= |cs|
  {
    if |cs| == 0 then []
    else ClassNames(cs[..|cs| - 1]) + (if cs[|cs| - 1].isBaseClass then [] else [cs[|cs| - 1].name])
  }

  /** A name is listed exactly when some class that is not a base class has it. */
  lemma {:induction false} ClassNamesMembership(cs: seq<Class>, n: string)
    ensures n in ClassNames(cs) <==> exists c :: c in cs && !c.isBaseClass && c.name == n
  {
    if |cs| > 0 {
      var init := cs[..|cs| - 1];
      var last := cs[|cs| - 1];
      ClassNamesMembership(init, n);
      assert cs == init + [last];
      if n in ClassNames(cs) && !(n in ClassNames(init)) {
        assert last in cs;
      }
      if exists c :: c in cs && !c.isBaseClass && c.name == n {
        var c :| c in cs && !c.isBaseClass && c.name == n;
        if c != last {
          assert c in init;
        }
      }
    }
  }

  /** Propagation changes no name and no base-class flag, so the class list is the same before and after. */
  lemma {:induction false} ClassNamesPropagate(cs: seq<Class>, seen: bool)
    ensures ClassNames(PropagateFrom(cs, seen)) == ClassNames(cs)
  {
    if |cs| > 0 {
      var r := PropagateFrom(cs, seen);
      ClassNamesPropagate(cs[1..], seen || cs[0].isBaseModel);
      ClassNamesCons(cs[0], cs[1..]);
      ClassNamesCons(r[0], r[1..]);
      assert cs == [cs[0]] + cs[1..];
      assert r == [r[0]] + r[1..];
    }
  }

  lemma {:induction false} ClassNamesCons(c: Class, cs: seq<Class>)
    ensures ClassNames([c] + cs) == (if c.isBaseClass then [] else [c.name]) + ClassNames(cs)
  {
    if |cs| > 0 {
      var init := cs[..|cs| - 1];
      ClassNamesCons(c, init);
      assert ([c] + cs)[..|[c] + cs| - 1] == [c] + init;
    } else {
      assert [c][..0] == [];
    }
  }

  function EnumTexts(es: seq<Enum>, f: Format): (r: seq<string>)
    ensures |r| == |es|
    ensures forall i :: 0 <= i < |es| ==> r[i] == EnumText(es[i], f)
  {
    seq(|es|, i requires 0 <= i < |es| => EnumText(es[i], f))
  }

  function InterfaceTexts(its: seq<Interface>, f: Format): (r: seq<string>)
    ensures |r| == |its|
    ensures forall i :: 0 <= i < |its| ==> r[i] == InterfaceText(its[i], f)
  {
    seq(|its|, i requires 0 <= i < |its| => InterfaceText(its[i], f))
  }

  function ClassTexts(cs: seq<Class>, f: Format): (r: seq<string>)
    requires AllRenderable(cs)
    ensures |r| == |cs|
    ensures forall i :: 0 <= i < |cs| ==> r[i] == ClassText(cs[i], f)
  {
    seq(|cs|, i requires 0 <= i < |cs| && ClassRenderable(cs[i]) => ClassText(cs[i], f))
  }

  function InterfaceImports(its: seq<Interface>): seq<Import> {
    if |its| == 0 then [] else InterfaceImports(its[..|its| - 1]) + its[|its| - 1].imports
  }

  function ClassImports(cs: seq<Class>): seq<Import> {
    if |cs| == 0 then [] else ClassImports(cs[..|cs| - 1]) + cs[|cs| - 1].imports
  }

  /** Propagation changes no class's imports. */
  lemma {:induction false} ClassImportsPropagate(cs: seq<Class>)
    ensures ClassImports(Propagate(cs)) == ClassImports(cs)
  {
    var r := Propagate(cs);
    PropagateSpec(cs);
    ImportsPointwise(r, cs);
  }

  lemma {:induction false} ImportsPointwise(xs: seq<Class>, ys: seq<Class>)
    requires |xs| == |ys|
    requires forall i :: 0 <= i < |xs| ==> xs[i].imports == ys[i].imports
    ensures ClassImports(xs) == ClassImports(ys)
  {
    if |xs| > 0 {
      ImportsPointwise(xs[..|xs| - 1], ys[..|ys| - 1]);
    }
  }

  /** The rendered declarations: enums, then interfaces, then the classes after propagation. */
  function Declarations(g: CodeGen): seq<string>
    requires AllRenderable(g.classes)
  {
    PropagateRenderable(g.classes);
    EnumTexts(g.enums, FormatOf(g)) + InterfaceTexts(g.interfaces, FormatOf(g)) + ClassTexts(Propagate(g.classes), FormatOf(g))
  }

  /** The imports in the order they are collected: the interfaces', then the classes'. */
  function AllImports(g: CodeGen): seq<Import> {
    InterfaceImports(g.interfaces) + ClassImports(Propagate(g.classes))
  }

  /** `generate`. */
  function Generate(g: CodeGen): (r: Generated)
    requires AllRenderable(g.classes)
    ensures r.enums == EnumNames(g.enums)
    ensures r.interfaces == InterfaceNames(g.interfaces)
    ensures r.classes == ClassNames(g.classes)
    ensures forall n :: n in r.classes <==> exists c :: c in g.classes && !c.isBaseClass && c.name == n
  {
    var f := FormatOf(g);
    var pair := [ImportString(AllImports(g), f), FormatStringArray(Declarations(g), f)];
    ClassNamesPropagate(g.classes, false);
    forall n ensures n in ClassNames(g.classes) <==> exists c :: c in g.classes && !c.isBaseClass && c.name == n {
      ClassNamesMembership(g.classes, n);
    }
    Generated(
      ClassNames(Propagate(g.classes)),
      EnumNames(g.enums),
      InterfaceNames(g.interfaces),
      FormatStringArray(Filter(pair, NotBlank), f))
  }

  /**
   * The output is the import preamble (statements grouped by path, with
   * the interfaces' imports before the classes') followed by the enum, then
   * interface, then class declarations, blank ones dropped, all joined by the
   * list joiner. The explicit filter of blank parts changes nothing.
   */
  lemma GenerateOutput(g: CodeGen)
    requires AllRenderable(g.classes)
    ensures Generate(g).output
      == FormatStringArray([ImportString(AllImports(g), FormatOf(g))] + Declarations(g), FormatOf(g))
    ensures AllImports(g) == InterfaceImports(g.interfaces) + ClassImports(g.classes)
  {
    var f := FormatOf(g);
    var imp := ImportString(AllImports(g), f);
    var decl := Declarations(g);
    var pair := [imp, FormatStringArray(decl, f)];
    assert FormatStringArray(Filter(pair, NotBlank), f) == FormatStringArray(pair, f) by {
      FilterIdempotent(pair);
    }
    assert FormatStringArray([imp], f) == imp by {
      SingleFragment(imp, f);
    }
    FormatStringArrayFlatten([imp], decl, f);
    ClassImportsPropagate(g.classes);
  }

  lemma FilterIdempotent(a: seq<string>)
    ensures Filter(Filter(a, NotBlank), NotBlank) == Filter(a, NotBlank)
  {
    var k := Filter(a, NotBlank);
    forall i | 0 <= i < |k| ensures NotBlank(k[i]) {
      assert k[i] in k;
    }
    FilterAll(k, NotBlank);
  }

  /** A fragment that is the list joiner's output passes through it unchanged. */
  lemma SingleFragment(x: string, f: Format)
    requires Blank(x) ==> x == ""
    ensures FormatStringArray([x], f) == x
  {
    if NotBlank(x) {
      FormatStringArrayOfNonBlank([x], f);
      assert Join([x], Separator(f)) == x;
    }
  }

  /** Pretty and compact generation differ only in whitespace. */
  lemma GenerateModuloWhitespace(g: CodeGen, prettify: bool, tabSize: nat)
    requires AllRenderable(g.classes)
    ensures Strip(Generate(g).output) == Strip(Generate(g.(prettify := prettify, tabSize := tabSize)).output)
  {
    var h := g.(prettify := prettify, tabSize := tabSize);
    var f1, f2 := FormatOf(g), FormatOf(h);
    GenerateOutput(g);
    GenerateOutput(h);
    DeclarationsModuloWhitespace(g, prettify, tabSize);
    ImportStringModuloWhitespace(AllImports(g), f1, f2);
    assert AllImports(h) == AllImports(g);
    var imp1, imp2 := ImportString(AllImports(g), f1), ImportString(AllImports(g), f2);
    StripAllSingleton(imp1, imp2);
    StripAllCongruence([imp1], Declarations(g), [imp2], Declarations(h));
  }

  lemma DeclarationsModuloWhitespace(g: CodeGen, prettify: bool, tabSize: nat)
    requires AllRenderable(g.classes)
    ensures StripAll(Declarations(g)) == StripAll(Declarations(g.(prettify := prettify, tabSize := tabSize)))
  {
    var h := g.(prettify := prettify, tabSize := tabSize);
    var f1, f2 := FormatOf(g), FormatOf(h);
    PropagateRenderable(g.classes);
    var e1, e2 := EnumTexts(g.enums, f1), EnumTexts(g.enums, f2);
    var i1, i2 := InterfaceTexts(g.interfaces, f1), InterfaceTexts(g.interfaces, f2);
    var cs := Propagate(g.classes);
    var c1, c2 := ClassTexts(cs, f1), ClassTexts(cs, f2);
    EnumTextsModuloWhitespace(g.enums, f1, f2);
    InterfaceTextsModuloWhitespace(g.interfaces, f1, f2);
    ClassTextsModuloWhitespace(cs, f1, f2);
    assert Declarations(g) == e1 + i1 + c1 && Declarations(h) == e2 + i2 + c2;
    StripAllCongruence(e1, i1, e2, i2);
    StripAllCongruence(e1 + i1, c1, e2 + i2, c2);
  }

  lemma EnumTextsModuloWhitespace(es: seq<Enum>, f1: Format, f2: Format)
    ensures StripAll(EnumTexts(es, f1)) == StripAll(EnumTexts(es, f2))
  {
    var e1, e2 := EnumTexts(es, f1), EnumTexts(es, f2);
    forall i | 0 <= i < |e1| ensures Strip(e1[i]) == Strip(e2[i]) {
      EnumTextModuloWhitespace(es[i], f1, f2);
    }
    StripAllPointwise(e1, e2);
  }

  lemma InterfaceTextsModuloWhitespace(its: seq<Interface>, f1: Format, f2: Format)
    ensures StripAll(InterfaceTexts(its, f1)) == StripAll(InterfaceTexts(its, f2))
  {
    var i1, i2 := InterfaceTexts(its, f1), InterfaceTexts(its, f2);
    forall i | 0 <= i < |i1| ensures Strip(i1[i]) == Strip(i2[i]) {
      InterfaceTextModuloWhitespace(its[i], f1, f2);
    }
    StripAllPointwise(i1, i2);
  }

  lemma ClassTextsModuloWhitespace(cs: seq<Class>, f1: Format, f2: Format)
    requires AllRenderable(cs)
    ensures StripAll(ClassTexts(cs, f1)) == StripAll(ClassTexts(cs, f2))
  {
    var c1, c2 := ClassTexts(cs, f1), ClassTexts(cs, f2);
    forall i | 0 <= i < |c1| ensures Strip(c1[i]) == Strip(c2[i]) {
      assert cs[i] in cs;
      ClassTextModuloWhitespace(cs[i], f1, f2);
    }
    StripAllPointwise(c1, c2);
  }
}
