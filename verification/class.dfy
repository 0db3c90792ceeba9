/**
 * Class: the main renderer. A class is written as a fixed sequence of
 * sections (decorator, header, static members, instance properties, the
 * base-model registries, the constructor, the base-model methods, instance
 * methods, closing brace), each section a list of fragments joined by the
 * list joiner.
 *
 * The source collects the clone and export lists as a side effect while
 * filtering the instance properties; here they are computed first, by a pure
 * fold over the properties, and the rendering reads them.
 */
module Classes {
  import opened Wrappers
  import opened Text
  import opened Base
  import opened Properties
  import opened Methods
  import opened Decorators

  datatype Class = Class(
    name: string,
    baseName: string,
    imports: seq<Import>,
    methods: seq<Method>,
    properties: seq<Property>,
    args: seq<Property>,
    canClone: bool,
    canExport: bool,
    canUndo: bool,
    className: Option<string>,
    constructorCode: string,
    decorator: Option<Decorator>,
    implements: seq<string>,
    isAbstract: bool,
    isBaseClass: bool,
    isBaseModel: bool,
    superArgs: seq<Property>)

  /** A class with every field at its documented default; the class-name field comes from the options. */
  function DefaultClass(name: string, options: Option<Options>): Class {
    Class(
      name := name, baseName := "", imports := [], methods := [], properties := [], args := [],
      canClone := false, canExport := false, canUndo := false,
      className := if options.Some? then options.value.className else None,
      constructorCode := "", decorator := None, implements := [], isAbstract := false,
      isBaseClass := false, isBaseModel := false, superArgs := [])
  }

  // ---------------------------------------------------------------------
  // Clone and export accumulation
  // ---------------------------------------------------------------------

  /**
   * The accumulation as the source performs it: one pass over all the
   * properties, static ones included, appending a property to the clone list
   * when the class and the property can both be cloned, and to the export
   * list likewise.
   */
  function Accumulate(c: Class, ps: seq<Property>): (seq<Property>, seq<Property>) {
    if |ps| == 0 then ([], [])
    else
      var (cl, ex) := Accumulate(c, ps[..|ps| - 1]);
      var p := ps[|ps| - 1];
      (cl + (if c.canClone && p.canClone then [p] else []),
       ex + (if c.canExport && p.canExport then [p] else []))
  }

  function CloneTest(c: Class): Property -> bool {
    (p: Property) => c.canClone && p.canClone
  }

  function ExportTest(c: Class): Property -> bool {
    (p: Property) => c.canExport && p.canExport
  }

  /** The accumulated lists are the properties filtered by the clone and export tests, in declaration order. */
  lemma {:induction false} AccumulateFilters(c: Class, ps: seq<Property>)
    ensures Accumulate(c, ps).0 == Filter(ps, CloneTest(c))
    ensures Accumulate(c, ps).1 == Filter(ps, ExportTest(c))
  {
    if |ps| > 0 {
      AccumulateFilters(c, ps[..|ps| - 1]);
    }
  }

  function Clones(c: Class): seq<Property> {
    Accumulate(c, c.properties).0
  }

  function Exports(c: Class): seq<Property> {
    Accumulate(c, c.properties).1
  }

  /**
   * A property is in the clone list exactly when it is one of the class's
   * properties and both the class and the property can be cloned; the same
   * for exports. A class that cannot be cloned has an empty clone list.
   */
  lemma Membership(c: Class, p: Property)
    ensures p in Clones(c) <==> p in c.properties && c.canClone && p.canClone
    ensures p in Exports(c) <==> p in c.properties && c.canExport && p.canExport
    ensures !c.canClone ==> Clones(c) == []
    ensures !c.canExport ==> Exports(c) == []
  {
    AccumulateFilters(c, c.properties);
    if !c.canClone {
      FilterNone(c.properties, CloneTest(c));
    }
    if !c.canExport {
      FilterNone(c.properties, ExportTest(c));
    }
  }

  /** Each name in single quotes: `'name'`. */
  function QuotedNames(ps: seq<Property>): (r: seq<string>)
    ensures |r| == |ps|
    ensures forall i :: 0 <= i < |ps| ==> r[i] == "'" + ps[i].name + "'"
  {
    seq(|ps|, i requires 0 <= i < |ps| => "'" + ps[i].name + "'")
  }

  // ---------------------------------------------------------------------
  // Sections
  // ---------------------------------------------------------------------

  predicate StaticProperty(p: Property) { p.isStatic }
  predicate InstanceProperty(p: Property) { !p.isStatic }
  predicate StaticMethod(m: Method) { m.isStatic }
  predicate InstanceMethod(m: Method) { !m.isStatic }

  /** Every property can be rendered: tracked default setters find the options they read. */
  predicate ClassRenderable(c: Class) {
    forall p :: p in c.properties ==> Renderable(p)
  }

  function PropertyTexts(ps: seq<Property>, f: Format): (r: seq<string>)
    requires forall p :: p in ps ==> Renderable(p)
    ensures |r| == |ps|
    ensures forall i :: 0 <= i < |ps| ==> r[i] == PropertyText(ps[i], f)
  {
    seq(|ps|, i requires 0 <= i < |ps| && Renderable(ps[i]) => PropertyText(ps[i], f))
  }

  function MethodTexts(ms: seq<Method>, f: Format): (r: seq<string>)
    ensures |r| == |ms|
    ensures forall i :: 0 <= i < |ms| ==> r[i] == MethodText(ms[i], f)
  {
    seq(|ms|, i requires 0 <= i < |ms| => MethodText(ms[i], f))
  }

  /** A list of members rendered and joined, present only when the list is non-empty. */
  function Block(texts: seq<string>, f: Format): seq<string> {
    if |texts| > 0 then [FormatStringArray(texts, f)] else []
  }

  function Header(c: Class): seq<Piece> {
    [Lit("export" + (if c.isAbstract then " abstract" else "") + " class " + c.name
         + (if Blank(c.baseName) then "" else " extends " + c.baseName))]
      + (if |c.implements| == 0 then [] else [Lit(" implements "), Commas(c.implements)])
      + [SP, Lit("{")]
  }

  /** `protected _clones: string[] = [ 'a', 'b' ];` and the same for `_exports`. */
  function Registry(field: string, names: seq<string>): seq<Piece> {
    [TB, Lit("protected " + field + ":"), SP, Lit("string[]"), SP, Lit("="), SP, Lit("["), SP,
     Commas(names), SP, Lit("];")]
  }

  function StaticPropertiesSection(c: Class, f: Format): seq<string>
    requires ClassRenderable(c)
  {
    Block(PropertyTexts(Filter(c.properties, StaticProperty), f), f)
  }

  function InstancePropertiesSection(c: Class, f: Format): seq<string>
    requires ClassRenderable(c)
  {
    Block(PropertyTexts(Filter(c.properties, InstanceProperty), f), f)
  }

  function RegistriesSection(c: Class, f: Format): seq<string> {
    if c.isBaseModel then
      [Fill(Registry("_clones", QuotedNames(Clones(c))), f), Fill(Registry("_exports", QuotedNames(Exports(c))), f)]
    else []
  }

  // ---------------------------------------------------------------------
  // Constructor
  // ---------------------------------------------------------------------

  function ArgList(c: Class, f: Format): string {
    Join(ArgTexts(c.args, f), "," + Space(f))
  }

  /** The constructor is written when there is a base class, a non-empty argument list or constructor code. */
  predicate HasConstructor(c: Class, f: Format) {
    !Blank(c.baseName) || |ArgList(c, f)| > 0 || !Blank(c.constructorCode)
  }

  /** The names of the super arguments go through the list joiner, not a comma join. */
  function SuperArgNames(c: Class): (r: seq<string>)
    ensures |r| == |c.superArgs|
    ensures forall i :: 0 <= i < |r| ==> r[i] == c.superArgs[i].name
  {
    seq(|c.superArgs|, i requires 0 <= i < |c.superArgs| => c.superArgs[i].name)
  }

  /** `super(args);` on a line of its own. */
  function SuperLine(c: Class, f: Format): string {
    Fill([TB, TB, Lit("super(")], f) + FormatStringArray(SuperArgNames(c), f) + Fill([Lit(");"), NL], f)
  }

  /** `this.<className field> = '<class name>';` on a line of its own. */
  function TagLine(c: Class, f: Format): string
    requires c.className.Some?
  {
    Fill([TB, TB, Lit("this." + c.className.value)] + ValueTemplate("'" + c.name + "';") + [NL], f)
  }

  /** `super(args);` and, when a class-name field is configured, the statement storing the class name. */
  function SuperCall(c: Class, f: Format): string {
    if Blank(c.baseName) then ""
    else SuperLine(c, f) + (if NullOrBlank(c.className) then "" else TagLine(c, f))
  }

  /**
   * With a base class the constructor's first statement is `super(` with
   * the super arguments' names run through the list joiner (so only
   * whitespace separates them) and `);`; when a class-name field is
   * configured the next statement assigns the class name, quoted, to it.
   */
  lemma SuperCallContent(c: Class, f: Format)
    requires !Blank(c.baseName)
    ensures OccursAt(SuperCall(c, f), Tab(f) + Tab(f) + "super(", 0)
    ensures Strip(SuperLine(c, f)) == Strip("super(") + StripAll(SuperArgNames(c)) + Strip(");")
    ensures NullOrBlank(c.className) ==> SuperCall(c, f) == SuperLine(c, f)
    ensures !NullOrBlank(c.className) ==> OccursAt(SuperCall(c, f), TagLine(c, f), |SuperLine(c, f)|)
    ensures !NullOrBlank(c.className)
      ==> Strip(TagLine(c, f)) == Strip("this." + c.className.value + "=" + ("'" + c.name + "';"))
  {
    var tag := if NullOrBlank(c.className) then "" else TagLine(c, f);
    assert SuperCall(c, f) == SuperLine(c, f) + tag;
    SuperLineOpens(c, f);
    OccursAppend(SuperLine(c, f), Tab(f) + Tab(f) + "super(", 0, tag);
    SuperLineStrip(c, f);
    if !NullOrBlank(c.className) {
      OccursSplit(SuperLine(c, f), tag);
      TagLineStrip(c, f);
    }
  }

  lemma SuperLineOpens(c: Class, f: Format)
    ensures OccursAt(SuperLine(c, f), Tab(f) + Tab(f) + "super(", 0)
  {
    CallOpens("super(", FormatStringArray(SuperArgNames(c), f), ");", f);
  }

  lemma SuperLineStrip(c: Class, f: Format)
    ensures Strip(SuperLine(c, f)) == Strip("super(") + StripAll(SuperArgNames(c)) + Strip(");")
  {
    CallStrip("super(", FormatStringArray(SuperArgNames(c), f), ");", f);
  }

  lemma TagLineStrip(c: Class, f: Format)
    requires c.className.Some?
    ensures Strip(TagLine(c, f)) == Strip("this." + c.className.value + "=" + ("'" + c.name + "';"))
  {
    var s := [Lit("this." + c.className.value)] + ValueTemplate("'" + c.name + "';") + [NL];
    var v := "'" + c.name + "';";
    assert [TB, TB, Lit("this." + c.className.value)] + ValueTemplate(v) + [NL] == [TB] + ([TB] + s);
    IndentStrip([TB] + s, f);
    IndentStrip(s, f);
    StatementStrip("this." + c.className.value, "'" + c.name + "';", f);
  }

  /** A constructor with a base class contains the `super(` call and, when configured, the class-name statement. */
  lemma ConstructorCallsSuper(c: Class, f: Format)
    requires !Blank(c.baseName)
    ensures Contains(ConstructorText(c, f), Tab(f) + Tab(f) + "super(")
    ensures !NullOrBlank(c.className) ==> Contains(ConstructorText(c, f), TagLine(c, f))
  {
    var l := ListIn([TB, Lit("constructor(")], ArgTexts(c.args, f), [Lit(")"), SP, Lit("{"), NL], f);
    var t := Fill(ConstructorTail(c), f);
    SuperCallContent(c, f);
    OccursExtend(SuperCall(c, f), Tab(f) + Tab(f) + "super(", 0, l, t);
    if !NullOrBlank(c.className) {
      OccursExtend(SuperCall(c, f), TagLine(c, f), |SuperLine(c, f)|, l, t);
    }
  }

  /** `this._clones = [ ...this._clones, 'a' ];`: the list is extended, not replaced; nothing when there are no names. */
  function Spread(field: string, names: seq<string>): seq<Piece> {
    if |names| == 0 then []
    else
      [TB, TB, Lit("this." + field), SP, Lit("="), SP, Lit("["), SP, Lit("...this." + field + ","), SP,
       Commas(names), SP, Lit("];"), NL]
  }

  /** The constructor code on its own line, if any, and the closing brace. */
  function CodeAndClose(c: Class): seq<Piece> {
    (if Blank(c.constructorCode) then [] else [TB, TB, Lit(c.constructorCode), NL]) + [TB, Lit("}")]
  }

  function ConstructorTail(c: Class): seq<Piece> {
    Spread("_clones", QuotedNames(Clones(c))) + Spread("_exports", QuotedNames(Exports(c))) + CodeAndClose(c)
  }

  /** `constructor(args) {` and the super call. */
  function ConstructorOpen(c: Class, f: Format): string {
    ListIn([TB, Lit("constructor(")], ArgTexts(c.args, f), [Lit(")"), SP, Lit("{"), NL], f) + SuperCall(c, f)
  }

  function ConstructorText(c: Class, f: Format): string {
    ConstructorOpen(c, f) + Fill(ConstructorTail(c), f)
  }

  function ConstructorSection(c: Class, f: Format): seq<string> {
    if HasConstructor(c, f) then [ConstructorText(c, f)] else []
  }

  /**
   * Whether a constructor is written does not depend on the mode: it is
   * written exactly when there is a non-blank base class, non-blank
   * constructor code, more than one argument, or one argument with a
   * non-blank name.
   */
  lemma ConstructorEmitted(c: Class, f: Format)
    ensures HasConstructor(c, f) <==>
      !Blank(c.baseName) || !Blank(c.constructorCode)
      || |c.args| > 1 || (|c.args| == 1 && !Blank(c.args[0].name))
  {
    var xs := ArgTexts(c.args, f);
    JoinEmpty(xs, "," + Space(f));
    if |c.args| == 1 {
      assert xs[0] == ArgText(c.args[0], f);
    }
  }

  /** A non-empty spread statement contains `...this.field,`. */
  lemma SpreadContains(field: string, names: seq<string>, f: Format)
    requires |names| > 0
    ensures Contains(Fill(Spread(field, names), f), "...this." + field + ",")
  {
    FillOccurs(Spread(field, names), 8, f);
  }

  lemma SpreadMarkers()
    ensures "...this." + "_clones" + "," == "...this._clones,"
    ensures "...this." + "_exports" + "," == "...this._exports,"
  {
  }

  /**
   * The constructor extends the clone and export registries with spread
   * syntax rather than overwriting them, whenever the lists are non-empty.
   */
  lemma ConstructorSpreads(c: Class, f: Format)
    ensures |Clones(c)| > 0 ==> Contains(ConstructorText(c, f), "...this._clones,")
    ensures |Exports(c)| > 0 ==> Contains(ConstructorText(c, f), "...this._exports,")
  {
    var a := Fill(Spread("_clones", QuotedNames(Clones(c))), f);
    var b := Fill(Spread("_exports", QuotedNames(Exports(c))), f);
    var d := Fill(CodeAndClose(c), f);
    var o := ConstructorOpen(c, f);
    ConstructorParts(c, f);
    if |Clones(c)| > 0 {
      assert Contains(o + a + (b + d), "...this._clones,") by {
        SpreadContains("_clones", QuotedNames(Clones(c)), f);
        SpreadMarkers();
        ContainsInParts(o, a, b, d, "...this._clones,");
      }
    }
    if |Exports(c)| > 0 {
      assert Contains(o + a + (b + d), "...this._exports,") by {
        SpreadContains("_exports", QuotedNames(Exports(c)), f);
        SpreadMarkers();
        ContainsInParts(o, a, b, d, "...this._exports,");
      }
    }
  }

  lemma ConstructorParts(c: Class, f: Format)
    ensures ConstructorText(c, f)
      == ConstructorOpen(c, f) + Fill(Spread("_clones", QuotedNames(Clones(c))), f)
         + (Fill(Spread("_exports", QuotedNames(Exports(c))), f) + Fill(CodeAndClose(c), f))
  {
    FillConcat3(Spread("_clones", QuotedNames(Clones(c))), Spread("_exports", QuotedNames(Exports(c))), CodeAndClose(c), f);
  }

  // ---------------------------------------------------------------------
  // Base-model methods
  // ---------------------------------------------------------------------

  const RegisterPropertyBody := "if (canClone) { "
    + "this._clones.push(name); } "
    + "if (canExport) { "
    + "this._exports.push(name); } "
    + "if (canUndo) { "
    + "this.__[name] = this[name]; }"
  const RegisterPropertiesBody := "properties.forEach((p) => { "
    + "if (!this.isNullOrUndefined(p) && !this.isNullOrEmpty(p.name)) { "
    + "const n = p.name; "
    + "const c = this.isNullOrUndefined(p.canClone) ? true : p.canClone; "
    + "const e = this.isNullOrUndefined(p.canExport) ? true : p.canExport; "
    + "const u = this.isNullOrUndefined(p.canUndo) ? true : p.canUndo; "
    + "this.registerProperty(n, c, e, u); } });"
  const CloneBody := "const o = obj || {}; "
    + "if (this._clones !== undefined) { "
    + "this._clones.forEach((k) => { "
    + "o[k] = this[k]; }); } return o;"
  const ToObjectBody := "const o = {}; "
    + "this._exports.forEach((e) => { "
    + "if (this[e] !== undefined) { "
    + "if (this[e]['toObject'] !== undefined) { "
    + "o[e] = this[e].toObject(); } else { "
    + "o[e] = this[e]; } } }); return o;"
  const UndoSnapshot := " Object.keys(data).forEach((k) => { "
    + "if ((this[k] !== undefined)) { "
    + "this.__[k] = this[k]; } });"
  const CommitBody := "if (!this.isNullOrUndefined(this.__)) { "
    + "Object.keys(this.__).forEach((k) => { "
    + "if (this[k]['commit'] !== undefined) { "
    + "this[k].commit(); } else { "
    + "this.__[k] = this[k]; } }); }"
  const RevertBody := "if (!this.isNullOrUndefined(this.__)) { "
    + "Object.keys(this.__).forEach((k) => { "
    + "if (this[k]['revert'] !== undefined) { "
    + "this[k].revert(); } else { "
    + "this[k] = this.__[k]; } }); }"

  /** `parseObject`'s body: the snapshot of the current values is taken only when undo is supported. */
  function ParseObjectBody(canUndo: bool): string {
    "if (!this.isNullOrUndefined(data)) { Utils.parseObject(data, this);" + (if canUndo then UndoSnapshot else "") + " }"
  }

  /** An argument of a generated method: the given name and type, optionally a default value. */
  function GeneratedArg(name: string, typeName: string, value: Option<string>): Property {
    DefaultProperty(name, None).(typeName := typeName, value := value)
  }

  function RegisterProperty(): Method {
    DefaultMethod("registerProperty").(
      args := [GeneratedArg("name", "string", None), GeneratedArg("canClone", "boolean", Some("true")),
               GeneratedArg("canExport", "boolean", Some("true")), GeneratedArg("canUndo", "boolean", Some("true"))],
      body := RegisterPropertyBody)
  }

  function RegisterProperties(): Method {
    DefaultMethod("registerProperties").(args := [GeneratedArg("properties", "any[]", None)], body := RegisterPropertiesBody)
  }

  function CloneMethod(): Method {
    DefaultMethod("clone").(typeName := "any", args := [GeneratedArg("obj", "any", None)], body := CloneBody)
  }

  function ToObject(): Method {
    DefaultMethod("toObject").(typeName := "any", body := ToObjectBody)
  }

  function ParseObject(canUndo: bool): Method {
    DefaultMethod("parseObject").(args := [GeneratedArg("data", "any", None)], body := ParseObjectBody(canUndo))
  }

  function Commit(): Method {
    DefaultMethod("commit").(body := CommitBody)
  }

  function Revert(): Method {
    DefaultMethod("revert").(body := RevertBody)
  }

  /** The methods a base model gains, in the order they are written. */
  function BaseModelMethods(c: Class): seq<Method> {
    [RegisterProperty(), RegisterProperties()]
      + (if c.canClone then [CloneMethod()] else [])
      + (if c.canExport then [ToObject()] else [])
      + [ParseObject(c.canUndo)]
      + (if c.canUndo then [Commit(), Revert()] else [])
  }

  function MethodNames(ms: seq<Method>): (r: seq<string>)
    ensures |r| == |ms|
    ensures forall i :: 0 <= i < |ms| ==> r[i] == ms[i].name
  {
    seq(|ms|, i requires 0 <= i < |ms| => ms[i].name)
  }

  /** The names of methods assembled like the generated ones, whatever their bodies. */
  lemma AssembledNames(m1: Method, m2: Method, cloneable: bool, m3: Method, exportable: bool, m4: Method,
                        m5: Method, undoable: bool, m6: Method, m7: Method)
    ensures MethodNames([m1, m2] + (if cloneable then [m3] else []) + (if exportable then [m4] else []) + [m5]
                        + (if undoable then [m6, m7] else []))
      == [m1.name, m2.name] + (if cloneable then [m3.name] else []) + (if exportable then [m4.name] else []) + [m5.name]
         + (if undoable then [m6.name, m7.name] else [])
  {
  }

  /** The names of the generated methods, in order. */
  lemma BaseModelNames(c: Class)
    ensures MethodNames(BaseModelMethods(c))
      == ["registerProperty", "registerProperties"]
         + (if c.canClone then ["clone"] else [])
         + (if c.canExport then ["toObject"] else [])
         + ["parseObject"]
         + (if c.canUndo then ["commit", "revert"] else [])
  {
    AssembledNames(RegisterProperty(), RegisterProperties(), c.canClone, CloneMethod(), c.canExport, ToObject(),
                   ParseObject(c.canUndo), c.canUndo, Commit(), Revert());
  }

  /** Membership in a name list shaped like the generated one. */
  lemma AssembledNameSet(names: seq<string>, cloneable: bool, exportable: bool, undoable: bool)
    requires names == ["registerProperty", "registerProperties"]
         + (if cloneable then ["clone"] else [])
         + (if exportable then ["toObject"] else [])
         + ["parseObject"]
         + (if undoable then ["commit", "revert"] else [])
    ensures "registerProperty" in names && "registerProperties" in names && "parseObject" in names
    ensures "clone" in names <==> cloneable
    ensures "toObject" in names <==> exportable
    ensures "commit" in names <==> undoable
    ensures "revert" in names <==> undoable
  {
    assert "commit"[0] != "revert"[0];
  }

  /**
   * `registerProperty`, `registerProperties` and `parseObject` are always
   * generated; `clone` exactly when the class can be cloned, `toObject`
   * exactly when it can be exported, `commit` and `revert` exactly when it
   * supports undo.
   */
  lemma BaseModelMethodSet(c: Class)
    ensures var names := MethodNames(BaseModelMethods(c));
      && "registerProperty" in names && "registerProperties" in names && "parseObject" in names
      && ("clone" in names <==> c.canClone)
      && ("toObject" in names <==> c.canExport)
      && ("commit" in names <==> c.canUndo)
      && ("revert" in names <==> c.canUndo)
  {
    BaseModelNames(c);
    AssembledNameSet(MethodNames(BaseModelMethods(c)), c.canClone, c.canExport, c.canUndo);
  }

  /** `parseObject` takes the undo snapshot of the parsed values exactly when the class supports undo. */
  lemma ParseObjectSnapshot(canUndo: bool)
    ensures Contains(ParseObject(canUndo).body, UndoSnapshot) <==> canUndo
  {
    var pre := "if (!this.isNullOrUndefined(data)) { Utils.parseObject(data, this);";
    if canUndo {
      assert ParseObjectBody(true) == pre + UndoSnapshot + " }";
      assert OccursAt(ParseObjectBody(true), UndoSnapshot, |pre|);
    } else {
      assert |ParseObjectBody(false)| < |UndoSnapshot|;
    }
  }

  function BaseModelSection(c: Class, f: Format): seq<string> {
    if c.isBaseModel then MethodTexts(BaseModelMethods(c), f) else []
  }

  // ---------------------------------------------------------------------
  // The whole class
  // ---------------------------------------------------------------------

  function DecoratorSection(c: Class, f: Format): seq<string> {
    if c.decorator.Some? then [DecoratorText(c.decorator.value, f)] else []
  }

  function HeaderSection(c: Class, f: Format): seq<string> {
    [Fill(Header(c), f)]
  }

  function StaticMethodsSection(c: Class, f: Format): seq<string> {
    Block(MethodTexts(Filter(c.methods, StaticMethod), f), f)
  }

  function InstanceMethodsSection(c: Class, f: Format): seq<string> {
    Block(MethodTexts(Filter(c.methods, InstanceMethod), f), f)
  }

  /** The fragments of the class, section after section in the fixed order the class is written in. */
  function Fragments(c: Class, f: Format): seq<string>
    requires ClassRenderable(c)
  {
    DecoratorSection(c, f)
      + HeaderSection(c, f)
      + StaticPropertiesSection(c, f)
      + StaticMethodsSection(c, f)
      + InstancePropertiesSection(c, f)
      + RegistriesSection(c, f)
      + ConstructorSection(c, f)
      + BaseModelSection(c, f)
      + InstanceMethodsSection(c, f)
      + ["}"]
  }

  /** `toString`: empty exactly when the name is blank. */
  function ClassText(c: Class, f: Format): (r: string)
    requires ClassRenderable(c)
    ensures r == "" <==> Blank(c.name)
  {
    if Blank(c.name) then ""
    else
      HeaderNotBlank(c, f);
      ClosingFragment(c, f);
      FormatStringArray(Fragments(c, f), f)
  }

  lemma HeaderNotBlank(c: Class, f: Format)
    ensures NotBlank(Fill(Header(c), f))
  {
    assert Header(c)[0].text[0] == 'e';
    FillNotBlank(Header(c), 0, f);
  }

  lemma ClosingFragment(c: Class, f: Format)
    requires ClassRenderable(c)
    ensures var all := Fragments(c, f); |all| > 0 && all[|all| - 1] == "}" && NotBlank(all[|all| - 1])
  {
    assert "}"[0] == '}';
  }

  /** A named class is never cut short: its text ends with the closing brace. */
  lemma ClosingIn(c: Class, f: Format)
    requires ClassRenderable(c) && !Blank(c.name)
    ensures var t := ClassText(c, f); |t| > 0 && t[|t| - 1] == '}'
  {
    ClosingFragment(c, f);
    FormatStringArrayEndsWith(Fragments(c, f), f);
  }

  /** Every fragment that is not blank appears in the text of a named class. */
  lemma ClassContainsFragment(c: Class, x: string, f: Format)
    requires ClassRenderable(c) && !Blank(c.name)
    requires x in Fragments(c, f) && NotBlank(x)
    ensures Contains(ClassText(c, f), x)
  {
    FormatStringArrayKeeps(Fragments(c, f), x, f);
  }

  /** A non-empty block is one fragment holding each of its non-blank members. */
  lemma BlockContains(texts: seq<string>, x: string, f: Format)
    requires x in texts && NotBlank(x)
    ensures Block(texts, f) == [FormatStringArray(texts, f)]
    ensures NotBlank(FormatStringArray(texts, f)) && Contains(FormatStringArray(texts, f), x)
  {
    var k :| 0 <= k < |texts| && texts[k] == x;
    FormatStringArrayKeeps(texts, x, f);
  }

  /** The constructor, when there is one, is written into a named class, and so is its `super(` call. */
  lemma ClassContainsConstructor(c: Class, f: Format)
    requires ClassRenderable(c) && !Blank(c.name) && HasConstructor(c, f)
    ensures Contains(ClassText(c, f), ConstructorText(c, f))
    ensures !Blank(c.baseName) ==> Contains(ClassText(c, f), Tab(f) + Tab(f) + "super(")
  {
    var tail := ConstructorTail(c);
    assert tail[|tail| - 1] == Lit("}") && "}"[0] == '}';
    FillNotBlank(tail, |tail| - 1, f);
    NotBlankAppend(ConstructorOpen(c, f), Fill(tail, f));
    SectionsInFragments(c, f);
    assert ConstructorSection(c, f) == [ConstructorText(c, f)];
    ClassContainsFragment(c, ConstructorText(c, f), f);
    if !Blank(c.baseName) {
      ConstructorCallsSuper(c, f);
      ContainsTrans(ClassText(c, f), ConstructorText(c, f), Tab(f) + Tab(f) + "super(");
    }
  }

  /** A named base model declares both registries. */
  lemma ClassContainsRegistries(c: Class, f: Format)
    requires ClassRenderable(c) && !Blank(c.name) && c.isBaseModel
    ensures Contains(ClassText(c, f), Fill(Registry("_clones", QuotedNames(Clones(c))), f))
    ensures Contains(ClassText(c, f), Fill(Registry("_exports", QuotedNames(Exports(c))), f))
  {
    var a, b := Registry("_clones", QuotedNames(Clones(c))), Registry("_exports", QuotedNames(Exports(c)));
    assert a[1].text[0] == 'p' && b[1].text[0] == 'p';
    FillNotBlank(a, 1, f);
    FillNotBlank(b, 1, f);
    SectionsInFragments(c, f);
    assert RegistriesSection(c, f) == [Fill(a, f), Fill(b, f)];
    ClassContainsFragment(c, Fill(a, f), f);
    ClassContainsFragment(c, Fill(b, f), f);
  }

  /** Every property with a member form is written into a named class, static or not. */
  lemma ClassContainsProperties(c: Class, f: Format)
    requires ClassRenderable(c) && !Blank(c.name)
    ensures forall p :: p in c.properties && PropertyText(p, f) != "" ==> Contains(ClassText(c, f), PropertyText(p, f))
  {
    forall p | p in c.properties && PropertyText(p, f) != "" ensures Contains(ClassText(c, f), PropertyText(p, f)) {
      ClassContainsProperty(c, p, f);
    }
  }

  lemma ClassContainsProperty(c: Class, p: Property, f: Format)
    requires ClassRenderable(c) && !Blank(c.name)
    requires p in c.properties && PropertyText(p, f) != ""
    ensures Contains(ClassText(c, f), PropertyText(p, f))
  {
    var ps := Filter(c.properties, if p.isStatic then StaticProperty else InstanceProperty);
    assert p in ps;
    PropertyBlockContains(ps, p, f);
    var block := FormatStringArray(PropertyTexts(ps, f), f);
    SectionsInFragments(c, f);
    assert block in Fragments(c, f) by {
      if p.isStatic {
        assert StaticPropertiesSection(c, f) == [block];
      } else {
        assert InstancePropertiesSection(c, f) == [block];
      }
    }
    ClassContainsFragment(c, block, f);
    ContainsTrans(ClassText(c, f), block, PropertyText(p, f));
  }

  /** A block of properties holds the member form of each of them that has one. */
  lemma PropertyBlockContains(ps: seq<Property>, p: Property, f: Format)
    requires forall q :: q in ps ==> Renderable(q)
    requires p in ps && PropertyText(p, f) != ""
    ensures Block(PropertyTexts(ps, f), f) == [FormatStringArray(PropertyTexts(ps, f), f)]
    ensures NotBlank(FormatStringArray(PropertyTexts(ps, f), f))
    ensures Contains(FormatStringArray(PropertyTexts(ps, f), f), PropertyText(p, f))
  {
    var k :| 0 <= k < |ps| && ps[k] == p;
    var texts := PropertyTexts(ps, f);
    assert texts[k] == PropertyText(p, f);
    BlockContains(texts, PropertyText(p, f), f);
  }

  /** Every named method is written into a named class, static or not. */
  lemma ClassContainsMethods(c: Class, f: Format)
    requires ClassRenderable(c) && !Blank(c.name)
    ensures forall m :: m in c.methods && !Blank(m.name) ==> Contains(ClassText(c, f), MethodText(m, f))
  {
    forall m | m in c.methods && !Blank(m.name) ensures Contains(ClassText(c, f), MethodText(m, f)) {
      ClassContainsMethod(c, m, f);
    }
  }

  lemma ClassContainsMethod(c: Class, m: Method, f: Format)
    requires ClassRenderable(c) && !Blank(c.name)
    requires m in c.methods && !Blank(m.name)
    ensures Contains(ClassText(c, f), MethodText(m, f))
  {
    var ms := Filter(c.methods, if m.isStatic then StaticMethod else InstanceMethod);
    assert m in ms;
    var k :| 0 <= k < |ms| && ms[k] == m;
    var texts := MethodTexts(ms, f);
    assert texts[k] == MethodText(m, f);
    BlockContains(texts, MethodText(m, f), f);
    var block := FormatStringArray(texts, f);
    SectionsInFragments(c, f);
    if m.isStatic {
      assert StaticMethodsSection(c, f) == [block];
    } else {
      assert InstanceMethodsSection(c, f) == [block];
    }
    ClassContainsFragment(c, block, f);
    ContainsTrans(ClassText(c, f), block, MethodText(m, f));
  }

  /** A named base model contains every generated method. */
  lemma ClassContainsBaseModelMethods(c: Class, f: Format)
    requires ClassRenderable(c) && !Blank(c.name) && c.isBaseModel
    ensures forall m :: m in BaseModelMethods(c) ==> Contains(ClassText(c, f), MethodText(m, f))
  {
    var ms := BaseModelMethods(c);
    BaseModelMethodsNamed(c);
    SectionsInFragments(c, f);
    forall m | m in ms ensures Contains(ClassText(c, f), MethodText(m, f)) {
      var k :| 0 <= k < |ms| && ms[k] == m;
      assert MethodTexts(ms, f)[k] == MethodText(m, f);
      ClassContainsFragment(c, MethodText(m, f), f);
    }
  }

  lemma BaseModelMethodsNamed(c: Class)
    ensures forall i :: 0 <= i < |BaseModelMethods(c)| ==> NotBlank(BaseModelMethods(c)[i].name)
  {
    BaseModelNames(c);
    GeneratedNamesNotBlank(MethodNames(BaseModelMethods(c)), c.canClone, c.canExport, c.canUndo);
  }

  lemma GeneratedNamesNotBlank(names: seq<string>, cloneable: bool, exportable: bool, undoable: bool)
    requires names == ["registerProperty", "registerProperties"]
         + (if cloneable then ["clone"] else [])
         + (if exportable then ["toObject"] else [])
         + ["parseObject"]
         + (if undoable then ["commit", "revert"] else [])
    ensures forall i :: 0 <= i < |names| ==> NotBlank(names[i])
  {
    forall i | 0 <= i < |names| ensures NotBlank(names[i]) {
      assert 'a' <= names[i][0] <= 'z';
    }
  }

  /** Whatever a section holds, the class's fragments hold. */
  lemma SectionsInFragments(c: Class, f: Format)
    requires ClassRenderable(c)
    ensures forall x :: x in StaticPropertiesSection(c, f) ==> x in Fragments(c, f)
    ensures forall x :: x in StaticMethodsSection(c, f) ==> x in Fragments(c, f)
    ensures forall x :: x in InstancePropertiesSection(c, f) ==> x in Fragments(c, f)
    ensures forall x :: x in RegistriesSection(c, f) ==> x in Fragments(c, f)
    ensures forall x :: x in ConstructorSection(c, f) ==> x in Fragments(c, f)
    ensures forall x :: x in BaseModelSection(c, f) ==> x in Fragments(c, f)
    ensures forall x :: x in InstanceMethodsSection(c, f) ==> x in Fragments(c, f)
  {
  }

  /**
   * A base model's registries list exactly the properties that pass the
   * clone and export tests, in declaration order; a class that is not a base
   * model has neither registries nor generated methods.
   */
  lemma BaseModelSections(c: Class, f: Format)
    ensures c.isBaseModel ==>
      RegistriesSection(c, f)
        == [Fill(Registry("_clones", QuotedNames(Filter(c.properties, CloneTest(c)))), f),
            Fill(Registry("_exports", QuotedNames(Filter(c.properties, ExportTest(c)))), f)]
    ensures !c.isBaseModel ==> RegistriesSection(c, f) == [] && BaseModelSection(c, f) == []
  {
    AccumulateFilters(c, c.properties);
  }

  // ---------------------------------------------------------------------
  // Pretty and compact output agree once whitespace is deleted
  // ---------------------------------------------------------------------

  lemma BlockModuloWhitespace(xs: seq<string>, ys: seq<string>, f1: Format, f2: Format)
    requires |xs| == |ys|
    requires forall i :: 0 <= i < |xs| ==> Strip(xs[i]) == Strip(ys[i])
    ensures StripAll(Block(xs, f1)) == StripAll(Block(ys, f2))
  {
    StripAllPointwise(xs, ys);
    if |xs| > 0 {
      StripAllAppend([], FormatStringArray(xs, f1));
      StripAllAppend([], FormatStringArray(ys, f2));
      assert [] + [FormatStringArray(xs, f1)] == Block(xs, f1);
      assert [] + [FormatStringArray(ys, f2)] == Block(ys, f2);
    }
  }

  lemma PropertyTextsModuloWhitespace(ps: seq<Property>, f1: Format, f2: Format)
    requires forall p :: p in ps ==> Renderable(p)
    ensures StripAll(Block(PropertyTexts(ps, f1), f1)) == StripAll(Block(PropertyTexts(ps, f2), f2))
  {
    var xs, ys := PropertyTexts(ps, f1), PropertyTexts(ps, f2);
    forall i | 0 <= i < |ps| ensures Strip(xs[i]) == Strip(ys[i]) {
      PropertyTextModuloWhitespace(ps[i], f1, f2);
    }
    BlockModuloWhitespace(xs, ys, f1, f2);
  }

  lemma MethodTextsModuloWhitespace(ms: seq<Method>, f1: Format, f2: Format)
    ensures StripAll(MethodTexts(ms, f1)) == StripAll(MethodTexts(ms, f2))
    ensures StripAll(Block(MethodTexts(ms, f1), f1)) == StripAll(Block(MethodTexts(ms, f2), f2))
  {
    var xs, ys := MethodTexts(ms, f1), MethodTexts(ms, f2);
    forall i | 0 <= i < |ms| ensures Strip(xs[i]) == Strip(ys[i]) {
      MethodTextModuloWhitespace(ms[i], f1, f2);
    }
    StripAllPointwise(xs, ys);
    BlockModuloWhitespace(xs, ys, f1, f2);
  }

  lemma SuperCallModuloWhitespace(c: Class, f1: Format, f2: Format)
    ensures Strip(SuperCall(c, f1)) == Strip(SuperCall(c, f2))
  {
    if !Blank(c.baseName) {
      var t1 := if NullOrBlank(c.className) then "" else TagLine(c, f1);
      var t2 := if NullOrBlank(c.className) then "" else TagLine(c, f2);
      SuperLineStrip(c, f1);
      SuperLineStrip(c, f2);
      if !NullOrBlank(c.className) {
        TagLineStrip(c, f1);
        TagLineStrip(c, f2);
      }
      StripConcat(SuperLine(c, f1), t1);
      StripConcat(SuperLine(c, f2), t2);
    }
  }

  lemma ConstructorTextModuloWhitespace(c: Class, f1: Format, f2: Format)
    ensures Strip(ConstructorText(c, f1)) == Strip(ConstructorText(c, f2))
  {
    var a1, a2 := ArgTexts(c.args, f1), ArgTexts(c.args, f2);
    forall i | 0 <= i < |c.args| ensures Strip(a1[i]) == Strip(a2[i]) {
      ArgTextModuloWhitespace(c.args[i], f1, f2);
    }
    var pre: seq<Piece> := [TB, Lit("constructor(")];
    var post: seq<Piece> := [Lit(")"), SP, Lit("{"), NL];
    ListInModuloWhitespace(pre, a1, a2, post, f1, f2);
    SuperCallModuloWhitespace(c, f1, f2);
    FillModuloWhitespace(ConstructorTail(c), f1, f2);
    var l1, s1, t1 := ListIn(pre, a1, post, f1), SuperCall(c, f1), Fill(ConstructorTail(c), f1);
    assert ConstructorText(c, f1) == l1 + s1 + t1;
    assert ConstructorText(c, f2) == ListIn(pre, a2, post, f2) + SuperCall(c, f2) + Fill(ConstructorTail(c), f2);
    var l2, s2, t2 := ListIn(pre, a2, post, f2), SuperCall(c, f2), Fill(ConstructorTail(c), f2);
    StripConcat(l1 + s1, t1);
    StripConcat(l1, s1);
    StripConcat(l2 + s2, t2);
    StripConcat(l2, s2);
  }

  lemma ConstructorSectionModuloWhitespace(c: Class, f1: Format, f2: Format)
    ensures StripAll(ConstructorSection(c, f1)) == StripAll(ConstructorSection(c, f2))
  {
    assert HasConstructor(c, f1) == HasConstructor(c, f2) by {
      ConstructorEmitted(c, f1);
      ConstructorEmitted(c, f2);
    }
    if HasConstructor(c, f1) {
      ConstructorTextModuloWhitespace(c, f1, f2);
      StripAllSingleton(ConstructorText(c, f1), ConstructorText(c, f2));
    }
  }

  lemma RegistriesModuloWhitespace(c: Class, f1: Format, f2: Format)
    ensures StripAll(RegistriesSection(c, f1)) == StripAll(RegistriesSection(c, f2))
  {
    if c.isBaseModel {
      FillModuloWhitespace(Registry("_clones", QuotedNames(Clones(c))), f1, f2);
      FillModuloWhitespace(Registry("_exports", QuotedNames(Exports(c))), f1, f2);
      StripAllPointwise(RegistriesSection(c, f1), RegistriesSection(c, f2));
    }
  }

  lemma StaticSectionsModuloWhitespace(c: Class, f1: Format, f2: Format)
    requires ClassRenderable(c)
    ensures StripAll(StaticPropertiesSection(c, f1)) == StripAll(StaticPropertiesSection(c, f2))
    ensures StripAll(InstancePropertiesSection(c, f1)) == StripAll(InstancePropertiesSection(c, f2))
    ensures StripAll(StaticMethodsSection(c, f1)) == StripAll(StaticMethodsSection(c, f2))
    ensures StripAll(InstanceMethodsSection(c, f1)) == StripAll(InstanceMethodsSection(c, f2))
    ensures StripAll(BaseModelSection(c, f1)) == StripAll(BaseModelSection(c, f2))
  {
    PropertyTextsModuloWhitespace(Filter(c.properties, StaticProperty), f1, f2);
    PropertyTextsModuloWhitespace(Filter(c.properties, InstanceProperty), f1, f2);
    MethodTextsModuloWhitespace(Filter(c.methods, StaticMethod), f1, f2);
    MethodTextsModuloWhitespace(Filter(c.methods, InstanceMethod), f1, f2);
    MethodTextsModuloWhitespace(BaseModelMethods(c), f1, f2);
  }

  lemma FrameSectionsModuloWhitespace(c: Class, f1: Format, f2: Format)
    ensures StripAll(DecoratorSection(c, f1)) == StripAll(DecoratorSection(c, f2))
    ensures StripAll(HeaderSection(c, f1)) == StripAll(HeaderSection(c, f2))
  {
    if c.decorator.Some? {
      DecoratorTextModuloWhitespace(c.decorator.value, f1, f2);
      StripAllSingleton(DecoratorText(c.decorator.value, f1), DecoratorText(c.decorator.value, f2));
    }
    FillModuloWhitespace(Header(c), f1, f2);
    StripAllSingleton(Fill(Header(c), f1), Fill(Header(c), f2));
  }

  /** Sections that agree one by one, whitespace aside, agree as a whole. */
  lemma SectionsPointwise(c: Class, f1: Format, f2: Format)
    requires ClassRenderable(c)
    requires StripAll(DecoratorSection(c, f1)) == StripAll(DecoratorSection(c, f2))
    requires StripAll(HeaderSection(c, f1)) == StripAll(HeaderSection(c, f2))
    requires StripAll(StaticPropertiesSection(c, f1)) == StripAll(StaticPropertiesSection(c, f2))
    requires StripAll(StaticMethodsSection(c, f1)) == StripAll(StaticMethodsSection(c, f2))
    requires StripAll(InstancePropertiesSection(c, f1)) == StripAll(InstancePropertiesSection(c, f2))
    requires StripAll(RegistriesSection(c, f1)) == StripAll(RegistriesSection(c, f2))
    requires StripAll(ConstructorSection(c, f1)) == StripAll(ConstructorSection(c, f2))
    requires StripAll(BaseModelSection(c, f1)) == StripAll(BaseModelSection(c, f2))
    requires StripAll(InstanceMethodsSection(c, f1)) == StripAll(InstanceMethodsSection(c, f2))
    ensures StripAll(Fragments(c, f1)) == StripAll(Fragments(c, f2))
  {
    var a1 := DecoratorSection(c, f1) + HeaderSection(c, f1);
    var a2 := DecoratorSection(c, f2) + HeaderSection(c, f2);
    StripAllCongruence(DecoratorSection(c, f1), HeaderSection(c, f1), DecoratorSection(c, f2), HeaderSection(c, f2));
    var b1 := a1 + StaticPropertiesSection(c, f1);
    var b2 := a2 + StaticPropertiesSection(c, f2);
    StripAllCongruence(a1, StaticPropertiesSection(c, f1), a2, StaticPropertiesSection(c, f2));
    var d1 := b1 + StaticMethodsSection(c, f1);
    var d2 := b2 + StaticMethodsSection(c, f2);
    StripAllCongruence(b1, StaticMethodsSection(c, f1), b2, StaticMethodsSection(c, f2));
    var e1 := d1 + InstancePropertiesSection(c, f1);
    var e2 := d2 + InstancePropertiesSection(c, f2);
    StripAllCongruence(d1, InstancePropertiesSection(c, f1), d2, InstancePropertiesSection(c, f2));
    var g1 := e1 + RegistriesSection(c, f1);
    var g2 := e2 + RegistriesSection(c, f2);
    StripAllCongruence(e1, RegistriesSection(c, f1), e2, RegistriesSection(c, f2));
    var h1 := g1 + ConstructorSection(c, f1);
    var h2 := g2 + ConstructorSection(c, f2);
    StripAllCongruence(g1, ConstructorSection(c, f1), g2, ConstructorSection(c, f2));
    var k1 := h1 + BaseModelSection(c, f1);
    var k2 := h2 + BaseModelSection(c, f2);
    StripAllCongruence(h1, BaseModelSection(c, f1), h2, BaseModelSection(c, f2));
    var m1 := k1 + InstanceMethodsSection(c, f1);
    var m2 := k2 + InstanceMethodsSection(c, f2);
    StripAllCongruence(k1, InstanceMethodsSection(c, f1), k2, InstanceMethodsSection(c, f2));
    StripAllCongruence(m1, ["}"], m2, ["}"]);
  }

  /** The class differs between modes only in whitespace. */
  lemma ClassTextModuloWhitespace(c: Class, f1: Format, f2: Format)
    requires ClassRenderable(c)
    ensures Strip(ClassText(c, f1)) == Strip(ClassText(c, f2))
  {
    if !Blank(c.name) {
      StaticSectionsModuloWhitespace(c, f1, f2);
      FrameSectionsModuloWhitespace(c, f1, f2);
      RegistriesModuloWhitespace(c, f1, f2);
      ConstructorSectionModuloWhitespace(c, f1, f2);
      SectionsPointwise(c, f1, f2);
    }
  }
}
