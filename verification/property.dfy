/**
 * Property: a typed field or parameter. It renders as a class member (a field
 * declaration and/or a getter/setter pair), as a constructor or method
 * argument, and as an interface member.
 */
module Properties {
  import opened Wrappers
  import opened Text
  import opened Base

  datatype Property = Property(
    name: string,
    typeName: string,
    value: Option<string>,
    modifier: string,
    optional: bool,
    isStatic: bool,
    declare: bool,
    read: bool,
    write: bool,
    canClone: bool,
    canExport: bool,
    track: bool,
    trackDate: bool,
    trackState: bool,
    getterBody: Option<string>,
    setterBody: Option<string>,
    useGetterSetter: bool,
    options: Option<Options>)

  /** A property with every field at its documented default. */
  function DefaultProperty(name: string, options: Option<Options>): Property {
    Property(
      name := name, typeName := "any", value := None, modifier := Public,
      optional := false, isStatic := false, declare := true, read := true, write := true,
      canClone := true, canExport := true, track := false, trackDate := true, trackState := true,
      getterBody := None, setterBody := None, useGetterSetter := false, options := options)
  }

  /**
   * The constructor's last step, applied to the defaults overridden by the
   * caller's data: getter/setter mode is switched on when tracking is
   * requested or a non-blank getter or setter body is supplied, and never
   * switched off.
   */
  function NewProperty(data: Property): (r: Property)
    ensures r.useGetterSetter <==>
      data.useGetterSetter || data.track || !NullOrBlank(data.getterBody) || !NullOrBlank(data.setterBody)
    ensures r.(useGetterSetter := data.useGetterSetter) == data
  {
    SwitchOn(data, data.track || !NullOrBlank(data.getterBody) || !NullOrBlank(data.setterBody))
  }

  /** Getter/setter mode switched on when `on` holds, every other field kept. */
  function SwitchOn(p: Property, on: bool): (r: Property)
    ensures r.useGetterSetter == (p.useGetterSetter || on)
    ensures r.(useGetterSetter := p.useGetterSetter) == p
  {
    p.(useGetterSetter := p.useGetterSetter || on)
  }

  /** Getter/setter mode for a property built from data that does not set the flag itself. */
  lemma GetterSetterMode(data: Property)
    requires !data.useGetterSetter
    ensures NewProperty(data).useGetterSetter <==>
      data.track || !NullOrBlank(data.getterBody) || !NullOrBlank(data.setterBody)
  {
  }

  /** `setGetter`: stores the body and sets getter/setter mode by whether it is blank. */
  function SetGetter(p: Property, body: Option<string>): (r: Property)
    ensures r.getterBody == body
    ensures r.useGetterSetter <==> !NullOrBlank(body)
    ensures r.(getterBody := p.getterBody, useGetterSetter := p.useGetterSetter) == p
  {
    p.(getterBody := body, useGetterSetter := !NullOrBlank(body))
  }

  /** `setSetter`: the same for the setter body. */
  function SetSetter(p: Property, body: Option<string>): (r: Property)
    ensures r.setterBody == body
    ensures r.useGetterSetter <==> !NullOrBlank(body)
    ensures r.(setterBody := p.setterBody, useGetterSetter := p.useGetterSetter) == p
  {
    p.(setterBody := body, useGetterSetter := !NullOrBlank(body))
  }

  /** `setTrack`: a missing value means `true`; getter/setter mode follows the tracking flag. */
  function SetTrack(p: Property, value: Option<bool>): (r: Property)
    ensures r.track == r.useGetterSetter
    ensures value.None? ==> r.track
    ensures value.Some? ==> r.track == value.value
    ensures r.(track := p.track, useGetterSetter := p.useGetterSetter) == p
  {
    var v := value.GetOr(true);
    p.(track := v, useGetterSetter := v)
  }

  /**
   * Unlike the constructor, the builders overwrite getter/setter mode: the
   * last one called decides it, whatever the other bodies and the tracking
   * flag say. A blank getter set after a setter body switches the mode off,
   * and so does turning tracking off.
   */
  lemma LastBuilderWins(p: Property, setter: string, getter: Option<string>)
    requires !Blank(setter) && NullOrBlank(getter)
    ensures var q := SetGetter(SetSetter(p, Some(setter)), getter);
      !q.useGetterSetter && !NullOrBlank(q.setterBody)
    ensures !SetTrack(SetSetter(p, Some(setter)), Some(false)).useGetterSetter
    ensures SetTrack(p, None).useGetterSetter
  {
  }

  function OptionalMark(p: Property): string {
    if p.optional then "?" else ""
  }

  /** `name[?]:type`, the part the argument, interface-member and signature-argument forms share, without whitespace. */
  function Declared(p: Property): string {
    p.name + OptionalMark(p) + ":" + p.typeName
  }

  /**
   * The argument form without whitespace: nothing for a blank name, else
   * `name[?]:type` followed by `=value` only when the value is neither
   * missing nor blank.
   */
  function ArgWords(p: Property): string {
    if Blank(p.name) then "" else Declared(p) + (if NullOrBlank(p.value) then "" else "=" + p.value.value)
  }

  /** `name[?]:` followed by the type; the default value is dropped when blank. */
  function ArgTemplate(p: Property): seq<Piece> {
    [Lit(p.name + OptionalMark(p) + ":"), SP, Lit(p.typeName)]
      + (if NullOrBlank(p.value) then [] else ValueTemplate(p.value.value))
  }

  /**
   * `toArgString`: the constructor- and method-argument form; empty exactly
   * when the name is blank, and otherwise its words in order.
   */
  function ArgText(p: Property, f: Format): (r: string)
    ensures r == "" <==> Blank(p.name)
    ensures !Blank(p.name) ==> OccursAt(r, p.name + OptionalMark(p) + ":", 0)
    ensures Strip(r) == Strip(ArgWords(p))
  {
    if Blank(p.name) then ""
    else
      var t := ArgTemplate(p);
      var head := p.name + OptionalMark(p) + ":";
      assert head[|head| - 1] == ':';
      FillNotBlank(t, 0, f);
      FillOccurs(t, 0, f);
      assert t[..0] == [];
      ArgStrip(p, f);
      Fill(t, f)
  }

  lemma ArgStrip(p: Property, f: Format)
    ensures Strip(Fill(ArgTemplate(p), f)) == Strip(Declared(p) + (if NullOrBlank(p.value) then "" else "=" + p.value.value))
  {
    var head := p.name + OptionalMark(p) + ":";
    var a: seq<Piece> := [Lit(head), SP, Lit(p.typeName)];
    SpacedStrip(head, p.typeName, f);
    if NullOrBlank(p.value) {
      assert ArgTemplate(p) == a;
      assert Declared(p) + "" == head + p.typeName;
    } else {
      var v := p.value.value;
      FillConcat(a, ValueTemplate(v), f);
      ValueStrip(v, f);
      StripConcat(Fill(a, f), Fill(ValueTemplate(v), f));
      StripConcat(head + p.typeName, "=" + v);
    }
  }

  function MemberTemplate(p: Property): seq<Piece> {
    [TB, Lit(p.name + OptionalMark(p) + ":"), SP, Lit(p.typeName + ";")]
  }

  /**
   * `toInterfaceString`: an indented `name[?]: type;`; empty exactly when the
   * name is blank. The default value plays no part.
   */
  function MemberText(p: Property, f: Format): (r: string)
    ensures r == "" <==> Blank(p.name)
    ensures !Blank(p.name) ==> r[|r| - 1] == ';'
    ensures !Blank(p.name) ==> Strip(r) == Strip(Declared(p) + ";")
  {
    if Blank(p.name) then ""
    else
      var t := MemberTemplate(p);
      var head := p.name + OptionalMark(p) + ":";
      assert head[|head| - 1] == ':';
      FillNotBlank(t, 1, f);
      MemberStrip(p, f);
      Fill(t, f)
  }

  lemma MemberStrip(p: Property, f: Format)
    ensures Strip(Fill(MemberTemplate(p), f)) == Strip(Declared(p) + ";")
  {
    var head := p.name + OptionalMark(p) + ":";
    var a: seq<Piece> := [Lit(head), SP, Lit(p.typeName + ";")];
    assert MemberTemplate(p) == [TB] + a;
    IndentStrip(a, f);
    SpacedStrip(head, p.typeName + ";", f);
    assert head + (p.typeName + ";") == Declared(p) + ";";
  }

  // ---------------------------------------------------------------------
  // Class-member form
  // ---------------------------------------------------------------------

  /** The declared field is the plain one unless accessors are generated for it. */
  predicate PlainField(p: Property) {
    (!p.read && !p.write) || !p.useGetterSetter
  }

  /** The name of the field the generated accessors read and write. */
  function BackingField(p: Property): string {
    "_" + p.name
  }

  function StaticToken(p: Property): string {
    if p.isStatic then " static " else " "
  }

  /** The declaration of the field: modifier, identifier, type and optional initialiser. */
  function FieldHead(p: Property): string {
    if PlainField(p) then p.modifier + StaticToken(p) + p.name + ":"
    else Private + StaticToken(p) + BackingField(p) + ":"
  }

  function FieldTemplate(p: Property): seq<Piece> {
    [TB, Lit(FieldHead(p)), SP, Lit(p.typeName)]
      + (if p.value.None? then [] else ValueTemplate(p.value.value))
      + [Lit(";")]
  }

  function FieldLine(p: Property, f: Format): string {
    Fill(FieldTemplate(p), f)
  }

  /**
   * Whitespace aside, the field declaration is its head, the type, `=value`
   * whenever a value is present (blank or not), and `;`.
   */
  lemma FieldLineContent(p: Property, f: Format)
    ensures Strip(FieldLine(p, f))
      == Strip(FieldHead(p) + p.typeName + (if p.value.None? then "" else "=" + p.value.value) + ";")
  {
    var a: seq<Piece> := [Lit(FieldHead(p)), SP, Lit(p.typeName)];
    var v := if p.value.None? then [] else ValueTemplate(p.value.value);
    var w := if p.value.None? then "" else "=" + p.value.value;
    var end: seq<Piece> := [Lit(";")];
    assert FieldTemplate(p) == [TB] + (a + v + end);
    IndentStrip(a + v + end, f);
    FillConcat3(a, v, end, f);
    Fill1(Lit(";"), f);
    SpacedStrip(FieldHead(p), p.typeName, f);
    assert Strip(Fill(v, f)) == Strip(w) by {
      if p.value.Some? { ValueStrip(p.value.value, f); }
    }
    StripConcat(Fill(a, f) + Fill(v, f), ";");
    StripConcat(Fill(a, f), Fill(v, f));
    StripConcat(FieldHead(p) + p.typeName + w, ";");
    StripConcat(FieldHead(p) + p.typeName, w);
  }

  /**
   * A blank default value: the argument form drops it, while the field
   * declaration keeps its `=`.
   */
  lemma BlankDefaultForms(p: Property, f: Format)
    requires !Blank(p.name) && p.value.Some? && Blank(p.value.value)
    ensures Strip(ArgText(p, f)) == Strip(Declared(p))
    ensures Strip(FieldLine(p, f)) == Strip(FieldHead(p) + p.typeName + "=;")
  {
    var v, x := p.value.value, FieldHead(p) + p.typeName;
    assert Declared(p) + "" == Declared(p);
    calc {
      Strip(FieldLine(p, f));
      { FieldLineContent(p, f); }
      Strip(x + ("=" + v) + ";");
      { StripConcat(x + ("=" + v), ";"); StripConcat(x, "=" + v); }
      Strip(x) + Strip("=" + v) + Strip(";");
      { StripConcat("=", v); StripBlank(v); assert Strip("=" + v) == Strip("="); }
      Strip(x) + Strip("=") + Strip(";");
      { assert "=;" == "=" + ";"; StripConcat("=", ";"); StripConcat(x, "=;"); }
      Strip(x + "=;");
    }
  }

  /** The default getter body returns the backing field. */
  function GetterBody(p: Property): string {
    if p.getterBody.None? then "return this." + BackingField(p) + ";" else p.getterBody.value
  }

  function GetterTemplate(p: Property): seq<Piece> {
    [TB, Lit(p.modifier + StaticToken(p) + "get " + p.name + "():"), SP, Lit(p.typeName), SP, Lit("{"), NL,
     TB, TB, Lit(GetterBody(p)), NL, TB, Lit("}")]
  }

  function GetterText(p: Property, f: Format): string {
    Fill(GetterTemplate(p), f)
  }

  /**
   * Tracking reads the dirty and timestamp field names from the options; the
   * source dereferences the options object without checking it, so it must
   * be present whenever the default tracked setter of a named property is
   * rendered with either kind of tracking on.
   */
  predicate Renderable(p: Property) {
    Blank(p.name) || !p.useGetterSetter || !p.write || p.setterBody.Some? || !p.track
      || MarkersReadable(p)
  }

  predicate MarkersReadable(p: Property) {
    (!p.trackState && !p.trackDate) || p.options.Some?
  }

  /** The dirty-marker field: `isDirty` from the options, default `_isDirty`; empty when state tracking is off. */
  function DirtyMarker(p: Property): string
    requires MarkersReadable(p)
  {
    if p.trackState then p.options.value.isDirty.GetOr("_isDirty") else ""
  }

  /** The timestamp field: `lastUpdated` from the options, default `_lastUpdated`; empty when date tracking is off. */
  function StampMarker(p: Property): string
    requires MarkersReadable(p)
  {
    if p.trackDate then p.options.value.lastUpdated.GetOr("_lastUpdated") else ""
  }

  /** The values the setter stores in the dirty marker and the timestamp field. */
  const DirtyValue := "true;"
  const StampValue := "(new Date()).getTime();"

  /** `this.<marker> = <v>` on a line of its own, or nothing when the marker name is empty. */
  function MarkerTemplate(marker: string, v: string): seq<Piece> {
    if |marker| > 0 then [SP, Lit("this." + marker), SP, Lit("="), SP, Lit(v), NL] else []
  }

  function DirtyUpdate(p: Property, f: Format): string
    requires MarkersReadable(p)
  {
    Fill(MarkerTemplate(DirtyMarker(p), DirtyValue), f)
  }

  function StampUpdate(p: Property, f: Format): string
    requires MarkersReadable(p)
  {
    Fill(MarkerTemplate(StampMarker(p), StampValue), f)
  }

  function SetterHeadTemplate(p: Property): seq<Piece> {
    [TB, Lit(p.modifier + StaticToken(p) + "set " + p.name + "(value:"), SP, Lit(p.typeName + ")"), SP, Lit("{"), NL]
  }

  /** The statement storing the new value in the backing field. */
  function AssignmentTemplate(p: Property): seq<Piece> {
    [TB, TB, Lit("this." + BackingField(p)), SP, Lit("="), SP, Lit("value;"), NL]
  }

  function SetterBodyTemplate(p: Property): seq<Piece>
    requires p.setterBody.None? && p.track ==> MarkersReadable(p)
  {
    if p.setterBody.None? then
      AssignmentTemplate(p)
        + (if p.track
           then MarkerTemplate(DirtyMarker(p), DirtyValue) + MarkerTemplate(StampMarker(p), StampValue)
           else [])
    else
      [TB, TB, Lit(p.setterBody.value), NL]
  }

  function SetterTemplate(p: Property): seq<Piece>
    requires p.setterBody.None? && p.track ==> MarkersReadable(p)
  {
    SetterHeadTemplate(p) + SetterBodyTemplate(p) + [TB, Lit("}")]
  }

  function SetterText(p: Property, f: Format): string
    requires p.setterBody.None? && p.track ==> MarkersReadable(p)
  {
    Fill(SetterTemplate(p), f)
  }

  /** The fragments of the class-member form, before joining. */
  function MemberParts(p: Property, f: Format): seq<string>
    requires Renderable(p) && !Blank(p.name)
  {
    (if p.declare then [FieldLine(p, f)] else [])
      + (if p.useGetterSetter && p.read then [GetterText(p, f)] else [])
      + (if p.useGetterSetter && p.write then [SetterText(p, f)] else [])
  }

  /** Each fragment of the class-member form ends in `;` or `}`, so none of them is blank. */
  lemma MemberPartsNotBlank(p: Property, f: Format)
    requires Renderable(p) && !Blank(p.name)
    ensures forall i :: 0 <= i < |MemberParts(p, f)| ==> NotBlank(MemberParts(p, f)[i])
  {
    FieldLineNotBlank(p, f);
    GetterTextNotBlank(p, f);
    if p.useGetterSetter && p.write {
      SetterTextNotBlank(p, f);
    }
  }

  lemma FieldLineNotBlank(p: Property, f: Format)
    ensures NotBlank(FieldLine(p, f))
  {
    var ft := FieldTemplate(p);
    assert ft[|ft| - 1].text[0] == ';';
    FillNotBlank(ft, |ft| - 1, f);
  }

  lemma GetterTextNotBlank(p: Property, f: Format)
    ensures NotBlank(GetterText(p, f))
  {
    assert GetterTemplate(p)[5].text[0] == '{';
    FillNotBlank(GetterTemplate(p), 5, f);
  }

  lemma SetterTextNotBlank(p: Property, f: Format)
    requires p.setterBody.None? && p.track ==> MarkersReadable(p)
    ensures NotBlank(SetterText(p, f))
  {
    assert SetterTemplate(p)[5].text[0] == '{';
    FillNotBlank(SetterTemplate(p), 5, f);
  }

  /**
   * `toString`: the class-member form. It is empty exactly when the name is
   * blank or nothing is generated: no field declaration and no accessor.
   */
  function PropertyText(p: Property, f: Format): (r: string)
    requires Renderable(p)
    ensures r == "" <==> Blank(p.name) || (!p.declare && !(p.useGetterSetter && (p.read || p.write)))
    ensures Blank(r) <==> r == ""
  {
    if Blank(p.name) then ""
    else
      var parts := MemberParts(p, f);
      MemberPartsNotBlank(p, f);
      assert p.declare ==> parts[0] == FieldLine(p, f);
      assert p.declare || (p.useGetterSetter && (p.read || p.write)) ==> NotBlank(parts[0]);
      FormatStringArray(parts, f)
  }

  /** A named property drops none of its member fragments: they are joined one after another. */
  lemma PropertyParts(p: Property, f: Format)
    requires Renderable(p) && !Blank(p.name)
    ensures PropertyText(p, f) == Join(MemberParts(p, f), Separator(f))
  {
    MemberPartsNotBlank(p, f);
    FormatStringArrayOfNonBlank(MemberParts(p, f), f);
  }

  /**
   * In getter/setter mode with at least one accessor, the declared field is
   * the private, underscore-prefixed backing field; otherwise the field keeps
   * its own modifier and name. The default getter returns the backing field.
   */
  lemma BackingFieldDeclared(p: Property, f: Format)
    ensures p.useGetterSetter && (p.read || p.write) ==>
      OccursAt(FieldLine(p, f), Private + StaticToken(p) + "_" + p.name + ":", |Tab(f)|)
    ensures !(p.useGetterSetter && (p.read || p.write)) ==>
      OccursAt(FieldLine(p, f), p.modifier + StaticToken(p) + p.name + ":", |Tab(f)|)
    ensures p.getterBody.None? ==> Contains(GetterText(p, f), "return this._" + p.name + ";")
  {
    FieldLineOpens(p, f);
    if p.getterBody.None? {
      DefaultGetterReturns(p, f);
    }
  }

  lemma FieldLineOpens(p: Property, f: Format)
    ensures OccursAt(FieldLine(p, f), FieldHead(p), |Tab(f)|)
  {
    var ft := FieldTemplate(p);
    FillOccurs(ft, 1, f);
    assert ft[..1] == [TB];
    assert Fill([TB], f) == Fill([], f) + Tab(f);
  }

  lemma DefaultGetterReturns(p: Property, f: Format)
    requires p.getterBody.None?
    ensures Contains(GetterText(p, f), "return this._" + p.name + ";")
  {
    var gt := GetterTemplate(p);
    FillOccurs(gt, 9, f);
    assert "return this." + BackingField(p) + ";" == "return this._" + p.name + ";";
  }

  /** A closing brace on its own, indented line. */
  lemma CloseBrace(f: Format)
    ensures Fill([TB, Lit("}")], f) == Tab(f) + "}"
  {
    var c: seq<Piece> := [TB, Lit("}")];
    assert c[..1] == [TB];
    assert Fill([TB], f) == Fill([], f) + Tab(f);
  }

  lemma SetterTemplates(p: Property)
    requires p.track && p.setterBody.None? && MarkersReadable(p)
    ensures var h := SetterHeadTemplate(p) + AssignmentTemplate(p);
      var d := MarkerTemplate(DirtyMarker(p), DirtyValue);
      var s := MarkerTemplate(StampMarker(p), StampValue);
      SetterTemplate(p.(track := false)) == h + [TB, Lit("}")]
      && SetterTemplate(p) == h + (d + s) + [TB, Lit("}")]
  {
    var q := p.(track := false);
    assert SetterHeadTemplate(q) == SetterHeadTemplate(p);
    assert AssignmentTemplate(q) == AssignmentTemplate(p);
  }

  /**
   * The default setter of a tracked property is the untracked one with the
   * dirty-marker update and then the timestamp update inserted right after
   * the backing-field assignment, before the closing brace.
   */
  lemma TrackedSetter(p: Property, f: Format)
    requires p.track && p.setterBody.None? && MarkersReadable(p)
    ensures |Tab(f)| + 1 <= |SetterText(p.(track := false), f)|
    ensures SetterText(p, f)
      == InsertBefore(SetterText(p.(track := false), f), |Tab(f)| + 1, DirtyUpdate(p, f) + StampUpdate(p, f))
  {
    var h := SetterHeadTemplate(p) + AssignmentTemplate(p);
    var d, s := MarkerTemplate(DirtyMarker(p), DirtyValue), MarkerTemplate(StampMarker(p), StampValue);
    SetterTexts(p, f);
    InsertBeforeClose(h, d, s, f);
  }

  lemma SetterTexts(p: Property, f: Format)
    requires p.track && p.setterBody.None? && MarkersReadable(p)
    ensures var h := SetterHeadTemplate(p) + AssignmentTemplate(p);
      var d := MarkerTemplate(DirtyMarker(p), DirtyValue);
      var s := MarkerTemplate(StampMarker(p), StampValue);
      SetterText(p.(track := false), f) == Fill(h + [TB, Lit("}")], f)
      && SetterText(p, f) == Fill(h + (d + s) + [TB, Lit("}")], f)
  {
    SetterTemplates(p);
  }

  /** Two templates inserted before a closing brace line land just before its indentation. */
  lemma InsertBeforeClose(h: seq<Piece>, d: seq<Piece>, s: seq<Piece>, f: Format)
    ensures |Tab(f)| + 1 <= |Fill(h + [TB, Lit("}")], f)|
    ensures Fill(h + (d + s) + [TB, Lit("}")], f)
      == InsertBefore(Fill(h + [TB, Lit("}")], f), |Tab(f)| + 1, Fill(d, f) + Fill(s, f))
  {
    CloseBrace(f);
    FillInsertTwo(h, d, s, [TB, Lit("}")], f);
  }

  /**
   * Each marker update of a tracked setter is present exactly when its kind
   * of tracking is on and its field name is non-empty, and then it assigns
   * that field; the names default to `_isDirty` and `_lastUpdated`.
   */
  lemma MarkerUpdates(p: Property, f: Format)
    requires MarkersReadable(p)
    ensures DirtyUpdate(p, f) != "" <==> p.trackState && |DirtyMarker(p)| > 0
    ensures StampUpdate(p, f) != "" <==> p.trackDate && |StampMarker(p)| > 0
    ensures p.trackState && p.options.value.isDirty.None? ==> DirtyMarker(p) == "_isDirty"
    ensures p.trackDate && p.options.value.lastUpdated.None? ==> StampMarker(p) == "_lastUpdated"
    ensures DirtyUpdate(p, f) != "" ==> Contains(DirtyUpdate(p, f), "this." + DirtyMarker(p))
    ensures StampUpdate(p, f) != "" ==> Contains(StampUpdate(p, f), "this." + StampMarker(p))
    ensures DirtyUpdate(p, f) != "" ==> Strip(DirtyUpdate(p, f)) == Strip("this." + DirtyMarker(p) + "=" + DirtyValue)
    ensures StampUpdate(p, f) != ""
      ==> Strip(StampUpdate(p, f)) == Strip("this." + StampMarker(p) + "=" + StampValue)
  {
    var d := MarkerTemplate(DirtyMarker(p), DirtyValue);
    var s := MarkerTemplate(StampMarker(p), StampValue);
    if |DirtyMarker(p)| > 0 {
      assert ("this." + DirtyMarker(p))[0] == 't';
      FillOccurs(d, 1, f);
      FillNotBlank(d, 1, f);
      MarkerStrip(DirtyMarker(p), DirtyValue, f);
    }
    if |StampMarker(p)| > 0 {
      assert ("this." + StampMarker(p))[0] == 't';
      FillOccurs(s, 1, f);
      FillNotBlank(s, 1, f);
      MarkerStrip(StampMarker(p), StampValue, f);
    }
  }

  /** Whitespace aside, a marker update is `this.<marker>=<v>`. */
  lemma MarkerStrip(marker: string, v: string, f: Format)
    requires |marker| > 0
    ensures Strip(Fill(MarkerTemplate(marker, v), f)) == Strip("this." + marker + "=" + v)
  {
    var s := [Lit("this." + marker)] + ValueTemplate(v) + [NL];
    assert MarkerTemplate(marker, v) == [SP] + s;
    SpaceStrip(s, f);
    StatementStrip("this." + marker, v, f);
  }

  /**
   * The default setter first stores the value in the backing field, right
   * after its opening line; when tracking, the marker updates follow that
   * assignment directly.
   */
  lemma DefaultSetterAssigns(p: Property, f: Format)
    requires p.setterBody.None? && (p.track ==> MarkersReadable(p))
    ensures OccursAt(SetterText(p, f), Fill(AssignmentTemplate(p), f), |Fill(SetterHeadTemplate(p), f)|)
    ensures Strip(Fill(AssignmentTemplate(p), f)) == Strip("this._" + p.name + "=value;")
    ensures p.track ==> OccursAt(SetterText(p, f), DirtyUpdate(p, f) + StampUpdate(p, f),
                                 |Fill(SetterHeadTemplate(p), f)| + |Fill(AssignmentTemplate(p), f)|)
  {
    var h, a := SetterHeadTemplate(p), AssignmentTemplate(p);
    var rest := SetterBodyTemplate(p)[|a|..] + [TB, Lit("}")];
    var hf, af, rf := Fill(h, f), Fill(a, f), Fill(rest, f);
    DefaultSetterLayout(p, f);
    OccursExtend(af, af, 0, hf, rf);
    AssignmentStrip(p, f);
    if p.track {
      MarkersFollowAssignment(p, f);
    }
  }

  lemma DefaultSetterLayout(p: Property, f: Format)
    requires p.setterBody.None? && (p.track ==> MarkersReadable(p))
    ensures |AssignmentTemplate(p)| <= |SetterBodyTemplate(p)|
    ensures SetterText(p, f)
      == Fill(SetterHeadTemplate(p), f) + Fill(AssignmentTemplate(p), f)
         + Fill(SetterBodyTemplate(p)[|AssignmentTemplate(p)|..] + [TB, Lit("}")], f)
  {
    var h, a := SetterHeadTemplate(p), AssignmentTemplate(p);
    var rest := SetterBodyTemplate(p)[|a|..] + [TB, Lit("}")];
    assert SetterTemplate(p) == h + a + rest;
    FillConcat3(h, a, rest, f);
  }

  lemma AssignmentStrip(p: Property, f: Format)
    ensures Strip(Fill(AssignmentTemplate(p), f)) == Strip("this._" + p.name + "=value;")
  {
    var s := [Lit("this." + BackingField(p))] + ValueTemplate("value;") + [NL];
    assert AssignmentTemplate(p) == [TB] + ([TB] + s);
    IndentStrip([TB] + s, f);
    IndentStrip(s, f);
    StatementStrip("this." + BackingField(p), "value;", f);
    assert "this." + BackingField(p) + "=" + "value;" == "this._" + p.name + "=value;" by {
      assert "this." + "_" == "this._" && "=" + "value;" == "=value;";
      Assoc("this.", "_", p.name);
      Assoc("this._" + p.name, "=", "value;");
    }
  }

  lemma MarkersFollowAssignment(p: Property, f: Format)
    requires p.track && p.setterBody.None? && MarkersReadable(p)
    ensures OccursAt(SetterText(p, f), DirtyUpdate(p, f) + StampUpdate(p, f),
                     |Fill(SetterHeadTemplate(p), f)| + |Fill(AssignmentTemplate(p), f)|)
  {
    var h, a := SetterHeadTemplate(p), AssignmentTemplate(p);
    var d := MarkerTemplate(DirtyMarker(p), DirtyValue);
    var s := MarkerTemplate(StampMarker(p), StampValue);
    var ha, ds, c := Fill(h, f) + Fill(a, f), DirtyUpdate(p, f) + StampUpdate(p, f), Fill([TB, Lit("}")], f);
    TrackedSetterLayout(p, f);
    OccursExtend(ds, ds, 0, ha, c);
  }

  lemma TrackedSetterLayout(p: Property, f: Format)
    requires p.track && p.setterBody.None? && MarkersReadable(p)
    ensures SetterText(p, f)
      == Fill(SetterHeadTemplate(p), f) + Fill(AssignmentTemplate(p), f) + (DirtyUpdate(p, f) + StampUpdate(p, f))
         + Fill([TB, Lit("}")], f)
  {
    var h := SetterHeadTemplate(p) + AssignmentTemplate(p);
    var d := MarkerTemplate(DirtyMarker(p), DirtyValue);
    var s := MarkerTemplate(StampMarker(p), StampValue);
    SetterTexts(p, f);
    FillConcat3(h, d + s, [TB, Lit("}")], f);
    FillConcat(SetterHeadTemplate(p), AssignmentTemplate(p), f);
    FillConcat(d, s, f);
  }

  // ---------------------------------------------------------------------
  // Pretty and compact output agree once whitespace is deleted
  // ---------------------------------------------------------------------

  lemma ArgTextModuloWhitespace(p: Property, f1: Format, f2: Format)
    ensures Strip(ArgText(p, f1)) == Strip(ArgText(p, f2))
  {
    FillModuloWhitespace(ArgTemplate(p), f1, f2);
  }

  lemma MemberTextModuloWhitespace(p: Property, f1: Format, f2: Format)
    ensures Strip(MemberText(p, f1)) == Strip(MemberText(p, f2))
  {
    FillModuloWhitespace(MemberTemplate(p), f1, f2);
  }

  /** The class-member form of a property differs between modes only in whitespace. */
  lemma PropertyTextModuloWhitespace(p: Property, f1: Format, f2: Format)
    requires Renderable(p)
    ensures Strip(PropertyText(p, f1)) == Strip(PropertyText(p, f2))
  {
    if !Blank(p.name) {
      var c1, c2, c3 := p.declare, p.useGetterSetter && p.read, p.useGetterSetter && p.write;
      var s1 := if c3 then SetterText(p, f1) else "";
      var s2 := if c3 then SetterText(p, f2) else "";
      var a1, b1, d1 := Optional(c1, FieldLine(p, f1)), Optional(c2, GetterText(p, f1)), Optional(c3, s1);
      var a2, b2, d2 := Optional(c1, FieldLine(p, f2)), Optional(c2, GetterText(p, f2)), Optional(c3, s2);
      assert MemberParts(p, f1) == a1 + b1 + d1 && MemberParts(p, f2) == a2 + b2 + d2;
      assert StripAll(a1) == StripAll(a2) by {
        FillModuloWhitespace(FieldTemplate(p), f1, f2);
        StripAllOptional(c1, FieldLine(p, f1), FieldLine(p, f2));
      }
      assert StripAll(b1) == StripAll(b2) by {
        FillModuloWhitespace(GetterTemplate(p), f1, f2);
        StripAllOptional(c2, GetterText(p, f1), GetterText(p, f2));
      }
      assert StripAll(d1) == StripAll(d2) by {
        if c3 {
          FillModuloWhitespace(SetterTemplate(p), f1, f2);
        }
        StripAllOptional(c3, s1, s2);
      }
      StripAllCongruence(a1, b1, a2, b2);
      StripAllCongruence(a1 + b1, d1, a2 + b2, d2);
    }
  }
}
