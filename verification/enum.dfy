/**
 * Enum and EnumItem: `export enum Name { A = 1, B }`. Item values are
 * aligned with the item names when the enum is built, padded with empty
 * values or cut short.
 */
module Enums {
  import opened Wrappers
  import opened Text
  import opened Base

  datatype EnumItem = EnumItem(name: string, value: string)

  datatype Enum = Enum(name: string, items: seq<EnumItem>)

  /** The value list aligned with `names`: the given value at each position, or `""` where there is none. */
  function AlignValues(names: seq<string>, values: Option<seq<string>>): (r: seq<string>)
    ensures |r| == |names|
    ensures values.None? ==> forall i :: 0 <= i < |r| ==> r[i] == ""
    ensures values.Some? ==> forall i :: 0 <= i < |r| ==>
      r[i] == (if i < |values.value| then values.value[i] else "")
  {
    seq(|names|, i requires 0 <= i < |names| =>
      if values.Some? && i < |values.value| then values.value[i] else "")
  }

  /**
   * The constructor: one item per name, in order, with the aligned value.
   * `values` is `None` when the caller gives no value array.
   */
  function NewEnum(name: string, names: seq<string>, values: Option<seq<string>>): (r: Enum)
    ensures r.name == name
    ensures |r.items| == |names|
    ensures forall i :: 0 <= i < |names| ==> r.items[i].name == names[i]
    ensures forall i :: 0 <= i < |names| ==> r.items[i].value == AlignValues(names, values)[i]
  {
    var vs := AlignValues(names, values);
    Enum(name, seq(|names|, i requires 0 <= i < |names| => EnumItem(names[i], vs[i])))
  }

  /** `addItem`: appends one item; a missing value becomes `""`. */
  function AddItem(e: Enum, name: string, value: Option<string>): (r: Enum)
    ensures r.name == e.name
    ensures |r.items| == |e.items| + 1 && r.items[..|e.items|] == e.items
    ensures r.items[|e.items|] == EnumItem(name, value.GetOr(""))
  {
    var r := e.(items := e.items + [EnumItem(name, value.GetOr(""))]);
    assert r.items[..|e.items|] == e.items;
    r
  }

  /** Adding the names one by one, with no values. */
  function AddAll(e: Enum, names: seq<string>): Enum {
    if |names| == 0 then e else AddItem(AddAll(e, names[..|names| - 1]), names[|names| - 1], None)
  }

  /** Values beyond the last name are ignored. */
  lemma ExtraValuesIgnored(name: string, names: seq<string>, values: seq<string>)
    requires |values| >= |names|
    ensures NewEnum(name, names, Some(values)) == NewEnum(name, names, Some(values[..|names|]))
  {
  }

  /** Missing values and an empty value array give the same enum: every value is `""`. */
  lemma MissingValuesEmpty(name: string, names: seq<string>)
    ensures NewEnum(name, names, None) == NewEnum(name, names, Some([]))
    ensures forall i :: 0 <= i < |names| ==> NewEnum(name, names, None).items[i].value == ""
  {
  }

  /** Building with the constructor and appending with `addItem` agree. */
  lemma AddItemExtends(name: string, names: seq<string>, values: seq<string>, n: string, v: string)
    requires |values| == |names|
    ensures AddItem(NewEnum(name, names, Some(values)), n, Some(v)) == NewEnum(name, names + [n], Some(values + [v]))
  {
    var l := AddItem(NewEnum(name, names, Some(values)), n, Some(v));
    var r := NewEnum(name, names + [n], Some(values + [v]));
    assert l.items == r.items;
  }

  /** Adding the names one at a time with no values gives the enum the constructor builds without values. */
  lemma {:induction false} AddAllNoValues(name: string, names: seq<string>)
    ensures AddAll(NewEnum(name, [], None), names) == NewEnum(name, names, None)
  {
    if |names| > 0 {
      var init := names[..|names| - 1];
      AddAllNoValues(name, init);
      var l := AddAll(NewEnum(name, [], None), names);
      var r := NewEnum(name, names, None);
      assert l == AddItem(NewEnum(name, init, None), names[|names| - 1], None);
      assert l.items == r.items;
    }
  }

  function ItemTemplate(item: EnumItem): seq<Piece> {
    [Lit(item.name)] + (if Blank(item.value) then [] else ValueTemplate(item.value))
  }

  /** `EnumItem.toString`: the name, then ` = value` unless the value is blank. The name is not checked. */
  function EnumItemText(item: EnumItem, f: Format): (r: string)
    ensures Blank(item.value) <==> r == item.name
    ensures OccursAt(r, item.name, 0)
  {
    ItemTextFacts(item, f);
    Fill(ItemTemplate(item), f)
  }

  lemma ItemTextFacts(item: EnumItem, f: Format)
    ensures Blank(item.value) <==> Fill(ItemTemplate(item), f) == item.name
    ensures OccursAt(Fill(ItemTemplate(item), f), item.name, 0)
  {
    var t := ItemTemplate(item);
    FillOccurs(t, 0, f);
    assert t[..0] == [];
    if Blank(item.value) {
      Fill1(Lit(item.name), f);
      assert t == [Lit(item.name)];
    } else {
      var v := ValueTemplate(item.value);
      FillConcat([Lit(item.name)], v, f);
      Fill1(Lit(item.name), f);
      FillNotBlank(v, 3, f);
    }
  }

  function Header(e: Enum): seq<Piece> {
    [Lit("export enum " + e.name), SP, Lit("{")]
  }

  /** The items, each indented in pretty mode. */
  function ItemLines(e: Enum, f: Format): (r: seq<string>)
    ensures |r| == |e.items|
    ensures forall i :: 0 <= i < |r| ==> r[i] == Tab(f) + EnumItemText(e.items[i], f)
  {
    seq(|e.items|, i requires 0 <= i < |e.items| => Tab(f) + EnumItemText(e.items[i], f))
  }

  /** The item lines joined by `,` and the newline token. */
  function ItemList(e: Enum, f: Format): string {
    Join(ItemLines(e, f), "," + Newline(f))
  }

  /** `Enum.toString`: empty exactly when the name is blank. */
  function EnumText(e: Enum, f: Format): (r: string)
    ensures r == "" <==> Blank(e.name)
  {
    if Blank(e.name) then ""
    else
      assert Header(e)[0].text[0] == 'e';
      FillNotBlank(Header(e), 0, f);
      FormatStringArray([Fill(Header(e), f), ItemList(e, f), "}"], f)
  }

  /**
   * An enum is its header `export enum Name {`, then the item list unless it
   * is blank, then `}`, separated by the mode's separator.
   */
  lemma EnumShape(e: Enum, f: Format)
    requires !Blank(e.name)
    ensures var items := ItemList(e, f);
      EnumText(e, f)
        == Fill(Header(e), f) + (if Blank(items) then "" else Separator(f) + items) + Separator(f) + "}"
  {
    assert Header(e)[0].text[0] == 'e';
    FillNotBlank(Header(e), 0, f);
    assert "}"[0] == '}';
    FormatStringArrayMiddle(Fill(Header(e), f), ItemList(e, f), "}", f);
  }

  lemma EnumItemTextModuloWhitespace(item: EnumItem, f1: Format, f2: Format)
    ensures Strip(EnumItemText(item, f1)) == Strip(EnumItemText(item, f2))
  {
    FillModuloWhitespace([Lit(item.name)] + (if Blank(item.value) then [] else ValueTemplate(item.value)), f1, f2);
  }

  lemma ItemListModuloWhitespace(e: Enum, f1: Format, f2: Format)
    ensures Strip(ItemList(e, f1)) == Strip(ItemList(e, f2))
  {
    var l1, l2 := ItemLines(e, f1), ItemLines(e, f2);
    TokensReset(f1);
    TokensReset(f2);
    forall i | 0 <= i < |l1| ensures Strip(l1[i]) == Strip(l2[i]) {
      EnumItemTextModuloWhitespace(e.items[i], f1, f2);
      StripConcat(Tab(f1), EnumItemText(e.items[i], f1));
      StripConcat(Tab(f2), EnumItemText(e.items[i], f2));
    }
    SeparatorStrip(",", Newline(f1));
    SeparatorStrip(",", Newline(f2));
    JoinModuloWhitespace(l1, l2, "," + Newline(f1), "," + Newline(f2));
  }

  lemma EnumTextModuloWhitespace(e: Enum, f1: Format, f2: Format)
    ensures Strip(EnumText(e, f1)) == Strip(EnumText(e, f2))
  {
    if !Blank(e.name) {
      ItemListModuloWhitespace(e, f1, f2);
      FillModuloWhitespace(Header(e), f1, f2);
      StripAllPointwise([Fill(Header(e), f1), ItemList(e, f1), "}"], [Fill(Header(e), f2), ItemList(e, f2), "}"]);
    }
  }
}
