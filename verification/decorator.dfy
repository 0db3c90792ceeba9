/**
 * Decorator: `@Type({ name: value, ... })` placed above a class, one option
 * per line in pretty mode.
 */
module Decorators {
  import opened Text
  import opened Base

  datatype DecoratorOption = DecoratorOption(name: string, value: string)

  datatype Decorator = Decorator(typeName: string, options: seq<DecoratorOption>)

  /** `addOption`: options keep their insertion order. */
  function AddOption(d: Decorator, name: string, value: string): (r: Decorator)
    ensures r.typeName == d.typeName
    ensures |r.options| == |d.options| + 1 && r.options[..|d.options|] == d.options
    ensures r.options[|d.options|] == DecoratorOption(name, value)
  {
    var r := d.(options := d.options + [DecoratorOption(name, value)]);
    assert r.options[..|d.options|] == d.options;
    r
  }

  /** One indented `name: value`, followed by `,` and a space unless it is the last option. */
  function OptionTemplate(o: DecoratorOption, last: bool): seq<Piece> {
    [TB, Lit(o.name + ":"), SP, Lit(o.value)] + (if last then [] else [Lit(","), SP])
  }

  function OptionLines(d: Decorator, f: Format): (r: seq<string>)
    ensures |r| == |d.options|
    ensures forall i :: 0 <= i < |r| ==> r[i] == Fill(OptionTemplate(d.options[i], i == |d.options| - 1), f)
  {
    seq(|d.options|, i requires 0 <= i < |d.options| => Fill(OptionTemplate(d.options[i], i == |d.options| - 1), f))
  }

  function Opening(d: Decorator): string {
    "@" + d.typeName + "({"
  }

  /** The closing `})`; compact mode writes a trailing space after it. */
  function Trailer(f: Format): string {
    if f.prettify then "})" else "}) "
  }

  lemma OpeningAndTrailerNotBlank(d: Decorator, f: Format)
    ensures NotBlank(Opening(d)) && NotBlank(Trailer(f))
  {
    assert Opening(d)[0] == '@';
    assert Trailer(f)[0] == '}';
  }

  /** `toString`: empty exactly when the type is blank. */
  function DecoratorText(d: Decorator, f: Format): (r: string)
    ensures r == "" <==> Blank(d.typeName)
  {
    if Blank(d.typeName) then ""
    else
      OpeningAndTrailerNotBlank(d, f);
      assert [Opening(d), Join(OptionLines(d, f), Newline(f)), Trailer(f)][0] == Opening(d);
      FormatStringArray([Opening(d), Join(OptionLines(d, f), Newline(f)), Trailer(f)], f)
  }

  lemma OptionLinesNotBlank(d: Decorator, f: Format)
    ensures forall i :: 0 <= i < |d.options| ==> NotBlank(OptionLines(d, f)[i])
  {
    forall i | 0 <= i < |d.options| ensures NotBlank(OptionLines(d, f)[i]) {
      var o := d.options[i];
      var t := OptionTemplate(o, i == |d.options| - 1);
      assert (o.name + ":")[|o.name|] == ':';
      FillNotBlank(t, 1, f);
    }
  }

  /**
   * A decorator is its opening `@Type({`, then the option lines (when there
   * are any), then the trailer, separated by the mode's separator.
   */
  lemma DecoratorShape(d: Decorator, f: Format)
    requires !Blank(d.typeName)
    ensures var opts := Join(OptionLines(d, f), Newline(f));
      DecoratorText(d, f)
        == Opening(d) + (if |d.options| == 0 then "" else Separator(f) + opts) + Separator(f) + Trailer(f)
  {
    var opts := Join(OptionLines(d, f), Newline(f));
    OpeningAndTrailerNotBlank(d, f);
    OptionsBlank(d, f);
    FormatStringArrayMiddle(Opening(d), opts, Trailer(f), f);
  }

  /** The joined option lines are blank exactly when there are no options. */
  lemma OptionsBlank(d: Decorator, f: Format)
    ensures Blank(Join(OptionLines(d, f), Newline(f))) <==> |d.options| == 0
  {
    var lines := OptionLines(d, f);
    if |d.options| > 0 {
      OptionLinesNotBlank(d, f);
      JoinNotBlank(lines, Newline(f));
    }
  }

  /** Every option line but the last ends with a comma and the space token; the last has no comma. */
  lemma OptionCommas(d: Decorator, i: nat, f: Format)
    requires i < |d.options|
    ensures var line := OptionLines(d, f)[i];
      var o := d.options[i];
      var body := Fill([TB, Lit(o.name + ":"), SP, Lit(o.value)], f);
      line == body + (if i == |d.options| - 1 then "" else "," + Space(f))
  {
    var o := d.options[i];
    var b: seq<Piece> := [TB, Lit(o.name + ":"), SP, Lit(o.value)];
    if i == |d.options| - 1 {
      assert OptionTemplate(o, true) == b + [];
      assert b + [] == b;
    } else {
      FillConcat(b, [Lit(","), SP], f);
      Fill2(Lit(","), SP, f);
    }
  }

  lemma DecoratorTextModuloWhitespace(d: Decorator, f1: Format, f2: Format)
    ensures Strip(DecoratorText(d, f1)) == Strip(DecoratorText(d, f2))
  {
    if !Blank(d.typeName) {
      var l1, l2 := OptionLines(d, f1), OptionLines(d, f2);
      forall i | 0 <= i < |l1| ensures Strip(l1[i]) == Strip(l2[i]) {
        FillModuloWhitespace(OptionTemplate(d.options[i], i == |d.options| - 1), f1, f2);
      }
      TokensReset(f1);
      TokensReset(f2);
      StripBlank(Newline(f1));
      StripBlank(Newline(f2));
      JoinModuloWhitespace(l1, l2, Newline(f1), Newline(f2));
      assert Strip(Trailer(f1)) == Strip(Trailer(f2)) by {
        StripConcat("})", " ");
      }
      StripAllPointwise([Opening(d), Join(l1, Newline(f1)), Trailer(f1)],
                        [Opening(d), Join(l2, Newline(f2)), Trailer(f2)]);
    }
  }
}
