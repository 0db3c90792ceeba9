/**
 * The formatting primitive every descriptor shares: the three whitespace
 * tokens chosen by the rendering mode, the list joiner that drops blank
 * fragments, and the import preamble that groups imported symbols by path.
 */
module Base {
  import opened Wrappers
  import opened Text

  /**
   * The rendering mode. `tabSize` is the indent width the generator
   * configures; it only shows in pretty output.
   */
  datatype Format = Format(prettify: bool, tabSize: nat)

  /** The generator's configuration object; each field may be absent. */
  datatype Options = Options(
    prettify: Option<bool>,
    tabSize: Option<nat>,
    className: Option<string>,
    isDirty: Option<string>,
    lastUpdated: Option<string>)

  const Public := "public"
  const Protected := "protected"
  const Private := "private"

  function Newline(f: Format): string {
    if f.prettify then "\n" else ""
  }

  function Space(f: Format): string {
    if f.prettify then " " else ""
  }

  function Tab(f: Format): string {
    if f.prettify then Spaces(f.tabSize) else ""
  }

  /** The separator the list joiner uses: the newline token when pretty, else the space token. */
  function Separator(f: Format): string {
    if f.prettify then Newline(f) else Space(f)
  }

  // ---------------------------------------------------------------------
  // Templates
  // ---------------------------------------------------------------------

  /**
   * One slot of a template literal: literal text, one of the three tokens,
   * or a list of items joined by a comma and the space token (the source's
   * `join(`,${space}`)`).
   */
  datatype Piece = Lit(text: string) | NL | SP | TB | Commas(items: seq<string>)

  function PieceText(p: Piece, f: Format): string {
    match p
    case Lit(s) => s
    case NL => Newline(f)
    case SP => Space(f)
    case TB => Tab(f)
    case Commas(items) => Join(items, "," + Space(f))
  }

  /** A template with its token slots filled in for one rendering mode. */
  function Fill(t: seq<Piece>, f: Format): string {
    if |t| == 0 then "" else Fill(t[..|t| - 1], f) + PieceText(t[|t| - 1], f)
  }

  /** The non-whitespace characters of a filled template, the same in every mode. */
  function Skeleton(t: seq<Piece>): string {
    if |t| == 0 then ""
    else
      var last := t[|t| - 1];
      Skeleton(t[..|t| - 1])
        + (match last
           case Lit(s) => Strip(s)
           case Commas(items) => Strip(Join(items, ","))
           case _ => "")
  }

  /** The list separator `,` followed by the space token. */
  lemma CommaModuloWhitespace(f: Format)
    ensures Strip("," + Space(f)) == Strip(",")
  {
    TokensReset(f);
    StripConcat(",", Space(f));
  }

  lemma FillConcat3(a: seq<Piece>, b: seq<Piece>, c: seq<Piece>, f: Format)
    ensures Fill(a + b + c, f) == Fill(a, f) + Fill(b, f) + Fill(c, f)
  {
    FillConcat(a + b, c, f);
    FillConcat(a, b, f);
  }

  lemma {:induction false} FillConcat(a: seq<Piece>, b: seq<Piece>, f: Format)
    ensures Fill(a + b, f) == Fill(a, f) + Fill(b, f)
  {
    if |b| == 0 {
      assert a + b == a;
    } else {
      var init := b[..|b| - 1];
      FillConcat(a, init, f);
      assert (a + b)[..|a + b| - 1] == a + init;
      Assoc(Fill(a, f), Fill(init, f), PieceText(b[|b| - 1], f));
    }
  }

  /** Filling in the tokens adds only whitespace. */
  lemma {:induction false} FillStrip(t: seq<Piece>, f: Format)
    ensures Strip(Fill(t, f)) == Skeleton(t)
  {
    if |t| > 0 {
      var init := t[..|t| - 1];
      var last := t[|t| - 1];
      FillStrip(init, f);
      StripConcat(Fill(init, f), PieceText(last, f));
      TokensReset(f);
      if last.Commas? {
        CommaModuloWhitespace(f);
        JoinModuloWhitespace(last.items, last.items, "," + Space(f), ",");
      }
    }
  }

  /** A template filled in for any two modes differs only in whitespace. */
  lemma FillModuloWhitespace(t: seq<Piece>, f1: Format, f2: Format)
    ensures Strip(Fill(t, f1)) == Strip(Fill(t, f2))
  {
    FillStrip(t, f1);
    FillStrip(t, f2);
  }

  /** Inserting pieces into a template inserts their text at the matching point of the output. */
  lemma FillInsert(a: seq<Piece>, m: seq<Piece>, b: seq<Piece>, f: Format)
    ensures |Fill(b, f)| <= |Fill(a + b, f)|
    ensures Fill(a + m + b, f) == InsertBefore(Fill(a + b, f), |Fill(b, f)|, Fill(m, f))
  {
    FillConcat(a + m, b, f);
    FillConcat(a, m, f);
    FillConcat(a, b, f);
    var u := Fill(a + b, f);
    assert u[..|Fill(a, f)|] == Fill(a, f);
    assert u[|Fill(a, f)|..] == Fill(b, f);
  }

  /** Two templates inserted at one point land there in order. */
  lemma FillInsertTwo(a: seq<Piece>, m1: seq<Piece>, m2: seq<Piece>, b: seq<Piece>, f: Format)
    ensures |Fill(b, f)| <= |Fill(a + b, f)|
    ensures Fill(a + (m1 + m2) + b, f) == InsertBefore(Fill(a + b, f), |Fill(b, f)|, Fill(m1, f) + Fill(m2, f))
  {
    FillInsert(a, m1 + m2, b, f);
    FillConcat(m1, m2, f);
  }

  lemma FillSnoc(t: seq<Piece>, p: Piece, f: Format)
    ensures Fill(t + [p], f) == Fill(t, f) + PieceText(p, f)
  {
    assert (t + [p])[..|t|] == t;
  }

  lemma Fill1(p: Piece, f: Format)
    ensures Fill([p], f) == PieceText(p, f)
  {
    FillSnoc([], p, f);
    assert [] + [p] == [p];
  }

  lemma Fill2(p: Piece, q: Piece, f: Format)
    ensures Fill([p, q], f) == PieceText(p, f) + PieceText(q, f)
  {
    Fill1(p, f);
    FillSnoc([p], q, f);
    assert [p] + [q] == [p, q];
  }

  lemma Fill3(p: Piece, q: Piece, r: Piece, f: Format)
    ensures Fill([p, q, r], f) == PieceText(p, f) + PieceText(q, f) + PieceText(r, f)
  {
    Fill2(p, q, f);
    FillSnoc([p, q], r, f);
    assert [p, q] + [r] == [p, q, r];
  }

  /** A template ending in a literal ends with that literal's last character. */
  lemma FillEnds(t: seq<Piece>, f: Format)
    requires |t| > 0 && t[|t| - 1].Lit? && |t[|t| - 1].text| > 0
    ensures var r := Fill(t, f); |r| > 0 && r[|r| - 1] == t[|t| - 1].text[|t[|t| - 1].text| - 1]
  {
  }

  /** Every slot's text occurs in the filled template, after the text of the slots before it. */
  lemma FillOccurs(t: seq<Piece>, i: nat, f: Format)
    requires i < |t|
    ensures OccursAt(Fill(t, f), PieceText(t[i], f), |Fill(t[..i], f)|)
  {
    assert t == t[..i] + [t[i]] + t[i + 1..];
    FillConcat(t[..i] + [t[i]], t[i + 1..], f);
    FillConcat(t[..i], [t[i]], f);
    assert Fill([t[i]], f) == PieceText(t[i], f) by {
      assert [t[i]][..0] == [];
    }
  }

  /** A template with a non-blank literal slot fills in to non-blank text. */
  lemma FillNotBlank(t: seq<Piece>, i: nat, f: Format)
    requires i < |t| && t[i].Lit? && NotBlank(t[i].text)
    ensures NotBlank(Fill(t, f)) && Fill(t, f) != ""
  {
    FillOccurs(t, i, f);
    var s := Fill(t, f);
    var at := |Fill(t[..i], f)|;
    var w := t[i].text;
    var k :| 0 <= k < |w| && !IsWhitespace(w[k]);
    assert s[at + k] == s[at..at + |w|][k] == w[k];
  }

  /** The source's null-or-blank test on an optional string. */
  predicate NullOrBlank(s: Option<string>) {
    s.None? || Blank(s.value)
  }

  /** Every token is whitespace, so none of them can make a fragment non-blank or survive `Strip`; compact mode empties all three. */
  lemma TokensReset(f: Format)
    ensures !f.prettify ==> Newline(f) == "" && Space(f) == "" && Tab(f) == ""
    ensures f.prettify ==> |Newline(f)| == 1 && |Space(f)| == 1 && |Tab(f)| == f.tabSize
    ensures Blank(Newline(f)) && Blank(Space(f)) && Blank(Tab(f)) && Blank(Separator(f))
    ensures Strip(Newline(f)) == "" && Strip(Space(f)) == "" && Strip(Tab(f)) == ""
  {
    StripBlank(Newline(f));
    StripBlank(Space(f));
    StripBlank(Tab(f));
  }

  /**
   * The list joiner: blank fragments are dropped and the rest joined with the
   * mode's separator. The result is empty exactly when every fragment is
   * blank, and, whitespace aside, it is the fragments' text in order.
   */
  function FormatStringArray(a: seq<string>, f: Format): (r: string)
    ensures r == "" <==> forall i :: 0 <= i < |a| ==> Blank(a[i])
    ensures Blank(r) <==> r == ""
    ensures Strip(r) == StripAll(a)
  {
    var kept := Filter(a, NotBlank);
    TokensReset(f);
    JoinStrip(kept, Separator(f));
    StripAllFilterBlank(a);
    StripAllEmpty(a);
    StripBlank(Join(kept, Separator(f)));
    if |kept| > 0 then
      assert kept[|kept| - 1] in kept;
      JoinKeepsLast(kept, Separator(f));
      Join(kept, Separator(f))
    else
      assert forall i :: 0 <= i < |a| ==> Blank(a[i]) by {
        forall i | 0 <= i < |a| ensures Blank(a[i]) {
          assert a[i] !in kept;
        }
      }
      Join(kept, Separator(f))
  }

  /** A non-blank last fragment is kept, so the joined text ends with it. */
  lemma FormatStringArrayEndsWith(a: seq<string>, f: Format)
    requires |a| > 0 && NotBlank(a[|a| - 1])
    ensures var r, x := FormatStringArray(a, f), a[|a| - 1]; |x| <= |r| && r[|r| - |x|..] == x
  {
    var init, x := a[..|a| - 1], a[|a| - 1];
    assert a == init + [x];
    FilterSnoc(init, x, NotBlank);
    JoinEndsWith(Filter(a, NotBlank), Separator(f));
  }

  /** A blank fragment may be added anywhere without changing the joined text. */
  lemma FormatStringArrayIgnoresBlank(a: seq<string>, b: seq<string>, x: string, f: Format)
    requires Blank(x)
    ensures FormatStringArray(a + [x] + b, f) == FormatStringArray(a + b, f)
  {
    calc {
      Filter(a + [x] + b, NotBlank);
      { FilterConcat(a + [x], b, NotBlank); }
      Filter(a + [x], NotBlank) + Filter(b, NotBlank);
      { FilterSnoc(a, x, NotBlank); }
      Filter(a, NotBlank) + Filter(b, NotBlank);
      { FilterConcat(a, b, NotBlank); }
      Filter(a + b, NotBlank);
    }
  }

  /** Joining an already filtered list filters nothing more. */
  lemma FormatStringArrayOfNonBlank(a: seq<string>, f: Format)
    requires forall i :: 0 <= i < |a| ==> NotBlank(a[i])
    ensures FormatStringArray(a, f) == Join(a, Separator(f))
  {
    FilterAll(a, NotBlank);
  }

  /** A fragment that is written only under a condition. */
  /** Every entry that is not blank appears in the formatted array. */
  lemma FormatStringArrayKeeps(a: seq<string>, x: string, f: Format)
    requires x in a && NotBlank(x)
    ensures Contains(FormatStringArray(a, f), x)
  {
    var kept := Filter(a, NotBlank);
    KeptNonEmpty(a, f);
    assert x in kept;
    var k :| 0 <= k < |kept| && kept[k] == x;
    JoinContains(kept, k, Separator(f));
  }

  function Optional(c: bool, x: string): seq<string> {
    if c then [x] else []
  }

  lemma StripAllOptional(c: bool, x: string, y: string)
    requires c ==> Strip(x) == Strip(y)
    ensures StripAll(Optional(c, x)) == StripAll(Optional(c, y))
  {
    if c {
      StripAllSingleton(x, y);
    }
  }

  /** Leaving out fragments that would be empty anyway changes nothing. */
  lemma FormatStringArrayOptional(c1: bool, x: string, c2: bool, y: string, f: Format)
    requires !c1 ==> x == ""
    requires !c2 ==> y == ""
    ensures FormatStringArray(Optional(c1, x) + Optional(c2, y), f) == FormatStringArray([x, y], f)
  {
    if c1 && c2 {
      assert Optional(c1, x) + Optional(c2, y) == [x, y];
    } else if c1 {
      FormatStringArrayIgnoresBlank([x], [], y, f);
      assert [x] + [y] + [] == [x, y] && [x] + [] == Optional(c1, x) + Optional(c2, y);
    } else if c2 {
      FormatStringArrayIgnoresBlank([], [y], x, f);
      assert [] + [x] + [y] == [x, y] && [] + [y] == Optional(c1, x) + Optional(c2, y);
    } else {
      assert Optional(c1, x) + Optional(c2, y) == [];
      assert forall i :: 0 <= i < |[x, y]| ==> Blank([x, y][i]);
    }
  }

  /** A fragment between two non-blank ones joins in with its separator unless it is blank. */
  lemma FormatStringArrayMiddle(x: string, m: string, y: string, f: Format)
    requires NotBlank(x) && NotBlank(y)
    ensures FormatStringArray([x, m, y], f)
      == x + (if Blank(m) then "" else Separator(f) + m) + Separator(f) + y
  {
    assert [x, m, y] == [x] + [m] + [y];
    FormatStringArrayFrame(x, [m], y, f);
    if !Blank(m) {
      FormatStringArrayOfNonBlank([m], f);
      assert Join([m], Separator(f)) == m;
    }
  }

  /** Between the same two non-blank fragments, middles that join alike give the same result. */
  lemma FormatStringArrayFrameSame(x: string, a: seq<string>, b: seq<string>, y: string, f: Format)
    requires NotBlank(x) && NotBlank(y)
    requires FormatStringArray(a, f) == FormatStringArray(b, f)
    ensures FormatStringArray([x] + a + [y], f) == FormatStringArray([x] + b + [y], f)
  {
    FormatStringArrayFrame(x, a, y, f);
    FormatStringArrayFrame(x, b, y, f);
  }

  /** Three non-blank fragments are joined by two separators. */
  lemma FormatStringArrayThree(x: string, y: string, z: string, f: Format)
    requires NotBlank(x) && NotBlank(y) && NotBlank(z)
    ensures FormatStringArray([x, y, z], f) == x + (Separator(f) + y) + Separator(f) + z
  {
    assert [x, y, z] == [x] + [y] + [z];
    FormatStringArrayFrame(x, [y], z, f);
    FormatStringArrayOfNonBlank([y], f);
    assert Join([y], Separator(f)) == y;
  }

  /**
   * A non-blank opening and closing fragment around a list: the joined
   * middle, if any of it is non-blank, sits between them, one separator on
   * each side.
   */
  lemma FormatStringArrayFrame(x: string, a: seq<string>, y: string, f: Format)
    requires NotBlank(x) && NotBlank(y)
    ensures var m := FormatStringArray(a, f);
      FormatStringArray([x] + a + [y], f)
        == x + (if m == "" then "" else Separator(f) + m) + Separator(f) + y
  {
    var fa := Filter(a, NotBlank);
    FilterFrame(x, a, y);
    JoinFrame(x, fa, y, Separator(f));
    if |fa| == 0 {
      assert forall i :: 0 <= i < |a| ==> Blank(a[i]) by {
        forall i | 0 <= i < |a| ensures Blank(a[i]) {
          assert a[i] !in fa;
        }
      }
    } else {
      assert fa[0] in fa;
    }
  }

  lemma FilterFrame(x: string, a: seq<string>, y: string)
    requires NotBlank(x) && NotBlank(y)
    ensures Filter([x] + a + [y], NotBlank) == [x] + Filter(a, NotBlank) + [y]
  {
    FilterConcat([x] + a, [y], NotBlank);
    FilterConcat([x], a, NotBlank);
    FilterSnoc([], x, NotBlank);
    FilterSnoc([], y, NotBlank);
    assert [] + [x] == [x] && [] + [y] == [y];
  }

  lemma JoinFrame(x: string, m: seq<string>, y: string, sep: string)
    ensures Join([x] + m + [y], sep)
      == x + (if |m| == 0 then "" else sep + Join(m, sep)) + sep + y
  {
    assert [x] + m + [y] == [x] + (m + [y]);
    JoinCons(x, m + [y], sep);
    assert (m + [y])[..|m|] == m;
    if |m| == 0 {
      assert m + [y] == [y];
    } else {
      var j := Join(m, sep);
      assert Join(m + [y], sep) == j + sep + y;
      Assoc(x, sep + j, sep + y);
      Assoc(sep, j, sep + y);
      Assoc(j, sep, y);
    }
  }

  /** A non-blank fragment followed only by blank ones joins to itself. */
  lemma FormatStringArrayAlone(x: string, a: seq<string>, f: Format)
    requires NotBlank(x)
    requires forall i :: 0 <= i < |a| ==> Blank(a[i])
    ensures FormatStringArray([x] + a, f) == x
  {
    FilterConcat([x], a, NotBlank);
    FilterSnoc([], x, NotBlank);
    assert [] + [x] == [x];
    FilterNone(a, NotBlank);
    assert Filter([x] + a, NotBlank) == [x];
  }

  /** Joining joined lists is joining the concatenated list: nested calls of the joiner flatten. */
  lemma FormatStringArrayFlatten(a: seq<string>, b: seq<string>, f: Format)
    ensures FormatStringArray([FormatStringArray(a, f), FormatStringArray(b, f)], f) == FormatStringArray(a + b, f)
  {
    var sep := Separator(f);
    var fa, fb := Filter(a, NotBlank), Filter(b, NotBlank);
    var x, y := FormatStringArray(a, f), FormatStringArray(b, f);
    KeptNonEmpty(a, f);
    KeptNonEmpty(b, f);
    KeptNonEmpty(a + b, f);
    KeptNonEmpty([x, y], f);
    FilterConcat(a, b, NotBlank);
    FilterPair(x, y);
    if |fa| > 0 && |fb| > 0 {
      JoinTwo(x, y, sep);
      JoinConcat(fa, fb, sep);
    } else if |fa| > 0 {
      assert fa + fb == fa;
      assert Join([x], sep) == x;
    } else if |fb| > 0 {
      assert fa + fb == fb;
      assert Join([y], sep) == y;
    } else {
      assert fa + fb == [];
    }
  }

  lemma KeptNonEmpty(a: seq<string>, f: Format)
    ensures FormatStringArray(a, f) != "" <==> |Filter(a, NotBlank)| > 0
    ensures FormatStringArray(a, f) == Join(Filter(a, NotBlank), Separator(f))
  {
    var fa := Filter(a, NotBlank);
    if |fa| > 0 { assert fa[0] in fa; }
  }

  /** The joiner's filter on two fragments keeps the non-blank ones, in order. */
  lemma FilterPair(x: string, y: string)
    ensures Filter([x, y], NotBlank)
      == (if NotBlank(x) then [x] else []) + (if NotBlank(y) then [y] else [])
  {
    FilterConcat([x], [y], NotBlank);
    FilterSnoc([], x, NotBlank);
    FilterSnoc([], y, NotBlank);
    assert [] + [x] == [x] && [] + [y] == [y] && [x] + [y] == [x, y];
  }

  /** ` = value`: an initialiser or default value. */
  function ValueTemplate(v: string): seq<Piece> {
    [SP, Lit("="), SP, Lit(v)]
  }

  /** A literal, the space token and a literal: whitespace aside, the two literals run together. */
  lemma SpacedStrip(a: string, b: string, f: Format)
    ensures Strip(Fill([Lit(a), SP, Lit(b)], f)) == Strip(a + b)
  {
    Fill3(Lit(a), SP, Lit(b), f);
    TokensReset(f);
    StripConcat(a + Space(f), b);
    StripConcat(a, Space(f));
    StripConcat(a, b);
  }

  /** Whitespace aside, an initialiser is `=` followed by the value. */
  lemma ValueStrip(v: string, f: Format)
    ensures Strip(Fill(ValueTemplate(v), f)) == Strip("=" + v)
  {
    var rest: seq<Piece> := [Lit("="), SP, Lit(v)];
    assert ValueTemplate(v) == [SP] + rest;
    FillConcat([SP], rest, f);
    Fill1(SP, f);
    TokensReset(f);
    StripConcat(Space(f), Fill(rest, f));
    SpacedStrip("=", v, f);
  }

  /** Whitespace aside, an indented template is the template. */
  lemma IndentStrip(t: seq<Piece>, f: Format)
    ensures Strip(Fill([TB] + t, f)) == Strip(Fill(t, f))
  {
    FillConcat([TB], t, f);
    Fill1(TB, f);
    TokensReset(f);
    StripConcat(Tab(f), Fill(t, f));
  }

  /** Whitespace aside, a template after the space token is the template. */
  lemma SpaceStrip(t: seq<Piece>, f: Format)
    ensures Strip(Fill([SP] + t, f)) == Strip(Fill(t, f))
  {
    FillConcat([SP], t, f);
    Fill1(SP, f);
    TokensReset(f);
    StripConcat(Space(f), Fill(t, f));
  }

  /** Whitespace aside, the statement `lhs = v` on its own line is `lhs=v`. */
  lemma StatementStrip(lhs: string, v: string, f: Format)
    ensures Strip(Fill([Lit(lhs)] + ValueTemplate(v) + [NL], f)) == Strip(lhs + "=" + v)
  {
    var w := Fill(ValueTemplate(v), f);
    FillConcat3([Lit(lhs)], ValueTemplate(v), [NL], f);
    Fill1(Lit(lhs), f);
    Fill1(NL, f);
    TokensReset(f);
    ValueStrip(v, f);
    StripConcat(lhs + w, Newline(f));
    StripConcat(lhs, w);
    StripConcat(lhs, "=" + v);
    assert lhs + "=" + v == lhs + ("=" + v);
  }

  /** A doubly indented call: the indentation and `head` open it. */
  lemma CallOpens(head: string, mid: string, close: string, f: Format)
    ensures OccursAt(Fill([TB, TB, Lit(head)], f) + mid + Fill([Lit(close), NL], f), Tab(f) + Tab(f) + head, 0)
  {
    Fill3(TB, TB, Lit(head), f);
    OccursSplit(Tab(f) + Tab(f) + head, mid + Fill([Lit(close), NL], f));
  }

  /** Whitespace aside, a doubly indented call is its head, its middle and its close. */
  lemma CallStrip(head: string, mid: string, close: string, f: Format)
    ensures Strip(Fill([TB, TB, Lit(head)], f) + mid + Fill([Lit(close), NL], f)) == Strip(head) + Strip(mid) + Strip(close)
  {
    var open, end := Fill([TB, TB, Lit(head)], f), Fill([Lit(close), NL], f);
    calc {
      Strip(open + mid + end);
      { StripConcat(open + mid, end); StripConcat(open, mid); }
      Strip(open) + Strip(mid) + Strip(end);
      { assert [TB, TB, Lit(head)] == [TB] + ([TB] + [Lit(head)]);
        IndentStrip([TB] + [Lit(head)], f); IndentStrip([Lit(head)], f); Fill1(Lit(head), f); }
      Strip(head) + Strip(mid) + Strip(end);
      { Fill2(Lit(close), NL, f); TokensReset(f); StripConcat(close, Newline(f)); }
      Strip(head) + Strip(mid) + Strip(close);
    }
  }

  /** A comma-separated list between two templates: `pre(a, b, c)post`. */
  function ListIn(pre: seq<Piece>, items: seq<string>, post: seq<Piece>, f: Format): string {
    Fill(pre, f) + Join(items, "," + Space(f)) + Fill(post, f)
  }

  /** Whatever occurs in the opening of a list occurs at the same place in the whole. */
  lemma ListInOpens(pre: seq<Piece>, items: seq<string>, post: seq<Piece>, f: Format, key: string, i: int)
    requires OccursAt(Fill(pre, f), key, i)
    ensures OccursAt(ListIn(pre, items, post, f), key, i)
  {
    var rest := Join(items, "," + Space(f)) + Fill(post, f);
    assert ListIn(pre, items, post, f) == "" + Fill(pre, f) + rest;
    OccursExtend(Fill(pre, f), key, i, "", rest);
  }

  /**
   * Whitespace aside, a list between two templates is the opening, the
   * items joined by bare commas, and the close; `bare` gives each item's
   * text without whitespace.
   */
  lemma ListInStrip(pre: seq<Piece>, items: seq<string>, bare: seq<string>, post: seq<Piece>, f: Format)
    requires |items| == |bare|
    requires forall i :: 0 <= i < |items| ==> Strip(items[i]) == Strip(bare[i])
    ensures Strip(ListIn(pre, items, post, f)) == Strip(Fill(pre, f)) + Strip(Join(bare, ",")) + Strip(Fill(post, f))
  {
    CommaModuloWhitespace(f);
    JoinModuloWhitespace(items, bare, "," + Space(f), ",");
    StripConcat(Fill(pre, f) + Join(items, "," + Space(f)), Fill(post, f));
    StripConcat(Fill(pre, f), Join(items, "," + Space(f)));
  }

  /** The same for an indented literal opening and a close whose text without whitespace is known. */
  lemma IndentedListStrip(head: string, items: seq<string>, bare: seq<string>, post: seq<Piece>, close: string, f: Format)
    requires |items| == |bare|
    requires forall i :: 0 <= i < |items| ==> Strip(items[i]) == Strip(bare[i])
    requires Strip(Fill(post, f)) == Strip(close)
    ensures Strip(ListIn([TB, Lit(head)], items, post, f)) == Strip(head + Join(bare, ",") + close)
  {
    var j := Join(bare, ",");
    ListInStrip([TB, Lit(head)], items, bare, post, f);
    assert [TB, Lit(head)] == [TB] + [Lit(head)];
    IndentStrip([Lit(head)], f);
    Fill1(Lit(head), f);
    StripConcat(head + j, close);
    StripConcat(head, j);
  }

  lemma ListInModuloWhitespace(pre: seq<Piece>, xs: seq<string>, ys: seq<string>, post: seq<Piece>, f1: Format, f2: Format)
    requires |xs| == |ys|
    requires forall i :: 0 <= i < |xs| ==> Strip(xs[i]) == Strip(ys[i])
    ensures Strip(ListIn(pre, xs, post, f1)) == Strip(ListIn(pre, ys, post, f2))
  {
    CommaModuloWhitespace(f1);
    CommaModuloWhitespace(f2);
    JoinModuloWhitespace(xs, ys, "," + Space(f1), "," + Space(f2));
    FillModuloWhitespace(pre, f1, f2);
    FillModuloWhitespace(post, f1, f2);
    StripConcat(Fill(pre, f1) + Join(xs, "," + Space(f1)), Fill(post, f1));
    StripConcat(Fill(pre, f1), Join(xs, "," + Space(f1)));
    StripConcat(Fill(pre, f2) + Join(ys, "," + Space(f2)), Fill(post, f2));
    StripConcat(Fill(pre, f2), Join(ys, "," + Space(f2)));
  }

  // ---------------------------------------------------------------------
  // Imports
  // ---------------------------------------------------------------------

  /** One imported symbol and the module path it comes from. */
  datatype Import = Import(name: string, path: string)

  /** One entry of the insertion-ordered map from path to symbols. */
  datatype ImportGroup = ImportGroup(path: string, names: seq<string>)

  predicate Distinct(xs: seq<string>) {
    forall j, k :: 0 <= j < k < |xs| ==> xs[j] != xs[k]
  }

  function ImportPaths(im: seq<Import>): (r: seq<string>)
    ensures |r| == |im|
    ensures forall k :: 0 <= k < |im| ==> r[k] == im[k].path
  {
    seq(|im|, k requires 0 <= k < |im| => im[k].path)
  }

  function GroupPaths(gs: seq<ImportGroup>): (r: seq<string>)
    ensures |r| == |gs|
    ensures forall k :: 0 <= k < |gs| ==> r[k] == gs[k].path
  {
    seq(|gs|, k requires 0 <= k < |gs| => gs[k].path)
  }

  /** The first occurrence of every element, in the order they first occur. */
  function Dedup(xs: seq<string>): (r: seq<string>)
    ensures forall x :: x in r <==> x in xs
    ensures Distinct(r)
  {
    if |xs| == 0 then []
    else
      var init := xs[..|xs| - 1];
      assert xs == init + [xs[|xs| - 1]];
      var d := Dedup(init);
      if xs[|xs| - 1] in d then d else d + [xs[|xs| - 1]]
  }

  /** The symbols imported from path `p`, in import order, duplicates kept. */
  function NamesAt(im: seq<Import>, p: string): seq<string> {
    if |im| == 0 then []
    else
      NamesAt(im[..|im| - 1], p) + (if im[|im| - 1].path == p then [im[|im| - 1].name] else [])
  }

  lemma {:induction false} NamesAtAbsent(im: seq<Import>, p: string)
    requires p !in ImportPaths(im)
    ensures NamesAt(im, p) == []
  {
    if |im| > 0 {
      var init := im[..|im| - 1];
      assert ImportPaths(im)[|im| - 1] == im[|im| - 1].path;
      NamesAtAbsent(init, p);
    }
  }

  /** `Map.set` of one import: append to the group of its path, or open a new group at the end. */
  function AddImport(gs: seq<ImportGroup>, i: Import): seq<ImportGroup> {
    if i.path in GroupPaths(gs) then
      seq(|gs|, k requires 0 <= k < |gs| =>
        if gs[k].path == i.path then gs[k].(names := gs[k].names + [i.name]) else gs[k])
    else
      gs + [ImportGroup(i.path, [i.name])]
  }

  /**
   * The grouping of `getImportString`: one group per distinct path, in
   * first-seen order, each listing every symbol imported from that path in
   * import order.
   */
  function GroupImports(im: seq<Import>): (r: seq<ImportGroup>)
    ensures GroupPaths(r) == Dedup(ImportPaths(im))
    ensures forall k :: 0 <= k < |r| ==> r[k].names == NamesAt(im, r[k].path)
  {
    if |im| == 0 then []
    else
      var init := im[..|im| - 1];
      var gs := GroupImports(init);
      GroupStep(init, gs, im[|im| - 1]);
      assert init + [im[|im| - 1]] == im;
      AddImport(gs, im[|im| - 1])
  }

  /** Adding one import to a correct grouping gives a correct grouping of the longer list. */
  lemma GroupStep(init: seq<Import>, gs: seq<ImportGroup>, i: Import)
    requires GroupPaths(gs) == Dedup(ImportPaths(init))
    requires forall k :: 0 <= k < |gs| ==> gs[k].names == NamesAt(init, gs[k].path)
    ensures var r, im := AddImport(gs, i), init + [i];
      GroupPaths(r) == Dedup(ImportPaths(im))
      && forall k :: 0 <= k < |r| ==> r[k].names == NamesAt(im, r[k].path)
  {
    var r, im := AddImport(gs, i), init + [i];
    assert ImportPaths(im) == ImportPaths(init) + [i.path];
    assert ImportPaths(im)[..|im| - 1] == ImportPaths(init);
    assert im[..|im| - 1] == init;
    assert GroupPaths(r) == Dedup(ImportPaths(im)) by {
      if i.path in GroupPaths(gs) {
        assert GroupPaths(r) == GroupPaths(gs);
      } else {
        assert GroupPaths(r) == GroupPaths(gs) + [i.path];
      }
    }
    forall k | 0 <= k < |r| ensures r[k].names == NamesAt(im, r[k].path) {
      if k == |gs| {
        assert i.path !in Dedup(ImportPaths(init));
        NamesAtAbsent(init, i.path);
      }
    }
  }

  /** `import { a, b } from 'path';` for one group. */
  function ImportTemplate(g: ImportGroup): seq<Piece> {
    [Lit("import"), SP, Lit("{"), SP, Commas(g.names), SP, Lit("}"), SP, Lit("from"), SP, Lit("'" + g.path + "';")]
  }

  function ImportLine(g: ImportGroup, f: Format): string {
    Fill(ImportTemplate(g), f)
  }

  function ImportLines(gs: seq<ImportGroup>, f: Format): (r: seq<string>)
    ensures |r| == |gs|
    ensures forall k :: 0 <= k < |gs| ==> r[k] == ImportLine(gs[k], f)
  {
    seq(|gs|, k requires 0 <= k < |gs| => ImportLine(gs[k], f))
  }

  /** The import preamble: the grouped statements joined by the list joiner. */
  function ImportString(im: seq<Import>, f: Format): string {
    FormatStringArray(ImportLines(GroupImports(im), f), f)
  }

  /**
   * The preamble holds exactly one statement per distinct path, in
   * first-seen order, each naming every symbol imported from that path in
   * import order (duplicates kept), and nothing is filtered out.
   */
  lemma ImportStringSpec(im: seq<Import>, f: Format)
    ensures var paths := Dedup(ImportPaths(im));
      ImportString(im, f) == Join(seq(|paths|, k requires 0 <= k < |paths| =>
        ImportLine(ImportGroup(paths[k], NamesAt(im, paths[k])), f)), Separator(f))
  {
    var gs := GroupImports(im);
    var lines := ImportLines(gs, f);
    var paths := Dedup(ImportPaths(im));
    forall k | 0 <= k < |lines| ensures NotBlank(lines[k]) {
      ImportLineNotBlank(gs[k], f);
    }
    FormatStringArrayOfNonBlank(lines, f);
    var want := seq(|paths|, k requires 0 <= k < |paths| =>
      ImportLine(ImportGroup(paths[k], NamesAt(im, paths[k])), f));
    assert |want| == |lines|;
    forall k | 0 <= k < |paths| ensures lines[k] == want[k] {
      assert gs[k].path == GroupPaths(gs)[k] == paths[k];
      assert gs[k] == ImportGroup(paths[k], NamesAt(im, paths[k]));
    }
    assert lines == want;
  }

  lemma ImportLineNotBlank(g: ImportGroup, f: Format)
    ensures NotBlank(ImportLine(g, f))
  {
    var t := ImportTemplate(g);
    assert t[0].text[0] == 'i';
    FillNotBlank(t, 0, f);
  }

  /** The import preamble differs between modes only in whitespace. */
  lemma ImportStringModuloWhitespace(im: seq<Import>, f1: Format, f2: Format)
    ensures Strip(ImportString(im, f1)) == Strip(ImportString(im, f2))
  {
    var gs := GroupImports(im);
    var lines1, lines2 := ImportLines(gs, f1), ImportLines(gs, f2);
    forall k | 0 <= k < |gs| ensures Strip(lines1[k]) == Strip(lines2[k]) {
      FillModuloWhitespace(ImportTemplate(gs[k]), f1, f2);
    }
    StripAllPointwise(lines1, lines2);
  }
}
