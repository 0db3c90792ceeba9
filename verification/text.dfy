/**
 * Strings as the renderer sees them: blankness (what `trim()` would empty),
 * joining with a separator, filtering, and `Strip`, which deletes every
 * whitespace character and is used to compare pretty and compact output.
 */
module Text {

  /** The characters `trim()` removes: the WhiteSpace and LineTerminator sets of ECMAScript. */
  predicate IsWhitespace(c: char) {
    || c == '\t' || c == '\n' || c == '\U{000B}' || c == '\U{000C}' || c == '\r' || c == ' '
    || c == '\U{00A0}' || c == '\U{1680}' || ('\U{2000}' <= c <= '\U{200A}')
    || c == '\U{2028}' || c == '\U{2029}' || c == '\U{202F}' || c == '\U{205F}'
    || c == '\U{3000}' || c == '\U{FEFF}'
  }

  /** True iff trimming `s` leaves nothing. */
  predicate Blank(s: string) {
    forall i :: 0 <= i < |s| ==> IsWhitespace(s[i])
  }

  predicate NotBlank(s: string) {
    !Blank(s)
  }

  /** `n` space characters: one indentation unit of width `n`. */
  function Spaces(n: nat): (r: string)
    ensures |r| == n
    ensures forall i :: 0 <= i < |r| ==> r[i] == ' '
  {
    if n == 0 then "" else Spaces(n - 1) + " "
  }

  /** Keeps the elements satisfying `keep`, in their original order. */
  function Filter<T(==,!new)>(xs: seq<T>, keep: T -> bool): (r: seq<T>)
    ensures |r| <= |xs|
    ensures forall x :: x in r <==> x in xs && keep(x)
  {
    if |xs| == 0 then []
    else
      var init := xs[..|xs| - 1];
      assert xs == init + [xs[|xs| - 1]];
      Filter(init, keep) + (if keep(xs[|xs| - 1]) then [xs[|xs| - 1]] else [])
  }

  /** The fragments of `xs`, in order, with `sep` between neighbours. */
  function Join(xs: seq<string>, sep: string): string {
    if |xs| == 0 then ""
    else if |xs| == 1 then xs[0]
    else Join(xs[..|xs| - 1], sep) + sep + xs[|xs| - 1]
  }

  lemma Assoc(a: string, b: string, c: string)
    ensures a + (b + c) == (a + b) + c
  {
  }

  /** `s` with every whitespace character deleted. */
  function Strip(s: string): string {
    if |s| == 0 then ""
    else (if IsWhitespace(s[0]) then "" else [s[0]]) + Strip(s[1..])
  }

  /** The concatenation of the stripped fragments. */
  function StripAll(xs: seq<string>): string {
    if |xs| == 0 then "" else StripAll(xs[..|xs| - 1]) + Strip(xs[|xs| - 1])
  }

  lemma {:induction false} StripConcat(a: string, b: string)
    ensures Strip(a + b) == Strip(a) + Strip(b)
  {
    if |a| == 0 {
      assert a + b == b;
    } else {
      assert (a + b)[1..] == a[1..] + b;
      StripConcat(a[1..], b);
    }
  }

  lemma {:induction false} StripBlank(s: string)
    ensures Blank(s) <==> Strip(s) == ""
  {
    if |s| > 0 {
      StripBlank(s[1..]);
      if IsWhitespace(s[0]) {
        assert Blank(s) <==> Blank(s[1..]) by {
          if Blank(s[1..]) {
            forall i | 0 <= i < |s| ensures IsWhitespace(s[i]) {
              if i > 0 { assert s[i] == s[1..][i - 1]; }
            }
          }
          if Blank(s) {
            forall i | 0 <= i < |s[1..]| ensures IsWhitespace(s[1..][i]) {
              assert s[1..][i] == s[i + 1];
            }
          }
        }
      } else {
        assert !Blank(s);
        assert Strip(s)[0] == s[0];
      }
    }
  }

  lemma SpacesStrip(n: nat)
    ensures Strip(Spaces(n)) == ""
  {
    StripBlank(Spaces(n));
  }

  lemma StripAllAppend(xs: seq<string>, x: string)
    ensures StripAll(xs + [x]) == StripAll(xs) + Strip(x)
  {
    assert (xs + [x])[..|xs|] == xs;
  }

  lemma {:induction false} StripAllEmpty(xs: seq<string>)
    ensures StripAll(xs) == "" <==> forall i :: 0 <= i < |xs| ==> Blank(xs[i])
  {
    if |xs| > 0 {
      var init := xs[..|xs| - 1];
      StripAllEmpty(init);
      StripBlank(xs[|xs| - 1]);
      assert forall i :: 0 <= i < |init| ==> init[i] == xs[i];
    }
  }

  /** Joining with a whitespace separator adds nothing once whitespace is stripped. */
  lemma {:induction false} JoinStrip(xs: seq<string>, sep: string)
    requires Blank(sep)
    ensures Strip(Join(xs, sep)) == StripAll(xs)
  {
    StripBlank(sep);
    if |xs| == 1 {
      assert xs[..0] == [];
    } else if |xs| > 1 {
      var init := xs[..|xs| - 1];
      JoinStrip(init, sep);
      StripConcat(Join(init, sep) + sep, xs[|xs| - 1]);
      StripConcat(Join(init, sep), sep);
    }
  }

  /** Dropping blank fragments does not change the stripped content. */
  lemma {:induction false} StripAllFilterBlank(xs: seq<string>)
    ensures StripAll(Filter(xs, NotBlank)) == StripAll(xs)
  {
    if |xs| > 0 {
      var init := xs[..|xs| - 1];
      var last := xs[|xs| - 1];
      StripAllFilterBlank(init);
      StripBlank(last);
      assert StripAll(xs) == StripAll(init) + Strip(last);
      if NotBlank(last) {
        assert Filter(xs, NotBlank) == Filter(init, NotBlank) + [last];
        StripAllAppend(Filter(init, NotBlank), last);
      } else {
        assert Filter(xs, NotBlank) == Filter(init, NotBlank);
        assert Strip(last) == "";
      }
    }
  }

  /** Fragment lists that agree element-wise modulo whitespace agree as a whole. */
  lemma {:induction false} StripAllPointwise(xs: seq<string>, ys: seq<string>)
    requires |xs| == |ys|
    requires forall i :: 0 <= i < |xs| ==> Strip(xs[i]) == Strip(ys[i])
    ensures StripAll(xs) == StripAll(ys)
  {
    if |xs| > 0 {
      StripAllPointwise(xs[..|xs| - 1], ys[..|ys| - 1]);
    }
  }

  lemma {:induction false} StripAllConcat(xs: seq<string>, ys: seq<string>)
    ensures StripAll(xs + ys) == StripAll(xs) + StripAll(ys)
  {
    if |ys| == 0 {
      assert xs + ys == xs;
    } else {
      var init := ys[..|ys| - 1];
      var last := ys[|ys| - 1];
      calc {
        StripAll(xs + ys);
        { assert xs + ys == (xs + init) + [last]; }
        StripAll((xs + init) + [last]);
        { StripAllAppend(xs + init, last); }
        StripAll(xs + init) + Strip(last);
        { StripAllConcat(xs, init); }
        StripAll(xs) + StripAll(init) + Strip(last);
        { StripAllAppend(init, last); assert init + [last] == ys; }
        StripAll(xs) + StripAll(ys);
      }
    }
  }

  /** With a non-empty separator, a join is empty only when there is at most one fragment, itself empty. */
  lemma JoinEmpty(xs: seq<string>, sep: string)
    requires |sep| > 0
    ensures Join(xs, sep) == "" <==> |xs| == 0 || (|xs| == 1 && xs[0] == "")
  {
  }

  /** The last fragment survives the join, so a join whose last fragment is non-empty is non-empty. */
  lemma JoinKeepsLast(xs: seq<string>, sep: string)
    requires |xs| > 0
    ensures |Join(xs, sep)| >= |xs[|xs| - 1]|
  {
  }

  /** A join ends with its last fragment. */
  lemma JoinEndsWith(xs: seq<string>, sep: string)
    requires |xs| > 0
    ensures var j, x := Join(xs, sep), xs[|xs| - 1]; |x| <= |j| && j[|j| - |x|..] == x
  {
    if |xs| > 1 {
      var j, x := Join(xs, sep), xs[|xs| - 1];
      assert j == (Join(xs[..|xs| - 1], sep) + sep) + x;
    }
  }

  /** Filtering with a test every element passes changes nothing. */
  lemma {:induction false} FilterAll<T(!new)>(xs: seq<T>, keep: T -> bool)
    requires forall i :: 0 <= i < |xs| ==> keep(xs[i])
    ensures Filter(xs, keep) == xs
  {
    if |xs| > 0 {
      var init, last := xs[..|xs| - 1], xs[|xs| - 1];
      assert xs == init + [last];
      FilterAll(init, keep);
      FilterSnoc(init, last, keep);
    }
  }

  /** Filtering with a test no element passes leaves nothing. */
  lemma {:induction false} FilterNone<T(!new)>(xs: seq<T>, keep: T -> bool)
    requires forall i :: 0 <= i < |xs| ==> !keep(xs[i])
    ensures Filter(xs, keep) == []
  {
    if |xs| > 0 {
      FilterNone(xs[..|xs| - 1], keep);
    }
  }

  lemma FilterSnoc<T(!new)>(xs: seq<T>, x: T, keep: T -> bool)
    ensures Filter(xs + [x], keep) == Filter(xs, keep) + (if keep(x) then [x] else [])
  {
    assert (xs + [x])[..|xs|] == xs;
  }

  /** Filtering distributes over concatenation, so relative order is kept. */
  lemma {:induction false} FilterConcat<T(!new)>(xs: seq<T>, ys: seq<T>, keep: T -> bool)
    ensures Filter(xs + ys, keep) == Filter(xs, keep) + Filter(ys, keep)
  {
    if |ys| == 0 {
      assert xs + ys == xs;
    } else {
      var init := ys[..|ys| - 1];
      var last := ys[|ys| - 1];
      var tail := if keep(last) then [last] else [];
      calc {
        Filter(xs + ys, keep);
        { assert xs + ys == (xs + init) + [last]; }
        Filter((xs + init) + [last], keep);
        { FilterSnoc(xs + init, last, keep); }
        Filter(xs + init, keep) + tail;
        { FilterConcat(xs, init, keep); }
        Filter(xs, keep) + Filter(init, keep) + tail;
        { assert ys == init + [last]; FilterSnoc(init, last, keep); }
        Filter(xs, keep) + Filter(ys, keep);
      }
    }
  }

  lemma Regroup<T>(h: T, a: seq<T>, b: seq<T>, t: T)
    ensures [h] + a + b + [t] == [h] + (a + b) + [t]
  {
  }

  /** Lists with the same first and last fragments and the same middle, modulo whitespace, agree modulo whitespace. */
  lemma StripAllFrame(h1: string, b1: seq<string>, t1: string, h2: string, b2: seq<string>, t2: string)
    requires Strip(h1) == Strip(h2) && StripAll(b1) == StripAll(b2) && Strip(t1) == Strip(t2)
    ensures StripAll([h1] + b1 + [t1]) == StripAll([h2] + b2 + [t2])
  {
    StripAllConcat([h1] + b1, [t1]);
    StripAllConcat([h1], b1);
    StripAllConcat([h2] + b2, [t2]);
    StripAllConcat([h2], b2);
    assert [h1][..0] == [] && [t1][..0] == [] && [h2][..0] == [] && [t2][..0] == [];
  }

  /** Joins that agree element-wise and in separator modulo whitespace agree modulo whitespace. */
  lemma {:induction false} JoinModuloWhitespace(xs: seq<string>, ys: seq<string>, s1: string, s2: string)
    requires |xs| == |ys|
    requires forall i :: 0 <= i < |xs| ==> Strip(xs[i]) == Strip(ys[i])
    requires Strip(s1) == Strip(s2)
    ensures Strip(Join(xs, s1)) == Strip(Join(ys, s2))
  {
    if |xs| > 1 {
      var n := |xs| - 1;
      JoinModuloWhitespace(xs[..n], ys[..n], s1, s2);
      StripConcat(Join(xs[..n], s1) + s1, xs[n]);
      StripConcat(Join(xs[..n], s1), s1);
      StripConcat(Join(ys[..n], s2) + s2, ys[n]);
      StripConcat(Join(ys[..n], s2), s2);
    }
  }

  /** Joining after a first fragment: the fragment, then the separator and the rest if there is any. */
  lemma {:induction false} JoinCons(x: string, ys: seq<string>, sep: string)
    ensures Join([x] + ys, sep) == x + (if |ys| == 0 then "" else sep + Join(ys, sep))
  {
    if |ys| == 1 {
      assert ([x] + ys)[..1] == [x];
    } else if |ys| > 1 {
      var n := |ys| - 1;
      JoinCons(x, ys[..n], sep);
      assert ([x] + ys)[..|[x] + ys| - 1] == [x] + ys[..n];
      assert Join([x] + ys, sep) == Join([x] + ys[..n], sep) + sep + ys[n];
      Assoc(x, sep + Join(ys[..n], sep), sep + ys[n]);
      Assoc(sep, Join(ys[..n], sep), sep + ys[n]);
      Assoc(Join(ys[..n], sep), sep, ys[n]);
    }
  }

  /** Joining two non-empty lists: the two joins with one separator between them. */
  lemma {:induction false} JoinConcat(xs: seq<string>, ys: seq<string>, sep: string)
    requires |xs| > 0 && |ys| > 0
    ensures Join(xs + ys, sep) == Join(xs, sep) + sep + Join(ys, sep)
  {
    var n := |ys| - 1;
    assert (xs + ys)[..|xs + ys| - 1] == xs + ys[..n];
    if n == 0 {
      assert xs + ys[..n] == xs;
    } else {
      JoinConcat(xs, ys[..n], sep);
      var a, b := Join(xs, sep), Join(ys[..n], sep);
      assert Join(xs + ys, sep) == a + sep + b + sep + ys[n];
      assert Join(ys, sep) == b + sep + ys[n];
      Assoc(a + sep, b + sep, ys[n]);
      Assoc(a + sep, b, sep);
    }
  }

  lemma JoinTwo(x: string, y: string, sep: string)
    ensures Join([x, y], sep) == x + sep + y
  {
    assert [x, y][..1] == [x];
  }

  /** A join whose last fragment is not blank is not blank. */
  lemma JoinNotBlank(xs: seq<string>, sep: string)
    requires |xs| > 0 && NotBlank(xs[|xs| - 1])
    ensures NotBlank(Join(xs, sep))
  {
    var l := xs[|xs| - 1];
    var k :| 0 <= k < |l| && !IsWhitespace(l[k]);
    var j := Join(xs, sep);
    if |xs| > 1 {
      var pre := Join(xs[..|xs| - 1], sep) + sep;
      assert j == pre + l;
      assert j[|pre| + k] == l[k];
    }
  }

  /** A separator made of a literal followed by whitespace strips to the literal. */
  lemma SeparatorStrip(c: string, w: string)
    requires Blank(w)
    ensures Strip(c + w) == Strip(c)
  {
    StripConcat(c, w);
    StripBlank(w);
  }

  predicate OccursAt(t: string, s: string, i: int) {
    0 <= i <= |t| - |s| && t[i..i + |s|] == s
  }

  /** `x` inserted into `u` just before its last `n` characters. */
  function InsertBefore(u: string, n: nat, x: string): string
    requires n <= |u|
  {
    u[..|u| - n] + x + u[|u| - n..]
  }

  /** `s` occurs in `t` as a contiguous substring. */
  ghost predicate Contains(t: string, s: string) {
    exists i :: OccursAt(t, s, i)
  }

  /** A substring stays a substring when text is added on either side. */
  lemma ContainsExtend(t: string, s: string, pre: string, post: string)
    requires Contains(t, s)
    ensures Contains(pre + t + post, s)
  {
    var i :| OccursAt(t, s, i);
    OccursExtend(t, s, i, pre, post);
  }

  /** An occurrence survives appending text and prepending text (shifted by its length). */
  lemma OccursExtend(t: string, s: string, i: int, pre: string, post: string)
    requires OccursAt(t, s, i)
    ensures OccursAt(pre + t + post, s, |pre| + i)
  {
    assert (pre + t + post)[|pre| + i..|pre| + i + |s|] == t[i..i + |s|];
  }

  /** A prefix of an occurring string occurs at the same place. */
  lemma OccursPrefix(t: string, s: string, i: int, k: nat)
    requires OccursAt(t, s, i) && k <= |s|
    ensures OccursAt(t, s[..k], i)
  {
    assert t[i..i + k] == t[i..i + |s|][..k];
  }

  /** The first part of an occurring concatenation occurs at the same place. */
  lemma OccursFirst(t: string, a: string, b: string, i: int)
    requires OccursAt(t, a + b, i)
    ensures OccursAt(t, a, i)
  {
    OccursPrefix(t, a + b, i, |a|);
    assert (a + b)[..|a|] == a;
  }

  /** Lists that agree modulo whitespace stay so when concatenated. */
  lemma StripAllCongruence(a1: seq<string>, a2: seq<string>, b1: seq<string>, b2: seq<string>)
    requires StripAll(a1) == StripAll(b1) && StripAll(a2) == StripAll(b2)
    ensures StripAll(a1 + a2) == StripAll(b1 + b2)
  {
    StripAllConcat(a1, a2);
    StripAllConcat(b1, b2);
  }

  /** An occurrence in one part of a text is an occurrence in the text. */
  lemma ContainsInParts(pre: string, a: string, b: string, d: string, s: string)
    ensures Contains(a, s) ==> Contains(pre + a + (b + d), s)
    ensures Contains(b, s) ==> Contains(pre + a + (b + d), s)
  {
    if Contains(a, s) {
      ContainsExtend(a, s, pre, b + d);
    }
    if Contains(b, s) {
      ContainsExtend(b, s, pre + a, d);
      assert pre + a + b + d == pre + a + (b + d);
    }
  }

  /** An occurrence survives appending text. */
  lemma OccursAppend(t: string, s: string, i: int, post: string)
    requires OccursAt(t, s, i)
    ensures OccursAt(t + post, s, i)
  {
    assert (t + post)[i..i + |s|] == t[i..i + |s|];
  }

  /** Both parts of a concatenation occur in it, where they were put. */
  lemma OccursSplit(a: string, b: string)
    ensures OccursAt(a + b, a, 0) && OccursAt(a + b, b, |a|)
  {
    assert (a + b)[..|a|] == a;
    assert (a + b)[|a|..] == b;
  }

  /** Containment is transitive. */
  lemma ContainsTrans(t: string, s: string, u: string)
    requires Contains(t, s) && Contains(s, u)
    ensures Contains(t, u)
  {
    var i :| OccursAt(t, s, i);
    var j :| OccursAt(s, u, j);
    forall k | 0 <= k < |u| ensures t[i + j + k] == u[k] {
      assert t[i..i + |s|][j + k] == s[j + k];
      assert s[j..j + |u|][k] == s[j + k];
    }
    assert t[i + j..i + j + |u|] == u;
    assert OccursAt(t, u, i + j);
  }

  /** Every fragment of a join occurs in it. */
  lemma {:induction false} JoinContains(xs: seq<string>, k: nat, sep: string)
    requires k < |xs|
    ensures Contains(Join(xs, sep), xs[k])
  {
    var n := |xs| - 1;
    if k == n {
      JoinEndsWith(xs, sep);
      var j := Join(xs, sep);
      assert OccursAt(j, xs[k], |j| - |xs[k]|);
    } else {
      var init := xs[..n];
      assert init[k] == xs[k];
      JoinContains(init, k, sep);
      ContainsExtend(Join(init, sep), xs[k], "", sep + xs[n]);
      assert Join(xs, sep) == "" + Join(init, sep) + (sep + xs[n]);
    }
  }

  /** Text ending in something that is not blank is not blank. */
  lemma NotBlankAppend(a: string, b: string)
    requires NotBlank(b)
    ensures NotBlank(a + b)
  {
    var k :| 0 <= k < |b| && !IsWhitespace(b[k]);
    assert (a + b)[|a| + k] == b[k];
  }

  lemma StripAllSingleton(x: string, y: string)
    requires Strip(x) == Strip(y)
    ensures StripAll([x]) == StripAll([y])
  {
    StripAllAppend([], x);
    StripAllAppend([], y);
    assert [] + [x] == [x] && [] + [y] == [y];
  }
}
