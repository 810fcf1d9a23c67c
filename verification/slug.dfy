/** Identity derivation for cart line items (`normaliseId` in the cart store):
    a URL-style slug of the item name, followed by the price in cents when
    the price is nonzero. Lower-casing is restricted to ASCII. */
module Slug {

  /** ASCII `toLowerCase` of one character. */
  function Lower(c: char): char {
    if 'A' <= c <= 'Z' then (c as int + 32) as char else c
  }

  /** The characters a slug keeps: `[a-z0-9]`. */
  predicate IsSlugChar(c: char) {
    'a' <= c <= 'z' || '0' <= c <= '9'
  }

  /** A character of the name that survives into the slug once lower-cased;
      every other character is a separator. */
  predicate Kept(c: char) {
    IsSlugChar(Lower(c))
  }

  predicate InSlugAlphabet(s: string) {
    forall i :: 0 <= i < |s| ==> IsSlugChar(s[i]) || s[i] == '-'
  }

  predicate NoDoubleDash(s: string) {
    forall i, j :: 0 <= i < |s| && 0 <= j < |s| && j == i + 1 ==> !(s[i] == '-' && s[j] == '-')
  }

  /** The strings a slug can be: `[a-z0-9]` words joined by single dashes. */
  predicate IsSlug(s: string) {
    && InSlugAlphabet(s)
    && NoDoubleDash(s)
    && (|s| > 0 ==> s[0] != '-' && s[|s| - 1] != '-')
  }

  /** Lower-cases `s` and replaces every maximal run of characters outside
      `[a-z0-9]` by a single dash (`replace(/[^a-z0-9]+/g, '-')`).
      `inRun` says that the character before `s` already opened such a run. */
  function Collapse(s: string, inRun: bool): (r: string)
    ensures InSlugAlphabet(r)
    ensures NoDoubleDash(r)
    ensures inRun && |r| > 0 ==> r[0] != '-'
    decreases |s|
  {
    if |s| == 0 then ""
    else if Kept(s[0]) then [Lower(s[0])] + Collapse(s[1..], false)
    else if inRun then Collapse(s[1..], true)
    else "-" + Collapse(s[1..], true)
  }

  /** Drops one trailing dash (the `-$` half of `replace(/(^-|-$)/g, '')`);
      the leading dash is dropped by `MakeSlug` itself. */
  function TrimEnd(t: string): (r: string)
    requires InSlugAlphabet(t) && NoDoubleDash(t)
    requires |t| > 0 ==> t[0] != '-'
    ensures IsSlug(r)
    ensures if |t| > 0 && t[|t| - 1] == '-' then t == r + "-" else r == t
  {
    if |t| > 0 && t[|t| - 1] == '-' then
      assert |t| > 1 ==> t[|t| - 2] != '-';
      t[..|t| - 1]
    else t
  }

  function MakeSlug(name: string): (r: string)
    ensures IsSlug(r)
  {
    var c := Collapse(name, false);
    if |c| > 0 && c[0] == '-' then
      assert |c| > 1 ==> c[1] != '-';
      TrimEnd(c[1..])
    else
      TrimEnd(c)
  }

  /** The characters of `s` that survive into a slug, lower-cased, in order. */
  function Alnums(s: string): string {
    if |s| == 0 then ""
    else (if Kept(s[0]) then [Lower(s[0])] else "") + Alnums(s[1..])
  }

  lemma {:induction false} AlnumsAppend(a: string, b: string)
    ensures Alnums(a + b) == Alnums(a) + Alnums(b)
    decreases |a|
  {
    if |a| > 0 {
      assert (a + b)[1..] == a[1..] + b;
      AlnumsAppend(a[1..], b);
    } else {
      assert a + b == b;
    }
  }

  lemma {:induction false} CollapseKeepsAlnums(s: string, inRun: bool)
    ensures Alnums(Collapse(s, inRun)) == Alnums(s)
    decreases |s|
  {
    if |s| > 0 {
      var rest := Collapse(s[1..], !Kept(s[0]));
      CollapseKeepsAlnums(s[1..], !Kept(s[0]));
      if Kept(s[0]) {
        assert ([Lower(s[0])] + rest)[1..] == rest;
      } else if !inRun {
        assert ("-" + rest)[1..] == rest;
      }
    }
  }

  /** The slug keeps exactly the name's letters and digits, lower-cased and in
      order; only dashes are added or removed. */
  lemma SlugKeepsAlnums(name: string)
    ensures Alnums(MakeSlug(name)) == Alnums(name)
  {
    var c := Collapse(name, false);
    CollapseKeepsAlnums(name, false);
    var t := if |c| > 0 && c[0] == '-' then c[1..] else c;
    assert Alnums(t) == Alnums(c) by {
      if |c| > 0 && c[0] == '-' {
        assert c == "-" + t;
        AlnumsAppend("-", t);
      }
    }
    var r := MakeSlug(name);
    assert Alnums(r) == Alnums(t) by {
      if |t| > 0 && t[|t| - 1] == '-' {
        assert t == r + "-";
        AlnumsAppend(r, "-");
      }
    }
  }

  lemma {:induction false} CollapseFixesSlugs(s: string, inRun: bool)
    requires InSlugAlphabet(s) && NoDoubleDash(s)
    requires inRun && |s| > 0 ==> s[0] != '-'
    ensures Collapse(s, inRun) == s
    decreases |s|
  {
    if |s| > 0 {
      assert s == [s[0]] + s[1..];
      CollapseFixesSlugs(s[1..], s[0] == '-');
    }
  }

  /** Slugging a slug changes nothing. */
  lemma SlugIdempotent(name: string)
    ensures MakeSlug(MakeSlug(name)) == MakeSlug(name)
  {
    CollapseFixesSlugs(MakeSlug(name), false);
  }

  function DigitChar(d: nat): char
    requires d < 10
  {
    ('0' as int + d) as char
  }

  predicate AllDigits(s: string) {
    forall i :: 0 <= i < |s| ==> '0' <= s[i] <= '9'
  }

  /** Decimal rendering of a natural number, as a template literal prints it. */
  function NatToString(n: nat): (r: string)
    ensures |r| > 0 && AllDigits(r)
    ensures r[0] == '0' <==> n == 0
    decreases n
  {
    if n < 10 then [DigitChar(n)] else NatToString(n / 10) + [DigitChar(n % 10)]
  }

  /** The value of a string of decimal digits. */
  function DigitsValue(s: string): nat
    requires AllDigits(s)
  {
    if |s| == 0 then 0 else DigitsValue(s[..|s| - 1]) * 10 + (s[|s| - 1] as int - '0' as int)
  }

  lemma {:induction false} DigitsRoundTrip(n: nat)
    ensures DigitsValue(NatToString(n)) == n
    decreases n
  {
    if n >= 10 {
      var s := NatToString(n);
      assert s[..|s| - 1] == NatToString(n / 10);
      DigitsRoundTrip(n / 10);
    }
  }

  /** Decimal rendering of an integer, with a minus sign when negative. */
  function IntToString(i: int): (r: string)
    ensures |r| > 0
  {
    if i < 0 then "-" + NatToString(-i) else NatToString(i)
  }

  lemma IntToStringInjective(a: int, b: int)
    requires IntToString(a) == IntToString(b)
    ensures a == b
  {
    var s := IntToString(a);
    if a < 0 {
      assert s[0] == '-';
      assert b < 0;
      assert NatToString(-a) == s[1..] == NatToString(-b);
      NatToStringInjective(-a, -b);
    } else {
      assert '0' <= s[0] <= '9';
      assert b >= 0;
      NatToStringInjective(a, b);
    }
  }

  lemma NatToStringInjective(a: nat, b: nat)
    requires NatToString(a) == NatToString(b)
    ensures a == b
  {
    DigitsRoundTrip(a);
    DigitsRoundTrip(b);
  }

  /** The id suffix: `-<cents>` when the price is nonzero, nothing otherwise. */
  function PriceSuffix(price: int): (r: string)
    ensures r == "" <==> price == 0
    ensures price != 0 ==> r[0] == '-' && r[1..] == IntToString(price)
  {
    if price != 0 then "-" + IntToString(price) else ""
  }

  /** `normaliseId(name, price, providedId)`, with the price already in cents
      (so `Math.round(price * 100)` is the price itself) and a missing id as "". */
  function ResolveId(name: string, price: int, providedId: string): (r: string)
    ensures providedId != "" ==> r == providedId
    ensures providedId == "" && price == 0 ==> r == MakeSlug(name)
    ensures providedId == "" && price != 0 ==> r == MakeSlug(name) + "-" + IntToString(price)
  {
    if providedId != "" then providedId
    else
      var slug, suffix := MakeSlug(name), PriceSuffix(price);
      assert price != 0 ==> slug + suffix == slug + "-" + IntToString(price) by {
        if price != 0 {
          assert suffix == "-" + IntToString(price);
          Concat3(slug, "-", IntToString(price));
        }
      }
      slug + suffix
  }

  lemma Concat3(a: string, b: string, c: string)
    ensures a + (b + c) == a + b + c
  {
  }

  lemma SuffixCancel(x: string, y1: string, y2: string)
    requires x + y1 == x + y2
    ensures y1 == y2
  {
    assert y1 == (x + y1)[|x|..];
    assert y2 == (x + y2)[|x|..];
  }

  /** Two prices of the same name give two ids, so price variants of one dish
      stay separate line items. */
  lemma DerivedIdSeparatesPrices(name: string, p1: int, p2: int)
    requires p1 != p2
    ensures ResolveId(name, p1, "") != ResolveId(name, p2, "")
  {
    var slug := MakeSlug(name);
    var x1, x2 := PriceSuffix(p1), PriceSuffix(p2);
    assert x1 != x2 by {
      if p1 != 0 && p2 != 0 && x1 == x2 {
        assert IntToString(p1) == x1[1..];
        assert IntToString(p2) == x2[1..];
        IntToStringInjective(p1, p2);
      }
    }
    if slug + x1 == slug + x2 {
      SuffixCancel(slug, x1, x2);
    }
  }

  /** The price can be read back from a derived id: the digits after the
      slug and its dash spell the price in cents. */
  lemma PriceRecoverable(name: string, price: int)
    requires price > 0
    ensures var id := ResolveId(name, price, "");
            var k := |MakeSlug(name)| + 1;
            && k <= |id| && id[k - 1] == '-'
            && AllDigits(id[k..]) && DigitsValue(id[k..]) == price
  {
    var id := ResolveId(name, price, "");
    assert id[|MakeSlug(name)| + 1..] == NatToString(price);
    DigitsRoundTrip(price);
  }

  /** A derived id with a positive price is the collapsed name, a dash and the
      price digits, whenever collapsing left no dash at either end. */
  lemma DerivedIdParts(name: string, price: int, slug: string, digits: string)
    requires Collapse(name, false) == slug
    requires |slug| > 0 && slug[0] != '-' && slug[|slug| - 1] != '-'
    requires price > 0 && NatToString(price) == digits
    ensures ResolveId(name, price, "") == slug + "-" + digits
  {
  }

  /** The worked example: "Tonkotsu Ramen" at 14.50 gets `tonkotsu-ramen-1450`. */
  lemma TonkotsuRamenId()
    ensures ResolveId("Tonkotsu Ramen", 1450, "") == "tonkotsu-ramen-1450"
  {
    PriceDigitsExample();
    CollapseExample();
    DerivedIdParts("Tonkotsu Ramen", 1450, "tonkotsu-ramen", "1450");
    ExampleJoin();
  }

  lemma PriceDigitsExample()
    ensures NatToString(1450) == "1450"
  {
    assert NatToString(1) == "1";
    assert NatToString(14) == "14";
    assert NatToString(145) == "145";
  }

  // The example is assembled from small literal facts, each its own lemma, so
  // that the solver never unfolds `Collapse` on the whole literal name.
  lemma CollapseExample()
    ensures Collapse("Tonkotsu Ramen", false) == "tonkotsu-ramen"
  {
    ExampleSplit();
    ExampleLowers();
    ExampleWords();
    TwoWordCollapse('T', "onkotsu", 'R', "amen");
  }

  lemma ExampleSplit()
    ensures "Tonkotsu Ramen" == ['T'] + "onkotsu" + " " + ['R'] + "amen"
  {
  }

  lemma ExampleLowers()
    ensures Lower('T') == 't' && Lower('R') == 'r'
  {
  }

  lemma ExampleWords()
    ensures ['t'] + "onkotsu" + "-" + ['r'] + "amen" == "tonkotsu-ramen"
  {
  }

  lemma ExampleJoin()
    ensures "tonkotsu-ramen" + "-" + "1450" == "tonkotsu-ramen-1450"
  {
  }

  predicate IsWord(w: string) {
    forall i :: 0 <= i < |w| ==> IsSlugChar(w[i])
  }

  /** Two words around one space, each a leading character of any case
      followed by lower-case letters and digits, collapse to the two words
      with their leading character lower-cased, joined by a dash. */
  lemma TwoWordCollapse(a: char, w1: string, b: char, w2: string)
    requires IsSlugChar(Lower(a)) && IsSlugChar(Lower(b)) && IsWord(w1) && IsWord(w2)
    ensures Collapse([a] + w1 + " " + [b] + w2, false) == [Lower(a)] + w1 + "-" + [Lower(b)] + w2
  {
    var gap := " " + ([b] + w2);
    Associate5([a], w1, " ", [b], w2);
    LeadingWord(a, w1, gap);
    SpaceThenWord(b, w2);
    Associate5([Lower(a)], w1, "-", [Lower(b)], w2);
  }

  lemma Associate5(p: string, q: string, r: string, t: string, u: string)
    ensures p + q + r + t + u == p + (q + (r + (t + u)))
  {
  }

  lemma LeadingWord(a: char, w: string, rest: string)
    requires Kept(a) && IsWord(w)
    ensures Collapse([a] + (w + rest), false) == [Lower(a)] + (w + Collapse(rest, false))
  {
    assert ([a] + (w + rest))[1..] == w + rest;
    CollapseWord(w, rest, false);
    LowerWordFixed(w);
  }

  lemma SpaceThenWord(b: char, w: string)
    requires Kept(b) && IsWord(w)
    ensures Collapse(" " + ([b] + w), false) == "-" + ([Lower(b)] + w)
  {
    assert (" " + ([b] + w))[1..] == [b] + w;
    assert ([b] + w)[1..] == w;
    CollapseFixesSlugs(w, false);
  }

  /** A word of the name comes out of `Collapse` lower-cased, and closes any
      open separator run. */
  lemma {:induction false} CollapseWord(w: string, rest: string, inRun: bool)
    requires IsRawWord(w)
    ensures Collapse(w + rest, inRun) == LowerAll(w) + Collapse(rest, inRun && |w| == 0)
    decreases |w|
  {
    if |w| > 0 {
      assert (w + rest)[0] == w[0];
      assert (w + rest)[1..] == w[1..] + rest;
      CollapseWord(w[1..], rest, false);
    } else {
      assert w + rest == rest;
    }
  }

  /** A run of separators, however long, becomes one dash, or nothing when a
      run is already open. */
  lemma {:induction false} CollapseGap(g: string, rest: string, inRun: bool)
    requires IsGap(g)
    ensures Collapse(g + rest, inRun) == Edge(g, inRun) + Collapse(rest, inRun || |g| > 0)
    decreases |g|
  {
    if |g| > 0 {
      assert (g + rest)[0] == g[0];
      assert (g + rest)[1..] == g[1..] + rest;
      CollapseGap(g[1..], rest, true);
    } else {
      assert g + rest == rest;
    }
  }

  /** The dash a separator run leaves behind. */
  function Edge(g: string, inRun: bool): string {
    if |g| > 0 && !inRun then "-" else ""
  }

  /** A word of the name: characters the slug keeps, in any case. */
  predicate IsRawWord(w: string) {
    forall i :: 0 <= i < |w| ==> Kept(w[i])
  }

  /** A run of separators. */
  predicate IsGap(g: string) {
    forall i :: 0 <= i < |g| ==> !Kept(g[i])
  }

  function LowerAll(w: string): (r: string)
    ensures |r| == |w|
    ensures forall i :: 0 <= i < |w| ==> r[i] == Lower(w[i])
  {
    if |w| == 0 then "" else [Lower(w[0])] + LowerAll(w[1..])
  }

  /** A word already in slug characters is its own lower-case form. */
  lemma LowerWordFixed(w: string)
    requires IsWord(w)
    ensures LowerAll(w) == w
  {
  }

  function LowerWords(ws: seq<string>): (r: seq<string>)
    ensures |r| == |ws|
    ensures forall i :: 0 <= i < |ws| ==> r[i] == LowerAll(ws[i])
  {
    if |ws| == 0 then [] else [LowerAll(ws[0])] + LowerWords(ws[1..])
  }

  /** Words joined by single dashes: the reference form of a slug. */
  function Join(ws: seq<string>): string {
    if |ws| == 0 then "" else if |ws| == 1 then ws[0] else ws[0] + "-" + Join(ws[1..])
  }

  /** A name read as separator runs and words alternating:
      `gs[0] ws[0] gs[1] ws[1] ... ws[n-1] gs[n]`. */
  function Layout(ws: seq<string>, gs: seq<string>): string
    requires |gs| == |ws| + 1
  {
    if |ws| == 0 then gs[0] else gs[0] + ws[0] + Layout(ws[1..], gs[1..])
  }

  /** The words are non-empty and the separator runs between two words are
      non-empty; the runs at either end may be empty. */
  predicate LaidOut(ws: seq<string>, gs: seq<string>) {
    && |gs| == |ws| + 1
    && (forall i :: 0 <= i < |ws| ==> |ws[i]| > 0 && IsRawWord(ws[i]))
    && (forall i :: 0 <= i < |gs| ==> IsGap(gs[i]))
    && (forall i :: 0 < i < |ws| ==> |gs[i]| > 0)
  }

  /** Collapsing a laid-out name: an optional leading dash, the lower-cased
      words joined by single dashes, an optional trailing dash. */
  lemma {:induction false} CollapseLayout(ws: seq<string>, gs: seq<string>, inRun: bool)
    requires LaidOut(ws, gs) && |ws| > 0
    ensures Collapse(Layout(ws, gs), inRun) == Edge(gs[0], inRun) + Join(LowerWords(ws)) + Edge(gs[|ws|], false)
    decreases |ws|
  {
    var w0 := LowerAll(ws[0]);
    var lead, trail := Edge(gs[0], inRun), Edge(gs[|ws|], false);
    var rest := Collapse(Layout(ws[1..], gs[1..]), false);
    CollapseHead(ws, gs, inRun);
    if |ws| == 1 {
      assert rest == trail by {
        assert Layout(ws[1..], gs[1..]) == gs[1] + "";
        CollapseGap(gs[1], "", false);
      }
      assert Join(LowerWords(ws)) == w0;
      Associate(lead, w0, trail, "");
    } else {
      var more := Join(LowerWords(ws[1..]));
      assert rest == "-" + more + trail by {
        assert LaidOut(ws[1..], gs[1..]);
        CollapseLayout(ws[1..], gs[1..], false);
      }
      JoinStep(ws);
      Associate(lead, w0, "-" + more, trail);
    }
  }

  /** The first separator run and word of a laid-out name, collapsed. */
  lemma CollapseHead(ws: seq<string>, gs: seq<string>, inRun: bool)
    requires LaidOut(ws, gs) && |ws| > 0
    ensures Collapse(Layout(ws, gs), inRun)
            == Edge(gs[0], inRun) + (LowerAll(ws[0]) + Collapse(Layout(ws[1..], gs[1..]), false))
  {
    var g0, w0, tail := gs[0], ws[0], Layout(ws[1..], gs[1..]);
    assert Layout(ws, gs) == g0 + (w0 + tail);
    CollapseGap(g0, w0 + tail, inRun);
    CollapseWord(w0, tail, inRun || |g0| > 0);
  }

  lemma JoinStep(ws: seq<string>)
    requires |ws| > 1
    ensures Join(LowerWords(ws)) == LowerAll(ws[0]) + ("-" + Join(LowerWords(ws[1..])))
  {
    var lw, more := LowerWords(ws), LowerWords(ws[1..]);
    assert lw == [LowerAll(ws[0])] + more;
    assert lw[1..] == more;
    Concat3(lw[0], "-", Join(more));
  }

  lemma Associate(a: string, b: string, c: string, d: string)
    ensures a + (b + (c + d)) == a + (b + c) + d
  {
  }

  /** Joined slug words are non-empty and have no dash at either end. */
  lemma {:induction false} JoinShape(ws: seq<string>)
    requires |ws| > 0
    requires forall i :: 0 <= i < |ws| ==> |ws[i]| > 0 && IsWord(ws[i])
    ensures |Join(ws)| > 0 && Join(ws)[0] != '-' && Join(ws)[|Join(ws)| - 1] != '-'
    decreases |ws|
  {
    if |ws| > 1 {
      JoinShape(ws[1..]);
      var j := Join(ws[1..]);
      assert Join(ws) == ws[0] + ("-" + j);
      assert Join(ws)[0] == ws[0][0];
      assert Join(ws)[|Join(ws)| - 1] == j[|j| - 1];
    } else {
      assert IsSlugChar(ws[0][0]) && IsSlugChar(ws[0][|ws[0]| - 1]);
    }
  }

  /** Trimming the dashes at either end of a collapsed name leaves what lies
      between them. */
  lemma TrimmedCollapse(name: string, j: string, lead: string, trail: string)
    requires lead == "" || lead == "-"
    requires trail == "" || trail == "-"
    requires Collapse(name, false) == lead + j + trail
    requires |j| > 0 && j[0] != '-' && j[|j| - 1] != '-'
    ensures MakeSlug(name) == j
  {
    var c := Collapse(name, false);
    var t := if |c| > 0 && c[0] == '-' then c[1..] else c;
    assert t == j + trail by {
      if lead == "-" {
        assert c == "-" + (j + trail);
      } else {
        assert c == j + trail;
      }
    }
    var r := MakeSlug(name);
    assert r == TrimEnd(t);
    if trail == "-" {
      assert t[|t| - 1] == '-';
      assert r + "-" == j + "-";
      assert r == (r + "-")[..|r|];
      assert j == (j + "-")[..|j|];
    } else {
      assert t == j;
    }
  }

  /** The slug of a laid-out name is its lower-cased words joined by single
      dashes: every separator run between two words becomes exactly one dash,
      and the runs at either end vanish. */
  lemma SlugJoinsWords(ws: seq<string>, gs: seq<string>)
    requires LaidOut(ws, gs)
    ensures MakeSlug(Layout(ws, gs)) == Join(LowerWords(ws))
  {
    if |ws| == 0 {
      assert gs[0] + "" == gs[0];
      CollapseGap(gs[0], "", false);
    } else {
      var lw := LowerWords(ws);
      CollapseLayout(ws, gs, false);
      assert forall i :: 0 <= i < |lw| ==> |lw[i]| > 0 && IsWord(lw[i]);
      JoinShape(lw);
      TrimmedCollapse(Layout(ws, gs), Join(lw), Edge(gs[0], false), Edge(gs[|ws|], false));
    }
  }

  /** Every name can be laid out as separator runs and words. */
  lemma {:induction false} LayOut(name: string) returns (ws: seq<string>, gs: seq<string>)
    ensures LaidOut(ws, gs) && Layout(ws, gs) == name
    decreases |name|
  {
    if |name| == 0 {
      ws, gs := [], [""];
      return;
    }
    var c := name[0];
    var ws', gs' := LayOut(name[1..]);
    assert name == [c] + name[1..];
    if !Kept(c) {
      ws, gs := ws', gs'[0 := [c] + gs'[0]];
      GrowGap(c, ws', gs');
    } else if |ws'| > 0 && gs'[0] == "" {
      ws, gs := ws'[0 := [c] + ws'[0]], gs';
      GrowWord(c, ws', gs');
    } else {
      ws, gs := [[c]] + ws', [""] + gs';
      StartWord(c, ws', gs');
    }
  }

  /** A separator in front of a laid-out name joins its leading run. */
  lemma GrowGap(c: char, ws: seq<string>, gs: seq<string>)
    requires !Kept(c) && LaidOut(ws, gs)
    ensures LaidOut(ws, gs[0 := [c] + gs[0]])
    ensures Layout(ws, gs[0 := [c] + gs[0]]) == [c] + Layout(ws, gs)
  {
    var gs2 := gs[0 := [c] + gs[0]];
    assert gs2[1..] == gs[1..];
    if |ws| > 0 {
      Associate([c], gs[0], ws[0], Layout(ws[1..], gs[1..]));
    }
  }

  /** A kept character in front of a name that starts with a word joins that word. */
  lemma GrowWord(c: char, ws: seq<string>, gs: seq<string>)
    requires Kept(c) && LaidOut(ws, gs) && |ws| > 0 && gs[0] == ""
    ensures LaidOut(ws[0 := [c] + ws[0]], gs)
    ensures Layout(ws[0 := [c] + ws[0]], gs) == [c] + Layout(ws, gs)
  {
    var ws2 := ws[0 := [c] + ws[0]];
    assert ws2[1..] == ws[1..];
    Associate([c], ws[0], Layout(ws[1..], gs[1..]), "");
  }

  /** A kept character in front of a name that starts with a separator, or is
      empty, starts a new word. */
  lemma StartWord(c: char, ws: seq<string>, gs: seq<string>)
    requires Kept(c) && LaidOut(ws, gs) && (|ws| == 0 || gs[0] != "")
    ensures LaidOut([[c]] + ws, [""] + gs)
    ensures Layout([[c]] + ws, [""] + gs) == [c] + Layout(ws, gs)
  {
    ConsWord(c, ws);
    ConsGap(gs, |ws|);
    var ws2, gs2 := [[c]] + ws, [""] + gs;
    assert Layout(ws2, gs2) == [c] + Layout(ws, gs) by {
      assert ws2[1..] == ws && gs2[1..] == gs;
    }
  }

  lemma ConsWord(c: char, ws: seq<string>)
    requires Kept(c)
    requires forall i :: 0 <= i < |ws| ==> |ws[i]| > 0 && IsRawWord(ws[i])
    ensures forall i :: 0 <= i < |[[c]] + ws| ==> |([[c]] + ws)[i]| > 0 && IsRawWord(([[c]] + ws)[i])
  {
    var ws2 := [[c]] + ws;
    forall i | 0 <= i < |ws2|
      ensures |ws2[i]| > 0 && IsRawWord(ws2[i])
    {
      if i > 0 {
        assert ws2[i] == ws[i - 1];
      }
    }
  }

  /** An empty run in front of the runs of a name with `n` words: still all
      separator runs, and still non-empty between two words when the name's
      first run was non-empty or it had no word. */
  lemma ConsGap(gs: seq<string>, n: nat)
    requires |gs| == n + 1
    requires forall i :: 0 <= i < |gs| ==> IsGap(gs[i])
    requires forall i :: 0 < i < n ==> |gs[i]| > 0
    requires n == 0 || gs[0] != ""
    ensures forall i :: 0 <= i < |[""] + gs| ==> IsGap(([""] + gs)[i])
    ensures forall i :: 0 < i < n + 1 ==> |([""] + gs)[i]| > 0
  {
    var gs2 := [""] + gs;
    forall i | 0 <= i < |gs2|
      ensures IsGap(gs2[i])
    {
      if i > 0 {
        assert gs2[i] == gs[i - 1];
      }
    }
    forall i | 0 < i < n + 1
      ensures |gs2[i]| > 0
    {
      assert gs2[i] == gs[i - 1];
    }
  }

  /** The slug of any name: lay the name out as words and separator runs;
      the slug is the lower-cased words joined by single dashes. */
  lemma SlugOfAnyName(name: string) returns (ws: seq<string>, gs: seq<string>)
    ensures LaidOut(ws, gs) && Layout(ws, gs) == name
    ensures MakeSlug(name) == Join(LowerWords(ws))
  {
    ws, gs := LayOut(name);
    SlugJoinsWords(ws, gs);
  }
}
