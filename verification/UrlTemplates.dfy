/** What substitution does to the path and to the query of a request's URL. */
module UrlTemplates {
  import opened Options
  import opened Strings
  import opened Placeholders
  import opened PercentEncoding
  import opened Templating

  type ByteString = s: string | Bytes(s)

  /** The printed values that names resolve to: Go strings, that is, bytes. */
  type ByteValues = string -> Option<ByteString>

  // --------------------------------------------------------------------- path

  /**
   The names that become placeholders only by decoding: read in the decoded
   text, they are spelled by literal characters of the template.
   */
  function Conjured(toks: seq<Tok>): seq<string>
    decreases |toks|
  {
    if toks == [] then []
    else
      var s := Flatten(toks);
      if toks[0].Hole? || MatchLen(s) == 0 || MatchLen(s) > |toks| then Conjured(toks[1..])
      else [MatchName(s)] + Conjured(toks[MatchLen(s)..])
  }

  lemma {:induction false} FlattenChars(toks: seq<Tok>, n: nat)
    requires n <= |toks| && forall i | 0 <= i < n :: toks[i].Ch?
    ensures |Flatten(toks)| >= n && Flatten(toks[..n]) == Flatten(toks)[..n] && Flatten(toks[n..]) == Flatten(toks)[n..]
    ensures |Flatten(toks[..n])| == n
  {
    if n == 0 {
      assert toks[0..] == toks;
    } else {
      FlattenChars(toks[1..], n - 1);
      assert toks[..n][1..] == toks[1..][..n - 1];
      assert toks[1..][n - 1..] == toks[n..];
    }
  }

  /** How many literal characters a template begins with. */
  function LeadingChars(toks: seq<Tok>): (n: nat)
    ensures n <= |toks| && (forall i | 0 <= i < n :: toks[i].Ch?) && (n < |toks| ==> toks[n].Hole?)
  {
    if toks == [] || toks[0].Hole? then 0 else 1 + LeadingChars(toks[1..])
  }

  /** A placeholder spelled from a literal character on is spelled by literals only. */
  lemma MatchesStayInLiterals(toks: seq<Tok>)
    requires Named(toks) && toks != [] && toks[0].Ch? && MatchLen(Flatten(toks)) > 0
    ensures MatchLen(Flatten(toks)) <= LeadingChars(toks)
  {
    hide MatchLen, MatchName;
    var s, h := Flatten(toks), LeadingChars(toks);
    FlattenChars(toks, h);
    if h < |toks| {
      assert toks[h] in toks;
      assert toks[h..][0] == toks[h];
      QuoteMatches(toks[h].name, Flatten(toks[h..][1..]));
      assert s[0..] == s;
      NoOverlap(s, 0, h);
    } else {
      assert toks[h..] == [];
    }
  }

  lemma {:induction false} RenderChars(toks: seq<Tok>, val: Values)
    requires forall i | 0 <= i < |toks| :: toks[i].Ch?
    ensures Render(toks, val) == Flatten(toks)
  {
    if toks != [] { RenderChars(toks[1..], val); }
  }

  /** The first n tokens are literals that, read again, are one placeholder. */
  ghost predicate RegroupsTo(toks: seq<Tok>, n: nat) {
    && n <= |toks| && (forall i | 0 <= i < n :: toks[i].Ch?)
    && MatchLen(Flatten(toks)) == n > 0 && Flatten(toks[..n]) == Quote(MatchName(Flatten(toks)))
    && Parse(Flatten(toks)) == [Hole(MatchName(Flatten(toks)))] + Parse(Flatten(toks[n..]))
    && Conjured(toks) == [MatchName(Flatten(toks))] + Conjured(toks[n..])
  }

  lemma RegroupMatch(toks: seq<Tok>)
    requires Named(toks) && toks != [] && toks[0].Ch? && MatchLen(Flatten(toks)) > 0
    ensures RegroupsTo(toks, MatchLen(Flatten(toks)))
  {
    hide MatchLen, MatchName, Placeholder, Named;
    var s := Flatten(toks);
    MatchesStayInLiterals(toks);
    FlattenChars(toks, MatchLen(s));
    MatchIsPlaceholder(s);
  }

  lemma RegroupOne(toks: seq<Tok>)
    requires Named(toks) && toks != [] && (toks[0].Hole? || MatchLen(Flatten(toks)) == 0)
    ensures Parse(Flatten(toks)) == [toks[0]] + Parse(Flatten(toks[1..])) && Conjured(toks) == Conjured(toks[1..])
  {
    hide MatchLen, MatchName, Placeholder, Name;
    var s := Flatten(toks);
    if toks[0].Hole? {
      assert toks[0] in toks;
      QuoteMatches(toks[0].name, Flatten(toks[1..]));
    }
    assert s[|toks[0].Text()|..] == Flatten(toks[1..]);
  }

  /** How reading the text of a template again regroups it: token by token, or a run of literals at once. */
  lemma Regroup(toks: seq<Tok>) returns (n: nat)
    requires Named(toks) && toks != []
    ensures 0 < n <= |toks|
    ensures n == 1 ==>
              Parse(Flatten(toks)) == [toks[0]] + Parse(Flatten(toks[1..])) && Conjured(toks) == Conjured(toks[1..])
    ensures n > 1 ==> RegroupsTo(toks, n)
  {
    hide Named, Parse, Conjured, Flatten;
    if toks[0].Hole? || MatchLen(Flatten(toks)) == 0 {
      n := 1;
      RegroupOne(toks);
    } else {
      n := MatchLen(Flatten(toks));
      RegroupMatch(toks);
    }
  }

  lemma RenderCons(t: Tok, rest: seq<Tok>, val: Values)
    ensures Render([t] + rest, val) == RenderTok(t, val) + Render(rest, val)
  {
    assert ([t] + rest)[1..] == rest;
  }

  /** Conjured placeholders that do not resolve are rendered as the literals they are. */
  lemma {:induction false} RegroupedRender(toks: seq<Tok>, val: Values, val': Values)
    requires Named(toks)
    requires forall t | t in toks && t.Hole? :: val(t.name) == val'(t.name)
    requires forall n | n in Conjured(toks) :: val(n).None?
    ensures Render(Parse(Flatten(toks)), val) == Render(toks, val')
    decreases |toks|
  {
    hide MatchLen, MatchName, Placeholder, Parse, Conjured;
    if toks == [] {
      ParseNothing();
    } else {
      var n := Regroup(toks);
      var parsed := Parse(Flatten(toks[n..]));
      RegroupedRender(toks[n..], val, val');
      assert toks == toks[..n] + toks[n..];
      if n == 1 {
        assert toks[0] in toks;
        RenderCons(toks[0], parsed, val);
        assert toks[..1] == [toks[0]];
        RenderCons(toks[0], toks[1..], val');
      } else {
        var name := MatchName(Flatten(toks));
        assert name in Conjured(toks);
        RenderCons(Hole(name), parsed, val);
        RenderConcat(toks[..n], toks[n..], val');
        RenderChars(toks[..n], val');
      }
    }
  }

  lemma ParseNothing()
    ensures Parse("") == []
  {
  }

  /** By how much replacing the names lengthens a text. */
  function Growth(names: seq<string>, val: Values): int {
    if names == [] then 0 else GrowthOf(names[0], val) + Growth(names[1..], val)
  }

  function GrowthOf(name: string, val: Values): int {
    if val(name).Some? then |val(name).value| - |Quote(name)| else 0
  }

  lemma NamedRest(toks: seq<Tok>, n: nat)
    requires Named(toks) && n <= |toks|
    ensures Named(toks[n..])
  {
  }

  lemma GrowthMore(name: string, names: seq<string>, val: Values)
    ensures Growth([name] + names, val) == GrowthOf(name, val) + Growth(names, val)
  {
    assert ([name] + names)[1..] == names;
  }

  lemma GrowthNothing(val: Values)
    ensures Growth([], val) == 0
  {
  }

  lemma {:induction false} RegroupedHoles(toks: seq<Tok>, val: Values)
    requires Named(toks)
    ensures Growth(Holes(Parse(Flatten(toks))), val) == Growth(Holes(toks), val) + Growth(Conjured(toks), val)
    decreases |toks|
  {
    hide MatchLen, MatchName, Placeholder, Growth, GrowthOf, Named;
    if toks != [] {
      var n := Regroup(toks);
      NamedRest(toks, n);
      RegroupedHoles(toks[n..], val);
      var parsed := Parse(Flatten(toks[n..]));
      if n > 1 {
        var name := MatchName(Flatten(toks));
        NoHoles(toks, n);
        assert Conjured(toks) == [name] + Conjured(toks[n..]);
        GrowthCons(Hole(name), parsed, val);
        GrowthMore(name, Conjured(toks[n..]), val);
      } else {
        GrowthCons(toks[0], parsed, val);
        assert toks == [toks[0]] + toks[1..];
        GrowthCons(toks[0], toks[1..], val);
      }
    } else {
      GrowthNothing(val);
    }
  }

  lemma GrowthCons(t: Tok, rest: seq<Tok>, val: Values)
    ensures Growth(Holes([t] + rest), val) == (if t.Hole? then GrowthOf(t.name, val) else 0) + Growth(Holes(rest), val)
  {
    assert ([t] + rest)[1..] == rest;
    if t.Hole? {
      assert ([t.name] + Holes(rest))[1..] == Holes(rest);
    } else {
      assert [] + Holes(rest) == Holes(rest);
    }
  }

  lemma {:induction false} NoHoles(toks: seq<Tok>, n: nat)
    requires n <= |toks| && forall i | 0 <= i < n :: toks[i].Ch?
    ensures Holes(toks) == Holes(toks[n..])
  {
    if n == 0 {
      assert toks[0..] == toks;
    } else {
      NoHoles(toks[1..], n - 1);
      assert toks[1..][n - 1..] == toks[n..];
    }
  }

  lemma {:induction false} RenderGrows(toks: seq<Tok>, val: Values)
    ensures |Render(toks, val)| == |Flatten(toks)| + Growth(Holes(toks), val)
  {
    if toks != [] {
      RenderGrows(toks[1..], val);
      assert toks == [toks[0]] + toks[1..];
      GrowthCons(toks[0], toks[1..], val);
    }
  }

  function QuoteSum(names: seq<string>): nat {
    if names == [] then 0 else |Quote(names[0])| + QuoteSum(names[1..])
  }

  /** However short the other values, a name lengthens a text by its own value less all the placeholders. */
  lemma {:induction false} GrowthAtLeast(names: seq<string>, val: Values, n: string)
    ensures Growth(names, val) + QuoteSum(names) >= 0
    ensures n in names ==> Growth(names, val) + QuoteSum(names) >= GrowthOf(n, val)
  {
    if names != [] {
      GrowthAtLeast(names[1..], val, n);
      assert n in names ==> n == names[0] || n in names[1..];
    }
  }

  lemma {:induction false} DecodeKeepsHoles(toks: seq<Tok>, plus: bool)
    requires DecodeToks(toks, plus).Some? && Named(toks)
    ensures Holes(DecodeToks(toks, plus).value) == Holes(toks) && Named(DecodeToks(toks, plus).value)
  {
    if toks != [] {
      var dt := DecodeToks(toks, plus).value;
      if toks[0] == Ch('%') {
        DecodeKeepsHoles(toks[3..], plus);
        NoHoles(toks, 3);
        assert dt[1..] == DecodeToks(toks[3..], plus).value;
      } else {
        DecodeKeepsHoles(toks[1..], plus);
        assert dt[1..] == DecodeToks(toks[1..], plus).value;
        assert toks[0] in toks;
      }
    }
  }

  /** The template of the raw path with its literals decoded. */
  function DecodedTemplate(raw: string, plus: bool): Option<seq<Tok>> {
    DecodeToks(Parse(raw), plus)
  }

  /** Every placeholder extracted from the raw path occurs literally in the decoded path. */
  lemma DecodedPathKeepsPlaceholders(raw: string, path: string)
    requires Decode(raw, false) == Some(path)
    ensures DecodedTemplate(raw, false).Some? && Flatten(DecodedTemplate(raw, false).value) == path
    ensures Holes(DecodedTemplate(raw, false).value) == Holes(Parse(raw)) && Named(DecodedTemplate(raw, false).value)
  {
    ParseFlattens(raw);
    DecodeCommutes(Parse(raw), false);
    DecodeKeepsHoles(Parse(raw), false);
  }

  /** No placeholder that decoding conjures up bears the name of an extracted one. */
  ghost predicate NothingConjured(raw: string, toks: seq<Tok>) {
    forall n | n in Conjured(toks) :: Quote(n) !in FindAll(raw)
  }

  lemma FoundIffHole(raw: string, n: string)
    ensures Quote(n) in FindAll(raw) <==> n in Holes(Parse(raw))
  {
    ScanFindsHoles(raw);
    var found, holes := FindAll(raw), Holes(Parse(raw));
    if Quote(n) in found {
      var i :| 0 <= i < |found| && found[i] == Quote(n);
      QuoteInjective(n, holes[i]);
    }
    if n in holes {
      var i :| 0 <= i < |holes| && holes[i] == n;
      assert found[i] == Quote(n);
    }
  }

  lemma PathRenders(raw: string, path: string, val: Values)
    requires Decode(raw, false) == Some(path) && DecodedTemplate(raw, false).Some?
    requires NothingConjured(raw, DecodedTemplate(raw, false).value)
    ensures Substitute(raw, path, val) == Render(DecodedTemplate(raw, false).value, val)
  {
    DecodedPathKeepsPlaceholders(raw, path);
    var toks := DecodedTemplate(raw, false).value;
    SubstituteRenders(raw, path, val);
    HolesAreFound(toks);
    forall t | t in toks && t.Hole? ensures Visible(raw, val)(t.name) == val(t.name) { FoundIffHole(raw, t.name); }
    RegroupedRender(toks, Visible(raw, val), val);
  }

  /** How much longer the new path is than the rendered raw template: by what the created placeholders grow. */
  lemma PathGrowsBy(raw: string, path: string, val: Values)
    requires Decode(raw, false) == Some(path) && DecodedTemplate(raw, false).Some?
    ensures var toks := DecodedTemplate(raw, false).value;
            |Substitute(raw, path, val)| == |Render(toks, val)| + Growth(Conjured(toks), Visible(raw, val))
  {
    hide Parse, Flatten, Render, Substitute, FindAll, Conjured, DecodedTemplate, Decode, Growth, Holes, Quote;
    DecodedPathKeepsPlaceholders(raw, path);
    var toks, seen := DecodedTemplate(raw, false).value, Visible(raw, val);
    SubstituteRenders(raw, path, val);
    HolesAreFound(toks);
    forall t | t in toks && t.Hole? ensures seen(t.name) == val(t.name) { FoundIffHole(raw, t.name); }
    RenderSame(toks, seen, val);
    ParseFlattens(path);
    RenderGrows(Parse(path), seen);
    RenderGrows(toks, seen);
    RegroupedHoles(toks, seen);
  }

  /**
   If decoding creates a placeholder of an extracted name, a value of that name that is
   long enough gives another path.
   */
  lemma ConjuredBreaksPath(raw: string, path: string, n: string, val: Values)
    requires Decode(raw, false) == Some(path) && DecodedTemplate(raw, false).Some?
    requires n in Conjured(DecodedTemplate(raw, false).value) && Quote(n) in FindAll(raw)
    requires val(n).Some?
    requires |val(n).value| > |Quote(n)| + QuoteSum(Conjured(DecodedTemplate(raw, false).value))
    ensures Substitute(raw, path, val) != Render(DecodedTemplate(raw, false).value, val)
  {
    hide Render, Substitute, FindAll, Conjured, DecodedTemplate, Decode, Growth, QuoteSum, Quote;
    PathGrowsBy(raw, path, val);
    GrowthAtLeast(Conjured(DecodedTemplate(raw, false).value), Visible(raw, val), n);
  }

  lemma {:induction false} NoBraceNoHoles(s: string)
    requires '{' !in s
    ensures Holes(Parse(s)) == []
  {
    if s != "" {
      assert s[0] in s && forall c | c in s[1..] :: c in s;
      NoBraceNoHoles(s[1..]);
    }
  }

  lemma HolesAfterQuote(name: string, rest: string)
    requires Name(name)
    ensures Holes(Parse(Quote(name) + rest)) == [name] + Holes(Parse(rest))
    ensures Quote(name) in FindAll(Quote(name) + rest)
  {
    var s := Quote(name) + rest;
    QuoteMatches(name, rest);
    assert s[|Quote(name)|..] == rest && s[..|Quote(name)|] == Quote(name);
    assert Parse(s)[1..] == Parse(rest);
  }

  /** One percent triplet. */
  lemma DecodeHex(hi: char, lo: char, rest: string, text: string)
    requires IsHex(hi) && IsHex(lo) && Decode(rest, false) == Some(text)
    ensures Decode(['%', hi, lo] + rest, false) == Some([HexByte(hi, lo)] + text)
  {
    assert (['%', hi, lo] + rest)[3..] == rest;
  }

  lemma EncodedBracesDecode()
    ensures Decode(ENCODED_BRACES, false) == Some("{{a}}{{a}}")
  {
    hide Decode;
    DecodedBraces();
    DecodeLiteral("{{a}}", "%7B%7Ba%7D%7D", "{{a}}");
    assert "{{a}}" + "{{a}}" == "{{a}}{{a}}";
  }

  lemma DecodedBraces()
    ensures Decode("%7B%7Ba%7D%7D", false) == Some("{{a}}")
  {
    BracesAfterA();
    SevenB();
    hide *;
    DecodeHex('7', 'B', "a%7D%7D", "a}}");
    assert ['%', '7', 'B'] + "a%7D%7D" == "%7Ba%7D%7D" && ['{'] + "a}}" == "{a}}";
    DecodeHex('7', 'B', "%7Ba%7D%7D", "{a}}");
    assert ['%', '7', 'B'] + "%7Ba%7D%7D" == "%7B%7Ba%7D%7D" && ['{'] + "{a}}" == "{{a}}";
  }

  lemma SevenB()
    ensures IsHex('7') && IsHex('B') && HexByte('7', 'B') == '{'
  {
  }

  lemma BracesAfterA()
    ensures Decode("a%7D%7D", false) == Some("a}}")
  {
    assert Decode("", false) == Some("") && HexByte('7', 'D') == '}' && IsHex('7') && IsHex('D');
    hide *;
    DecodeHex('7', 'D', "", "");
    assert ['%', '7', 'D'] + "" == "%7D" && ['}'] + "" == "}";
    DecodeHex('7', 'D', "%7D", "}");
    assert ['%', '7', 'D'] + "%7D" == "%7D%7D" && ['}'] + "}" == "}}";
    DecodeLiteral("a", "%7D%7D", "}}");
    assert "a" + "%7D%7D" == "a%7D%7D" && "a" + "}}" == "a}}";
  }

  lemma DecodeLiteral(w: string, rest: string, text: string)
    requires '%' !in w && '+' !in w && Decode(rest, false) == Some(text)
    ensures Decode(w + rest, false) == Some(w + text)
  {
    DecodePlain(w, rest, false);
  }

  lemma {:induction false} GrowthHasSource(names: seq<string>, val: Values)
    requires Growth(names, val) != 0
    ensures exists n | n in names :: GrowthOf(n, val) != 0
  {
    if GrowthOf(names[0], val) != 0 {
      assert names[0] in names;
    } else {
      GrowthHasSource(names[1..], val);
    }
  }

  const ENCODED_BRACES: string := "{{a}}" + "%7B%7Ba%7D%7D"

  /** What the created placeholder of that raw path grows by. */
  lemma EncodedBracesGrow(val: Values)
    ensures Decode(ENCODED_BRACES, false) == Some("{{a}}{{a}}") && DecodedTemplate(ENCODED_BRACES, false).Some?
    ensures Growth(Conjured(DecodedTemplate(ENCODED_BRACES, false).value), val) == GrowthOf("a", val)
  {
    hide Parse, Conjured, Flatten, FindAll, DecodeToks, Decode, Holes, Quote, Named;
    EncodedBracesDecode();
    DecodedPathKeepsPlaceholders(ENCODED_BRACES, "{{a}}{{a}}");
    EncodedBracesHoles();
    RegroupedHoles(DecodedTemplate(ENCODED_BRACES, false).value, val);
    assert ["a", "a"][1..] == ["a"] && Growth(["a"], val) == GrowthOf("a", val);
  }

  /** A raw path whose decoding creates a placeholder of an extracted name. */
  lemma EncodedBracesConjure()
    ensures Decode(ENCODED_BRACES, false) == Some("{{a}}{{a}}") && DecodedTemplate(ENCODED_BRACES, false).Some?
    ensures !NothingConjured(ENCODED_BRACES, DecodedTemplate(ENCODED_BRACES, false).value)
  {
    hide Parse, Conjured, Flatten, FindAll, DecodeToks, Decode, Holes, Named, DecodedTemplate, Growth;
    var val: Values := n => if n == "a" then Some(Quote("a") + "+") else None;
    EncodedBracesGrow(val);
    EncodedBracesHoles();
    GrowthHasSource(Conjured(DecodedTemplate(ENCODED_BRACES, false).value), val);
  }

  lemma EncodedBracesHoles()
    ensures Holes(Parse(ENCODED_BRACES)) == ["a"] && Quote("a") in FindAll(ENCODED_BRACES)
    ensures Holes(Parse("{{a}}{{a}}")) == ["a", "a"]
  {
    hide Parse, FindAll, Holes, MatchLen, MatchName;
    var rest := "%7B%7Ba%7D%7D";
    assert Name("a") && Quote("a") == "{{a}}";
    assert ENCODED_BRACES == Quote("a") + rest && "{{a}}{{a}}" == Quote("a") + "{{a}}" && "{{a}}" == Quote("a") + "";
    HolesAfterQuote("a", rest);
    HolesAfterQuote("a", "{{a}}");
    HolesAfterQuote("a", "");
    NoBraceNoHoles(rest);
    NoBraceNoHoles("");
  }

  // -------------------------------------------------------------------- query

  function Escaped(val: ByteValues): Values {
    n => if val(n).Some? then Some(Escape(val(n).value)) else None
  }

  /** The new RawQuery. */
  function RenderedQuery(raw: string, val: ByteValues): string {
    Substitute(raw, raw, Escaped(val))
  }

  /** A byte that neither placeholders nor escaped values contain: '&', '=', ';', '#', ... */
  predicate Structural(c: char) {
    !Escapable(c) && !NameChar(c) && c != '{' && c != '}'
  }

  lemma {:induction false} NameRunStops(a: string, sep: char, b: string)
    requires Structural(sep)
    ensures NameRun(a + [sep] + b) == NameRun(a)
  {
    var s := a + [sep] + b;
    if a != "" {
      NameRunStops(a[1..], sep, b);
      assert s[1..] == a[1..] + [sep] + b;
    }
  }

  /** A match never reaches over a structural byte. */
  lemma MatchStops(a: string, sep: char, b: string)
    requires Structural(sep)
    ensures MatchLen(a + [sep] + b) == MatchLen(a)
    ensures MatchLen(a) > 0 ==> MatchName(a + [sep] + b) == MatchName(a)
  {
    var s := a + [sep] + b;
    if |a| >= 2 {
      NameRunStops(a[2..], sep, b);
      assert s[2..] == a[2..] + [sep] + b;
    }
  }

  /** The first token of a nonempty text. */
  function Head(s: string): Tok
    requires s != ""
  {
    if MatchLen(s) > 0 then Hole(MatchName(s)) else Ch(s[0])
  }

  function HeadLen(s: string): (n: nat)
    requires s != ""
    ensures 0 < n <= |s|
  {
    if MatchLen(s) > 0 then MatchLen(s) else 1
  }

  lemma ParseHead(s: string)
    requires s != ""
    ensures Parse(s) == [Head(s)] + Parse(s[HeadLen(s)..])
  {
  }

  lemma HeadStops(a: string, sep: char, b: string)
    requires Structural(sep) && a != ""
    ensures Head(a + [sep] + b) == Head(a) && HeadLen(a + [sep] + b) == HeadLen(a)
  {
    MatchStops(a, sep, b);
  }

  lemma SepIsHead(sep: char, b: string)
    requires Structural(sep)
    ensures Head([sep] + b) == Ch(sep) && HeadLen([sep] + b) == 1
  {
  }

  lemma {:induction false} ParseSplits(a: string, sep: char, b: string)
    requires Structural(sep)
    ensures Parse(a + [sep] + b) == Parse(a) + [Ch(sep)] + Parse(b)
  {
    hide Parse, Head, HeadLen, Structural;
    var s := a + [sep] + b;
    ParseHead(s);
    if a == "" {
      assert s == [sep] + b;
      SepIsHead(sep, b);
      assert s[1..] == b;
      ParseNothing();
      assert Parse(a) + [Ch(sep)] == [Ch(sep)];
    } else {
      HeadStops(a, sep, b);
      ParseHead(a);
      var n := HeadLen(a);
      ParseSplits(a[n..], sep, b);
      assert s[n..] == a[n..] + [sep] + b;
    }
  }

  lemma {:induction false} RenderedAvoids(toks: seq<Tok>, val: ByteValues, sep: char)
    requires Structural(sep) && Named(toks) && Ch(sep) !in toks
    ensures sep !in Render(toks, Escaped(val))
  {
    if toks != [] {
      RenderedAvoids(toks[1..], val, sep);
      var text := RenderTok(toks[0], Escaped(val));
      assert toks[0] in toks;
      if toks[0].Hole? && val(toks[0].name).Some? {
        EscapeAlphabet(val(toks[0].name).value);
      } else if toks[0].Hole? {
        assert forall i | 0 <= i < |text| :: text[i] == '{' || text[i] == '}' || text[i] in toks[0].name;
      }
      assert sep !in text;
    }
  }

  lemma {:induction false} CharsComeFromText(toks: seq<Tok>, c: char)
    requires c !in Flatten(toks)
    ensures Ch(c) !in toks
  {
    if toks != [] {
      assert Flatten(toks) == toks[0].Text() + Flatten(toks[1..]);
      assert c !in toks[0].Text() && c !in Flatten(toks[1..]);
      CharsComeFromText(toks[1..], c);
    }
  }

  /** Rendering a text that a structural byte divides renders its two sides. */
  lemma RenderAround(a: string, sep: char, b: string, val: ByteValues)
    requires Structural(sep)
    ensures RenderedQuery(a + [sep] + b, val) == RenderedQuery(a, val) + [sep] + RenderedQuery(b, val)
  {
    var v := Escaped(val);
    PipelineRenders(a, v);
    PipelineRenders(b, v);
    PipelineRenders(a + [sep] + b, v);
    ParseSplits(a, sep, b);
    RenderConcat(Parse(a) + [Ch(sep)], Parse(b), v);
    RenderConcat(Parse(a), [Ch(sep)], v);
    assert Render([Ch(sep)], v) == [sep] by { assert [Ch(sep)][1..] == []; }
  }

  function RenderParts(parts: seq<string>, val: ByteValues): seq<string> {
    if parts == [] then [] else [RenderedQuery(parts[0], val)] + RenderParts(parts[1..], val)
  }

  lemma {:induction false} PartsRender(parts: seq<string>, sep: char, val: ByteValues)
    requires Structural(sep) && parts != [] && forall p | p in parts :: sep !in p
    ensures Split(RenderedQuery(Join(parts, sep), val), sep) == RenderParts(parts, val)
  {
    var p := parts[0];
    assert p in parts;
    ParseFlattens(p);
    CharsComeFromText(Parse(p), sep);
    RenderedAvoids(Parse(p), val, sep);
    PipelineRenders(p, Escaped(val));
    SplitOne(RenderedQuery(p, val), sep);
    if |parts| == 1 {
      assert parts[1..] == [];
    } else {
      PartsRender(parts[1..], sep, val);
      RenderAround(p, sep, Join(parts[1..], sep), val);
      SplitConcat(RenderedQuery(p, val), RenderedQuery(Join(parts[1..], sep), val), sep);
    }
  }

  /**
   Substitution keeps the structure of the query: splitting the rendered query
   at '&', at '=' or at any other structural byte gives the renderings of the
   parts of the original.
   */
  lemma QueryStructureKept(raw: string, sep: char, val: ByteValues)
    requires Structural(sep)
    ensures Split(RenderedQuery(raw, val), sep) == RenderParts(Split(raw, sep), val)
  {
    SplitPieces(raw, sep);
    JoinSplit(raw, sep);
    PartsRender(Split(raw, sep), sep, val);
  }

  lemma AmpersandAndEqualsAreStructural()
    ensures Structural('&') && Structural('=')
  {
  }

  function Plain(val: ByteValues): Values {
    n => if val(n).Some? then Some(val(n).value) else None
  }

  lemma {:induction false} DecodeRendered(toks: seq<Tok>, val: ByteValues)
    requires Named(toks) && DecodeToks(toks, true).Some?
    ensures Decode(Render(toks, Escaped(val)), true) == Some(Render(DecodeToks(toks, true).value, Plain(val)))
  {
    if toks != [] {
      var dt := DecodeToks(toks, true).value;
      var text := Render(toks, Escaped(val));
      assert toks[0] in toks;
      if toks[0] == Ch('%') {
        var rest := toks[3..];
        DecodeRendered(rest, val);
        assert toks == toks[..3] + rest;
        RenderConcat(toks[..3], rest, Escaped(val));
        RenderChars(toks[..3], Escaped(val));
        FlattenChars(toks, 3);
        FlattenThree(toks[..3]);
        assert dt[1..] == DecodeToks(rest, true).value;
        assert text[3..] == Render(rest, Escaped(val));
      } else {
        var rest := toks[1..];
        DecodeRendered(rest, val);
        var tail := Render(rest, Escaped(val));
        assert dt[1..] == DecodeToks(rest, true).value;
        if toks[0].Ch? {
          assert text[1..] == tail;
        } else if val(toks[0].name).Some? {
          DecodeEscaped(val(toks[0].name).value, tail);
        } else {
          QuoteIsPlain(toks[0].name);
          DecodePlain(Quote(toks[0].name), tail, true);
        }
      }
    }
  }

  lemma FlattenThree(toks: seq<Tok>)
    requires |toks| == 3 && forall i | 0 <= i < 3 :: toks[i].Ch?
    ensures Flatten(toks) == [toks[0].c, toks[1].c, toks[2].c]
  {
    assert toks[1..][1..] == toks[2..] && toks[2..][1..] == [];
    assert Flatten(toks[2..]) == [toks[2].c] + Flatten(toks[2..][1..]);
    assert Flatten(toks[1..]) == [toks[1].c] + Flatten(toks[2..]);
  }

  /**
   When the literals of a query are well-formed percent-encodings, decoding the
   rendered query gives the decoded literals interleaved with the printed values.
   */
  lemma RenderedQueryDecodes(raw: string, val: ByteValues)
    requires DecodedTemplate(raw, true).Some?
    ensures Decode(RenderedQuery(raw, val), true) == Some(Render(DecodedTemplate(raw, true).value, Plain(val)))
  {
    ParseFlattens(raw);
    PipelineRenders(raw, Escaped(val));
    DecodeRendered(Parse(raw), val);
  }
}
