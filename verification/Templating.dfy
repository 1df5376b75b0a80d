/**
 URL templating: the replacement table, the left-to-right replacer, and the
 proof that together they render the parsed template.
 */
module Templating {
  import opened Options
  import opened Placeholders
  import opened PercentEncoding

  /** The text that replaces a name, if the name resolves. */
  type Values = string -> Option<string>

  datatype Pair = Pair(from: string, to: string)

  // ---------------------------------------------------------------- replacer

  /** The first pair, in argument order, whose from string begins s. */
  function FirstMatch(pairs: seq<Pair>, s: string): Option<Pair> {
    if pairs == [] then None
    else if pairs[0].from <= s then Some(pairs[0])
    else FirstMatch(pairs[1..], s)
  }

  predicate NonEmpty(pairs: seq<Pair>) {
    forall p | p in pairs :: p.from != ""
  }

  lemma {:induction false} FirstMatchIsPair(pairs: seq<Pair>, s: string)
    ensures FirstMatch(pairs, s).Some? ==> FirstMatch(pairs, s).value in pairs && FirstMatch(pairs, s).value.from <= s
  {
    if pairs != [] && !(pairs[0].from <= s) { FirstMatchIsPair(pairs[1..], s); }
  }

  /** strings.NewReplacer(pairs).Replace(s): at each position the first pair that matches, without rescanning. */
  function Replace(pairs: seq<Pair>, s: string): string
    requires NonEmpty(pairs)
  {
    if s == "" then ""
    else
      FirstMatchIsPair(pairs, s);
      match FirstMatch(pairs, s)
      case Some(p) => p.to + Replace(pairs, s[|p.from|..])
      case None => [s[0]] + Replace(pairs, s[1..])
  }

  /** The table that Run builds from extracted placeholders, skipping the names that do not resolve. */
  function Table(placeholders: seq<string>, val: Values): seq<Pair>
    requires forall q | q in placeholders :: |q| >= 4
  {
    if placeholders == [] then []
    else
      var q := placeholders[0];
      (match val(q[2..|q| - 2])
       case Some(text) => [Pair(q, text)]
       case None => [])
      + Table(placeholders[1..], val)
  }

  /** The structural renderer: each hole with a value becomes that value, everything else stays. */
  function Render(toks: seq<Tok>, val: Values): string {
    if toks == [] then ""
    else RenderTok(toks[0], val) + Render(toks[1..], val)
  }

  function RenderTok(tok: Tok, val: Values): string {
    if tok.Hole? && val(tok.name).Some? then val(tok.name).value else tok.Text()
  }

  lemma {:induction false} RenderConcat(a: seq<Tok>, b: seq<Tok>, val: Values)
    ensures Render(a + b, val) == Render(a, val) + Render(b, val)
  {
    if a == [] {
      assert a + b == b;
    } else {
      assert (a + b)[1..] == a[1..] + b;
      RenderConcat(a[1..], b, val);
    }
  }

  lemma {:induction false} RenderSame(toks: seq<Tok>, val: Values, val': Values)
    requires forall t | t in toks && t.Hole? :: val(t.name) == val'(t.name)
    ensures Render(toks, val) == Render(toks, val')
  {
    if toks != [] {
      assert toks[0] in toks;
      RenderSame(toks[1..], val, val');
    }
  }

  // -------------------------------------------------- replacing is rendering

  predicate AllPlaceholders(pairs: seq<Pair>) {
    forall p | p in pairs :: Placeholder(p.from)
  }

  /** What the table says about a name: its first pair wins. */
  function Assigned(pairs: seq<Pair>, name: string): Option<string> {
    if pairs == [] then None
    else if pairs[0].from == Quote(name) then Some(pairs[0].to)
    else Assigned(pairs[1..], name)
  }

  /** At any position at most one placeholder can match, so the order of the pairs cannot matter there. */
  lemma {:induction false} MatchIsAssigned(pairs: seq<Pair>, s: string)
    requires AllPlaceholders(pairs)
    ensures MatchLen(s) == 0 ==> FirstMatch(pairs, s).None?
    ensures MatchLen(s) > 0 ==> FirstMatch(pairs, s) == match Assigned(pairs, MatchName(s))
                                                        case Some(text) => Some(Pair(Quote(MatchName(s)), text))
                                                        case None => None
  {
    hide MatchLen, MatchName;
    if pairs != [] {
      var from := pairs[0].from;
      assert pairs[0] in pairs;
      if from <= s {
        assert s[..|from|] == from;
        PrefixFree(s, |from|);
      }
      if MatchLen(s) > 0 {
        MatchIsPlaceholder(s);
        assert from == Quote(MatchName(s)) ==> from <= s;
      }
      MatchIsAssigned(pairs[1..], s);
    }
  }

  lemma {:induction false} ReplaceIsRender(pairs: seq<Pair>, s: string)
    requires AllPlaceholders(pairs) && NonEmpty(pairs)
    ensures Replace(pairs, s) == Render(Parse(s), n => Assigned(pairs, n))
  {
    hide MatchLen, MatchName, Placeholder;
    if s != "" {
      var n := MatchLen(s);
      MatchIsAssigned(pairs, s);
      if n > 0 {
        MatchIsPlaceholder(s);
        ReplaceIsRender(pairs, s[n..]);
        if Assigned(pairs, MatchName(s)).None? {
          ReplaceThrough(pairs, s, n);
        }
      } else {
        ReplaceIsRender(pairs, s[1..]);
      }
    }
  }

  /** A placeholder that is not in the table is copied whole. */
  lemma ReplaceThrough(pairs: seq<Pair>, s: string, n: nat)
    requires AllPlaceholders(pairs) && NonEmpty(pairs)
    requires n == MatchLen(s) > 0 && FirstMatch(pairs, s).None?
    ensures Replace(pairs, s) == s[..n] + Replace(pairs, s[n..])
  {
    hide MatchLen, MatchName, Placeholder;
    assert s[0..] == s;
    forall j | 0 < j < n ensures FirstMatch(pairs, s[j..]).None? {
      if MatchLen(s[j..]) > 0 { NoOverlap(s, 0, j); }
      MatchIsAssigned(pairs, s[j..]);
    }
    CopyThrough(pairs, s, n);
  }

  lemma {:induction false} CopyThrough(pairs: seq<Pair>, s: string, n: nat)
    requires NonEmpty(pairs) && n <= |s|
    requires forall j | 0 <= j < n :: FirstMatch(pairs, s[j..]).None?
    ensures Replace(pairs, s) == s[..n] + Replace(pairs, s[n..])
  {
    if n == 0 {
      assert s[0..] == s;
    } else {
      assert s[0..] == s;
      forall j | 0 <= j < n - 1 ensures FirstMatch(pairs, s[1..][j..]).None? {
        assert s[1..][j..] == s[j + 1..];
      }
      CopyThrough(pairs, s[1..], n - 1);
      assert s[1..][n - 1..] == s[n..];
      assert s[..n] == [s[0]] + s[1..][..n - 1];
    }
  }

  // ------------------------------------------------------ the whole pipeline

  lemma {:induction false} FoundArePlaceholders(s: string)
    ensures forall q | q in FindAll(s) :: Placeholder(q) && |q| > 4
  {
    hide MatchLen, MatchName;
    if s != "" {
      var n := MatchLen(s);
      FoundArePlaceholders(if n > 0 then s[n..] else s[1..]);
      if n > 0 { MatchIsPlaceholder(s); }
    }
  }

  /** The table assigns exactly the resolvable names among the extracted placeholders. */
  lemma {:induction false} TableAssigns(qs: seq<string>, val: Values)
    requires forall q | q in qs :: Placeholder(q) && |q| > 4
    ensures AllPlaceholders(Table(qs, val)) && NonEmpty(Table(qs, val))
    ensures forall n :: Assigned(Table(qs, val), n) == if Quote(n) in qs then val(n) else None
  {
    if qs != [] {
      var q := qs[0];
      assert q in qs;
      TableAssigns(qs[1..], val);
      var name := q[2..|q| - 2];
      assert q == Quote(name);
      var rest := Table(qs[1..], val);
      assert if val(name).Some? then Table(qs, val)[1..] == rest else Table(qs, val) == rest;
      forall n ensures Assigned(Table(qs, val), n) == if Quote(n) in qs then val(n) else None {
        if Quote(n) == q { QuoteInjective(n, name); }
        assert Quote(n) in qs <==> Quote(n) == q || Quote(n) in qs[1..];
      }
    }
  }

  /** Extracting from one text and replacing in another. */
  function Substitute(source: string, target: string, val: Values): string {
    FoundArePlaceholders(source);
    TableAssigns(FindAll(source), val);
    Replace(Table(FindAll(source), val), target)
  }

  /** The values that Substitute can insert. */
  function Visible(source: string, val: Values): Values {
    n => if Quote(n) in FindAll(source) then val(n) else None
  }

  lemma SubstituteRenders(source: string, target: string, val: Values)
    ensures Substitute(source, target, val) == Render(Parse(target), Visible(source, val))
  {
    FoundArePlaceholders(source);
    TableAssigns(FindAll(source), val);
    var pairs := Table(FindAll(source), val);
    ReplaceIsRender(pairs, target);
    RenderSame(Parse(target), n => Assigned(pairs, n), Visible(source, val));
  }

  lemma {:induction false} HolesAreFound(toks: seq<Tok>)
    ensures forall t | t in toks && t.Hole? :: t.name in Holes(toks)
  {
    if toks != [] { HolesAreFound(toks[1..]); }
  }

  lemma VisibleOnOwnHoles(s: string, val: Values)
    ensures forall t | t in Parse(s) && t.Hole? :: Visible(s, val)(t.name) == val(t.name)
  {
    HolesAreFound(Parse(s));
    ScanFindsHoles(s);
  }

  /**
   The refinement: extracting the placeholders of a text, resolving them and
   replacing left to right renders its template.  Each hole that resolves is
   replaced once and never re-scanned; every other character is kept.
   */
  lemma PipelineRenders(s: string, val: Values)
    ensures Substitute(s, s, val) == Render(Parse(s), val)
  {
    SubstituteRenders(s, s, val);
    VisibleOnOwnHoles(s, val);
    RenderSame(Parse(s), Visible(s, val), val);
  }

  // -------------------------------------------------------- decoded templates

  /** Decoding the literals of a template and leaving its holes alone. */
  function DecodeToks(toks: seq<Tok>, plus: bool): Option<seq<Tok>> {
    if toks == [] then Some([])
    else
      match toks[0]
      case Hole(_) => PrependTok(toks[0], DecodeToks(toks[1..], plus))
      case Ch(c) =>
        if c != '%' then PrependTok(Ch(if c == '+' && plus then ' ' else c), DecodeToks(toks[1..], plus))
        else if |toks| < 3 || !toks[1].Ch? || !toks[2].Ch? || !IsHex(toks[1].c) || !IsHex(toks[2].c) then None
        else PrependTok(Ch(HexByte(toks[1].c, toks[2].c)), DecodeToks(toks[3..], plus))
  }

  function PrependTok(t: Tok, rest: Option<seq<Tok>>): Option<seq<Tok>> {
    match rest
    case None => None
    case Some(toks) => Some([t] + toks)
  }

  function FlattenOption(toks: Option<seq<Tok>>): Option<string> {
    match toks
    case None => None
    case Some(ts) => Some(Flatten(ts))
  }

  lemma QuoteIsPlain(name: string)
    requires Name(name)
    ensures '%' !in Quote(name) && '+' !in Quote(name)
  {
    assert forall i | 0 <= i < |Quote(name)| ::
             Quote(name)[i] == '{' || Quote(name)[i] == '}' || Quote(name)[i] in name;
    assert forall c | c in name :: NameChar(c);
  }

  /** Decoding a text decodes exactly the literals of its template: a percent triplet never reaches into a hole. */
  lemma {:induction false} DecodeCommutes(toks: seq<Tok>, plus: bool)
    requires Named(toks)
    ensures Decode(Flatten(toks), plus) == FlattenOption(DecodeToks(toks, plus))
  {
    if toks != [] {
      var s, rest := Flatten(toks), toks[1..];
      DecodeCommutes(rest, plus);
      match toks[0]
      case Hole(name) =>
        assert toks[0] in toks;
        QuoteIsPlain(name);
        DecodePlain(Quote(name), Flatten(rest), plus);
      case Ch(c) =>
        assert s[1..] == Flatten(rest);
        if c == '%' {
          if |toks| >= 3 { DecodeCommutes(toks[3..], plus); }
          DecodeTriplet(toks, plus);
        }
    }
  }

  lemma DecodeTriplet(toks: seq<Tok>, plus: bool)
    requires Named(toks) && toks != [] && toks[0] == Ch('%')
    requires |toks| >= 3 ==> Decode(Flatten(toks[3..]), plus) == FlattenOption(DecodeToks(toks[3..], plus))
    ensures Decode(Flatten(toks), plus) == FlattenOption(DecodeToks(toks, plus))
  {
    var s := Flatten(toks);
    FlattenHead(toks);
    if |toks| >= 2 {
      FlattenHead(toks[1..]);
      assert toks[1..][1..] == toks[2..] && s[1..] == Flatten(toks[1..]);
      if toks[1].Ch? && |toks| >= 3 {
        FlattenHead(toks[2..]);
        assert toks[2..][1..] == toks[3..] && s[2..] == Flatten(toks[2..]);
        if toks[2].Ch? { assert s[3..] == Flatten(toks[3..]); }
      }
    }
  }

  /** A template's text starts with a literal character or with the brace of a hole. */
  lemma FlattenHead(toks: seq<Tok>)
    requires toks != []
    ensures Flatten(toks) == toks[0].Text() + Flatten(toks[1..]) && |toks[0].Text()| > 0
    ensures Flatten(toks)[0] == if toks[0].Ch? then toks[0].c else '{'
    ensures toks[0].Ch? ==> Flatten(toks)[1..] == Flatten(toks[1..])
  {
  }
}
