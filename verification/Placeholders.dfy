/**
 The placeholders of a URL template: the scan for `{{[0-9A-Za-z._-]+}}`, and the
 template it induces as literal characters and holes.
 */
module Placeholders {
  import opened Strings

  predicate NameChar(c: char) {
    '0' <= c <= '9' || 'A' <= c <= 'Z' || 'a' <= c <= 'z' || c == '.' || c == '_' || c == '-'
  }

  predicate Name(s: string) {
    s != "" && forall c | c in s :: NameChar(c)
  }

  /** The string is one placeholder. */
  predicate Placeholder(s: string) {
    |s| > 4 && s[..2] == "{{" && s[|s| - 2..] == "}}" && Name(s[2..|s| - 2])
  }

  function Quote(name: string): string {
    "{{" + name + "}}"
  }

  /** The number of name characters s begins with. */
  function NameRun(s: string): (n: nat)
    ensures n <= |s| && (n < |s| ==> !NameChar(s[n]))
    ensures forall i | 0 <= i < n :: NameChar(s[i])
  {
    if s == "" || !NameChar(s[0]) then 0 else 1 + NameRun(s[1..])
  }

  /** The length of the match of the regular expression at the start of s, 0 when there is none. */
  function MatchLen(s: string): (n: nat)
    ensures n <= |s| && (n > 0 ==> n > 4)
  {
    if |s| < 2 || s[0] != '{' || s[1] != '{' then 0
    else
      var run := NameRun(s[2..]);
      if run > 0 && run + 4 <= |s| && s[run + 2] == '}' && s[run + 3] == '}' then run + 4 else 0
  }

  function MatchName(s: string): string
    requires MatchLen(s) > 0
  {
    s[2..MatchLen(s) - 2]
  }

  /** A match is a placeholder, spelled by its name. */
  lemma MatchIsPlaceholder(s: string)
    requires MatchLen(s) > 0
    ensures Placeholder(s[..MatchLen(s)]) && Name(MatchName(s)) && s[..MatchLen(s)] == Quote(MatchName(s))
  {
    var n := MatchLen(s);
    var w := s[..n];
    assert w[2..n - 2] == MatchName(s);
    forall c | c in MatchName(s) ensures NameChar(c) {
      var i :| 0 <= i < |MatchName(s)| && c == MatchName(s)[i];
      assert c == s[2..][i];
    }
  }

  /** The only prefix of a string that can be a placeholder is its match: no placeholder is a prefix of another. */
  lemma PrefixFree(s: string, n: nat)
    requires n <= |s| && Placeholder(s[..n])
    ensures MatchLen(s) == n
  {
    var w := s[..n];
    assert w[0] == w[..2][0] && w[1] == w[..2][1];
    assert w[n - 2] == w[n - 2..][0] && w[n - 1] == w[n - 2..][1];
    var run := NameRun(s[2..]);
    forall i | 0 <= i < n - 4 ensures NameChar(s[2..][i]) {
      assert s[2..][i] == w[2..n - 2][i];
    }
    assert !NameChar(s[2..][n - 4]);
  }

  lemma QuoteMatches(name: string, rest: string)
    requires Name(name)
    ensures MatchLen(Quote(name) + rest) == |Quote(name)| && MatchName(Quote(name) + rest) == name
    ensures Placeholder(Quote(name))
  {
    var s := Quote(name) + rest;
    assert s[..|Quote(name)|] == Quote(name);
    assert Quote(name)[2..|name| + 2] == name;
    PrefixFree(s, |Quote(name)|);
  }

  lemma QuoteInjective(a: string, b: string)
    requires Quote(a) == Quote(b)
    ensures a == b
  {
    assert Quote(a)[2..|a| + 2] == a && Quote(b)[2..|b| + 2] == b;
  }

  /** varsTmpl.FindAllString(s, -1): the leftmost match, then on from its end. */
  function FindAll(s: string): seq<string> {
    if s == "" then []
    else if MatchLen(s) > 0 then [s[..MatchLen(s)]] + FindAll(s[MatchLen(s)..])
    else FindAll(s[1..])
  }

  // ------------------------------------------------------------ the alphabet

  lemma NameAlphabet(c: char)
    ensures NameChar(c) <==> c in DECIMALS || c in UPPERS || c in LOWERS || c in "._-"
  {
    hide *;
    DigitIsDecimal(c);
    UpperIsListed(c);
    LowerIsListed(c);
    NameCharKinds(c);
  }

  lemma NameCharKinds(c: char)
    ensures NameChar(c) <==> IsDigit(c) || 'A' <= c <= 'Z' || 'a' <= c <= 'z' || c in "._-"
  {
  }

  lemma {:induction false} MatchesAreWithin(s: string)
    ensures forall i | 0 <= i < |FindAll(s)| :: |FindAll(s)[i]| <= |s|
  {
    if s != "" { MatchesAreWithin(if MatchLen(s) > 0 then s[MatchLen(s)..] else s[1..]); }
  }

  /** A braced text is extracted whole iff it is not empty and spelled with letters, digits and "._-". */
  lemma ExtractedIffSpelled(name: string)
    ensures FindAll("{{" + name + "}}") == ["{{" + name + "}}"] <==>
            && name != ""
            && forall c | c in name :: c in DECIMALS || c in UPPERS || c in LOWERS || c in "._-"
  {
    var s := "{{" + name + "}}";
    forall c | c in name { NameAlphabet(c); }
    assert s[2..|s| - 2] == name;
    if Name(name) {
      QuoteMatches(name, "");
      assert Quote(name) + "" == s;
      assert s[..|s|] == s && s[|s|..] == "";
    }
    if FindAll(s) == [s] {
      if MatchLen(s) > 0 {
        assert FindAll(s)[0] == s[..MatchLen(s)];
        MatchIsPlaceholder(s);
      } else {
        MatchesAreWithin(s[1..]);
        assert |FindAll(s[1..])[0]| < |s|;
      }
    }
  }

  // --------------------------------------------------------------- templates

  datatype Tok = Ch(c: char) | Hole(name: string) {
    function Text(): string {
      match this
      case Ch(c) => [c]
      case Hole(name) => Quote(name)
    }
  }

  /** The text a template was parsed from. */
  function Flatten(toks: seq<Tok>): string {
    if toks == [] then "" else toks[0].Text() + Flatten(toks[1..])
  }

  function Parse(s: string): seq<Tok> {
    if s == "" then []
    else if MatchLen(s) > 0 then [Hole(MatchName(s))] + Parse(s[MatchLen(s)..])
    else [Ch(s[0])] + Parse(s[1..])
  }

  /** The names of the holes, in order. */
  function Holes(toks: seq<Tok>): seq<string> {
    if toks == [] then []
    else (if toks[0].Hole? then [toks[0].name] else []) + Holes(toks[1..])
  }

  predicate Named(toks: seq<Tok>) {
    forall t | t in toks :: t.Hole? ==> Name(t.name)
  }

  lemma {:induction false} ParseFlattens(s: string)
    ensures Flatten(Parse(s)) == s && Named(Parse(s))
  {
    hide MatchLen, MatchName, Placeholder, Name;
    if s != "" {
      var n := if MatchLen(s) > 0 then MatchLen(s) else 1;
      var t := Parse(s)[0];
      ParseFlattens(s[n..]);
      assert s == s[..n] + s[n..];
      if MatchLen(s) > 0 { MatchIsPlaceholder(s); }
      assert t.Text() == s[..n];
      assert Parse(s) == [t] + Parse(s[n..]);
      assert ([t] + Parse(s[n..]))[1..] == Parse(s[n..]);
    }
  }

  /** No literal character of the template could begin a placeholder. */
  predicate Tight(toks: seq<Tok>) {
    forall k | 0 <= k < |toks| && toks[k].Ch? :: MatchLen(Flatten(toks[k..])) == 0
  }

  lemma {:induction false} ParseIsTight(s: string)
    ensures Tight(Parse(s))
  {
    if s != "" {
      var n := MatchLen(s);
      var rest := if n > 0 then s[n..] else s[1..];
      ParseIsTight(rest);
      ParseFlattens(s);
      var toks := Parse(s);
      assert toks[1..] == Parse(rest);
      forall k | 0 <= k < |toks| && toks[k].Ch? ensures MatchLen(Flatten(toks[k..])) == 0 {
        if k > 0 { assert toks[k..] == toks[1..][k - 1..]; } else { assert toks[0..] == toks; }
      }
    }
  }

  /** A text is a template in one way only. */
  lemma {:induction false} ParseUnique(toks: seq<Tok>)
    requires Named(toks) && Tight(toks)
    ensures Parse(Flatten(toks)) == toks
  {
    if toks != [] {
      var s, rest := Flatten(toks), toks[1..];
      forall k | 0 <= k < |rest| && rest[k].Ch? ensures MatchLen(Flatten(rest[k..])) == 0 {
        assert rest[k..] == toks[k + 1..];
      }
      ParseUnique(rest);
      match toks[0]
      case Ch(c) =>
        assert toks[0..] == toks;
        assert s[1..] == Flatten(rest);
      case Hole(name) =>
        QuoteMatches(name, Flatten(rest));
        assert s[|Quote(name)|..] == Flatten(rest);
    }
  }

  /** The scan extracts the holes of the template, in order. */
  lemma {:induction false} ScanFindsHoles(s: string)
    ensures |FindAll(s)| == |Holes(Parse(s))|
    ensures forall i | 0 <= i < |FindAll(s)| :: FindAll(s)[i] == Quote(Holes(Parse(s))[i])
  {
    hide MatchLen, MatchName, Placeholder, Quote;
    if s != "" {
      var n := MatchLen(s);
      ScanFindsHoles(if n > 0 then s[n..] else s[1..]);
      if n > 0 {
        MatchIsPlaceholder(s);
      }
    }
  }

  // ------------------------------------------------------------- no overlap

  /** Two placeholders in a string never overlap. */
  lemma NoOverlap(s: string, i: nat, j: nat)
    requires i < j <= |s| && MatchLen(s[i..]) > 0 && MatchLen(s[j..]) > 0
    ensures i + MatchLen(s[i..]) <= j
  {
    var w, v := s[i..], s[j..];
    assert v[0] == '{' && v[1] == '{' && w[0] == '{' && w[1] == '{';
    assert forall d | j - i <= d < |w| :: w[d] == v[d - (j - i)];
    assert forall d | 0 <= d < NameRun(w[2..]) :: NameChar(w[2..][d]) && w[2..][d] == w[d + 2];
  }

  /** Where token k begins in the text. */
  function Offset(toks: seq<Tok>, k: nat): nat
    requires k <= |toks|
  {
    |Flatten(toks[..k])|
  }

  lemma FlattenNothing()
    ensures Flatten([]) == ""
  {
  }

  lemma FlattenCons(t: Tok, rest: seq<Tok>)
    ensures Flatten([t] + rest) == t.Text() + Flatten(rest)
  {
    assert ([t] + rest)[1..] == rest;
  }

  lemma {:induction false} FlattenSplit(toks: seq<Tok>, k: nat)
    requires k <= |toks|
    ensures Flatten(toks) == Flatten(toks[..k]) + Flatten(toks[k..])
  {
    hide Flatten;
    if k == 0 {
      assert toks[0..] == toks && toks[..0] == [];
      FlattenNothing();
    } else {
      var t, rest := toks[0], toks[1..];
      FlattenSplit(rest, k - 1);
      FlattenCons(t, rest);
      FlattenCons(t, rest[..k - 1]);
      assert toks == [t] + rest && toks[..k] == [t] + rest[..k - 1] && rest[k - 1..] == toks[k..];
      var a, b := Flatten(rest[..k - 1]), Flatten(toks[k..]);
      assert t.Text() + (a + b) == t.Text() + a + b;
    }
  }

  /**
   Every occurrence of a placeholder anywhere in the text is a hole of its
   template, and the scan misses none.
   */
  lemma {:induction false} OccurrencesAreHoles(s: string, i: nat) returns (k: nat)
    requires i <= |s| && MatchLen(s[i..]) > 0
    ensures k < |Parse(s)| && Offset(Parse(s), k) == i && Parse(s)[k] == Hole(MatchName(s[i..]))
    decreases |s|
  {
    hide MatchLen, MatchName, Placeholder;
    var toks := Parse(s);
    var n := MatchLen(s);
    if i == 0 {
      k := 0;
      assert s[0..] == s;
    } else {
      if n > 0 { assert s[0..] == s; NoOverlap(s, 0, i); }
      var cut := if n > 0 then n else 1;
      assert s[i..] == s[cut..][i - cut..];
      var k' := OccurrencesAreHoles(s[cut..], i - cut);
      k := k' + 1;
      assert toks[1..] == Parse(s[cut..]);
      assert toks[..k][1..] == toks[1..][..k'];
      if n > 0 { MatchIsPlaceholder(s); }
    }
  }

  lemma HolesAreOccurrences(s: string, k: nat)
    requires k < |Parse(s)| && Parse(s)[k].Hole?
    ensures Offset(Parse(s), k) <= |s| && MatchLen(s[Offset(Parse(s), k)..]) == |Quote(Parse(s)[k].name)|
  {
    var toks := Parse(s);
    ParseFlattens(s);
    FlattenSplit(toks, k);
    assert s[Offset(toks, k)..] == Flatten(toks[k..]);
    QuoteMatches(toks[k].name, Flatten(toks[k + 1..]));
    assert toks[k..][1..] == toks[k + 1..];
  }
}
