/** What the renderer makes of a text, read from left to right: literal text, a placeholder, and the rest. */
module UrlText {
  import opened Options
  import opened Strings
  import opened Json
  import opened JsonQuery
  import opened JsonAddress
  import opened Placeholders
  import opened PercentEncoding
  import opened Templating
  import opened UrlTemplates
  import opened HttpTest

  /** The literals of a text without placeholders. */
  function Chars(s: string): (toks: seq<Tok>)
    ensures |toks| == |s|
  {
    seq(|s|, i requires 0 <= i < |s| => Ch(s[i]))
  }

  lemma CharsConcat(a: string, b: string)
    ensures Chars(a + b) == Chars(a) + Chars(b)
  {
  }

  /** A letter, a digit, '.', '_' or '-'. */
  predicate NameLetter(c: char) {
    c in DECIMALS || c in UPPERS || c in LOWERS || c in "._-"
  }

  lemma SpelledName(name: string)
    requires name != "" && forall c | c in name :: NameLetter(c)
    ensures Name(name)
  {
    forall c | c in name ensures NameChar(c) { NameAlphabet(c); }
  }

  lemma NoMatchWithoutBrace(s: string)
    requires s != "" && s[0] != '{'
    ensures MatchLen(s) == 0 && Parse(s) == [Ch(s[0])] + Parse(s[1..])
  {
  }

  lemma {:induction false} ParseAfterText(a: string, rest: string)
    requires '{' !in a
    ensures Parse(a + rest) == Chars(a) + Parse(rest)
  {
    hide Parse, Chars;
    if a == "" {
      assert a + rest == rest && Chars(a) + Parse(rest) == Parse(rest);
    } else {
      var s := a + rest;
      assert a[0] in a && forall c | c in a[1..] :: c in a;
      NoMatchWithoutBrace(s);
      assert s[1..] == a[1..] + rest;
      ParseAfterText(a[1..], rest);
      CharsConcat([a[0]], a[1..]);
      assert [a[0]] + a[1..] == a;
      OneChar(a[0]);
      assert [Ch(a[0])] + (Chars(a[1..]) + Parse(rest)) == [Ch(a[0])] + Chars(a[1..]) + Parse(rest);
    }
  }

  lemma OneChar(c: char)
    ensures Chars([c]) == [Ch(c)]
  {
  }

  lemma ParsePlaceholder(name: string, rest: string)
    requires Name(name)
    ensures Parse("{{" + name + "}}" + rest) == [Hole(name)] + Parse(rest)
  {
    var s := Quote(name) + rest;
    QuoteMatches(name, rest);
    assert s[|Quote(name)|..] == rest;
  }

  lemma TemplateOfText(a: string)
    requires '{' !in a
    ensures Parse(a) == Chars(a)
  {
    ParseAfterText(a, "");
    ParseNothing();
    assert a + "" == a && Chars(a) + [] == Chars(a);
  }

  /** The template of a text: its literals, a hole, and the template of the rest. */
  lemma TemplateOf(a: string, name: string, rest: string)
    requires '{' !in a && name != "" && forall c | c in name :: NameLetter(c)
    ensures Parse(a + "{{" + name + "}}" + rest) == Chars(a) + ([Hole(name)] + Parse(rest))
  {
    hide Parse, Chars;
    SpelledName(name);
    ParseAfterText(a, "{{" + name + "}}" + rest);
    ParsePlaceholder(name, rest);
    assert a + ("{{" + name + "}}" + rest) == a + "{{" + name + "}}" + rest;
  }

  lemma {:induction false} RenderText(a: string, val: Values)
    ensures Render(Chars(a), val) == a
  {
    if a != "" {
      RenderText(a[1..], val);
      assert Chars(a)[1..] == Chars(a[1..]);
      assert [a[0]] + a[1..] == a;
    }
  }

  /** Rendering copies literal text, and replaces a placeholder by the value of its name if it has one. */
  lemma RenderSpelled(a: string, name: string, rest: string, val: Values)
    requires '{' !in a && name != "" && forall c | c in name :: NameLetter(c)
    ensures Render(Parse(a), val) == a
    ensures Render(Parse(a + "{{" + name + "}}" + rest), val) ==
              a + (if val(name).Some? then val(name).value else "{{" + name + "}}") + Render(Parse(rest), val)
  {
    hide Parse, Chars;
    TemplateOfText(a);
    TemplateOf(a, name, rest);
    RenderText(a, val);
    RenderConcat(Chars(a), [Hole(name)] + Parse(rest), val);
    RenderCons(Hole(name), Parse(rest), val);
    RenderHole(name, val);
    var h := if val(name).Some? then val(name).value else "{{" + name + "}}";
    assert a + (h + Render(Parse(rest), val)) == a + h + Render(Parse(rest), val);
  }

  lemma RenderHole(name: string, val: Values)
    ensures RenderTok(Hole(name), val) == if val(name).Some? then val(name).value else "{{" + name + "}}"
  {
  }

  function PrependToks(toks: seq<Tok>, rest: Option<seq<Tok>>): Option<seq<Tok>> {
    match rest
    case None => None
    case Some(more) => Some(toks + more)
  }

  lemma PrependCons(c: char, d: string, rest: Option<seq<Tok>>)
    ensures PrependTok(Ch(c), PrependToks(Chars(d), rest)) == PrependToks(Chars([c] + d), rest)
  {
    if rest.Some? {
      assert [Ch(c)] + (Chars(d) + rest.value) == Chars([c] + d) + rest.value;
    }
  }

  /** Literals that decode are decoded in place. */
  lemma {:induction false} DecodeText(a: string, d: string, rest: seq<Tok>, plus: bool)
    requires Decode(a, plus) == Some(d)
    ensures DecodeToks(Chars(a) + rest, plus) == PrependToks(Chars(d), DecodeToks(rest, plus))
  {
    hide IsHex, HexByte;
    if a == "" {
      assert Chars(a) + rest == rest;
      var more := DecodeToks(rest, plus);
      if more.Some? { assert Chars(d) + more.value == more.value; }
    } else {
      var n := if a[0] == '%' then 3 else 1;
      var toks := Chars(a) + rest;
      assert toks[n..] == Chars(a[n..]) + rest;
      var d' := Decode(a[n..], plus).value;
      DecodeText(a[n..], d', rest, plus);
      assert d == [d[0]] + d';
      PrependCons(d[0], d', DecodeToks(rest, plus));
    }
  }

  /** The decoded template: decoded literal text, a placeholder as it is, and the rest decoded. */
  lemma DecodedSpelled(a: string, d: string, name: string, rest: string)
    requires '{' !in a && name != "" && forall c | c in name :: NameLetter(c)
    requires Decode(a, false) == Some(d)
    ensures DecodedTemplate(a, false) == Some(Chars(d))
    ensures DecodedTemplate(a + "{{" + name + "}}" + rest, false) ==
              match DecodedTemplate(rest, false)
              case Some(more) => Some(Chars(d) + ([Hole(name)] + more))
              case None => None
  {
    hide Parse, Chars, Decode;
    TemplateOfText(a);
    TemplateOf(a, name, rest);
    DecodeText(a, d, [], false);
    assert Chars(a) + [] == Chars(a) && Chars(d) + [] == Chars(d);
    DecodeText(a, d, [Hole(name)] + Parse(rest), false);
    assert ([Hole(name)] + Parse(rest))[1..] == Parse(rest);
  }

  // -------------------------------------------------------------- one request

  /** The documents that the test "login" has left. */
  function LoginSaved(v: ByteString): map<string, Json> {
    map["login" := Obj(map["id" := Str(v)])]
  }

  lemma LoginIdIs(v: ByteString, print_: Printer)
    requires PrintsStrings(print_)
    ensures Lookup(LoginSaved(v), print_)("login.id") == Some(v)
  {
    var docs := LoginSaved(v);
    assert LookupKey("login", Obj(docs)) == Hit(docs["login"]) && LookupKey("id", docs["login"]) == Hit(Str(v));
    hide LookupKey, Query;
    QueryTwo("login", "id", Obj(docs), docs["login"]);
    assert "login" + "." + "id" == "login.id" && print_(Str(v)) == v;
  }

  lemma LoginNoIsMissing(v: ByteString, print_: Printer)
    ensures Lookup(LoginSaved(v), print_)("login.no") == None
  {
    var docs := LoginSaved(v);
    assert LookupKey("login", Obj(docs)) == Hit(docs["login"]) && LookupKey("no", docs["login"]).Miss?;
    hide LookupKey, Query;
    QueryTwo("login", "no", Obj(docs), docs["login"]);
    assert "login" + "." + "no" == "login.no";
  }

  lemma NamesAreSpelled()
    ensures forall c | c in "login.id" :: NameLetter(c)
    ensures forall c | c in "login.no" :: NameLetter(c)
  {
  }

  lemma HasPlaceholder(a: string, name: string, rest: string)
    requires '{' !in a && name != "" && forall c | c in name :: NameLetter(c)
    ensures FindAll(a + "{{" + name + "}}" + rest) != []
  {
    hide Parse, Chars, Holes, FindAll, NameLetter;
    var s := a + "{{" + name + "}}" + rest;
    TemplateOf(a, name, rest);
    assert Parse(s)[|a|] == Hole(name);
    HolesAreFound(Parse(s));
    FoundIffHoles(s);
  }

  const USER: string := "/users/{{login.id}}"

  lemma SavedIdInPath(v: ByteString, val: ByteValues)
    requires val("login.id") == Some(v)
    ensures FindAll(USER) != [] && Substitute(USER, USER, Plain(val)) == "/users/" + v
  {
    NamesAreSpelled();
    assert USER == "/users/" + "{{" + "login.id" + "}}" + "" && Plain(val)("login.id") == Some(v);
    hide Parse, Render, FindAll, Substitute, NameLetter, USER, Plain;
    HasPlaceholder("/users/", "login.id", "");
    PipelineRenders(USER, Plain(val));
    RenderSpelled("/users/", "login.id", "", Plain(val));
    RenderSpelled("", "login.id", "", Plain(val));
  }

  const QUERY: string := "t={{login.id}}&u={{login.no}}"

  lemma QueryText()
    ensures QUERY == "t=" + "{{" + "login.id" + "}}" + "&u={{login.no}}"
    ensures "&u={{login.no}}" == "&u=" + "{{" + "login.no" + "}}" + ""
    ensures '{' !in "t=" && '{' !in "&u=" && '{' !in ""
  {
  }

  lemma UnsavedIdInQuery(val: Values)
    requires val("login.no") == None
    ensures Render(Parse("&u={{login.no}}"), val) == "&u={{login.no}}"
  {
    hide Parse, Render, NameLetter, QUERY;
    NamesAreSpelled();
    QueryText();
    RenderSpelled("&u=", "login.no", "", val);
    RenderSpelled("", "login.no", "", val);
  }

  lemma SavedIdInQuery(v: ByteString, val: ByteValues)
    requires val("login.id") == Some(v) && val("login.no") == None
    ensures RenderedQuery(QUERY, val) == "t=" + Escape(v) + "&u={{login.no}}"
  {
    assert Escaped(val)("login.id") == Some(Escape(v)) && Escaped(val)("login.no") == None;
    hide Parse, Render, Substitute, NameLetter, QUERY, Escaped, Escape;
    NamesAreSpelled();
    QueryText();
    PipelineRenders(QUERY, Escaped(val));
    RenderSpelled("t=", "login.id", "&u={{login.no}}", Escaped(val));
    UnsavedIdInQuery(Escaped(val));
  }

  /**
   A saved id is put into the path as it is and into the query escaped; a name that
   nothing was saved under stays as it is.
   */
  lemma SavedIdIsSent(v: ByteString, print_: Printer)
    requires PrintsStrings(print_)
    ensures Issue(UrlValue("/users/{{login.id}}", "/users/{{login.id}}", "t={{login.id}}&u={{login.no}}"),
                  LoginSaved(v), print_) ==
              UrlValue("/users/" + v, "", "t=" + Escape(v) + "&u={{login.no}}")
  {
    hide Lookup, Parse, Render, Escape, FindAll, Substitute, RenderedQuery, LoginSaved, PrintsStrings, Plain, Escaped;
    LoginIdIs(v, print_);
    LoginNoIsMissing(v, print_);
    SavedIdInPath(v, Lookup(LoginSaved(v), print_));
    SavedIdInQuery(v, Lookup(LoginSaved(v), print_));
  }
}
