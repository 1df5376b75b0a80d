/**
 Running an HTTP test: cloning the prepared request, substituting saved values
 into its URL, and checking the response.
 */
module HttpTest {
  import opened Options
  import opened Strings
  import opened Json
  import opened JsonQuery
  import opened JsonAddress
  import opened Placeholders
  import opened PercentEncoding
  import opened Templating
  import opened UrlTemplates
  import opened Response

  /** How fmt.Sprint prints a decoded value. */
  type Printer = Json -> ByteString

  datatype UrlValue = UrlValue(path: string, rawPath: string, rawQuery: string)

  // ----------------------------------------------------------- specification

  function Lookup(docs: map<string, Json>, print_: Printer): ByteValues {
    n => match Query(n, Obj(docs))
         case Value(v) => Some(print_(v))
         case _ => None
  }

  /** The name between the braces: q[2:len(q)-2]. */
  function Inner(q: string): string
    requires |q| >= 4
  {
    q[2..|q| - 2]
  }

  predicate AllQuoted(qs: seq<string>) {
    forall q | q in qs :: Placeholder(q) && |q| > 4
  }

  predicate TablePanics(qs: seq<string>, docs: map<string, Json>)
    requires AllQuoted(qs)
  {
    exists q | q in qs :: Query(Inner(q), Obj(docs)).Panicked?
  }

  predicate UrlPanics(u: UrlValue, docs: map<string, Json>) {
    FoundArePlaceholders(u.rawPath);
    FoundArePlaceholders(u.rawQuery);
    TablePanics(FindAll(u.rawPath), docs) || TablePanics(FindAll(u.rawQuery), docs)
  }

  /** The URL that is requested. */
  function Issue(u: UrlValue, docs: map<string, Json>, print_: Printer): UrlValue {
    var val := Lookup(docs, print_);
    var hasPath := FindAll(u.rawPath) != [];
    UrlValue(
      if hasPath then Substitute(u.rawPath, u.path, Plain(val)) else u.path,
      if hasPath then "" else u.rawPath,
      RenderedQuery(u.rawQuery, val))
  }

  // --------------------------------------------------- what the request is

  /** The name spells, key by key, the saved node v, or asks for the length v of a saved array. */
  ghost predicate Names(n: string, docs: map<string, Json>, v: Json) {
    LeadsTo(Split(n, '.'), Obj(docs), v) || LeadsToLength(Split(n, '.'), Obj(docs), v)
  }

  /** A name has the printed form of the node that it spells, and no value if it spells none. */
  ghost predicate Resolves(val: ByteValues, docs: map<string, Json>, print_: Printer) {
    && (forall n, v | Names(n, docs, v) :: val(n) == Some(print_(v)))
    && (forall n | val(n).Some? :: exists v :: Names(n, docs, v))
  }

  lemma LookupResolves(docs: map<string, Json>, print_: Printer)
    ensures Resolves(Lookup(docs, print_), docs, print_)
  {
    hide Query, LeadsTo, LeadsToLength;
    forall n, v | Names(n, docs, v) ensures Lookup(docs, print_)(n) == Some(print_(v)) { QueryIff(n, Obj(docs), v); }
    forall n | Lookup(docs, print_)(n).Some? ensures exists v :: Names(n, docs, v) {
      QueryIff(n, Obj(docs), Query(n, Obj(docs)).v);
      assert Names(n, docs, Query(n, Obj(docs)).v);
    }
  }

  /** The URL that is sent, told by the parsed templates of the prepared one and the values of their names. */
  ghost predicate Rendered(u: UrlValue, docs: map<string, Json>, print_: Printer, val: ByteValues, sent: UrlValue) {
    var names := Holes(Parse(u.rawPath));
    && Resolves(val, docs, print_)
    && (names == [] ==> sent.path == u.path && sent.rawPath == u.rawPath)
    && (names != [] ==>
          && sent.rawPath == ""
          && sent.path == Render(Parse(u.path), n => if n in names && val(n).Some? then Some(val(n).value) else None))
    && (Decode(u.rawPath, false) == Some(u.path) && DecodedTemplate(u.rawPath, false).Some?
        && NothingConjured(u.rawPath, DecodedTemplate(u.rawPath, false).value) ==>
          sent.path == Render(DecodedTemplate(u.rawPath, false).value,
                              n => if val(n).Some? then Some(val(n).value) else None))
    && sent.rawQuery == Render(Parse(u.rawQuery), n => if val(n).Some? then Some(Escape(val(n).value)) else None)
  }

  lemma FoundIffHoles(raw: string)
    ensures FindAll(raw) == [] <==> Holes(Parse(raw)) == []
  {
    ScanFindsHoles(raw);
  }

  /** The path without placeholders: the template is the path. */
  lemma PathWithoutHoles(raw: string, path: string, val: Values)
    requires Holes(Parse(raw)) == [] && Decode(raw, false) == Some(path) && DecodedTemplate(raw, false).Some?
    ensures Render(DecodedTemplate(raw, false).value, val) == path
  {
    hide Parse, Render, Flatten, Decode, Holes, DecodedTemplate;
    DecodedPathKeepsPlaceholders(raw, path);
    var toks := DecodedTemplate(raw, false).value;
    HolesAreFound(toks);
    forall i | 0 <= i < |toks| ensures toks[i].Ch? { assert toks[i] in toks; }
    RenderChars(toks, val);
  }

  /**
   The URL that is sent.  A path without placeholders stays; otherwise the raw
   path is dropped and the path is its template with the values of the names
   extracted from the raw path, which is the raw template with decoded literals
   unless decoding creates a placeholder.  The query is its template with
   escaped values.
   */
  lemma IssueRenders(u: UrlValue, docs: map<string, Json>, print_: Printer)
    ensures Rendered(u, docs, print_, Lookup(docs, print_), Issue(u, docs, print_))
  {
    var val, names := Lookup(docs, print_), Holes(Parse(u.rawPath));
    var plain: Values := n => if val(n).Some? then Some(val(n).value) else None;
    var extracted: Values := n => if n in names && val(n).Some? then Some(val(n).value) else None;
    var escaped: Values := n => if val(n).Some? then Some(Escape(val(n).value)) else None;
    LookupResolves(docs, print_);
    FoundIffHoles(u.rawPath);
    hide Query, Parse, Render, FindAll, Holes, Substitute, Decode, DecodedTemplate, Resolves, NothingConjured, Lookup;
    assert PathPart(u, val, plain, extracted, Issue(u, docs, print_)) by {
      PathIsRendered(u, val, plain, extracted, Issue(u, docs, print_));
    }
    PipelineRenders(u.rawQuery, Escaped(val));
    RenderSame(Parse(u.rawQuery), Escaped(val), escaped);
  }

  ghost predicate PathPart(u: UrlValue, val: ByteValues, plain: Values, extracted: Values, sent: UrlValue) {
    && (Holes(Parse(u.rawPath)) != [] ==> sent.path == Render(Parse(u.path), extracted))
    && (Decode(u.rawPath, false) == Some(u.path) && DecodedTemplate(u.rawPath, false).Some?
        && NothingConjured(u.rawPath, DecodedTemplate(u.rawPath, false).value) ==>
          sent.path == Render(DecodedTemplate(u.rawPath, false).value, plain))
  }

  lemma PathIsRendered(u: UrlValue, val: ByteValues, plain: Values, extracted: Values, sent: UrlValue)
    requires forall n :: plain(n) == Plain(val)(n)
    requires forall n :: extracted(n) == if n in Holes(Parse(u.rawPath)) then Plain(val)(n) else None
    requires sent.path == if FindAll(u.rawPath) != [] then Substitute(u.rawPath, u.path, Plain(val)) else u.path
    ensures PathPart(u, val, plain, extracted, sent)
  {
    hide Parse, Render, FindAll, Holes, Substitute, Decode, DecodedTemplate, NothingConjured, Quote;
    FoundIffHoles(u.rawPath);
    SubstituteRenders(u.rawPath, u.path, Plain(val));
    var seen := Visible(u.rawPath, Plain(val));
    forall n ensures seen(n) == extracted(n) { FoundIffHole(u.rawPath, n); }
    RenderSame(Parse(u.path), seen, extracted);
    if Decode(u.rawPath, false) == Some(u.path) && DecodedTemplate(u.rawPath, false).Some?
       && NothingConjured(u.rawPath, DecodedTemplate(u.rawPath, false).value) {
      var toks := DecodedTemplate(u.rawPath, false).value;
      RenderSame(toks, Plain(val), plain);
      if Holes(Parse(u.rawPath)) == [] {
        PathWithoutHoles(u.rawPath, u.path, plain);
      } else {
        PathRenders(u.rawPath, u.path, Plain(val));
      }
    }
  }

  /** A name of the URL has a negative index into a saved array. */
  ghost predicate NegativeName(u: UrlValue, docs: map<string, Json>, n: string) {
    && (n in Holes(Parse(u.rawPath)) || n in Holes(Parse(u.rawQuery)))
    && exists i: nat, w: Json :: NegativeKey(n, Obj(docs), i, w)
  }

  lemma TablePanicsIff(raw: string, docs: map<string, Json>)
    requires AllQuoted(FindAll(raw))
    ensures TablePanics(FindAll(raw), docs) <==> exists n :: n in Holes(Parse(raw)) && Query(n, Obj(docs)).Panicked?
  {
    hide Query, FindAll, Parse, Holes, Placeholder;
    var found, holes := FindAll(raw), Holes(Parse(raw));
    ScanFindsHoles(raw);
    if q :| q in found && Query(Inner(q), Obj(docs)).Panicked? {
      var i :| 0 <= i < |found| && found[i] == q;
      InnerOfQuote(holes[i]);
      assert holes[i] in holes;
    }
    if n :| n in holes && Query(n, Obj(docs)).Panicked? {
      var i :| 0 <= i < |holes| && holes[i] == n;
      InnerOfQuote(n);
      assert found[i] in found;
    }
  }

  lemma InnerOfQuote(name: string)
    ensures |Quote(name)| >= 4 && Inner(Quote(name)) == name
  {
  }

  /** The substitution panics if and only if a placeholder of the URL applies a negative index to a saved array. */
  lemma UrlPanicsIff(u: UrlValue, docs: map<string, Json>)
    ensures UrlPanics(u, docs) <==> exists n :: NegativeName(u, docs, n)
  {
    hide Query, FindAll, Parse, Holes, Placeholder, NegativeKey, TablePanics;
    FoundArePlaceholders(u.rawPath);
    FoundArePlaceholders(u.rawQuery);
    TablePanicsIff(u.rawPath, docs);
    TablePanicsIff(u.rawQuery, docs);
    forall n ensures Query(n, Obj(docs)).Panicked? <==> exists i: nat, w: Json :: NegativeKey(n, Obj(docs), i, w) {
      QueryPanicsIff(n, Obj(docs));
    }
    if n :| (n in Holes(Parse(u.rawPath)) || n in Holes(Parse(u.rawQuery))) && Query(n, Obj(docs)).Panicked? {
      assert NegativeName(u, docs, n);
    }
  }

  // ------------------------------------------------- paths and saved documents

  /** The path that Run computes is the raw path's template, rendered with decoded literals. */
  predicate PathCommutes(raw: string, path: string, docs: map<string, Json>, print_: Printer)
    requires DecodedTemplate(raw, false).Some?
  {
    var val := Plain(Lookup(docs, print_));
    Substitute(raw, path, val) == Render(DecodedTemplate(raw, false).value, val)
  }

  /** fmt.Sprint prints a string as itself. */
  ghost predicate PrintsStrings(print_: Printer) {
    forall s: ByteString :: print_(Str(s)) == s
  }

  /** A document in which a path of keys leads to a leaf. */
  function Nest(ks: seq<string>, leaf: Json): Json {
    if ks == [] then leaf else Obj(map[ks[0] := Nest(ks[1..], leaf)])
  }

  lemma {:induction false} NestAnswers(ks: seq<string>, leaf: Json)
    ensures Walk(ks, Nest(ks, leaf)) == Value(leaf)
  {
    if ks != [] {
      NestAnswers(ks[1..], leaf);
      assert LookupKey(ks[0], Nest(ks, leaf)) == Hit(Nest(ks[1..], leaf));
    }
  }

  function Long(n: nat): (s: ByteString)
    ensures |s| == n
  {
    seq(n, _ => '+')
  }

  /** Saved documents give any name a value of any length. */
  lemma NamesResolve(n: string, length: nat, print_: Printer) returns (docs: map<string, Json>)
    requires PrintsStrings(print_)
    ensures Plain(Lookup(docs, print_))(n) == Some(Long(length))
  {
    hide Walk;
    var ks, leaf := Split(n, '.'), Str(Long(length));
    docs := Nest(ks, leaf).fields;
    NestAnswers(ks, leaf);
    assert Query(n, Obj(docs)) == Value(leaf);
  }

  /** Saved documents that tell a path with a created placeholder from the rendered one. */
  lemma SavedDocumentsBreakPath(raw: string, path: string, n: string, print_: Printer) returns (docs: map<string, Json>)
    requires Decode(raw, false) == Some(path) && DecodedTemplate(raw, false).Some? && PrintsStrings(print_)
    requires n in Conjured(DecodedTemplate(raw, false).value) && Quote(n) in FindAll(raw)
    ensures !PathCommutes(raw, path, docs, print_)
  {
    hide Walk, Nest, Split, Substitute, Render, Parse, FindAll, Conjured, DecodedTemplate, Decode, Plain, Lookup, Quote;
    docs := NamesResolve(n, |Quote(n)| + QuoteSum(Conjured(DecodedTemplate(raw, false).value)) + 1, print_);
    ConjuredBreaksPath(raw, path, n, Plain(Lookup(docs, print_)));
  }

  /**
   With a printer that prints strings as themselves: replacing in the decoded
   path the placeholders extracted from the raw one renders the raw template
   with decoded literals, whatever documents are saved, if and only if decoding
   creates no further placeholder of an extracted name.
   */
  lemma PathCommutesIff(raw: string, path: string, print_: Printer)
    requires Decode(raw, false) == Some(path) && PrintsStrings(print_)
    ensures DecodedTemplate(raw, false).Some?
    ensures (forall docs: map<string, Json> :: PathCommutes(raw, path, docs, print_))
       <==> NothingConjured(raw, DecodedTemplate(raw, false).value)
  {
    DecodedPathKeepsPlaceholders(raw, path);
    var toks := DecodedTemplate(raw, false).value;
    hide Walk, Substitute, Render, Parse, FindAll, Conjured, DecodedTemplate, Decode, Lookup;
    if NothingConjured(raw, toks) {
      forall docs: map<string, Json> ensures PathCommutes(raw, path, docs, print_) {
        PathRenders(raw, path, Plain(Lookup(docs, print_)));
      }
    } else {
      var n :| n in Conjured(toks) && Quote(n) in FindAll(raw);
      var docs := SavedDocumentsBreakPath(raw, path, n, print_);
    }
  }

  lemma SavedString(print_: Printer)
    requires PrintsStrings(print_)
    ensures Plain(Lookup(map["a" := Str("x")], print_))("a") == Some("x")
  {
    var docs: map<string, Json> := map["a" := Str("x")];
    SplitOne("a", '.');
    assert ["a"][1..] == [] && LookupKey("a", Obj(docs)) == Hit(Str("x"));
    assert Query("a", Obj(docs)) == Value(Str("x"));
    var x: ByteString := "x";
    assert print_(Str(x)) == x;
  }

  /** One raw path and one saved document for which the path is not the rendered template. */
  lemma EncodedBracesDiffer(print_: Printer)
    requires PrintsStrings(print_)
    ensures Decode(ENCODED_BRACES, false) == Some("{{a}}{{a}}") && DecodedTemplate(ENCODED_BRACES, false).Some?
    ensures !PathCommutes(ENCODED_BRACES, "{{a}}{{a}}", map["a" := Str("x")], print_)
  {
    var val := Plain(Lookup(map["a" := Str("x")], print_));
    SavedString(print_);
    assert |Quote("a")| == 5;
    hide Walk, Substitute, Render, Parse, FindAll, Conjured, DecodedTemplate, Decode, Lookup, Plain, Growth, Quote;
    EncodedBracesHoles();
    EncodedBracesGrow(Visible(ENCODED_BRACES, val));
    PathGrowsBy(ENCODED_BRACES, "{{a}}{{a}}", val);
  }

  // ------------------------------------------------------------------ requests

  class Url {
    var path: string
    var rawPath: string
    var rawQuery: string

    constructor (u: UrlValue)
      ensures View() == u
    {
      path, rawPath, rawQuery := u.path, u.rawPath, u.rawQuery;
    }

    function View(): UrlValue
      reads this
    {
      UrlValue(path, rawPath, rawQuery)
    }
  }

  class Header {
    var fields: map<string, seq<string>>

    constructor (fields: map<string, seq<string>>)
      ensures this.fields == fields
    {
      this.fields := fields;
    }
  }

  class Request {
    var url: Url
    var header: Header
    var body: string

    constructor (url: Url, header: Header, body: string)
      ensures this.url == url && this.header == header && this.body == body
    {
      this.url, this.header, this.body := url, header, body;
    }

    /** http.Request.WithContext: a shallow copy whose URL is a copy of its own. */
    method WithContext() returns (r: Request)
      ensures fresh(r) && fresh(r.url) && r.url.View() == url.View() && r.header == header && r.body == body
    {
      var copy := new Url(url.View());
      r := new Request(copy, header, body);
    }
  }

  lemma PanicsByTable(u: UrlValue, docs: map<string, Json>)
    ensures AllQuoted(FindAll(u.rawPath)) && AllQuoted(FindAll(u.rawQuery))
    ensures UrlPanics(u, docs) <==> TablePanics(FindAll(u.rawPath), docs) || TablePanics(FindAll(u.rawQuery), docs)
  {
    FoundArePlaceholders(u.rawPath);
    FoundArePlaceholders(u.rawQuery);
  }

  /** The pair that one placeholder contributes. */
  function PairOf(q: string, val: Values): seq<Pair>
    requires |q| >= 4
  {
    match val(Inner(q))
    case Some(text) => [Pair(q, text)]
    case None => []
  }

  lemma TableStep(qs: seq<string>, i: nat, val: Values)
    requires AllQuoted(qs) && i < |qs|
    ensures Table(qs[i..], val) == PairOf(qs[i], val) + Table(qs[i + 1..], val)
  {
    assert qs[i..][1..] == qs[i + 1..];
  }

  lemma TableEnds(qs: seq<string>, val: Values)
    requires AllQuoted(qs)
    ensures Table(qs[|qs|..], val) == [] && Table(qs[0..], val) == Table(qs, val)
  {
    assert qs[0..] == qs;
  }

  /** What Run puts in the replacement table for a value. */
  function Inserted(val: ByteValues, escape: bool): Values {
    if escape then Escaped(val) else Plain(val)
  }

  /** One round of the loop: nothing for a name that does not resolve. */
  method BuildPair(q: string, docs: map<string, Json>, print_: Printer, escape: bool)
    returns (pair: seq<Pair>, panicked: bool)
    requires |q| >= 4
    ensures panicked == Query(Inner(q), Obj(docs)).Panicked?
    ensures !panicked ==> pair == PairOf(q, Inserted(Lookup(docs, print_), escape))
  {
    hide Walk, Escape;
    var a := QueryJSONData(Inner(q), Obj(docs));
    match a {
      case Panicked => return [], true;
      case Failed(_, _) => return [], false;
      case Value(v) =>
        var text := print_(v);
        return [Pair(q, if escape then Escape(text) else text)], false;
    }
  }

  /** The loop that fills oldnew; escape tells whether values are query-escaped. */
  method BuildTable(qs: seq<string>, docs: map<string, Json>, print_: Printer, escape: bool)
    returns (pairs: seq<Pair>, panicked: bool)
    requires AllQuoted(qs)
    ensures panicked == TablePanics(qs, docs)
    ensures !panicked ==> pairs == Table(qs, Inserted(Lookup(docs, print_), escape))
  {
    hide Walk, Query, Lookup, Inserted, Placeholder, Table, PairOf;
    ghost var val := Inserted(Lookup(docs, print_), escape);
    pairs := [];
    var i := 0;
    TableEnds(qs, val);
    while i < |qs|
      invariant 0 <= i <= |qs|
      invariant pairs + Table(qs[i..], val) == Table(qs, val)
      invariant forall k | 0 <= k < i :: !Query(Inner(qs[k]), Obj(docs)).Panicked?
    {
      TableStep(qs, i, val);
      var pair;
      pair, panicked := BuildPair(qs[i], docs, print_, escape);
      if panicked {
        return [], true;
      }
      pairs := pairs + pair;
      i := i + 1;
    }
    panicked := false;
  }

  class Test {
    const req: Request
    const urlPathQueries: seq<string>
    const urlQueryQueries: seq<string>
    const expect_: Expectation

    /** What `prepare` extracted belongs to the request as it is. */
    predicate Prepared()
      reads this, req, req.url
    {
      urlPathQueries == FindAll(req.url.rawPath) && urlQueryQueries == FindAll(req.url.rawQuery)
    }

    constructor (req: Request, expectation: Expectation)
      ensures Prepared() && this.req == req && this.expect_ == expectation
    {
      this.req, this.expect_ := req, expectation;
      urlPathQueries := FindAll(req.url.rawPath);
      urlQueryQueries := FindAll(req.url.rawQuery);
    }

    /** A shallow copy with its own header map; the URL is shared. */
    method CloneRequest() returns (r: Request)
      ensures fresh(r) && fresh(r.header) && r.header.fields == req.header.fields
      ensures r.url == req.url && r.body == req.body
    {
      var header := new Header(req.header.fields);
      r := new Request(req.url, header, req.body);
    }

    /** The request that Run sends; nothing reachable from the prepared request is written. */
    method BuildRequest(print_: Printer, md: Metadata?) returns (r: Request, panicked: bool)
      requires Prepared()
      ensures fresh(r) && fresh(r.url) && fresh(r.header)
      ensures panicked == (md != null && UrlPanics(req.url.View(), md.docs))
      ensures !panicked ==>
                && r.header.fields == req.header.fields && r.body == req.body
                && r.url.View() == if md == null then req.url.View() else Issue(req.url.View(), md.docs, print_)
      ensures panicked <==> md != null && exists n :: NegativeName(req.url.View(), md.docs, n)
      ensures !panicked && md != null ==>
                Rendered(req.url.View(), md.docs, print_, Lookup(md.docs, print_), r.url.View())
    {
      hide NegativeName, Rendered, UrlPanics;
      hide Walk, Query, Table, Replace, Parse, Render, Placeholder;
      var clone := CloneRequest();
      r := clone.WithContext();
      if md == null {
        return r, false;
      }
      UrlPanicsIff(req.url.View(), md.docs);
      IssueRenders(req.url.View(), md.docs, print_);
      PanicsByTable(req.url.View(), md.docs);
      FoundArePlaceholders(req.url.rawPath);
      FoundArePlaceholders(req.url.rawQuery);
      ghost var val := Lookup(md.docs, print_);
      if |urlPathQueries| > 0 {
        TableAssigns(urlPathQueries, Plain(val));
        var oldnew, bad := BuildTable(urlPathQueries, md.docs, print_, false);
        if bad {
          return r, true;
        }
        r.url.path := Replace(oldnew, r.url.path);
        r.url.rawPath := "";
      }
      if |urlQueryQueries| > 0 {
        TableAssigns(urlQueryQueries, Escaped(val));
        var oldnew, bad := BuildTable(urlQueryQueries, md.docs, print_, true);
        if bad {
          return r, true;
        }
        r.url.rawQuery := Replace(oldnew, r.url.rawQuery);
      } else {
        NothingToRender(req.url.rawQuery, val);
      }
      panicked := false;
    }

    /** One attempt; answer is what the server sends back, None when no response could be read. */
    method Run(lib: Library, print_: Printer, log: Log, md: Metadata?, answer: Option<Received>)
      returns (issued: UrlValue, panicked: bool)
      requires Prepared()
      modifies log, md
      ensures panicked == ((md != null && old(UrlPanics(req.url.View(), md.docs)))
                           || (answer.Some? && ValuesPanic(lib, expect_, answer.value)))
      ensures panicked <==>
                || (md != null && old(exists n :: NegativeName(req.url.View(), md.docs, n)))
                || (answer.Some?
                    && (answer.value.statusCode == expect_.statusCode || expect_.statusCode < 0)
                    && expect_.values.Some? && lib.decode(answer.value.body).Some?
                    && exists q | q in expect_.values.value ::
                         Query(q, lib.decode(answer.value.body).value).Panicked?)
      ensures md != null && old(!UrlPanics(req.url.View(), md.docs)) ==>
                issued == old(Issue(req.url.View(), md.docs, print_))
      ensures md == null ==> issued == req.url.View()
      ensures !panicked && md != null ==>
                old(Rendered(req.url.View(), md.docs, print_, Lookup(md.docs, print_), issued))
      ensures !panicked && answer.None? ==> log.entries == old(log.entries) + [RequestFailed]
      ensures !panicked && answer.Some? ==>
                Logged(old(log.entries), log.entries, Faults(lib, expect_, answer.value, md != null))
      ensures md != null ==>
                md.docs == if !panicked && answer.Some?
                              && (answer.value.statusCode == expect_.statusCode || expect_.statusCode < 0)
                              && expect_.saveDoc && lib.decode(answer.value.body).Some?
                           then old(md.docs)[expect_.id := lib.decode(answer.value.body).value]
                           else old(md.docs)
    {
      hide Rendered, NegativeName;
      var r, bad := BuildRequest(print_, md);
      issued := r.url.View();
      if bad {
        return issued, true;
      }
      if answer.None? {
        log.Errorf(RequestFailed);
        return issued, false;
      }
      panicked := CheckResponse(lib, expect_, log, md, answer.value);
    }
  }

  predicate Saves(lib: Library, t: Expectation, r: Received) {
    StatusOk(t, r) && t.saveDoc && lib.decode(r.body).Some?
  }

  /** A query without placeholders renders to itself. */
  lemma NothingToRender(s: string, val: ByteValues)
    requires FindAll(s) == []
    ensures RenderedQuery(s, val) == s
  {
    hide Parse, Render, FindAll, Flatten, Holes, Substitute, Escaped;
    PipelineRenders(s, Escaped(val));
    ScanFindsHoles(s);
    var toks := Parse(s);
    HolesAreFound(toks);
    assert Holes(toks) == [];
    forall i | 0 <= i < |toks| ensures toks[i].Ch? { assert toks[i] in toks; }
    RenderChars(toks, Escaped(val));
    ParseFlattens(s);
  }
}
