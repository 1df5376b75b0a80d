/**
 Expectations on an HTTP response.  The body is decoded lazily and cached; the
 specification decodes it afresh for every check.
 */
module Response {
  import opened Options
  import opened Json
  import opened JsonQuery

  /** An expected document; a nil interface is Doc(Null). */
  datatype Document = Raw(bytes: string) | Doc(json: Json)

  datatype Validation = Valid | Invalid | Broken

  /** The libraries the checks call. */
  datatype Library = Library(
    decode: string -> Option<Json>,
    equal: (Json, Json) -> bool,
    validate: (Json, Json) -> Validation
  )

  datatype Expectation = Expectation(
    id: string,
    saveDoc: bool,
    statusCode: int,
    header: map<string, string>,
    document: Document,
    schema: Option<Json>,
    values: Option<map<string, Json>>
  )

  /** A received response; header gives "" for a missing one. */
  datatype Received = Received(statusCode: int, header: string -> string, body: string)

  datatype Entry =
    | RequestFailed
    | WrongStatus
    | MissingHeader(k: string)
    | WrongHeader(k: string)
    | DocumentMismatch
    | SchemaFailed
    | DecodeFailed
    | NoValue(q: string)
    | WrongValue(q: string)

  // ----------------------------------------------------------- specification

  predicate StatusOk(t: Expectation, r: Received) {
    r.statusCode == t.statusCode || t.statusCode < 0
  }

  function HeaderFault(t: Expectation, r: Received, k: string): Option<Entry>
    requires k in t.header
  {
    if r.header(k) == "" then Some(MissingHeader(k))
    else if r.header(k) != t.header[k] then Some(WrongHeader(k))
    else None
  }

  function HeaderFaults(t: Expectation, r: Received, keys: set<string>): set<Entry>
    requires keys <= t.header.Keys
  {
    set k | k in keys && HeaderFault(t, r, k).Some? :: HeaderFault(t, r, k).value
  }

  function DocumentFaults(lib: Library, t: Expectation, r: Received): set<Entry> {
    match t.document
    case Raw(bytes) => if bytes == r.body then {} else {DocumentMismatch}
    case Doc(json) =>
      if json.Null? then {}
      else
        match lib.decode(r.body)
        case None => {DecodeFailed}
        case Some(d) => if lib.equal(json, d) then {} else {DocumentMismatch}
  }

  function SchemaFaults(lib: Library, t: Expectation, r: Received): set<Entry> {
    if t.schema.None? then {}
    else
      match lib.decode(r.body)
      case None => {DecodeFailed}
      case Some(d) => if lib.validate(t.schema.value, d).Valid? then {} else {SchemaFailed}
  }

  function ValueFault(lib: Library, expected: Json, d: Json, q: string): Option<Entry> {
    match Query(q, d)
    case Value(v) => if lib.equal(v, expected) then None else Some(WrongValue(q))
    case _ => Some(NoValue(q))
  }

  function ValueFaultsIn(lib: Library, values: map<string, Json>, d: Json, keys: set<string>): set<Entry>
    requires keys <= values.Keys
  {
    set q | q in keys && ValueFault(lib, values[q], d, q).Some? :: ValueFault(lib, values[q], d, q).value
  }

  function ValueFaults(lib: Library, t: Expectation, r: Received): set<Entry> {
    if t.values.None? then {}
    else
      match lib.decode(r.body)
      case None => {DecodeFailed}
      case Some(d) => ValueFaultsIn(lib, t.values.value, d, t.values.value.Keys)
  }

  function SaveFaults(lib: Library, t: Expectation, r: Received, hasMD: bool): set<Entry> {
    if t.saveDoc && hasMD && lib.decode(r.body).None? then {DecodeFailed} else {}
  }

  /** Everything there is to report, each fault once. */
  function Faults(lib: Library, t: Expectation, r: Received, hasMD: bool): set<Entry> {
    if !StatusOk(t, r) then {WrongStatus}
    else
      HeaderFaults(t, r, t.header.Keys) + DocumentFaults(lib, t, r) + SchemaFaults(lib, t, r)
      + ValueFaults(lib, t, r) + SaveFaults(lib, t, r, hasMD)
  }

  /** One of the value queries applies a negative index. */
  predicate ValuesPanic(lib: Library, t: Expectation, r: Received) {
    && StatusOk(t, r) && t.values.Some? && lib.decode(r.body).Some?
    && exists q | q in t.values.value :: Query(q, lib.decode(r.body).value).Panicked?
  }

  /** The response is the expected one, each condition judged on a fresh decode. */
  predicate Meets(lib: Library, t: Expectation, r: Received, hasMD: bool) {
    var decoded := lib.decode(r.body);
    && (r.statusCode == t.statusCode || t.statusCode < 0)
    && (forall k | k in t.header :: r.header(k) != "" && r.header(k) == t.header[k])
    && (t.document.Raw? ==> t.document.bytes == r.body)
    && (t.document.Doc? && !t.document.json.Null? ==> decoded.Some? && lib.equal(t.document.json, decoded.value))
    && (t.schema.Some? ==> decoded.Some? && lib.validate(t.schema.value, decoded.value).Valid?)
    && (t.values.Some? ==> decoded.Some?)
    && (t.values.Some? ==> forall q | q in t.values.value ::
          Query(q, decoded.value).Value? && lib.equal(Query(q, decoded.value).v, t.values.value[q]))
    && (t.saveDoc && hasMD ==> decoded.Some?)
  }

  lemma HeadersMeet(t: Expectation, r: Received)
    ensures HeaderFaults(t, r, t.header.Keys) == {} <==>
            forall k | k in t.header :: r.header(k) != "" && r.header(k) == t.header[k]
  {
    forall k | k in t.header
      ensures HeaderFault(t, r, k).Some? ==> HeaderFault(t, r, k).value in HeaderFaults(t, r, t.header.Keys)
    {}
  }

  lemma ValuesMeet(lib: Library, values: map<string, Json>, d: Json)
    ensures ValueFaultsIn(lib, values, d, values.Keys) == {} <==>
            forall q | q in values :: Query(q, d).Value? && lib.equal(Query(q, d).v, values[q])
  {
    forall q | q in values
      ensures ValueFault(lib, values[q], d, q).Some? ==>
                ValueFault(lib, values[q], d, q).value in ValueFaultsIn(lib, values, d, values.Keys)
    {}
  }

  /** The verdict is sound and complete: there is nothing to report exactly when the response is the expected one. */
  lemma NoFaultsIffMeets(lib: Library, t: Expectation, r: Received, hasMD: bool)
    ensures Faults(lib, t, r, hasMD) == {} <==> Meets(lib, t, r, hasMD)
  {
    HeadersMeet(t, r);
    if t.values.Some? && lib.decode(r.body).Some? {
      ValuesMeet(lib, t.values.value, lib.decode(r.body).value);
    }
    if StatusOk(t, r) {
      assert HeaderFaults(t, r, t.header.Keys) <= Faults(lib, t, r, hasMD);
      assert DocumentFaults(lib, t, r) <= Faults(lib, t, r, hasMD);
      assert SchemaFaults(lib, t, r) <= Faults(lib, t, r, hasMD);
      assert ValueFaults(lib, t, r) <= Faults(lib, t, r, hasMD);
      assert SaveFaults(lib, t, r, hasMD) <= Faults(lib, t, r, hasMD);
    }
  }

  /** The entries about the status and the headers. */
  lemma FaultsOfHead(lib: Library, t: Expectation, r: Received, hasMD: bool)
    ensures var faults := Faults(lib, t, r, hasMD);
            var accepted := r.statusCode == t.statusCode || t.statusCode < 0;
            && RequestFailed !in faults
            && (WrongStatus in faults <==> !accepted)
            && (forall k :: MissingHeader(k) in faults <==> accepted && k in t.header && r.header(k) == "")
            && (forall k :: WrongHeader(k) in faults <==>
                  accepted && k in t.header && r.header(k) != "" && r.header(k) != t.header[k])
  {
    hide HeaderFaults, DocumentFaults, SchemaFaults, ValueFaults, SaveFaults;
    HeaderFaultsSpelled(t, r);
    HeaderFaultsKinds(t, r);
    FaultKinds(lib, t, r);
    BodyFaultKinds(lib, t, r, hasMD);
  }

  lemma HeaderFaultsSpelled(t: Expectation, r: Received)
    ensures var faults := HeaderFaults(t, r, t.header.Keys);
            && (forall k :: MissingHeader(k) in faults <==> k in t.header && r.header(k) == "")
            && (forall k :: WrongHeader(k) in faults <==>
                  k in t.header && r.header(k) != "" && r.header(k) != t.header[k])
  {
  }

  lemma BodyFaultKinds(lib: Library, t: Expectation, r: Received, hasMD: bool)
    ensures SaveFaults(lib, t, r, hasMD) <= {DecodeFailed}
    ensures forall e | e in ValueFaults(lib, t, r) :: e.DecodeFailed? || e.NoValue? || e.WrongValue?
  {
    hide Query;
  }

  /** The entries about the decoded body. */
  lemma FaultsOfBody(lib: Library, t: Expectation, r: Received, hasMD: bool)
    ensures var faults := Faults(lib, t, r, hasMD);
            var accepted := r.statusCode == t.statusCode || t.statusCode < 0;
            var decoded := lib.decode(r.body);
            && (DecodeFailed in faults <==>
                  accepted && decoded.None?
                  && ((t.document.Doc? && !t.document.json.Null?)
                      || t.schema.Some? || t.values.Some? || (t.saveDoc && hasMD)))
            && (DocumentMismatch in faults <==>
                  accepted
                  && ((t.document.Raw? && t.document.bytes != r.body)
                      || (t.document.Doc? && !t.document.json.Null?
                          && decoded.Some? && !lib.equal(t.document.json, decoded.value))))
            && (SchemaFailed in faults <==>
                  accepted && t.schema.Some? && decoded.Some? && !lib.validate(t.schema.value, decoded.value).Valid?)
            && (forall q :: NoValue(q) in faults <==>
                  accepted && t.values.Some? && decoded.Some? && q in t.values.value
                  && !Query(q, decoded.value).Value?)
            && (forall q :: WrongValue(q) in faults <==>
                  accepted && t.values.Some? && decoded.Some? && q in t.values.value
                  && Query(q, decoded.value).Value? && !lib.equal(Query(q, decoded.value).v, t.values.value[q]))
  {
    hide HeaderFaults, DocumentFaults, Query;
    HeaderFaultsKinds(t, r);
    FaultKinds(lib, t, r);
    DocumentFaultsSpelled(lib, t, r);
  }

  lemma DocumentFaultsSpelled(lib: Library, t: Expectation, r: Received)
    ensures var faults := DocumentFaults(lib, t, r);
            var decoded := lib.decode(r.body);
            && (DecodeFailed in faults <==> t.document.Doc? && !t.document.json.Null? && decoded.None?)
            && (DocumentMismatch in faults <==>
                  || (t.document.Raw? && t.document.bytes != r.body)
                  || (t.document.Doc? && !t.document.json.Null?
                      && decoded.Some? && !lib.equal(t.document.json, decoded.value)))
  {
  }

  // ------------------------------------------------------------------ checks

  /** The report that a test logs to. */
  class Log {
    var entries: seq<Entry>

    constructor ()
      ensures entries == []
    {
      entries := [];
    }

    method Errorf(e: Entry)
      modifies this
      ensures entries == old(entries) + [e]
    {
      entries := entries + [e];
    }

    method Reset()
      modifies this
      ensures entries == []
    {
      entries := [];
    }
  }

  /** The documents saved so far in a suite run, by test id. */
  class Metadata {
    var docs: map<string, Json>

    constructor ()
      ensures docs == map[]
    {
      docs := map[];
    }
  }

  /** `before` extended by the faults, each logged once, in some order. */
  ghost predicate Logged(before: seq<Entry>, after: seq<Entry>, faults: set<Entry>) {
    before <= after && multiset(after[|before|..]) == multiset(faults)
  }

  lemma LoggedNothing(before: seq<Entry>)
    ensures Logged(before, before, {})
  {
    assert before[|before|..] == [];
  }

  lemma LoggedOneMore(before: seq<Entry>, after: seq<Entry>, faults: set<Entry>, e: Entry)
    requires Logged(before, after, faults) && e !in faults
    ensures Logged(before, after + [e], faults + {e})
  {
    assert (after + [e])[|before|..] == after[|before|..] + [e];
  }

  class Response {
    const lib: Library
    const test: Expectation
    const log: Log
    const resp: Received
    var dataJSON: Json
    var dataJSONError: bool
    ghost const before: seq<Entry>
    ghost var found: set<Entry>

    /** The cache agrees with a fresh decode, and the log holds each fault found so far once. */
    ghost predicate Valid()
      reads this, log
    {
      && (!dataJSON.Null? ==> lib.decode(resp.body) == Some(dataJSON))
      && (dataJSONError ==> lib.decode(resp.body).None?)
      && (dataJSONError <==> DecodeFailed in found)
      && Logged(before, log.entries, found)
    }

    constructor (lib: Library, test: Expectation, log: Log, resp: Received)
      ensures Valid() && found == {} && before == log.entries
      ensures this.lib == lib && this.test == test && this.log == log && this.resp == resp
    {
      this.lib, this.test, this.log, this.resp := lib, test, log, resp;
      dataJSON, dataJSONError := Null, false;
      before, found := log.entries, {};
      new;
      LoggedNothing(log.entries);
    }

    method Report(e: Entry)
      requires Valid() && e !in found && !e.DecodeFailed?
      modifies this`found, log
      ensures Valid() && found == old(found) + {e}
    {
      LoggedOneMore(before, log.entries, found, e);
      log.Errorf(e);
      found := found + {e};
    }

    method UnmarshalJSONBody() returns (ok: bool)
      requires Valid()
      modifies this, log
      ensures Valid() && ok == lib.decode(resp.body).Some?
      ensures ok ==> dataJSON == lib.decode(resp.body).value
      ensures found == old(found) + if ok then {} else {DecodeFailed}
    {
      if !dataJSON.Null? {
        return true;
      }
      if dataJSONError {
        return false;
      }
      match lib.decode(resp.body) {
        case None =>
          LoggedOneMore(before, log.entries, found, DecodeFailed);
          log.Errorf(DecodeFailed);
          dataJSONError := true;
          found := found + {DecodeFailed};
          return false;
        case Some(d) =>
          dataJSON := d;
          return true;
      }
    }

    method CheckHeader()
      requires Valid() && found == {}
      modifies this, log
      ensures Valid() && found == HeaderFaults(test, resp, test.header.Keys)
    {
      var todo := test.header.Keys;
      while todo != {}
        invariant todo <= test.header.Keys
        invariant Valid() && found == HeaderFaults(test, resp, test.header.Keys - todo)
        decreases todo
      {
        var k :| k in todo;
        var done := test.header.Keys - todo;
        assert test.header.Keys - (todo - {k}) == done + {k};
        var val := resp.header(k);
        if val == "" {
          Report(MissingHeader(k));
        } else if val != test.header[k] {
          Report(WrongHeader(k));
        }
        HeaderFaultsOneMore(test, resp, done, k);
        todo := todo - {k};
      }
    }

    method MatchDocument()
      requires Valid() && DocumentMismatch !in found && test.document != Doc(Null)
      modifies this, log
      ensures Valid() && found == old(found) + DocumentFaults(lib, test, resp)
    {
      if test.document.Raw? {
        if resp.body != test.document.bytes {
          Report(DocumentMismatch);
        }
        return;
      }
      var ok := UnmarshalJSONBody();
      if !ok {
        return;
      }
      if !lib.equal(test.document.json, dataJSON) {
        Report(DocumentMismatch);
      }
    }

    method MatchJSONSchema()
      requires Valid() && SchemaFailed !in found && test.schema.Some?
      modifies this, log
      ensures Valid() && found == old(found) + SchemaFaults(lib, test, resp)
    {
      var ok := UnmarshalJSONBody();
      if !ok {
        return;
      }
      match lib.validate(test.schema.value, dataJSON) {
        case Broken => Report(SchemaFailed);
        case Invalid => Report(SchemaFailed);
        case Valid =>
      }
    }

    /** One round of the loop over the expected values. */
    method CheckValue(q: string, expected: Json) returns (panicked: bool)
      requires Valid() && NoValue(q) !in found && WrongValue(q) !in found
      modifies this`found, log
      ensures Valid() && panicked == Query(q, dataJSON).Panicked?
      ensures found == old(found) + (if panicked then {} else FaultSet(ValueFault(lib, expected, dataJSON, q)))
    {
      hide Walk, Logged;
      var a := QueryJSONData(q, dataJSON);
      match a {
        case Panicked => return true;
        case Failed(_, _) => Report(NoValue(q));
        case Value(v) =>
          if !lib.equal(v, expected) {
            Report(WrongValue(q));
          }
      }
      return false;
    }

    method ContainsJSONValues() returns (panicked: bool)
      requires Valid() && test.values.Some? && StatusOk(test, resp)
      requires forall e | e in found :: !e.NoValue? && !e.WrongValue?
      modifies this, log
      ensures Valid() && panicked == ValuesPanic(lib, test, resp)
      ensures !panicked ==> found == old(found) + ValueFaults(lib, test, resp)
      ensures found <= old(found) + ValueFaults(lib, test, resp)
    {
      hide Walk, Logged, ValueFault, ValueFaultsIn, HeaderFaults, StatusOk;
      var ok := UnmarshalJSONBody();
      if !ok {
        return false;
      }
      var values, d := test.values.value, dataJSON;
      var todo := values.Keys;
      ghost var done: set<string> := {};
      NoQueriesNoFaults(lib, values, d);
      while todo != {}
        invariant todo !! done && todo + done == values.Keys && dataJSON == d
        invariant Valid() && found == old(found) + ValueFaultsIn(lib, values, d, done)
        invariant forall q | q in done :: !Query(q, d).Panicked?
        decreases todo
      {
        var q :| q in todo;
        ValueFaultsOneMore(lib, values, d, done, q);
        ValueFaultsMonotone(lib, values, d, done);
        ValueFaultsNames(lib, values, d, done);
        panicked := CheckValue(q, values[q]);
        if panicked {
          return;
        }
        todo, done := todo - {q}, done + {q};
      }
      assert done == values.Keys;
      return false;
    }

    /** The checks in order; `saved` tells whether the decoded document is to be saved. */
    method RunChecks(hasMD: bool) returns (panicked: bool, saved: bool)
      requires Valid() && found == {} && StatusOk(test, resp)
      modifies this, log
      ensures Valid() && panicked == ValuesPanic(lib, test, resp)
      ensures if panicked then found <= Faults(lib, test, resp, hasMD) else found == Faults(lib, test, resp, hasMD)
      ensures saved == (!panicked && hasMD && test.saveDoc && lib.decode(resp.body).Some?)
      ensures saved ==> dataJSON == lib.decode(resp.body).value
    {
      hide Logged, ValueFaultsIn, HeaderFault, HeaderFaults, ValuesPanic, Walk;
      hide DocumentFaults, SchemaFaults, ValueFaults;
      FaultKinds(lib, test, resp);
      CheckHeader();
      HeaderFaultsKinds(test, resp);
      if test.document != Doc(Null) {
        MatchDocument();
      }
      if test.schema.Some? {
        MatchJSONSchema();
      }
      if test.values.Some? {
        panicked := ContainsJSONValues();
        if panicked {
          return true, false;
        }
      } else {
        NoValuesNoPanic(lib, test, resp);
      }
      saved := false;
      if test.saveDoc && hasMD {
        saved := UnmarshalJSONBody();
      }
      return false, saved;
    }
  }

  lemma NoQueriesNoFaults(lib: Library, values: map<string, Json>, d: Json)
    ensures ValueFaultsIn(lib, values, d, {}) == {}
  {
  }

  /** What a check can report, and that a check without an expectation reports nothing. */
  lemma FaultKinds(lib: Library, t: Expectation, r: Received)
    ensures DocumentFaults(lib, t, r) <= {DecodeFailed, DocumentMismatch}
    ensures SchemaFaults(lib, t, r) <= {DecodeFailed, SchemaFailed}
    ensures t.document == Doc(Null) ==> DocumentFaults(lib, t, r) == {}
    ensures t.schema.None? ==> SchemaFaults(lib, t, r) == {}
    ensures t.values.None? ==> ValueFaults(lib, t, r) == {}
  {
  }

  lemma NoValuesNoPanic(lib: Library, t: Expectation, r: Received)
    requires t.values.None?
    ensures !ValuesPanic(lib, t, r)
  {
  }

  function FaultSet(fault: Option<Entry>): set<Entry> {
    if fault.Some? then {fault.value} else {}
  }

  lemma HeaderFaultsOneMore(t: Expectation, r: Received, done: set<string>, k: string)
    requires done <= t.header.Keys && k in t.header
    ensures HeaderFaults(t, r, done + {k}) == HeaderFaults(t, r, done) +
              FaultSet(HeaderFault(t, r, k))
  {
  }

  lemma ValueFaultsOneMore(lib: Library, values: map<string, Json>, d: Json, done: set<string>, q: string)
    requires done <= values.Keys && q in values
    ensures ValueFaultsIn(lib, values, d, done + {q}) == ValueFaultsIn(lib, values, d, done) +
              FaultSet(ValueFault(lib, values[q], d, q))
  {
  }

  lemma HeaderFaultsKinds(t: Expectation, r: Received)
    ensures forall e | e in HeaderFaults(t, r, t.header.Keys) :: e.MissingHeader? || e.WrongHeader?
  {
  }

  lemma ValueFaultsNames(lib: Library, values: map<string, Json>, d: Json, done: set<string>)
    requires done <= values.Keys
    ensures forall e | e in ValueFaultsIn(lib, values, d, done) :: (e.NoValue? || e.WrongValue?) && e.q in done
  {
  }

  lemma ValueFaultsMonotone(lib: Library, values: map<string, Json>, d: Json, done: set<string>)
    requires done <= values.Keys
    ensures ValueFaultsIn(lib, values, d, done) <= ValueFaultsIn(lib, values, d, values.Keys)
  {
  }

  /**
   Checks a response.  The log gains exactly the faults judged on a fresh decode,
   each once, whatever the cache did; the document is saved exactly when the
   status is right and the body decodes.
   */
  method CheckResponse(lib: Library, test: Expectation, log: Log, md: Metadata?, resp: Received)
    returns (panicked: bool)
    modifies log, md
    ensures panicked <==>
              && (resp.statusCode == test.statusCode || test.statusCode < 0)
              && test.values.Some? && lib.decode(resp.body).Some?
              && exists q | q in test.values.value :: Query(q, lib.decode(resp.body).value).Panicked?
    ensures !panicked ==> Logged(old(log.entries), log.entries, Faults(lib, test, resp, md != null))
    ensures panicked ==> exists found | found <= Faults(lib, test, resp, md != null) ::
                           Logged(old(log.entries), log.entries, found)
    ensures md != null ==>
              md.docs == if !panicked && (resp.statusCode == test.statusCode || test.statusCode < 0)
                            && test.saveDoc && lib.decode(resp.body).Some?
                         then old(md.docs)[test.id := lib.decode(resp.body).value]
                         else old(md.docs)
  {
    if resp.statusCode != test.statusCode && test.statusCode >= 0 {
      LoggedNothing(log.entries);
      LoggedOneMore(log.entries, log.entries, {}, WrongStatus);
      log.Errorf(WrongStatus);
      assert {} + {WrongStatus} == Faults(lib, test, resp, md != null);
      return false;
    }
    var r := new Response(lib, test, log, resp);
    var saved;
    panicked, saved := r.RunChecks(md != null);
    if saved {
      md.docs := md.docs[test.id := r.dataJSON];
    }
  }
}
