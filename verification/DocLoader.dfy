/** loadDoc, resolving the references of a decoded document in place. */
module DocLoader {
  import opened Options
  import opened Json
  import opened JsonQuery
  import opened GoJson
  import opened DocLoading
  import opened DocOutcome

  /** A loaded value, an error, or the panic of comparing two maps. */
  datatype Outcome = Done(v: Val) | Err | Panic

  /** An outcome that the load may have. */
  ghost predicate Allowed(l: Loaded, out: Outcome)
    reads if out.Done? && out.v.Ref? then {out.v.node} else {}
  {
    match out
    case Done(v) => l == Ok(Doc(v))
    case Err => l.Fails? && l.mayErr
    case Panic => l.Fails? && l.mayPanic
  }

  predicate IsMap(v: Val)
    reads if v.Ref? then {v.node} else {}
  {
    v.Ref? && v.node.content.Map?
  }

  /** The outcome where it takes no further load. */
  ghost predicate Outright(env: Env, dir: string, j: Json, out: Outcome) {
    match j
    case Arr(_) => true
    case Obj(fields) =>
      if "$ref" in fields && fields["$ref"].Str? then
        var name := fields["$ref"].s;
        var path := if env.isAbs(name) then name else env.join(dir, name);
        if "$raw" in fields && fields["$raw"] == Bool(true) then
          match env.raw(path)
          case Some(bytes) => out == Done(Leaf(Str(env.base64(bytes))))
          case None => out == Err
        else env.json(path).None? ==> out == Err
      else if "$raw" in fields && fields["$raw"].Str? then
        out == Done(Leaf(Str(env.base64(fields["$raw"].s))))
      else true
    case _ => out == Done(Leaf(j))
  }

  method LoadDoc(env: Env, ghost rank: Rank, dir: string, v: Val, ghost bound: nat) returns (out: Outcome)
    requires Acyclic(env, rank) && Tree(v) && Ranked(env, rank, dir, Doc(v), bound)
    modifies Repr(v)
    ensures Allowed(Load(env, rank, dir, old(Doc(v)), bound), out) && Outright(env, dir, old(Doc(v)), out)
    ensures out.Done? ==> Tree(out.v) && fresh(Repr(out.v) - old(Repr(v)))
    ensures out.Done? && !old(IsMap(v)) ==> out.v == v
    decreases bound, 0, Doc(v), 2
  {
    match v {
      case Leaf(_) => out := Done(v);
      case Ref(n) =>
        match n.content {
          case Slice(_) => out := LoadSlice(env, rank, dir, n, bound);
          case Map(_) => out := LoadObject(env, rank, dir, n, bound);
        }
    }
  }

  /** The recursive call on one child, and the write of what it returns. */
  method LoadKid(env: Env, ghost rank: Rank, dir: string, n: Node, e: Edge, ghost j: Json, ghost bound: nat)
    returns (out: Outcome)
    requires Acyclic(env, rank) && n.Valid() && Kid(n.content, e).Some?
    requires DocAt(n.model, e) == Some(j) && Ranked(env, rank, dir, j, bound)
    modifies n.repr
    ensures var l := Load(env, rank, dir, j, bound);
            match out
            case Done(_) =>
              l.Ok? && !(e.Field? && Clash(j, l)) && n.Valid() && fresh(n.repr - old(n.repr))
              && n.model == SetAt(old(n.model), e, l.j) && SameEdges(n.content, n.model)
              && (n.content.Map? <==> old(n.content.Map?))
            case Err => l.Fails? && l.mayErr
            case Panic => (l.Fails? && l.mayPanic) || (e.Field? && Clash(j, l))
    decreases bound, 0, j, 3
  {
    hide Load, Ranked, Acyclic, ValidBut, Node.Valid;
    KidFacts(n, e);
    var v := Kid(n.content, e).value;
    SameKind(v);
    var isMap := IsMap(v);
    out := LoadDoc(env, rank, dir, v, bound);
    if !out.Done? { return; }
    SameKind(out.v);
    if e.Field? && isMap && IsMap(out.v) { return Panic; }
    Detached(n, e);
    if e.Index? || isMap {
      Attach(n, e, out.v);
    } else {
      Refresh(n, e);
    }
    SameKind(Ref(n));
  }

  method LoadSlice(env: Env, ghost rank: Rank, dir: string, n: Node, ghost bound: nat) returns (out: Outcome)
    requires Acyclic(env, rank) && n.Valid() && n.content.Slice? && Ranked(env, rank, dir, n.model, bound)
    modifies n.repr
    ensures Allowed(Load(env, rank, dir, old(n.model), bound), out)
    ensures out.Done? ==> out.v == Ref(n) && n.Valid() && fresh(n.repr - old(n.repr))
    decreases bound, 0, n.model, 1
  {
    ghost var items := n.model.items;
    var i := 0;
    while i < |n.content.items|
      invariant 0 <= i <= |items|
      invariant n.Valid() && n.content.Slice? && |n.content.items| == |n.model.items| == |items|
      invariant fresh(n.repr - old(n.repr))
      invariant forall k | 0 <= k < i :: Load(env, rank, dir, items[k], bound) == Ok(n.model.items[k])
      invariant forall k | i <= k < |items| :: n.model.items[k] == items[k]
      decreases |items| - i
    {
      out := LoadKid(env, rank, dir, n, Index(i), items[i], bound);
      if !out.Done? {
        LoadItemFails(env, rank, dir, items, bound, i);
        return;
      }
      i := i + 1;
    }
    LoadItems(env, rank, dir, items, bound);
    assert Load(env, rank, dir, Arr(items), bound).j.items == n.model.items;
    out := Done(Ref(n));
  }

  /** An object: a reference, a raw string, or a map to descend into. */
  method LoadObject(env: Env, ghost rank: Rank, dir: string, n: Node, ghost bound: nat) returns (out: Outcome)
    requires Acyclic(env, rank) && n.Valid() && n.content.Map? && Ranked(env, rank, dir, n.model, bound)
    modifies n.repr
    ensures Allowed(Load(env, rank, dir, old(n.model), bound), out) && Outright(env, dir, old(n.model), out)
    ensures out.Done? ==> Tree(out.v) && fresh(Repr(out.v) - old(n.repr))
    decreases bound, 0, n.model, 1
  {
    var doc := n.content.entries;
    forall k | k in doc
      ensures k in n.model.fields && (doc[k].Leaf? ==> n.model.fields[k] == doc[k].j)
      ensures doc[k].Ref? ==> !Scalar(n.model.fields[k])
    {
      KidFacts(n, Field(k));
    }
    if REF in doc && doc[REF].Leaf? && doc[REF].j.Str? {
      var p := Resolve(env, dir, doc[REF].j.s);
      if RAW in doc && doc[RAW] == Leaf(Bool(true)) {
        match env.raw(p) {
          case None => out := Err;
          case Some(bytes) => out := Done(Leaf(Str(env.base64(bytes))));
        }
      } else {
        out := LoadJSONFile(env, rank, p);
      }
    } else if RAW in doc && doc[RAW].Leaf? && doc[RAW].j.Str? {
      out := Done(Leaf(Str(env.base64(doc[RAW].j.s))));
    } else {
      out := LoadMap(env, rank, dir, n, bound);
    }
  }

  /** A field of an unresolved object that has been loaded. */
  ghost predicate FieldLoaded(env: Env, rank: Rank, dir: string, was: Json, bound: nat, now: Json)
    requires Acyclic(env, rank) && Ranked(env, rank, dir, was, bound)
  {
    Load(env, rank, dir, was, bound) == Ok(now) && !(was.Obj? && now.Obj?)
  }

  /** One iteration over a map. */
  method LoadField(env: Env, ghost rank: Rank, dir: string, n: Node, k: string,
                   ghost fields: map<string, Json>, ghost bound: nat)
    returns (out: Outcome)
    requires Acyclic(env, rank) && Ranked(env, rank, dir, Obj(fields), bound)
    requires !HasString(fields, REF) && !HasString(fields, RAW)
    requires k in fields && Ranked(env, rank, dir, fields[k], bound)
    requires n.Valid() && n.content.Map? && k in n.content.entries && DocAt(n.model, Field(k)) == Some(fields[k])
    modifies n.repr
    ensures !out.Done? ==> Allowed(Load(env, rank, dir, Obj(fields), bound), out)
    ensures out.Done? ==>
              && n.Valid() && fresh(n.repr - old(n.repr)) && n.content.Map? && n.model.Obj?
              && n.content.entries.Keys == n.model.fields.Keys == old(n.model.fields.Keys)
              && (forall m | m in n.model.fields && m != k :: n.model.fields[m] == old(n.model.fields[m]))
              && FieldLoaded(env, rank, dir, fields[k], bound, n.model.fields[k])
    decreases bound, 0, fields[k], 4
  {
    hide Load, Ranked, Acyclic, Node.Valid;
    out := LoadKid(env, rank, dir, n, Field(k), fields[k], bound);
    if !out.Done? { FieldFails(env, rank, dir, fields, bound, k); }
  }

  method LoadMap(env: Env, ghost rank: Rank, dir: string, n: Node, ghost bound: nat) returns (out: Outcome)
    requires Acyclic(env, rank) && n.Valid() && n.content.Map? && Ranked(env, rank, dir, n.model, bound)
    requires n.model.Obj? && !HasString(n.model.fields, REF) && !HasString(n.model.fields, RAW)
    modifies n.repr
    ensures Allowed(Load(env, rank, dir, old(n.model), bound), out)
    ensures out.Done? ==> out.v == Ref(n) && n.Valid() && fresh(n.repr - old(n.repr))
    decreases bound, 0, n.model, 0
  {
    hide Load, Ranked, Acyclic, Node.Valid, HasString;
    ghost var fields := n.model.fields;
    RankedFields(env, rank, dir, fields, bound);
    SameKind(Ref(n));
    var todo := n.content.entries.Keys;
    while todo != {}
      invariant n.Valid() && n.content.Map? && n.model.Obj?
      invariant n.content.entries.Keys == n.model.fields.Keys == fields.Keys
      invariant fresh(n.repr - old(n.repr)) && todo <= fields.Keys
      invariant forall k | k in fields && k !in todo :: FieldLoaded(env, rank, dir, fields[k], bound, n.model.fields[k])
      invariant forall k | k in todo :: n.model.fields[k] == fields[k]
      decreases todo
    {
      var k :| k in todo;
      out := LoadField(env, rank, dir, n, k, fields, bound);
      if !out.Done? { return; }
      todo := todo - {k};
    }
    FieldsLoad(env, rank, dir, fields, bound, n.model.fields);
    out := Done(Ref(n));
  }

  /** Every load of a file decodes it afresh. */
  method LoadJSONFile(env: Env, ghost rank: Rank, p: string) returns (out: Outcome)
    requires Acyclic(env, rank) && p in rank
    ensures Allowed(LoadFile(env, rank, p), out) && (env.json(p).None? ==> out == Err)
    ensures out.Done? ==> Tree(out.v) && fresh(Repr(out.v))
    decreases rank[p], 1
  {
    match env.json(p) {
      case None => out := Err;
      case Some(doc) =>
        var v := Decode(Obj(doc));
        out := LoadDoc(env, rank, env.dir(p), v, rank[p]);
    }
  }

  // ------------------------------------------------------------- messages

  /** The messages that a loaded document stands for, when its kind is allowed. */
  function MessagesOf(j: Json): Option<seq<Json>> {
    match j
    case Arr(items) => Some(items)
    case Obj(_) => Some([j])
    case Null => Some([Obj(map[])])
    case _ => None
  }

  datatype Messages = Msgs(vals: seq<Val>) | BadDocument | LoadErr | LoadPanic

  /** The values are trees that stand for the documents. */
  ghost predicate StandFor(vals: seq<Val>, docs: seq<Json>)
    reads set v | v in vals && v.Ref? :: v.node, set v, o | v in vals && v.Ref? && o in v.node.repr :: o
  {
    |vals| == |docs| && forall i | 0 <= i < |vals| :: Tree(vals[i]) && Doc(vals[i]) == docs[i]
  }

  /** A document that is neither list, object nor null: a scalar, or an object that stands for a string. */
  ghost predicate InvalidKind(env: Env, rank: Rank, dir: string, j: Json, bound: nat)
    requires Acyclic(env, rank) && Ranked(env, rank, dir, j, bound)
  {
    if j.Obj? then Stringy(env, rank, dir, j.fields, bound) else !j.Arr? && !j.Null?
  }

  lemma KindOfLoaded(env: Env, rank: Rank, dir: string, j: Json, bound: nat)
    requires Acyclic(env, rank) && Ranked(env, rank, dir, j, bound) && Load(env, rank, dir, j, bound).Ok?
    ensures MessagesOf(Load(env, rank, dir, j, bound).j).None? <==> InvalidKind(env, rank, dir, j, bound)
  {
    LoadKeepsKind(env, rank, dir, j, bound);
    if j.Obj? { LoadsToString(env, rank, dir, j.fields, bound); }
  }

  /** The whole preparation of a request's or an expected document, up to the encoding of its messages. */
  method NewDocToMsgs(env: Env, ghost rank: Rank, dir: string, v: Val, ghost bound: nat) returns (m: Messages)
    requires Acyclic(env, rank) && Tree(v) && Ranked(env, rank, dir, Doc(v), bound)
    modifies Repr(v)
    ensures var j := old(Doc(v));
            var readable, noClash := Readable(env, rank, dir, j, bound), NoClash(env, rank, dir, j, bound);
            && (m.LoadErr? ==> !readable) && (m.LoadPanic? ==> !noClash)
            && (m.Msgs? <==> readable && noClash && !InvalidKind(env, rank, dir, j, bound))
            && (m.BadDocument? <==> readable && noClash && InvalidKind(env, rank, dir, j, bound))
    ensures m.Msgs? ==>
              var l := Load(env, rank, dir, old(Doc(v)), bound);
              && l.Ok?
              && (l.j.Arr? ==> StandFor(m.vals, l.j.items))
              && (l.j.Obj? ==> StandFor(m.vals, [l.j]))
              && (l.j.Null? ==> StandFor(m.vals, [Obj(map[])]))
              && (l.j.Arr? || l.j.Obj? || l.j.Null?)
  {
    hide Load, Ranked, Acyclic, Readable, NoClash, InvalidKind;
    ghost var j := Doc(v);
    var out := LoadDoc(env, rank, dir, v, bound);
    LoadOutcome(env, rank, dir, j, bound);
    match out {
      case Err => m := LoadErr;
      case Panic => m := LoadPanic;
      case Done(d) =>
        KindOfLoaded(env, rank, dir, j, bound);
        m := ToMessages(d);
    }
  }

  /** The switch on the kind of the loaded document. */
  method ToMessages(d: Val) returns (m: Messages)
    requires Tree(d)
    ensures if MessagesOf(Doc(d)).None? then m.BadDocument? else m.Msgs? && StandFor(m.vals, MessagesOf(Doc(d)).value)
  {
    SameKind(d);
    match d {
      case Ref(n) =>
        match n.content {
          case Map(_) => m := Msgs([d]);
          case Slice(items) =>
            forall i | 0 <= i < |items| ensures Tree(items[i]) && Doc(items[i]) == n.model.items[i] {
              KidFacts(n, Index(i));
            }
            m := Msgs(items);
        }
      case Leaf(j) =>
        if j.Null? {
          var empty := Decode(Obj(map[]));
          m := Msgs([empty]);
        } else {
          m := BadDocument;
        }
    }
  }
}
