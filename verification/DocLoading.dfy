/**
 What loading a gRPC document means: references to files are replaced by their
 loaded contents, raw strings and raw files by their base64 text.
 */
module DocLoading {
  import opened Options
  import opened Json

  /** The file system and the library functions. */
  datatype Env = Env(
    isAbs: string -> bool,
    join: (string, string) -> string,
    dir: string -> string,
    json: string -> Option<map<string, Json>>,  // a file that decodes to an object
    raw: string -> Option<string>,              // the bytes of a file
    base64: string -> string
  )

  function Resolve(env: Env, dir: string, ref: string): string {
    if env.isAbs(ref) then ref else env.join(dir, ref)
  }

  predicate HasString(fields: map<string, Json>, k: string) {
    k in fields && fields[k].Str?
  }

  predicate IsRawFile(fields: map<string, Json>) {
    RAW in fields && fields[RAW] == Bool(true)
  }

  /** The file an object refers to. */
  function Target(env: Env, dir: string, fields: map<string, Json>): string
    requires HasString(fields, REF)
  {
    Resolve(env, dir, fields[REF].s)
  }

  // --------------------------------------------------------------- termination

  /** A rank for some files: those that the documents in question can lead to. */
  type Rank = imap<string, nat>

  /** Every JSON file that j refers to has a rank, below the bound. */
  ghost predicate Ranked(env: Env, rank: Rank, dir: string, j: Json, bound: nat) {
    match j
    case Arr(items) => forall i | 0 <= i < |items| :: Ranked(env, rank, dir, items[i], bound)
    case Obj(fields) =>
      if HasString(fields, REF) then
        var p := Target(env, dir, fields);
        IsRawFile(fields) || (p in rank && rank[p] < bound)
      else if HasString(fields, RAW) then true
      else forall k | k in fields :: Ranked(env, rank, dir, fields[k], bound)
    case _ => true
  }

  /** The reference graph of the ranked files is acyclic and closed: each refers only to files of lower rank. */
  ghost predicate Acyclic(env: Env, rank: Rank) {
    forall p | p in rank && env.json(p).Some? :: Ranked(env, rank, env.dir(p), Obj(env.json(p).value), rank[p])
  }

  // ------------------------------------------------------------- specification

  /**
   The result of a load.  Which of several failures is met first depends on the
   order in which Go visits the keys of a map.
   */
  datatype Loaded = Ok(j: Json) | Fails(mayErr: bool, mayPanic: bool)

  /** Comparing two interface values that both hold maps panics. */
  predicate Clash(v: Json, loaded: Loaded) {
    v.Obj? && loaded.Ok? && loaded.j.Obj?
  }

  /** Items are loaded in order. */
  function InOrder(rs: seq<Loaded>): Loaded {
    if forall i | 0 <= i < |rs| :: rs[i].Ok? then
      Ok(Arr(seq(|rs|, i requires 0 <= i < |rs| && rs[i].Ok? => rs[i].j)))
    else FirstFailure(rs)
  }

  function FirstFailure(rs: seq<Loaded>): Loaded
    requires exists i | 0 <= i < |rs| :: !rs[i].Ok?
  {
    if rs[0].Ok? then FirstFailure(rs[1..]) else rs[0]
  }

  /** Keys are loaded in any order. */
  function AnyOrder(fields: map<string, Json>, rs: map<string, Loaded>): Loaded
    requires rs.Keys == fields.Keys
  {
    if forall k | k in fields :: rs[k].Ok? && !Clash(fields[k], rs[k]) then
      Ok(Obj(map k | k in fields && rs[k].Ok? :: rs[k].j))
    else
      Fails(exists k | k in fields :: rs[k].Fails? && rs[k].mayErr,
            exists k | k in fields :: (rs[k].Fails? && rs[k].mayPanic) || Clash(fields[k], rs[k]))
  }

  ghost function Load(env: Env, rank: Rank, dir: string, j: Json, bound: nat): Loaded
    requires Acyclic(env, rank) && Ranked(env, rank, dir, j, bound)
    decreases bound, 0, j
  {
    match j
    case Arr(items) => InOrder(seq(|items|, i requires 0 <= i < |items| => Load(env, rank, dir, items[i], bound)))
    case Obj(fields) =>
      if HasString(fields, REF) then
        var p := Target(env, dir, fields);
        if IsRawFile(fields) then LoadRaw(env, p) else LoadFile(env, rank, p)
      else if HasString(fields, RAW) then Ok(Str(env.base64(fields[RAW].s)))
      else AnyOrder(fields, map k | k in fields :: Load(env, rank, dir, fields[k], bound))
    case _ => Ok(j)
  }

  function LoadRaw(env: Env, p: string): Loaded {
    match env.raw(p)
    case None => Fails(true, false)
    case Some(bytes) => Ok(Str(env.base64(bytes)))
  }

  ghost function LoadFile(env: Env, rank: Rank, p: string): Loaded
    requires Acyclic(env, rank) && p in rank
    decreases rank[p], 1
  {
    match env.json(p)
    case None => Fails(true, false)
    case Some(doc) => Load(env, rank, env.dir(p), Obj(doc), rank[p])
  }

  // ---------------------------------------------------------------- properties

  /** No object at any depth has a string under `$ref` or `$raw`. */
  predicate NoRefs(j: Json) {
    match j
    case Arr(items) => forall i | 0 <= i < |items| :: NoRefs(items[i])
    case Obj(fields) =>
      !HasString(fields, REF) && !HasString(fields, RAW) && forall k | k in fields :: NoRefs(fields[k])
    case _ => true
  }

  /** No object lies directly under a key of another object. */
  predicate Flat(j: Json) {
    match j
    case Arr(items) => forall i | 0 <= i < |items| :: Flat(items[i])
    case Obj(fields) => forall k | k in fields :: !fields[k].Obj? && Flat(fields[k])
    case _ => true
  }

  predicate HasObject(fields: map<string, Json>, k: string) {
    k in fields && fields[k].Obj?
  }

  /** No object that the load descends into, here or in a file, holds an object under `$ref` or `$raw`. */
  ghost predicate Clean(env: Env, rank: Rank, dir: string, j: Json, bound: nat)
    requires Acyclic(env, rank) && Ranked(env, rank, dir, j, bound)
    decreases bound, j
  {
    match j
    case Arr(items) => forall i | 0 <= i < |items| :: Clean(env, rank, dir, items[i], bound)
    case Obj(fields) =>
      if HasString(fields, REF) then
        var p := Target(env, dir, fields);
        IsRawFile(fields) || env.json(p).None? || Clean(env, rank, env.dir(p), Obj(env.json(p).value), rank[p])
      else if HasString(fields, RAW) then true
      else
        && !HasObject(fields, REF) && !HasObject(fields, RAW)
        && forall k | k in fields :: Clean(env, rank, dir, fields[k], bound)
    case _ => true
  }

  lemma FirstFailureIs(rs: seq<Loaded>, n: nat)
    requires n < |rs| && !rs[n].Ok? && forall i | 0 <= i < n :: rs[i].Ok?
    ensures FirstFailure(rs) == rs[n]
  {
    if n > 0 { FirstFailureIs(rs[1..], n - 1); }
  }

  /** What the items of an array load to. */
  ghost function Loads(env: Env, rank: Rank, dir: string, items: seq<Json>, bound: nat): (rs: seq<Loaded>)
    requires Acyclic(env, rank) && Ranked(env, rank, dir, Arr(items), bound)
    ensures |rs| == |items| && forall i | 0 <= i < |items| :: rs[i] == Load(env, rank, dir, items[i], bound)
  {
    seq(|items|, i requires 0 <= i < |items| => Load(env, rank, dir, items[i], bound))
  }

  lemma LoadsInOrder(env: Env, rank: Rank, dir: string, items: seq<Json>, bound: nat)
    requires Acyclic(env, rank) && Ranked(env, rank, dir, Arr(items), bound)
    ensures Load(env, rank, dir, Arr(items), bound) == InOrder(Loads(env, rank, dir, items, bound))
  {
    var rs := seq(|items|, i requires 0 <= i < |items| => Load(env, rank, dir, items[i], bound));
    assert Load(env, rank, dir, Arr(items), bound) == InOrder(rs);
    assert rs == Loads(env, rank, dir, items, bound);
  }

  /** The first item that fails fails the array. */
  lemma LoadItemFails(env: Env, rank: Rank, dir: string, items: seq<Json>, bound: nat, n: nat)
    requires Acyclic(env, rank) && Ranked(env, rank, dir, Arr(items), bound)
    requires n < |items| && !Load(env, rank, dir, items[n], bound).Ok?
    requires forall i | 0 <= i < n :: Load(env, rank, dir, items[i], bound).Ok?
    ensures Load(env, rank, dir, Arr(items), bound) == Load(env, rank, dir, items[n], bound)
  {
    hide Load, Loads, FirstFailure;
    LoadsInOrder(env, rank, dir, items, bound);
    FirstFailureIs(Loads(env, rank, dir, items, bound), n);
  }

  /** An array whose items all load is an array of the loaded items; otherwise it fails as one of its items does. */
  lemma LoadItems(env: Env, rank: Rank, dir: string, items: seq<Json>, bound: nat)
    requires Acyclic(env, rank) && Ranked(env, rank, dir, Arr(items), bound)
    ensures var r := Load(env, rank, dir, Arr(items), bound);
            && (r.Ok? <==> forall i | 0 <= i < |items| :: Load(env, rank, dir, items[i], bound).Ok?)
            && (r.Ok? ==>
                  r.j.Arr? && |r.j.items| == |items|
                  && forall i | 0 <= i < |items| :: Load(env, rank, dir, items[i], bound) == Ok(r.j.items[i]))
            && (!r.Ok? ==> exists i | 0 <= i < |items| :: r == Load(env, rank, dir, items[i], bound))
  {
    hide Load, Loads, FirstFailure;
    LoadsInOrder(env, rank, dir, items, bound);
    var rs := Loads(env, rank, dir, items, bound);
    var n := 0;
    while n < |items| && rs[n].Ok?
      invariant 0 <= n <= |items| && forall i | 0 <= i < n :: rs[i].Ok?
    {
      n := n + 1;
    }
    if n < |items| {
      FirstFailureIs(rs, n);
      InOrderFails(rs, n);
    }
  }

  lemma InOrderFails(rs: seq<Loaded>, n: nat)
    requires n < |rs| && !rs[n].Ok?
    ensures InOrder(rs) == FirstFailure(rs)
  {
  }

  lemma RankedFields(env: Env, rank: Rank, dir: string, fields: map<string, Json>, bound: nat)
    requires Ranked(env, rank, dir, Obj(fields), bound) && !HasString(fields, REF) && !HasString(fields, RAW)
    ensures forall k | k in fields :: Ranked(env, rank, dir, fields[k], bound)
  {
  }

  /** An unresolved object all of whose fields load, no map to a map, loads to the object of the loaded fields. */
  lemma FieldsLoad(env: Env, rank: Rank, dir: string, fields: map<string, Json>, bound: nat, loaded: map<string, Json>)
    requires Acyclic(env, rank) && Ranked(env, rank, dir, Obj(fields), bound)
    requires !HasString(fields, REF) && !HasString(fields, RAW) && loaded.Keys == fields.Keys
    requires forall k | k in fields ::
               Load(env, rank, dir, fields[k], bound) == Ok(loaded[k]) && !(fields[k].Obj? && loaded[k].Obj?)
    ensures Load(env, rank, dir, Obj(fields), bound) == Ok(Obj(loaded))
  {
    var rs := map k | k in fields :: Load(env, rank, dir, fields[k], bound);
    assert Load(env, rank, dir, Obj(fields), bound) == AnyOrder(fields, rs);
    assert AnyOrder(fields, rs).j.fields == loaded;
  }

  /** Any field that fails, or that leaves a map where a map was, fails the object in the same way. */
  lemma FieldFails(env: Env, rank: Rank, dir: string, fields: map<string, Json>, bound: nat, k: string)
    requires Acyclic(env, rank) && Ranked(env, rank, dir, Obj(fields), bound)
    requires !HasString(fields, REF) && !HasString(fields, RAW) && k in fields
    ensures var l := Load(env, rank, dir, fields[k], bound); var r := Load(env, rank, dir, Obj(fields), bound);
            && (l.Fails? || Clash(fields[k], l) ==> r.Fails?)
            && (l.Fails? && l.mayErr ==> r.mayErr)
            && ((l.Fails? && l.mayPanic) || Clash(fields[k], l) ==> r.mayPanic)
  {
    var rs := map k | k in fields :: Load(env, rank, dir, fields[k], bound);
    assert Load(env, rank, dir, Obj(fields), bound) == AnyOrder(fields, rs);
    assert rs[k] == Load(env, rank, dir, fields[k], bound);
  }

  /** How an unresolved object loads is decided by its fields, each of which may be met first. */
  lemma FieldsOutcome(env: Env, rank: Rank, dir: string, fields: map<string, Json>, bound: nat)
    requires Acyclic(env, rank) && Ranked(env, rank, dir, Obj(fields), bound)
    requires !HasString(fields, REF) && !HasString(fields, RAW)
    ensures var r := Load(env, rank, dir, Obj(fields), bound);
            if r.Ok? then
              forall k | k in fields ::
                var l := Load(env, rank, dir, fields[k], bound); l.Ok? && !Clash(fields[k], l)
            else
              && (r.mayErr <==> exists k | k in fields ::
                    var l := Load(env, rank, dir, fields[k], bound); l.Fails? && l.mayErr)
              && (r.mayPanic <==> exists k | k in fields ::
                    var l := Load(env, rank, dir, fields[k], bound); (l.Fails? && l.mayPanic) || Clash(fields[k], l))
              && exists k | k in fields ::
                    var l := Load(env, rank, dir, fields[k], bound); l.Fails? || Clash(fields[k], l)
  {
    var rs := map k | k in fields :: Load(env, rank, dir, fields[k], bound);
    assert Load(env, rank, dir, Obj(fields), bound) == AnyOrder(fields, rs);
    assert forall k | k in fields :: rs[k] == Load(env, rank, dir, fields[k], bound);
  }

  /**
   What an object loads to, case by case: a raw file to the base64 text of its bytes, another
   file to what its contents load to in its own directory, a raw string to its base64 text.
   */
  lemma ObjectLoads(env: Env, rank: Rank, dir: string, fields: map<string, Json>, bound: nat)
    requires Acyclic(env, rank) && Ranked(env, rank, dir, Obj(fields), bound)
    ensures var r := Load(env, rank, dir, Obj(fields), bound);
            if "$ref" in fields && fields["$ref"].Str? then
              var name := fields["$ref"].s;
              var path := if env.isAbs(name) then name else env.join(dir, name);
              if "$raw" in fields && fields["$raw"] == Bool(true) then
                match env.raw(path)
                case Some(bytes) => r == Ok(Str(env.base64(bytes)))
                case None => r == Fails(true, false)
              else
                match env.json(path)
                case Some(doc) =>
                  && path in rank && rank[path] < bound && Ranked(env, rank, env.dir(path), Obj(doc), rank[path])
                  && r == Load(env, rank, env.dir(path), Obj(doc), rank[path])
                case None => r == Fails(true, false)
            else if "$raw" in fields && fields["$raw"].Str? then
              r == Ok(Str(env.base64(fields["$raw"].s)))
            else
              (r.Ok? <==> forall k | k in fields ::
                 var l := Load(env, rank, dir, fields[k], bound); l.Ok? && !(fields[k].Obj? && l.j.Obj?))
              && (r.Ok? ==>
                    r.j.Obj? && r.j.fields.Keys == fields.Keys
                    && forall k | k in fields :: Load(env, rank, dir, fields[k], bound) == Ok(r.j.fields[k]))
  {
    if !HasString(fields, REF) && !HasString(fields, RAW) {
      FieldsOutcome(env, rank, dir, fields, bound);
      if Load(env, rank, dir, Obj(fields), bound).Ok? { LoadFields(env, rank, dir, fields, bound); }
    }
  }

  /** A scalar loads to itself, an array to an array, and an object to a string or an object. */
  lemma LoadKeepsKind(env: Env, rank: Rank, dir: string, j: Json, bound: nat)
    requires Acyclic(env, rank) && Ranked(env, rank, dir, j, bound)
    requires Load(env, rank, dir, j, bound).Ok?
    ensures var r := Load(env, rank, dir, j, bound).j;
            if j.Obj? then r.Str? || r.Obj? else if j.Arr? then r.Arr? else r == j
    decreases bound
  {
    if j.Obj? && HasString(j.fields, REF) && !IsRawFile(j.fields) {
      var p := Target(env, dir, j.fields);
      LoadKeepsKind(env, rank, env.dir(p), Obj(env.json(p).value), rank[p]);
    } else if j.Arr? {
      LoadItems(env, rank, dir, j.items, bound);
    }
  }

  /**
   An object that is not itself a reference keeps its keys, and a key holds a string
   afterwards iff it held a string or an object.
   */
  lemma LoadFields(env: Env, rank: Rank, dir: string, fields: map<string, Json>, bound: nat)
    requires Acyclic(env, rank) && Ranked(env, rank, dir, Obj(fields), bound)
    requires !HasString(fields, REF) && !HasString(fields, RAW)
    requires Load(env, rank, dir, Obj(fields), bound).Ok?
    ensures var r := Load(env, rank, dir, Obj(fields), bound).j;
            && r.Obj? && r.fields.Keys == fields.Keys
            && forall k | k in fields ::
                 && Load(env, rank, dir, fields[k], bound) == Ok(r.fields[k])
                 && !r.fields[k].Obj?
                 && (r.fields[k].Str? <==> fields[k].Str? || fields[k].Obj?)
  {
    var rs := map k | k in fields :: Load(env, rank, dir, fields[k], bound);
    assert Load(env, rank, dir, Obj(fields), bound) == AnyOrder(fields, rs);
    forall k | k in fields
      ensures var r := Load(env, rank, dir, fields[k], bound);
              r.Ok? && !r.j.Obj? && (r.j.Str? <==> fields[k].Str? || fields[k].Obj?)
    {
      assert rs[k].Ok? && !Clash(fields[k], rs[k]);
      LoadKeepsKind(env, rank, dir, fields[k], bound);
    }
  }

  /** What was loaded has no object directly under a key of an object. */
  lemma {:induction false} LoadedIsFlat(env: Env, rank: Rank, dir: string, j: Json, bound: nat)
    requires Acyclic(env, rank) && Ranked(env, rank, dir, j, bound)
    ensures Load(env, rank, dir, j, bound).Ok? ==> Flat(Load(env, rank, dir, j, bound).j)
    decreases bound, j
  {
    match j
    case Arr(items) =>
      LoadItems(env, rank, dir, items, bound);
      forall i | 0 <= i < |items| { LoadedIsFlat(env, rank, dir, items[i], bound); }
    case Obj(fields) =>
      if HasString(fields, REF) {
        var p := Target(env, dir, fields);
        if !IsRawFile(fields) && env.json(p).Some? {
          LoadedIsFlat(env, rank, env.dir(p), Obj(env.json(p).value), rank[p]);
        }
      } else if !HasString(fields, RAW) {
        if Load(env, rank, dir, j, bound).Ok? {
          LoadFields(env, rank, dir, fields, bound);
          forall k | k in fields { LoadedIsFlat(env, rank, dir, fields[k], bound); }
        }
      }
    case _ =>
  }

  /** An unresolved object that loads is free of references iff its fields are and hold no object under these keys. */
  lemma FieldsResolved(env: Env, rank: Rank, dir: string, fields: map<string, Json>, bound: nat)
    requires Acyclic(env, rank) && Ranked(env, rank, dir, Obj(fields), bound)
    requires !HasString(fields, REF) && !HasString(fields, RAW)
    requires Load(env, rank, dir, Obj(fields), bound).Ok?
    ensures forall k | k in fields :: Load(env, rank, dir, fields[k], bound).Ok?
    ensures NoRefs(Load(env, rank, dir, Obj(fields), bound).j) <==>
              && !HasObject(fields, REF) && !HasObject(fields, RAW)
              && forall k | k in fields :: NoRefs(Load(env, rank, dir, fields[k], bound).j)
  {
    hide Load;
    LoadFields(env, rank, dir, fields, bound);
  }

  /**
   A loaded document is free of string references exactly when no object the
   load descends into holds an object under `$ref` or `$raw`.
   */
  lemma {:induction false} LoadedIsResolvedIffClean(env: Env, rank: Rank, dir: string, j: Json, bound: nat)
    requires Acyclic(env, rank) && Ranked(env, rank, dir, j, bound)
    ensures Load(env, rank, dir, j, bound).Ok? ==>
              (NoRefs(Load(env, rank, dir, j, bound).j) <==> Clean(env, rank, dir, j, bound))
    decreases bound, j
  {
    match j
    case Arr(items) =>
      LoadItems(env, rank, dir, items, bound);
      forall i | 0 <= i < |items| { LoadedIsResolvedIffClean(env, rank, dir, items[i], bound); }
    case Obj(fields) =>
      if HasString(fields, REF) {
        var p := Target(env, dir, fields);
        if !IsRawFile(fields) && env.json(p).Some? {
          LoadedIsResolvedIffClean(env, rank, env.dir(p), Obj(env.json(p).value), rank[p]);
        }
      } else if !HasString(fields, RAW) {
        if Load(env, rank, dir, j, bound).Ok? {
          FieldsResolved(env, rank, dir, fields, bound);
          forall k | k in fields { LoadedIsResolvedIffClean(env, rank, dir, fields[k], bound); }
        }
      }
    case _ =>
  }

  /**
   Loading a document without string references needs no file: it succeeds and
   changes nothing when the document is flat, and otherwise panics.
   */
  lemma {:induction false} LoadOfResolved(env: Env, rank: Rank, dir: string, j: Json, bound: nat)
    requires Acyclic(env, rank) && NoRefs(j)
    ensures Ranked(env, rank, dir, j, bound)
    ensures Load(env, rank, dir, j, bound) == if Flat(j) then Ok(j) else Fails(false, true)
    decreases j
  {
    match j
    case Arr(items) =>
      forall i | 0 <= i < |items| { LoadOfResolved(env, rank, dir, items[i], bound); }
      LoadItems(env, rank, dir, items, bound);
      if Flat(j) { assert Load(env, rank, dir, j, bound).j.items == items; }
    case Obj(fields) =>
      forall k | k in fields { LoadOfResolved(env, rank, dir, fields[k], bound); }
      if Flat(j) {
        FieldsLoad(env, rank, dir, fields, bound, fields);
      } else {
        var k :| k in fields && (fields[k].Obj? || !Flat(fields[k]));
        FieldFails(env, rank, dir, fields, bound, k);
        FieldsOutcome(env, rank, dir, fields, bound);
      }
    case _ =>
  }

  /** Loading what was loaded from a clean document succeeds, from any directory, and changes nothing. */
  lemma LoadIdempotent(env: Env, rank: Rank, dir: string, j: Json, bound: nat, dir': string)
    requires Acyclic(env, rank) && Ranked(env, rank, dir, j, bound)
    requires Load(env, rank, dir, j, bound).Ok? && Clean(env, rank, dir, j, bound)
    ensures var r := Load(env, rank, dir, j, bound);
            Ranked(env, rank, dir', r.j, 0) && Load(env, rank, dir', r.j, 0) == r
  {
    LoadedIsFlat(env, rank, dir, j, bound);
    LoadedIsResolvedIffClean(env, rank, dir, j, bound);
    LoadOfResolved(env, rank, dir', Load(env, rank, dir, j, bound).j, 0);
  }

  /** A document that is not clean: what it loads to is a reference, to a file whose name is base64 text. */
  lemma DirtyDocument(env: Env, rank: Rank, dir: string, text: string)
    requires Acyclic(env, rank)
    ensures var j := Obj(map[REF := Obj(map[RAW := Str(text)])]);
            && Ranked(env, rank, dir, j, 0)
            && Load(env, rank, dir, j, 0) == Ok(Obj(map[REF := Str(env.base64(text))]))
  {
    var inner := map[RAW := Str(text)];
    assert Load(env, rank, dir, Obj(inner), 0) == Ok(Str(env.base64(text)));
    var r := Load(env, rank, dir, Obj(map[REF := Obj(inner)]), 0);
    assert r.Ok? && r.j.fields == map[REF := Str(env.base64(text))];
  }

  /** The result does not depend on how the files are ranked. */
  lemma {:induction false} RankIrrelevant(env: Env, a: Rank, b: Rank, dir: string, j: Json, m: nat, n: nat)
    requires Acyclic(env, a) && Acyclic(env, b) && Ranked(env, a, dir, j, m) && Ranked(env, b, dir, j, n)
    ensures Load(env, a, dir, j, m) == Load(env, b, dir, j, n)
    decreases m, j
  {
    match j
    case Arr(items) =>
      forall i | 0 <= i < |items| { RankIrrelevant(env, a, b, dir, items[i], m, n); }
      assert seq(|items|, i requires 0 <= i < |items| => Load(env, a, dir, items[i], m))
          == seq(|items|, i requires 0 <= i < |items| => Load(env, b, dir, items[i], n));
    case Obj(fields) =>
      if HasString(fields, REF) {
        var p := Target(env, dir, fields);
        if !IsRawFile(fields) && env.json(p).Some? {
          RankIrrelevant(env, a, b, env.dir(p), Obj(env.json(p).value), a[p], b[p]);
        }
      } else if !HasString(fields, RAW) {
        forall k | k in fields { RankIrrelevant(env, a, b, dir, fields[k], m, n); }
        assert (map k | k in fields :: Load(env, a, dir, fields[k], m))
            == (map k | k in fields :: Load(env, b, dir, fields[k], n));
      }
    case _ =>
  }
}
