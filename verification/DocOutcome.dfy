/** Which documents load, which fail and how: the exact conditions, read off the document and the files it refers to. */
module DocOutcome {
  import opened Options
  import opened Json
  import opened DocLoading

  /** An object that stands for a string: a raw string, a raw file, or a file that holds such an object. */
  ghost predicate Stringy(env: Env, rank: Rank, dir: string, fields: map<string, Json>, bound: nat)
    requires Acyclic(env, rank) && Ranked(env, rank, dir, Obj(fields), bound)
    decreases bound
  {
    if HasString(fields, REF) then
      var p := Target(env, dir, fields);
      IsRawFile(fields) || env.json(p).None? || Stringy(env, rank, env.dir(p), env.json(p).value, rank[p])
    else HasString(fields, RAW)
  }

  /** Every file met on the way can be read, and decodes to an object unless it is raw. */
  ghost predicate Readable(env: Env, rank: Rank, dir: string, j: Json, bound: nat)
    requires Acyclic(env, rank) && Ranked(env, rank, dir, j, bound)
    decreases bound, j
  {
    match j
    case Arr(items) => forall i | 0 <= i < |items| :: Readable(env, rank, dir, items[i], bound)
    case Obj(fields) =>
      if HasString(fields, REF) then
        var p := Target(env, dir, fields);
        if IsRawFile(fields) then env.raw(p).Some?
        else env.json(p).Some? && Readable(env, rank, env.dir(p), Obj(env.json(p).value), rank[p])
      else HasString(fields, RAW) || forall k | k in fields :: Readable(env, rank, dir, fields[k], bound)
    case _ => true
  }

  /**
   Every object directly under a key of an object that the load descends into, here or
   in a file, stands for a string.
   */
  ghost predicate NoClash(env: Env, rank: Rank, dir: string, j: Json, bound: nat)
    requires Acyclic(env, rank) && Ranked(env, rank, dir, j, bound)
    decreases bound, j
  {
    match j
    case Arr(items) => forall i | 0 <= i < |items| :: NoClash(env, rank, dir, items[i], bound)
    case Obj(fields) =>
      if HasString(fields, REF) then
        var p := Target(env, dir, fields);
        IsRawFile(fields) || env.json(p).None? || NoClash(env, rank, env.dir(p), Obj(env.json(p).value), rank[p])
      else
        HasString(fields, RAW)
        || forall k | k in fields ::
             NoClash(env, rank, dir, fields[k], bound)
             && (fields[k].Obj? ==> Stringy(env, rank, dir, fields[k].fields, bound))
    case _ => true
  }

  /** An object that loads is a string afterwards exactly when it stands for one. */
  lemma {:induction false} LoadsToString(env: Env, rank: Rank, dir: string, fields: map<string, Json>, bound: nat)
    requires Acyclic(env, rank) && Ranked(env, rank, dir, Obj(fields), bound)
    requires Load(env, rank, dir, Obj(fields), bound).Ok?
    ensures Load(env, rank, dir, Obj(fields), bound).j.Obj? <==> !Stringy(env, rank, dir, fields, bound)
    decreases bound
  {
    if HasString(fields, REF) {
      var p := Target(env, dir, fields);
      if !IsRawFile(fields) { LoadsToString(env, rank, env.dir(p), env.json(p).value, rank[p]); }
    } else if !HasString(fields, RAW) {
      LoadFields(env, rank, dir, fields, bound);
    }
  }

  /** What a load comes to is what the document and its files say. */
  ghost predicate Told(env: Env, rank: Rank, dir: string, j: Json, bound: nat)
    requires Acyclic(env, rank) && Ranked(env, rank, dir, j, bound)
  {
    var r, readable, noClash :=
      Load(env, rank, dir, j, bound), Readable(env, rank, dir, j, bound), NoClash(env, rank, dir, j, bound);
    && (r.Ok? <==> readable && noClash)
    && (r.Fails? ==> (r.mayErr || r.mayPanic) && (r.mayErr ==> !readable) && (r.mayPanic ==> !noClash))
  }

  lemma FieldsTold(env: Env, rank: Rank, dir: string, fields: map<string, Json>, bound: nat)
    requires Acyclic(env, rank) && Ranked(env, rank, dir, Obj(fields), bound)
    requires !HasString(fields, REF) && !HasString(fields, RAW)
    requires forall k | k in fields :: Told(env, rank, dir, fields[k], bound)
    ensures Told(env, rank, dir, Obj(fields), bound)
  {
    hide Load;
    forall k | k in fields
      ensures Clash(fields[k], Load(env, rank, dir, fields[k], bound)) <==>
                && fields[k].Obj? && Load(env, rank, dir, fields[k], bound).Ok?
                && !Stringy(env, rank, dir, fields[k].fields, bound)
    {
      if fields[k].Obj? && Load(env, rank, dir, fields[k], bound).Ok? {
        LoadsToString(env, rank, dir, fields[k].fields, bound);
      }
    }
    FieldsOutcome(env, rank, dir, fields, bound);
  }

  /**
   The outcome of every load.  A document loads exactly when every file met can
   be read and every object under a key stands for a string; an error means that
   some file cannot be read, and a panic that some object under a key does not
   stand for a string.
   */
  lemma {:induction false} LoadOutcome(env: Env, rank: Rank, dir: string, j: Json, bound: nat)
    requires Acyclic(env, rank) && Ranked(env, rank, dir, j, bound)
    ensures Told(env, rank, dir, j, bound)
    decreases bound, j
  {
    match j
    case Arr(items) =>
      forall i | 0 <= i < |items| { LoadOutcome(env, rank, dir, items[i], bound); }
      LoadItems(env, rank, dir, items, bound);
    case Obj(fields) =>
      if HasString(fields, REF) {
        var p := Target(env, dir, fields);
        if !IsRawFile(fields) && env.json(p).Some? {
          LoadOutcome(env, rank, env.dir(p), Obj(env.json(p).value), rank[p]);
        }
      } else if !HasString(fields, RAW) {
        forall k | k in fields { LoadOutcome(env, rank, dir, fields[k], bound); }
        FieldsTold(env, rank, dir, fields, bound);
      }
    case _ =>
  }

  /**
   With every file readable a load panics exactly when an object under a key does not
   stand for a string; with none such it gives an error exactly when a file cannot be
   read.
   */
  lemma OneCause(env: Env, rank: Rank, dir: string, j: Json, bound: nat)
    requires Acyclic(env, rank) && Ranked(env, rank, dir, j, bound)
    ensures Readable(env, rank, dir, j, bound) ==>
              (Load(env, rank, dir, j, bound) == Fails(false, true) <==> !NoClash(env, rank, dir, j, bound))
    ensures NoClash(env, rank, dir, j, bound) ==>
              (Load(env, rank, dir, j, bound) == Fails(true, false) <==> !Readable(env, rank, dir, j, bound))
  {
    LoadOutcome(env, rank, dir, j, bound);
  }

  /** The smallest document that panics: an empty object under a key. */
  lemma NestedObjectPanics(env: Env, rank: Rank, dir: string)
    requires Acyclic(env, rank)
    ensures var j := Obj(map["a" := Obj(map[])]);
            Ranked(env, rank, dir, j, 0) && Load(env, rank, dir, j, 0) == Fails(false, true)
  {
    var j := Obj(map["a" := Obj(map[])]);
    assert "a" in j.fields;
    LoadOfResolved(env, rank, dir, j, 0);
  }
}
