/** When loading a document terminates: exactly when the chains of files that it leads to are of bounded length. */
module DocTermination {
  import opened Options
  import opened Json
  import opened DocLoading

  /** No chain of references from the document is longer than depth files. */
  ghost predicate Within(env: Env, dir: string, j: Json, depth: nat)
    decreases depth, 0, j
  {
    match j
    case Arr(items) => forall i | 0 <= i < |items| :: Within(env, dir, items[i], depth)
    case Obj(fields) =>
      if HasString(fields, REF) then
        IsRawFile(fields) || (depth > 0 && FileWithin(env, Target(env, dir, fields), depth - 1))
      else HasString(fields, RAW) || forall k | k in fields :: Within(env, dir, fields[k], depth)
    case _ => true
  }

  ghost predicate FileWithin(env: Env, p: string, depth: nat)
    decreases depth, 1
  {
    env.json(p).Some? ==> Within(env, env.dir(p), Obj(env.json(p).value), depth)
  }

  lemma {:induction false} WithinMore(env: Env, dir: string, j: Json, d: nat, e: nat)
    requires d <= e && Within(env, dir, j, d)
    ensures Within(env, dir, j, e)
    decreases d, 0, j
  {
    match j
    case Arr(items) =>
      forall i | 0 <= i < |items| ensures Within(env, dir, items[i], e) { WithinMore(env, dir, items[i], d, e); }
    case Obj(fields) =>
      if HasString(fields, REF) {
        if !IsRawFile(fields) { FileWithinMore(env, Target(env, dir, fields), d - 1, e - 1); }
      } else if !HasString(fields, RAW) {
        forall k | k in fields ensures Within(env, dir, fields[k], e) { WithinMore(env, dir, fields[k], d, e); }
      }
    case _ =>
  }

  lemma {:induction false} FileWithinMore(env: Env, p: string, d: nat, e: nat)
    requires d <= e && FileWithin(env, p, d)
    ensures FileWithin(env, p, e)
    decreases d, 1
  {
    if env.json(p).Some? { WithinMore(env, env.dir(p), Obj(env.json(p).value), d, e); }
  }

  // ------------------------------------------------------------ from ranks

  /** A rank bounds the chains. */
  lemma {:induction false} RankedIsWithin(env: Env, rank: Rank, dir: string, j: Json, bound: nat)
    requires Acyclic(env, rank) && Ranked(env, rank, dir, j, bound)
    ensures Within(env, dir, j, bound)
    decreases bound, j
  {
    match j
    case Arr(items) =>
      forall i | 0 <= i < |items| ensures Within(env, dir, items[i], bound) {
        RankedIsWithin(env, rank, dir, items[i], bound);
      }
    case Obj(fields) =>
      if HasString(fields, REF) {
        var p := Target(env, dir, fields);
        if !IsRawFile(fields) {
          if env.json(p).Some? {
            RankedIsWithin(env, rank, env.dir(p), Obj(env.json(p).value), rank[p]);
          }
          FileWithinMore(env, p, rank[p], bound - 1);
        }
      } else if !HasString(fields, RAW) {
        forall k | k in fields ensures Within(env, dir, fields[k], bound) {
          RankedIsWithin(env, rank, dir, fields[k], bound);
        }
      }
    case _ =>
  }

  // -------------------------------------------------------------- to ranks

  /** The length of the longest chain from a file, when the chains are bounded. */
  ghost function Longest(env: Env, p: string, d: nat): (r: nat)
    requires FileWithin(env, p, d)
    ensures FileWithin(env, p, r) && r <= d
    ensures forall e: nat | FileWithin(env, p, e) :: r <= e
  {
    if d > 0 && FileWithin(env, p, d - 1) then Longest(env, p, d - 1)
    else
      assert forall e: nat | FileWithin(env, p, e) :: d <= e by { NoneBelow(env, p, d); }
      d
  }

  lemma NoneBelow(env: Env, p: string, d: nat)
    requires d > 0 ==> !FileWithin(env, p, d - 1)
    ensures forall e: nat | FileWithin(env, p, e) :: d <= e
  {
    forall e: nat | FileWithin(env, p, e) ensures d <= e {
      if e < d { FileWithinMore(env, p, e, d - 1); }
    }
  }

  ghost predicate Bounded(env: Env, p: string) {
    exists d: nat :: FileWithin(env, p, d)
  }

  ghost function RankOf(env: Env, p: string): nat
    requires Bounded(env, p)
  {
    var d: nat :| FileWithin(env, p, d);
    Longest(env, p, d)
  }

  /** The files whose chains are bounded, ranked by the longest. */
  ghost function ByLength(env: Env): Rank {
    imap p | Bounded(env, p) :: RankOf(env, p)
  }

  lemma {:induction false} WithinIsRanked(env: Env, dir: string, j: Json, depth: nat)
    requires Within(env, dir, j, depth)
    ensures Ranked(env, ByLength(env), dir, j, depth)
    decreases j
  {
    match j
    case Arr(items) =>
      forall i | 0 <= i < |items| ensures Ranked(env, ByLength(env), dir, items[i], depth) {
        WithinIsRanked(env, dir, items[i], depth);
      }
    case Obj(fields) =>
      if HasString(fields, REF) {
        if !IsRawFile(fields) { assert FileWithin(env, Target(env, dir, fields), depth - 1); }
      } else if !HasString(fields, RAW) {
        forall k | k in fields ensures Ranked(env, ByLength(env), dir, fields[k], depth) {
          WithinIsRanked(env, dir, fields[k], depth);
        }
      }
    case _ =>
  }

  lemma ByLengthIsAcyclic(env: Env)
    ensures Acyclic(env, ByLength(env))
  {
    forall p | p in ByLength(env) && env.json(p).Some?
      ensures Ranked(env, ByLength(env), env.dir(p), Obj(env.json(p).value), ByLength(env)[p])
    {
      var d: nat :| FileWithin(env, p, d);
      WithinIsRanked(env, env.dir(p), Obj(env.json(p).value), ByLength(env)[p]);
    }
  }

  /** The ranking covers the document and every file that it leads to. */
  ghost predicate Covers(env: Env, dir: string, j: Json, rank: Rank, bound: nat) {
    Acyclic(env, rank) && Ranked(env, rank, dir, j, bound)
  }

  /**
   The condition under which loading a document is shown to terminate is no
   stronger than it must be: a ranking exists exactly when the chains of
   references that start from this document are of bounded length.
   */
  lemma RankedIffWithin(env: Env, dir: string, j: Json)
    ensures (exists rank: Rank, bound: nat :: Covers(env, dir, j, rank, bound))
       <==> exists depth: nat :: Within(env, dir, j, depth)
  {
    if rank: Rank, bound: nat :| Covers(env, dir, j, rank, bound) {
      RankedIsWithin(env, rank, dir, j, bound);
      assert exists depth: nat :: Within(env, dir, j, depth);
    }
    if depth: nat :| Within(env, dir, j, depth) {
      var rank := ByLength(env);
      ByLengthIsAcyclic(env);
      WithinIsRanked(env, dir, j, depth);
      assert Covers(env, dir, j, rank, depth);
      assert exists rank: Rank, bound: nat :: Covers(env, dir, j, rank, bound);
    }
  }

  // ---------------------------------------------------------------- cycles

  /** The file is nothing but a reference to another JSON file. */
  predicate IsReference(env: Env, p: string) {
    env.json(p).Some? && HasString(env.json(p).value, REF) && !IsRawFile(env.json(p).value)
  }

  predicate Circular(env: Env, files: set<string>) {
    forall p | p in files :: IsReference(env, p) && Target(env, env.dir(p), env.json(p).value) in files
  }

  /**
   Files that refer only to each other: however many files are read in a chain,
   one more has to be.  Each of their loads is the load of the next file, so
   none of them returns.
   */
  lemma {:induction false} CircularIsEndless(env: Env, files: set<string>, p: string, depth: nat)
    requires Circular(env, files) && p in files
    ensures !FileWithin(env, p, depth)
    decreases depth
  {
    var doc := env.json(p).value;
    if depth > 0 { CircularIsEndless(env, files, Target(env, env.dir(p), doc), depth - 1); }
  }

  /** No ranking covers such a file. */
  lemma CircularIsUnranked(env: Env, files: set<string>, p: string, rank: Rank, bound: nat)
    requires Circular(env, files) && p in files && Acyclic(env, rank)
    ensures !Ranked(env, rank, env.dir(p), Obj(env.json(p).value), bound)
  {
    if Ranked(env, rank, env.dir(p), Obj(env.json(p).value), bound) {
      RankedIsWithin(env, rank, env.dir(p), Obj(env.json(p).value), bound);
      CircularIsEndless(env, files, p, bound);
    }
  }
}
