/** Dotted queries into decoded JSON documents. */
module JsonQuery {
  import opened Options
  import opened Strings
  import opened Json

  datatype Fault = InvalidArrayIndex | InvalidType | IndexOutOfBounds | ObjectFieldNotFound

  /** One lookup; Crash is Go's index-out-of-range panic. */
  datatype Found = Hit(v: Json) | Miss(why: Fault) | Crash

  /** A whole query; a failure names the dotted prefix at which it happened. */
  datatype Answer = Value(v: Json) | Failed(path: string, why: Fault) | Panicked

  /** lookupJSONData: only the upper bound of an index is checked. */
  function LookupKey(k: string, j: Json): Found {
    match j
    case Arr(items) =>
      if k == "length" then Hit(Number(Itoa(|items|)))
      else (
        match Atoi(k)
        case None => Miss(InvalidArrayIndex)
        case Some(i) =>
          if i >= |items| then Miss(IndexOutOfBounds)
          else if i < 0 then Crash
          else Hit(items[i])
      )
    case Obj(fields) => if k in fields then Hit(fields[k]) else Miss(ObjectFieldNotFound)
    case _ => Miss(InvalidType)
  }

  /** The answer below the prefix of a query. */
  function Under(prefix: string, a: Answer): Answer {
    match a
    case Failed(path, why) => Failed(prefix + "." + path, why)
    case _ => a
  }

  /** Looking up one key after the other. */
  function Walk(ks: seq<string>, j: Json): Answer {
    if ks == [] then Value(j)
    else
      match LookupKey(ks[0], j)
      case Hit(v) => Under(ks[0], Walk(ks[1..], v))
      case Miss(why) => Failed(ks[0], why)
      case Crash => Panicked
  }

  function Query(q: string, j: Json): Answer {
    Walk(Split(q, '.'), j)
  }

  // ------------------------------------------------------------ composition

  lemma {:induction false} WalkConcat(a: seq<string>, b: seq<string>, j: Json)
    requires a != [] && b != []
    ensures Walk(a + b, j) == match Walk(a, j)
                              case Value(v) => Under(Join(a, '.'), Walk(b, v))
                              case other => other
  {
    assert (a + b)[1..] == a[1..] + b;
    match LookupKey(a[0], j)
    case Hit(v) =>
      if |a| > 1 {
        WalkConcat(a[1..], b, v);
        if Walk(a[1..], v).Value? && Walk(b, Walk(a[1..], v).v).Failed? {
          var path := Walk(b, Walk(a[1..], v).v).path;
          assert a[0] + "." + (Join(a[1..], '.') + "." + path) == Join(a, '.') + "." + path;
        }
      } else {
        assert a[1..] + b == b;
      }
    case _ =>
  }

  lemma WalkNothing(j: Json)
    ensures Walk([], j) == Value(j)
  {
  }

  /** One more key after a prefix that has a value. */
  lemma WalkOneMore(ks: seq<string>, i: nat, j: Json, v: Json)
    requires i < |ks| && Walk(ks[..i], j) == Value(v)
    ensures Walk(ks[..i + 1], j) == match LookupKey(ks[i], v)
                                    case Hit(w) => Value(w)
                                    case Miss(why) => Failed(Join(ks[..i + 1], '.'), why)
                                    case Crash => Panicked
  {
    assert ks[..i + 1] == ks[..i] + [ks[i]];
    assert [ks[i]][1..] == [];
    if i > 0 {
      WalkConcat(ks[..i], [ks[i]], j);
      JoinConcat(ks[..i], [ks[i]], '.');
    }
  }

  /** A prefix without a value decides the whole walk. */
  lemma WalkEnds(ks: seq<string>, n: nat, j: Json)
    requires 0 < n <= |ks| && !Walk(ks[..n], j).Value?
    ensures Walk(ks, j) == Walk(ks[..n], j)
  {
    hide Walk;
    if n == |ks| {
      assert ks[..n] == ks;
    } else {
      assert ks == ks[..n] + ks[n..];
      WalkConcat(ks[..n], ks[n..], j);
    }
  }

  /** queryJSONData, with its loop. */
  method QueryJSONData(q: string, data: Json) returns (a: Answer)
    ensures a == Query(q, data)
  {
    hide Walk, LookupKey;
    var ks := Split(q, '.');
    var v := data;
    var i := 0;
    assert ks[..0] == [];
    WalkNothing(data);
    while i < |ks|
      invariant 0 <= i <= |ks|
      invariant Walk(ks[..i], data) == Value(v)
    {
      WalkOneMore(ks, i, data, v);
      match LookupKey(ks[i], v) {
        case Hit(w) => v := w;
        case Miss(why) =>
          WalkEnds(ks, i + 1, data);
          return Failed(Join(ks[..i + 1], '.'), why);
        case Crash =>
          WalkEnds(ks, i + 1, data);
          return Panicked;
      }
      i := i + 1;
    }
    assert ks[..|ks|] == ks;
    a := Value(v);
  }

  /** The query p.q is q asked of the answer to p. */
  lemma QueriesCompose(p: string, q: string, j: Json)
    ensures Query(p + "." + q, j) == match Query(p, j)
                                     case Value(v) => Under(p, Query(q, v))
                                     case other => other
  {
    SplitConcat(p, q, '.');
    assert p + "." + q == p + ['.'] + q;
    JoinSplit(p, '.');
    WalkConcat(Split(p, '.'), Split(q, '.'), j);
  }

  // --------------------------------------------------------- failing prefix

  /** The first i keys of a query, as a query. */
  function Prefix(q: string, i: nat): string
    requires i <= |Split(q, '.')|
  {
    Join(Split(q, '.')[..i], '.')
  }

  lemma PrefixKeys(q: string, i: nat)
    requires 0 < i <= |Split(q, '.')|
    ensures Split(Prefix(q, i), '.') == Split(q, '.')[..i]
  {
    SplitPieces(q, '.');
    SplitJoin(Split(q, '.')[..i], '.');
  }

  /** Where a walk stops: every shorter prefix has a value, and the key after it misses or crashes. */
  lemma WalkStops(ks: seq<string>, j: Json) returns (i: nat, v: Json)
    requires !Walk(ks, j).Value?
    ensures i < |ks| && Walk(ks[..i], j) == Value(v) && !LookupKey(ks[i], v).Hit?
    ensures forall n | 0 <= n <= i :: Walk(ks[..n], j).Value?
    ensures Walk(ks[..i + 1], j) == Walk(ks, j)
    ensures Walk(ks, j) == match LookupKey(ks[i], v)
                           case Miss(why) => Failed(Join(ks[..i + 1], '.'), why)
                           case _ => Panicked
  {
    hide Walk, LookupKey;
    i, v := 0, j;
    assert ks[..0] == [] && ks[..|ks|] == ks;
    WalkNothing(j);
    while i < |ks| && LookupKey(ks[i], v).Hit?
      invariant i <= |ks| && Walk(ks[..i], j) == Value(v)
      invariant forall n | 0 <= n <= i :: Walk(ks[..n], j).Value?
    {
      WalkOneMore(ks, i, j, v);
      i, v := i + 1, LookupKey(ks[i], v).v;
    }
    WalkOneMore(ks, i, j, v);
    WalkEnds(ks, i + 1, j);
  }

  /** A reported path is the shortest prefix of the query that fails, and fails for the reported reason. */
  lemma FailureIsShortest(q: string, j: Json) returns (i: nat)
    requires Query(q, j).Failed?
    ensures i < |Split(q, '.')| && Query(q, j).path == Prefix(q, i + 1)
    ensures forall n | 0 < n <= i :: Query(Prefix(q, n), j).Value?
    ensures Query(Prefix(q, i + 1), j) == Query(q, j)
  {
    hide Walk, LookupKey;
    var ks := Split(q, '.');
    var v;
    i, v := WalkStops(ks, j);
    forall n | 0 < n <= i ensures Query(Prefix(q, n), j).Value? { PrefixKeys(q, n); }
    PrefixKeys(q, i + 1);
  }

  /** Key number i of the query is a negative index into the array its prefix leads to. */
  predicate NegativeIndexAt(q: string, j: Json, i: nat) {
    var ks := Split(q, '.');
    && i < |ks| && Walk(ks[..i], j).Value? && Walk(ks[..i], j).v.Arr? && ks[i] != "length"
    && Atoi(ks[i]).Some? && Atoi(ks[i]).value < 0
  }

  /** A query panics exactly when it applies a negative index to an array. */
  lemma PanicsIffNegativeIndex(q: string, j: Json)
    ensures Query(q, j).Panicked? <==> exists i: nat :: NegativeIndexAt(q, j, i)
  {
    hide Walk;
    var ks := Split(q, '.');
    if Query(q, j).Panicked? {
      var i, v := WalkStops(ks, j);
      assert NegativeIndexAt(q, j, i);
    }
    if i: nat :| NegativeIndexAt(q, j, i) {
      WalkOneMore(ks, i, j, Walk(ks[..i], j).v);
      WalkEnds(ks, i + 1, j);
    }
  }

  /** The smallest query that panics: any negative index into an array. */
  lemma NegativeIndexPanics()
    ensures Query("a.-1", Obj(map["a" := Arr([])])).Panicked?
  {
    var j := Obj(map["a" := Arr([])]);
    SplitOne("a", '.');
    SplitOne("-1", '.');
    SplitConcat("a", "-1", '.');
    assert "a" + ['.'] + "-1" == "a.-1" && ["a"] + ["-1"] == ["a", "-1"];
    MinusOne();
    assert ["a", "-1"][1..] == ["-1"];
    assert LookupKey("a", j) == Hit(Arr([])) && LookupKey("-1", Arr([])).Crash?;
  }

  lemma MinusOne()
    ensures Atoi("-1") == Some(-1)
  {
    assert "-1"[1..] == "1" && "1"[..0] == "" && Digits("") == 0;
    assert Digits("1") == 1;
  }

  // ------------------------------------------------------------- addressing

  /** One edge of a JSON tree. */
  datatype Edge = Field(k: string) | Index(n: nat) {
    function Spell(): string {
      match this
      case Field(k) => k
      case Index(n) => Itoa(n)
    }

    predicate Spellable() {
      match this
      case Field(k) => '.' !in k
      case Index(n) => n < INT64_LIMIT
    }
  }

  /** The node at the end of a path of edges. */
  function At(path: seq<Edge>, j: Json): Option<Json> {
    if path == [] then Some(j)
    else
      match path[0]
      case Field(k) => if j.Obj? && k in j.fields then At(path[1..], j.fields[k]) else None
      case Index(n) => if j.Arr? && n < |j.items| then At(path[1..], j.items[n]) else None
  }

  function Spell(path: seq<Edge>): seq<string> {
    seq(|path|, i requires 0 <= i < |path| => path[i].Spell())
  }

  lemma FieldReaches(k: string, j: Json)
    requires j.Obj? && k in j.fields
    ensures LookupKey(k, j) == Hit(j.fields[k])
  {
  }

  /** A decimal index leads to its item: it is no "length", and reads back as itself. */
  lemma IndexReaches(n: nat, j: Json)
    requires j.Arr? && n < |j.items| && n < INT64_LIMIT
    ensures LookupKey(Itoa(n), j) == Hit(j.items[n])
  {
    AtoiItoa(n);
    ItoaDigits(n);
    assert !IsDigit("length"[0]);
  }

  lemma {:induction false} WalkReaches(path: seq<Edge>, j: Json)
    requires At(path, j).Some? && forall e | e in path :: e.Spellable()
    ensures Walk(Spell(path), j) == Value(At(path, j).value)
  {
    if path != [] {
      assert Spell(path)[1..] == Spell(path[1..]);
      assert path[0].Spellable();
      hide LookupKey;
      match path[0]
      case Field(k) =>
        FieldReaches(k, j);
        WalkReaches(path[1..], j.fields[k]);
      case Index(n) =>
        IndexReaches(n, j);
        WalkReaches(path[1..], j.items[n]);
    }
  }

  /** Every node below dot-free keys is returned by the query that spells its path. */
  lemma AddressingComplete(path: seq<Edge>, j: Json)
    requires path != [] && At(path, j).Some? && forall e | e in path :: e.Spellable()
    ensures Query(Join(Spell(path), '.'), j) == Value(At(path, j).value)
  {
    forall part | part in Spell(path) ensures '.' !in part {
      var i :| 0 <= i < |path| && part == path[i].Spell();
      assert path[i].Spellable();
      if path[i].Index? {
        ItoaDigits(path[i].n);
        assert !IsDigit('.');
      }
    }
    SplitJoin(Spell(path), '.');
    WalkReaches(path, j);
  }

  /** v is the node at the end of the path, or the length of the array there. */
  predicate NodeOrLength(path: seq<Edge>, j: Json, v: Json) {
    || At(path, j) == Some(v)
    || (At(path, j).Some? && At(path, j).value.Arr? && v == Number(Itoa(|At(path, j).value.items|)))
  }

  lemma {:induction false} WalkFinds(ks: seq<string>, j: Json) returns (path: seq<Edge>)
    requires Walk(ks, j).Value?
    ensures NodeOrLength(path, j, Walk(ks, j).v)
  {
    if ks == [] {
      path := [];
    } else {
      var w := LookupKey(ks[0], j).v;
      var rest := WalkFinds(ks[1..], w);
      if j.Obj? {
        path := [Field(ks[0])] + rest;
        assert path[1..] == rest;
      } else if ks[0] == "length" {
        path := [];  // a length has nothing below it
      } else {
        path := [Index(Atoi(ks[0]).value)] + rest;
        assert path[1..] == rest;
      }
    }
  }

  /** Whatever a query returns is a node of the document, or the length of one of its arrays. */
  lemma AddressingSound(q: string, j: Json) returns (path: seq<Edge>)
    requires Query(q, j).Value?
    ensures NodeOrLength(path, j, Query(q, j).v)
  {
    path := WalkFinds(Split(q, '.'), j);
  }
}
