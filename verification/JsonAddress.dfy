/** Exactly which node a dotted query stands for, and exactly why a query has no answer. */
module JsonAddress {
  import opened Options
  import opened Strings
  import opened Json
  import opened JsonQuery

  /** An edge is spelled by a key: a field by itself, an item by any numeral of its index. */
  predicate EdgeMatches(e: Edge, k: string) {
    match e
    case Field(f) => k == f
    case Index(n) => Atoi(k) == Some(n)
  }

  predicate Matches(path: seq<Edge>, ks: seq<string>) {
    |path| == |ks| && forall i | 0 <= i < |ks| :: EdgeMatches(path[i], ks[i])
  }

  /** Edge by edge, the keys lead to v. */
  ghost predicate LeadsTo(ks: seq<string>, j: Json, v: Json) {
    exists path :: Matches(path, ks) && At(path, j) == Some(v)
  }

  /** The last key is "length", and those before it lead to an array of that length. */
  ghost predicate LeadsToLength(ks: seq<string>, j: Json, v: Json) {
    && ks != [] && ks[|ks| - 1] == "length"
    && exists a: Json :: LeadsTo(ks[..|ks| - 1], j, a) && a.Arr? && v == Number(Itoa(|a.items|))
  }

  lemma LengthIsFound(a: Json)
    requires a.Arr?
    ensures LookupKey("length", a) == Hit(Number(Itoa(|a.items|)))
  {
  }

  lemma LengthIsNoNumeral()
    ensures Atoi("length").None?
  {
    assert !IsDigit("length"[0]) && "length"[0] in "length";
  }

  lemma {:induction false} WalkFollows(path: seq<Edge>, ks: seq<string>, j: Json)
    requires Matches(path, ks) && At(path, j).Some?
    ensures Walk(ks, j) == Value(At(path, j).value)
  {
    if path != [] {
      LengthIsNoNumeral();
      assert EdgeMatches(path[0], ks[0]);
      forall i | 0 <= i < |ks| - 1 ensures EdgeMatches(path[1..][i], ks[1..][i]) {
        assert EdgeMatches(path[i + 1], ks[i + 1]);
      }
      match path[0]
      case Field(k) => WalkFollows(path[1..], ks[1..], j.fields[k]);
      case Index(n) => WalkFollows(path[1..], ks[1..], j.items[n]);
    }
  }

  /** The edge that a key which is found stands for, unless it is a length. */
  lemma KeyIsEdge(k: string, j: Json) returns (e: Edge)
    requires LookupKey(k, j).Hit? && !(j.Arr? && k == "length")
    ensures EdgeMatches(e, k) && At([e], j) == Some(LookupKey(k, j).v)
  {
    if j.Obj? { e := Field(k); } else { e := Index(Atoi(k).value); }
    assert [e][1..] == [];
  }

  lemma ScalarEnds(ks: seq<string>, j: Json)
    requires !j.Arr? && !j.Obj? && Walk(ks, j).Value?
    ensures ks == []
  {
  }

  /** The path behind an answer; when the answer is a length, the path to the array. */
  lemma {:induction false} WalkBehind(ks: seq<string>, j: Json) returns (path: seq<Edge>, length: bool)
    requires Walk(ks, j).Value?
    ensures !length ==> Matches(path, ks) && At(path, j) == Some(Walk(ks, j).v)
    ensures length ==>
              && ks != [] && ks[|ks| - 1] == "length" && Matches(path, ks[..|ks| - 1])
              && At(path, j).Some? && At(path, j).value.Arr?
              && Walk(ks, j).v == Number(Itoa(|At(path, j).value.items|))
  {
    if ks == [] {
      path, length := [], false;
    } else if j.Arr? && ks[0] == "length" {
      path, length := [], true;
      ScalarEnds(ks[1..], LookupKey(ks[0], j).v);
    } else {
      var e := KeyIsEdge(ks[0], j);
      var rest;
      rest, length := WalkBehind(ks[1..], LookupKey(ks[0], j).v);
      path := [e] + rest;
      assert path[1..] == rest && [e][1..] == [];
      if length { assert ks[..|ks| - 1][1..] == ks[1..][..|ks| - 2]; }
      AtEdge(e, rest, j);
    }
  }

  lemma AtEdge(e: Edge, rest: seq<Edge>, j: Json)
    requires At([e], j).Some?
    ensures At([e] + rest, j) == At(rest, At([e], j).value)
  {
    assert ([e] + rest)[1..] == rest && [e][1..] == [];
  }

  /** A list of keys has an answer exactly when it leads to it, or to its length. */
  lemma WalkIff(ks: seq<string>, j: Json, v: Json)
    ensures Walk(ks, j) == Value(v) <==> LeadsTo(ks, j, v) || LeadsToLength(ks, j, v)
  {
    hide Walk, At, Matches, LookupKey, Itoa;
    if Walk(ks, j) == Value(v) {
      var path, length := WalkBehind(ks, j);
      if length { assert LeadsTo(ks[..|ks| - 1], j, At(path, j).value); }
    }
    if LeadsTo(ks, j, v) {
      var path :| Matches(path, ks) && At(path, j) == Some(v);
      WalkFollows(path, ks, j);
    }
    if LeadsToLength(ks, j, v) {
      var n := |ks| - 1;
      var a: Json :| LeadsTo(ks[..n], j, a) && a.Arr? && v == Number(Itoa(|a.items|));
      var path :| Matches(path, ks[..n]) && At(path, j) == Some(a);
      WalkFollows(path, ks[..n], j);
      WalkOneMore(ks, n, j, a);
      LengthIsFound(a);
      assert ks[..n + 1] == ks;
    }
  }

  /**
   The exact meaning of a query: it answers v if and only if its keys spell,
   edge by edge, a path to the node v, or the last of them asks for the length
   of the array that the others lead to.
   */
  lemma QueryIff(q: string, j: Json, v: Json)
    ensures Query(q, j) == Value(v) <==> LeadsTo(Split(q, '.'), j, v) || LeadsToLength(Split(q, '.'), j, v)
  {
    WalkIff(Split(q, '.'), j, v);
  }

  /** Key i of the query is looked up in w. */
  ghost predicate Stands(q: string, j: Json, i: nat, w: Json) {
    i < |Split(q, '.')|
    && (LeadsTo(Split(q, '.')[..i], j, w) || LeadsToLength(Split(q, '.')[..i], j, w))
  }

  /**
   Why a query has no answer: the key at which it stops, the value in which that
   key is looked up, and the one reason that applies to them.
   */
  lemma FailureReason(q: string, j: Json) returns (i: nat, w: Json)
    requires !Query(q, j).Value?
    ensures Stands(q, j, i, w)
    ensures Query(q, j).Failed? ==> Query(q, j).path == Prefix(q, i + 1)
    ensures var k, r := Split(q, '.')[i], Query(q, j);
            && (w.Arr? ==> k != "length")
            && (r.Panicked? <==> w.Arr? && Atoi(k).Some? && Atoi(k).value < 0)
            && (r.Failed? && r.why == IndexOutOfBounds <==> w.Arr? && Atoi(k).Some? && Atoi(k).value >= |w.items|)
            && (r.Failed? && r.why == InvalidArrayIndex <==> w.Arr? && Atoi(k).None?)
            && (r.Failed? && r.why == ObjectFieldNotFound <==> w.Obj? && k !in w.fields)
            && (r.Failed? && r.why == InvalidType <==> !w.Arr? && !w.Obj?)
  {
    i, w := WalkStops(Split(q, '.'), j);
    WalkIff(Split(q, '.')[..i], j, w);
  }

  /** Key i of the query is a negative index into an array. */
  ghost predicate NegativeKey(q: string, j: Json, i: nat, w: Json) {
    Stands(q, j, i, w) && w.Arr? && Atoi(Split(q, '.')[i]).Some? && Atoi(Split(q, '.')[i]).value < 0
  }

  /** A query panics if and only if a key is a negative index into the array that the keys before it lead to. */
  lemma QueryPanicsIff(q: string, j: Json)
    ensures Query(q, j).Panicked? <==> exists i: nat, w: Json :: NegativeKey(q, j, i, w)
  {
    var ks := Split(q, '.');
    if Query(q, j).Panicked? {
      var i, w := FailureReason(q, j);
      assert NegativeKey(q, j, i, w);
    }
    if i: nat, w: Json :| NegativeKey(q, j, i, w) {
      hide Walk, LeadsTo, LeadsToLength;
      WalkIff(ks[..i], j, w);
      NegativeCrashes(ks[i], w);
      WalkOneMore(ks, i, j, w);
      WalkEnds(ks, i + 1, j);
    }
  }

  lemma NegativeCrashes(k: string, w: Json)
    requires w.Arr? && Atoi(k).Some? && Atoi(k).value < 0
    ensures LookupKey(k, w).Crash?
  {
    LengthIsNoNumeral();
  }

  /** A query of two keys, the first of which is found. */
  lemma QueryTwo(a: string, b: string, j: Json, w: Json)
    requires '.' !in a && '.' !in b && LookupKey(a, j) == Hit(w)
    ensures Query(a + "." + b, j) == match LookupKey(b, w)
                                     case Hit(v) => Value(v)
                                     case Miss(why) => Failed(a + "." + b, why)
                                     case Crash => Panicked
  {
    hide Split, LookupKey;
    SplitOne(a, '.');
    SplitOne(b, '.');
    SplitConcat(a, b, '.');
    assert a + ['.'] + b == a + "." + b;
    assert Split(a + "." + b, '.') == [a, b];
    assert [a, b][1..] == [b] && [b][1..] == [];
    assert Walk([b], w) == match LookupKey(b, w)
                           case Hit(v) => Value(v)
                           case Miss(why) => Failed(b, why)
                           case Crash => Panicked;
    assert Walk([a, b], j) == Under(a, Walk([b], w));
  }

  lemma FiveOfTwo()
    ensures LookupKey("5", Arr([Null, Null])) == Miss(IndexOutOfBounds)
  {
    AtoiItoa(5);
    assert Itoa(5) == "5";
  }

  /** An index past the end fails, out of bounds, at its own prefix. */
  lemma PastTheEnd()
    ensures Query("items.5", Obj(map["items" := Arr([Null, Null])])) == Failed("items.5", IndexOutOfBounds)
  {
    var two: Json := Arr([Null, Null]);
    assert LookupKey("items", Obj(map["items" := two])) == Hit(two);
    FiveOfTwo();
    hide LookupKey, Query;
    QueryTwo("items", "5", Obj(map["items" := two]), two);
    assert "items" + "." + "5" == "items.5";
  }
}
