/** What fixRefInDoc must do to a JSON schema: make relative file references absolute, and nothing else. */
module RefFixing {
  import opened Options
  import opened Strings
  import opened Json
  import opened JsonQuery

  /** filepath.Abs of the configured path of a reference, when it succeeds. */
  type Absolute = string -> Option<string>

  /** The value of a `$ref` key. */
  function FixRefValue(abs: Absolute, v: Json): Json {
    if v.Str? && !Contains(v.s, "://") && abs(v.s).Some? then Str("file://" + abs(v.s).value) else v
  }

  function FixField(abs: Absolute, k: string, v: Json): Json
    decreases v, 1
  {
    if k == REF then FixRefValue(abs, v) else Fix(abs, v)
  }

  function Fix(abs: Absolute, j: Json): Json
    decreases j, 0
  {
    match j
    case Obj(fields) => Obj(map k | k in fields :: FixField(abs, k, fields[k]))
    case Arr(items) => Arr(seq(|items|, i requires 0 <= i < |items| => Fix(abs, items[i])))
    case _ => j
  }

  lemma FixedRefHasScheme(p: string)
    ensures Contains("file://" + p, "://")
  {
    var s := "file://" + p;
    assert s[4..7] == "://";
    assert OccursAt(s, "://", 4);
  }

  /** A second pass changes nothing. */
  lemma {:induction false} FixIdempotent(abs: Absolute, j: Json)
    ensures Fix(abs, Fix(abs, j)) == Fix(abs, j)
  {
    match j
    case Obj(fields) =>
      var once := Fix(abs, j).fields;
      forall k | k in fields ensures FixField(abs, k, once[k]) == once[k] {
        assert once[k] == FixField(abs, k, fields[k]);
        if k == REF {
          if once[k] != fields[k] { FixedRefHasScheme(abs(fields[k].s).value); }
        } else {
          FixIdempotent(abs, fields[k]);
        }
      }
      assert Fix(abs, Obj(once)).fields == once;
    case Arr(items) =>
      var once := Fix(abs, j).items;
      forall i | 0 <= i < |items| ensures Fix(abs, once[i]) == once[i] { FixIdempotent(abs, items[i]); }
      assert Fix(abs, Arr(once)).items == once;
    case _ =>
  }

  /** Away from `$ref` keys the fixed document holds the fixed nodes. */
  lemma {:induction false} FixAt(abs: Absolute, j: Json, path: seq<Edge>)
    requires Field(REF) !in path
    ensures At(path, Fix(abs, j)).Some? <==> At(path, j).Some?
    ensures At(path, j).Some? ==> At(path, Fix(abs, j)) == Some(Fix(abs, At(path, j).value))
  {
    if path != [] {
      match path[0]
      case Field(k) =>
        if j.Obj? && k in j.fields {
          assert path[0] in path;
          FixAt(abs, j.fields[k], path[1..]);
        }
      case Index(n) =>
        if j.Arr? && n < |j.items| { FixAt(abs, j.items[n], path[1..]); }
    }
  }

  /**
   Away from `$ref` keys every scalar stays as it is, every array keeps its length and
   every object its keys.
   */
  lemma FixKeepsShape(abs: Absolute, j: Json, path: seq<Edge>)
    requires Field("$ref") !in path
    ensures match At(path, j)
            case None => At(path, Fix(abs, j)).None?
            case Some(Arr(items)) =>
              var fixed := At(path, Fix(abs, j)); fixed.Some? && fixed.value.Arr? && |fixed.value.items| == |items|
            case Some(Obj(fields)) =>
              var fixed := At(path, Fix(abs, j));
              fixed.Some? && fixed.value.Obj? && fixed.value.fields.Keys == fields.Keys
            case Some(scalar) => At(path, Fix(abs, j)) == Some(scalar)
  {
    FixAt(abs, j, path);
  }

  lemma {:induction false} AtConcat(j: Json, p: seq<Edge>, q: seq<Edge>)
    ensures At(p + q, j) == if At(p, j).None? then None else At(q, At(p, j).value)
  {
    if p == [] {
      assert p + q == q;
    } else {
      assert (p + q)[1..] == p[1..] + q;
      match p[0]
      case Field(k) => if j.Obj? && k in j.fields { AtConcat(j.fields[k], p[1..], q); }
      case Index(n) => if j.Arr? && n < |j.items| { AtConcat(j.items[n], p[1..], q); }
    }
  }

  /**
   At a `$ref` key a string without "://" becomes the file URL of its absolute path, if it
   has one; every other value stays, and so does everything below a `$ref` key.
   */
  lemma FixAtRef(abs: Absolute, j: Json, above: seq<Edge>, below: seq<Edge>)
    requires Field("$ref") !in above
    ensures var path := above + [Field("$ref")] + below;
            match At(path, j)
            case None => At(path, Fix(abs, j)) == None
            case Some(v) =>
              At(path, Fix(abs, j)) == Some(
                match v
                case Str(s) =>
                  if below == [] && abs(s).Some? && !(exists pre, post :: s == pre + "://" + post) then
                    Str("file://" + abs(s).value)
                  else v
                case _ => v)
  {
    var path := above + [Field(REF)] + below;
    assert path == above + ([Field(REF)] + below);
    FixAt(abs, j, above);
    AtConcat(j, above, [Field(REF)] + below);
    AtConcat(Fix(abs, j), above, [Field(REF)] + below);
    assert ([Field(REF)] + below)[1..] == below;
    if At(path, j).Some? && At(path, j).value.Str? { HasScheme(At(path, j).value.s); }
  }

  lemma HasScheme(s: string)
    ensures Contains(s, "://") <==> exists pre, post :: s == pre + "://" + post
  {
    if Contains(s, "://") {
      var i :| 0 <= i <= |s| && OccursAt(s, "://", i);
      assert s == s[..i] + "://" + s[i + 3..];
    }
    forall pre, post | s == pre + "://" + post ensures OccursAt(s, "://", |pre|) {
      assert s[|pre|..] == "://" + post;
    }
  }
}
