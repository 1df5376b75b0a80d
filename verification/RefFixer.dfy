/** fixRefInDoc and fixRefInInterface, rewriting a schema in place. */
module RefFixer {
  import opened Options
  import opened Strings
  import opened Json
  import opened JsonQuery
  import opened RefFixing
  import opened GoJson

  method FixRefInInterface(abs: Absolute, v: Val)
    requires Tree(v)
    modifies Repr(v)
    ensures Tree(v) && Repr(v) == old(Repr(v)) && Doc(v) == Fix(abs, old(Doc(v)))
    decreases Repr(v), 2
  {
    match v {
      case Leaf(_) =>
      case Ref(n) =>
        match n.content {
          case Slice(_) => FixRefInSlice(abs, n);
          case Map(_) => FixRefInDoc(abs, n);
        }
    }
  }

  /** The recursive call on one child. */
  method FixKid(abs: Absolute, n: Node, e: Edge)
    requires n.Valid() && Kid(n.content, e).Some?
    modifies n.repr
    ensures n.Valid() && n.repr == old(n.repr) && n.content == old(n.content)
    ensures DocAt(old(n.model), e).Some? && n.model == SetAt(old(n.model), e, Fix(abs, DocAt(old(n.model), e).value))
    decreases n.repr, 0, 0
  {
    hide Fix, ValidBut, Node.Valid;
    KidFacts(n, e);
    var v := Kid(n.content, e).value;
    FixRefInInterface(abs, v);
    Detached(n, e);
    Refresh(n, e);
    assert n.repr == old(n.repr);
  }

  method FixRefInSlice(abs: Absolute, n: Node)
    requires n.Valid() && n.content.Slice?
    modifies n.repr
    ensures n.Valid() && n.repr == old(n.repr) && n.model == Fix(abs, old(n.model))
    decreases n.repr, 1
  {
    hide Fix, Node.Valid;
    SameKind(Ref(n));
    var items := n.content.items;
    ghost var before := n.model.items;
    var i := 0;
    while i < |items|
      invariant 0 <= i <= |items| == |before| && n.model.Arr? && |n.model.items| == |items|
      invariant n.Valid() && n.repr == old(n.repr) && n.content == Slice(items)
      invariant forall k | 0 <= k < i :: n.model.items[k] == Fix(abs, before[k])
      invariant forall k | i <= k < |items| :: n.model.items[k] == before[k]
    {
      FixKid(abs, n, Index(i));
      i := i + 1;
    }
    FixItems(abs, before, n.model.items);
  }

  lemma FixItems(abs: Absolute, before: seq<Json>, after: seq<Json>)
    requires |after| == |before| && forall k | 0 <= k < |before| :: after[k] == Fix(abs, before[k])
    ensures Arr(after) == Fix(abs, Arr(before))
  {
    assert after == Fix(abs, Arr(before)).items;
  }

  method FixRefInDoc(abs: Absolute, n: Node)
    requires n.Valid() && n.content.Map?
    modifies n.repr
    ensures n.Valid() && n.repr == old(n.repr) && n.model == Fix(abs, old(n.model))
    decreases n.repr, 1
  {
    hide Fix, FixField, Node.Valid;
    SameKind(Ref(n));
    ghost var before := n.model.fields;
    var todo := n.content.entries.Keys;
    while todo != {}
      invariant n.Valid() && n.repr == old(n.repr) && n.content.Map? && n.model.Obj?
      invariant todo <= n.content.entries.Keys == n.model.fields.Keys == before.Keys
      invariant forall k | k in todo :: n.model.fields[k] == before[k]
      invariant forall k | k in before && k !in todo :: n.model.fields[k] == FixField(abs, k, before[k])
      decreases todo
    {
      var k :| k in todo;
      FixEntry(abs, n, k);
      todo := todo - {k};
    }
    FixFields(abs, before, n.model.fields);
  }

  lemma FixFields(abs: Absolute, before: map<string, Json>, after: map<string, Json>)
    requires after.Keys == before.Keys && forall k | k in before :: after[k] == FixField(abs, k, before[k])
    ensures Obj(after) == Fix(abs, Obj(before))
  {
    assert after == Fix(abs, Obj(before)).fields;
  }

  /** One iteration over the map. */
  method FixEntry(abs: Absolute, n: Node, k: string)
    requires n.Valid() && n.content.Map? && k in n.content.entries && n.model.Obj? && k in n.model.fields
    modifies n.repr
    ensures n.Valid() && n.repr == old(n.repr)
    ensures n.content.Map? && n.content.entries.Keys == old(n.content.entries.Keys)
    ensures n.model == Obj(old(n.model.fields)[k := FixField(abs, k, old(n.model.fields[k]))])
    decreases n.repr, 0, 1
  {
    hide Fix, Node.Valid;
    Unfold(n);
    if k == REF {
      FixOneRef(abs, n, k);
    } else {
      FixKid(abs, n, Field(k));
    }
  }

  /** The `$ref` key itself: only a string without a scheme is replaced. */
  method FixOneRef(abs: Absolute, n: Node, k: string)
    requires n.Valid() && n.content.Map? && k in n.content.entries
    modifies n
    ensures n.Valid() && n.repr == old(n.repr)
    ensures n.content.Map? && n.content.entries.Keys == old(n.content.entries.Keys)
    ensures n.model == Obj(old(n.model.fields)[k := FixRefValue(abs, old(n.model.fields[k]))])
    ensures match old(n.model.fields[k])
            case Str(s) =>
              n.model.fields[k] ==
              if abs(s).Some? && !(exists pre, post :: s == pre + "://" + post) then
                Str("file://" + abs(s).value)
              else Str(s)
            case v => n.model.fields[k] == v
  {
    if n.model.fields[k].Str? { HasScheme(n.model.fields[k].s); }
    KidFacts(n, Field(k));
    var v := n.content.entries[k];
    if v.Leaf? && v.j.Str? && !Contains(v.j.s, "://") {
      match abs(v.j.s) {
        case Some(p) =>
          Detached(n, Field(k));
          Attach(n, Field(k), Leaf(Str("file://" + p)));
        case None =>
          assert n.model.fields[k := n.model.fields[k]] == n.model.fields;
      }
    } else {
      assert n.model.fields[k := n.model.fields[k]] == n.model.fields;
    }
  }
}
