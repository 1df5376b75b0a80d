/**
 Decoded JSON on the heap: Go's maps and slices are references, scalars are
 values.  A freshly decoded document is a tree.
 */
module GoJson {
  import opened Options
  import opened Json
  import opened JsonQuery

  datatype Val = Leaf(j: Json) | Ref(node: Node)

  datatype Content = Slice(items: seq<Val>) | Map(entries: map<string, Val>)

  /** What an edge of a container leads to. */
  function Kid(c: Content, e: Edge): Option<Val> {
    match c
    case Slice(items) => if e.Index? && e.n < |items| then Some(items[e.n]) else None
    case Map(entries) => if e.Field? && e.k in entries then Some(entries[e.k]) else None
  }

  predicate Down(c: Content, e: Edge) {
    Kid(c, e).Some? && Kid(c, e).value.Ref?
  }

  function Below(c: Content, e: Edge): Node
    requires Down(c, e)
  {
    Kid(c, e).value.node
  }

  predicate Scalar(j: Json) { !j.Arr? && !j.Obj? }

  /** The document that a value stands for. */
  ghost function Doc(v: Val): Json
    reads if v.Ref? then {v.node} else {}
  {
    match v
    case Leaf(j) => j
    case Ref(n) => n.model
  }

  ghost function Repr(v: Val): set<Node>
    reads if v.Ref? then {v.node} else {}
  {
    match v
    case Leaf(_) => {}
    case Ref(n) => n.repr
  }

  class Node {
    var content: Content
    ghost var repr: set<Node>
    ghost var model: Json

    constructor (c: Content, ghost j: Json)
      ensures content == c && model == j && repr == {this}
    {
      content, model, repr := c, j, {this};
    }

    ghost predicate Kids()
      reads this, repr
      decreases repr, 0
    {
      && this in repr
      && (forall e | Down(content, e) ::
            && Below(content, e) in repr && Below(content, e).repr <= repr
            && Below(content, e) in Below(content, e).repr && this !in Below(content, e).repr
            && Below(content, e).Valid())
      && (forall e, f | Down(content, e) && Down(content, f) && e != f ::
            Below(content, e).repr !! Below(content, f).repr)
    }

    /** The model has the shape of the content, and the models of its children. */
    ghost predicate Modelled()
      reads this, repr
      requires forall e | Down(content, e) :: Below(content, e) in repr
    {
      match content
      case Slice(items) =>
        model.Arr? && |model.items| == |items|
        && forall i | 0 <= i < |items| :: Means(Index(i), model.items[i])
      case Map(entries) =>
        model.Obj? && model.fields.Keys == entries.Keys
        && forall k | k in entries :: Means(Field(k), model.fields[k])
    }

    ghost predicate Means(e: Edge, j: Json)
      reads this, repr
      requires Kid(content, e).Some? && (Down(content, e) ==> Below(content, e) in repr)
    {
      match Kid(content, e).value
      case Leaf(l) => l == j && Scalar(j)
      case Ref(n) => n.model == j
    }

    ghost predicate Valid()
      reads this, repr
      decreases repr, 1
    {
      Kids() && Modelled()
    }
  }

  /** A value whose container, if it is one, is a well-formed tree. */
  ghost predicate Tree(v: Val)
    reads if v.Ref? then {v.node} + v.node.repr else {}
  {
    match v
    case Leaf(j) => Scalar(j)
    case Ref(n) => n.Valid()
  }

  /** The document at an edge of a container's document. */
  function DocAt(model: Json, e: Edge): Option<Json> {
    match e
    case Field(k) => if model.Obj? && k in model.fields then Some(model.fields[k]) else None
    case Index(i) => if model.Arr? && i < |model.items| then Some(model.items[i]) else None
  }

  function SetAt(model: Json, e: Edge, j: Json): Json
    requires DocAt(model, e).Some?
  {
    match e
    case Field(k) => Obj(model.fields[k := j])
    case Index(i) => Arr(model.items[i := j])
  }

  function SetKid(c: Content, e: Edge, v: Val): Content
    requires Kid(c, e).Some?
  {
    match e
    case Field(k) => Map(c.entries[k := v])
    case Index(i) => Slice(c.items[i := v])
  }

  lemma Unfold(n: Node)
    requires n.Valid()
    ensures n.Kids() && n.Modelled() && !Scalar(n.model)
  {
  }

  /** A value is a map exactly when it stands for an object, and has the edges of its document. */
  lemma SameKind(v: Val)
    requires Tree(v)
    ensures v.Ref? ==> SameEdges(v.node.content, v.node.model)
    ensures (v.Ref? && v.node.content.Map?) <==> Doc(v).Obj?
  {
  }

  /** What a well-formed container says about a child. */
  lemma KidFacts(n: Node, e: Edge)
    requires n.Valid() && Kid(n.content, e).Some?
    ensures var v := Kid(n.content, e).value;
            && Tree(v) && Repr(v) < n.repr && n !in Repr(v)
            && DocAt(n.model, e) == Some(Doc(v)) && (v.Ref? <==> !Scalar(Doc(v)))
  {
    var v := Kid(n.content, e).value;
    if v.Ref? {
      assert Down(n.content, e);
      Unfold(v.node);
    }
    match e
    case Field(k) => assert n.Means(Field(k), n.model.fields[k]);
    case Index(i) => assert n.Means(Index(i), n.model.items[i]);
  }

  // ------------------------------------------------------- replacing one child

  /** A container that is well formed but for the child at one edge. */
  ghost predicate ValidBut(n: Node, e: Edge)
    reads n, n.repr
  {
    && n in n.repr
    && Kid(n.content, e).Some?
    && (forall f | f != e && Down(n.content, f) ::
          && Below(n.content, f) in n.repr && Below(n.content, f).repr <= n.repr
          && Below(n.content, f) in Below(n.content, f).repr && n !in Below(n.content, f).repr
          && Below(n.content, f).Valid())
    && (forall f, g | f != e && g != e && f != g && Down(n.content, f) && Down(n.content, g) ::
          Below(n.content, f).repr !! Below(n.content, g).repr)
    && (forall f | f != e && Kid(n.content, f).Some? ::
          DocAt(n.model, f).Some? && (Down(n.content, f) ==> Below(n.content, f) in n.repr)
          && n.Means(f, DocAt(n.model, f).value))
    && SameEdges(n.content, n.model)
  }

  predicate SameEdges(c: Content, j: Json) {
    && (c.Slice? ==> j.Arr? && |j.items| == |c.items|)
    && (c.Map? ==> j.Obj? && j.fields.Keys == c.entries.Keys)
  }

  /** Whatever happens below one edge of a well-formed container leaves the rest well formed. */
  twostate lemma Detached(n: Node, new e: Edge)
    requires old(n.Valid() && Kid(n.content, e).Some?)
    requires unchanged(old(n.repr - Repr(Kid(n.content, e).value)))
    ensures ValidBut(n, e)
    ensures forall f | f != e && Down(n.content, f) :: Below(n.content, f).repr !! old(Repr(Kid(n.content, e).value))
  {
    var v := old(Kid(n.content, e).value);
    forall f | old(Kid(n.content, f).Some?)
      ensures old(DocAt(n.model, f) == Some(Doc(Kid(n.content, f).value)) && Tree(Kid(n.content, f).value)
                  && n !in Repr(Kid(n.content, f).value))
    {
      assert old(KidFacts(n, f);
                 DocAt(n.model, f) == Some(Doc(Kid(n.content, f).value)) && Tree(Kid(n.content, f).value)
                 && n !in Repr(Kid(n.content, f).value));
    }
    assert unchanged(n);
    forall f | f != e && Down(n.content, f)
      ensures Below(n.content, f).Valid() && Below(n.content, f).repr !! old(Repr(v))
      ensures unchanged(Below(n.content, f)) && Below(n.content, f).repr <= n.repr
    {
      assert old(Down(n.content, f) && Below(n.content, f).Valid());
      if v.Ref? { assert old(Down(n.content, e) && Below(n.content, f).repr !! Below(n.content, e).repr); }
    }
  }

  /** Brings the model and the footprint of a container up to date with the child at one edge. */
  ghost method Refresh(n: Node, e: Edge)
    requires ValidBut(n, e) && Tree(Kid(n.content, e).value) && n !in Repr(Kid(n.content, e).value)
    requires forall f | f != e && Down(n.content, f) :: Below(n.content, f).repr !! Repr(Kid(n.content, e).value)
    modifies n`model, n`repr
    ensures n.Valid() && n.repr == old(n.repr) + Repr(Kid(n.content, e).value)
    ensures DocAt(old(n.model), e).Some? && n.model == SetAt(old(n.model), e, Doc(Kid(n.content, e).value))
  {
    var v := Kid(n.content, e).value;
    assert DocAt(n.model, e).Some?;
    n.model := SetAt(n.model, e, Doc(v));
    n.repr := n.repr + Repr(v);
    assert forall f :: f != e ==> DocAt(n.model, f) == DocAt(old(n.model), f);
    assert ValidBut(n, e) by {
      forall f | f != e && Kid(n.content, f).Some?
        ensures DocAt(n.model, f).Some? && n.Means(f, DocAt(n.model, f).value)
      {
        assert old(n.Means(f, DocAt(n.model, f).value));
      }
      forall f | f != e && Down(n.content, f) ensures Below(n.content, f).Valid() {
        assert old(Below(n.content, f).Valid());
      }
    }
    assert DocAt(n.model, e) == Some(Doc(v));
    KidsComplete(n, e);
    ModelComplete(n, e);
  }

  lemma KidsComplete(n: Node, e: Edge)
    requires ValidBut(n, e) && Tree(Kid(n.content, e).value) && n !in Repr(Kid(n.content, e).value)
    requires Repr(Kid(n.content, e).value) <= n.repr
    requires forall f | f != e && Down(n.content, f) :: Below(n.content, f).repr !! Repr(Kid(n.content, e).value)
    ensures n.Kids()
  {
    var v := Kid(n.content, e).value;
    if v.Ref? { Unfold(v.node); }
    assert Down(n.content, e) ==> Below(n.content, e) in Below(n.content, e).repr && Below(n.content, e).repr <= n.repr;
  }

  lemma ModelComplete(n: Node, e: Edge)
    requires ValidBut(n, e) && Tree(Kid(n.content, e).value) && n.Kids()
    requires DocAt(n.model, e) == Some(Doc(Kid(n.content, e).value))
    ensures n.Modelled()
  {
    forall f | Kid(n.content, f).Some? ensures DocAt(n.model, f).Some? && n.Means(f, DocAt(n.model, f).value) {
      assert f != e ==> DocAt(n.model, f).Some? && n.Means(f, DocAt(n.model, f).value);
    }
  }

  /** m[k] = v or s[i] = v. */
  method Attach(n: Node, e: Edge, v: Val)
    requires ValidBut(n, e) && Tree(v) && n !in Repr(v)
    requires forall f | f != e && Down(n.content, f) :: Below(n.content, f).repr !! Repr(v)
    modifies n
    ensures n.Valid() && n.repr == old(n.repr) + Repr(v)
    ensures n.content == SetKid(old(n.content), e, v)
    ensures DocAt(old(n.model), e).Some? && n.model == SetAt(old(n.model), e, Doc(v))
  {
    n.content := SetKid(n.content, e, v);
    assert Kid(n.content, e) == Some(v);
    assert forall f :: f != e ==> Kid(n.content, f) == Kid(old(n.content), f);
    assert ValidBut(n, e) by {
      forall f | f != e && Kid(n.content, f).Some?
        ensures DocAt(n.model, f).Some? && n.Means(f, DocAt(n.model, f).value)
      {
        assert old(n.Means(f, DocAt(n.model, f).value));
      }
      forall f | f != e && Down(n.content, f) ensures Below(n.content, f).Valid() {
        assert Down(old(n.content), f) && old(Below(n.content, f).Valid());
      }
    }
    Refresh(n, e);
  }

  /** A container that holds nothing but null. */
  lemma BlankIsValid(n: Node)
    requires n.repr == {n} && SameEdges(n.content, n.model)
    requires forall e | Kid(n.content, e).Some? ::
               Kid(n.content, e).value == Leaf(Null) && DocAt(n.model, e) == Some(Null)
    ensures n.Valid()
  {
    assert forall e :: !Down(n.content, e);
  }

  /** Decoding builds a fresh tree. */
  method Decode(j: Json) returns (v: Val)
    ensures Tree(v) && Doc(v) == j && fresh(Repr(v))
    decreases j, 2
  {
    match j {
      case Arr(items) =>
        var n := DecodeSlice(items, j);
        v := Ref(n);
      case Obj(fields) =>
        var n := DecodeMap(fields, j);
        v := Ref(n);
      case _ => v := Leaf(j);
    }
  }

  method DecodeSlice(items: seq<Json>, ghost whole: Json) returns (n: Node)
    requires whole == Arr(items)
    ensures n.Valid() && n.model == whole && fresh(n.repr)
    decreases whole, 1
  {
    hide Node.Valid;
    n := new Node(Slice(seq(|items|, _ => Leaf(Null))), Arr(seq(|items|, _ => Null)));
    BlankIsValid(n);
    var i := 0;
    while i < |items|
      invariant 0 <= i <= |items|
      invariant n.Valid() && fresh(n.repr) && n.model.Arr? && |n.model.items| == |items|
      invariant forall k | 0 <= k < i :: n.model.items[k] == items[k]
    {
      DecodeKid(n, Index(i), items[i]);
      i := i + 1;
    }
    assert n.model.items == items;
  }

  method DecodeMap(fields: map<string, Json>, ghost whole: Json) returns (n: Node)
    requires whole == Obj(fields)
    ensures n.Valid() && n.model == whole && fresh(n.repr)
    decreases whole, 1
  {
    hide Node.Valid;
    n := new Node(Map(map k | k in fields :: Leaf(Null)), Obj(map k | k in fields :: Null));
    BlankIsValid(n);
    var todo := fields.Keys;
    while todo != {}
      invariant todo <= fields.Keys
      invariant n.Valid() && fresh(n.repr) && n.model.Obj? && n.model.fields.Keys == fields.Keys
      invariant forall k | k in fields && k !in todo :: n.model.fields[k] == fields[k]
      decreases todo
    {
      var k :| k in todo;
      DecodeKid(n, Field(k), fields[k]);
      todo := todo - {k};
    }
    assert n.model.fields == fields;
  }

  method DecodeKid(n: Node, e: Edge, j: Json)
    requires n.Valid() && DocAt(n.model, e).Some?
    modifies n
    ensures n.Valid() && fresh(n.repr - old(n.repr)) && n.model == SetAt(old(n.model), e, j)
    decreases j, 3
  {
    var v := Decode(j);
    Detached(n, e);
    Attach(n, e, v);
  }
}
