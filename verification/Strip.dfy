/**
 The strip pass of scripts/optimize-particle-mesh.mjs over a document graph: nodes,
 meshes and primitives by id, the root's lists of everything else. Disposing of an
 object takes it off its list and clears the references to it.
 */
module Strip {
  import opened Wrappers

  type Id = nat

  datatype Node = Node(name: string, mesh: Option<Id>, skin: Option<Id>, weights: seq<real>)

  datatype Mesh = Mesh(name: string, weights: seq<real>, primitives: seq<Id>)

  datatype Primitive = Primitive(attributes: map<string, Id>, indices: Option<Id>, material: Option<Id>, targets: seq<Id>)

  datatype Graph = Graph(
    extensions: seq<Id>,
    animations: seq<Id>,
    skins: seq<Id>,
    materials: seq<Id>,
    textures: seq<Id>,
    nodes: map<Id, Node>,
    meshes: seq<Id>,
    meshAt: map<Id, Mesh>,
    primitiveAt: map<Id, Primitive>)

  const POSITION: string := "POSITION"

  function Elements(s: seq<Id>): set<Id> {
    set x | x in s
  }

  /** The list without these objects. */
  function Minus(s: seq<Id>, gone: set<Id>): (r: seq<Id>)
    ensures forall x :: x in r <==> x in s && x !in gone
  {
    if s == [] then [] else if s[0] in gone then Minus(s[1..], gone) else [s[0]] + Minus(s[1..], gone)
  }

  lemma {:induction false} MinusTwice(s: seq<Id>, a: set<Id>, b: set<Id>)
    ensures Minus(Minus(s, a), b) == Minus(s, a + b)
  {
    if s != [] {
      MinusTwice(s[1..], a, b);
      if s[0] !in a {
        assert ([s[0]] + Minus(s[1..], a))[1..] == Minus(s[1..], a);
      }
    }
  }

  lemma {:induction false} MinusNothing(s: seq<Id>, gone: set<Id>)
    requires forall x :: x in gone ==> x !in s
    ensures Minus(s, gone) == s
  {
    if s != [] {
      MinusNothing(s[1..], gone);
    }
  }

  lemma {:induction false} MinusAll(s: seq<Id>, gone: set<Id>)
    requires forall x :: x in s ==> x in gone
    ensures Minus(s, gone) == []
  {
    if s != [] {
      MinusAll(s[1..], gone);
    }
  }

  // The objects of a list disposed of one by one.

  lemma NothingGone(list: seq<Id>)
    ensures Minus(list, Elements(list[..0])) == list
  {
    assert Elements(list[..0]) == {};
    hide Minus, Elements;
    MinusNothing(list, {});
  }

  lemma OneMoreElement(list: seq<Id>, i: nat)
    requires i < |list|
    ensures Elements(list[..i + 1]) == Elements(list[..i]) + {list[i]}
  {
    assert list[..i + 1] == list[..i] + [list[i]];
  }

  lemma OneMoreGone(list: seq<Id>, i: nat)
    requires i < |list|
    ensures Minus(Minus(list, Elements(list[..i])), {list[i]}) == Minus(list, Elements(list[..i + 1]))
  {
    hide Minus, Elements;
    OneMoreElement(list, i);
    MinusTwice(list, Elements(list[..i]), {list[i]});
  }

  lemma AllGone(list: seq<Id>)
    ensures Minus(list, Elements(list[..|list|])) == []
  {
    assert list[..|list|] == list;
    assert forall x :: x in list ==> x in Elements(list);
    hide Minus, Elements;
    MinusAll(list, Elements(list));
  }

  // ----- what is left of each part -----

  function BareNode(node: Node): Node {
    node.(skin := None, weights := [])
  }

  function BareMesh(mesh: Mesh): Mesh {
    mesh.(weights := [])
  }

  function Bare(primitive: Primitive): Primitive
    requires POSITION in primitive.attributes
  {
    Primitive(map[POSITION := primitive.attributes[POSITION]], primitive.indices, None, [])
  }

  type Primitives = map<Id, Primitive>

  /** Every primitive without these targets. */
  function Shed(primitives: Primitives, gone: set<Id>): Primitives {
    map q | q in primitives :: primitives[q].(targets := Minus(primitives[q].targets, gone))
  }

  lemma ShedTwice(primitives: Primitives, a: set<Id>, b: set<Id>)
    ensures Shed(Shed(primitives, a), b) == Shed(primitives, a + b)
  {
    forall q | q in primitives ensures Shed(Shed(primitives, a), b)[q] == Shed(primitives, a + b)[q] {
      MinusTwice(primitives[q].targets, a, b);
    }
  }

  lemma ShedNothing(primitives: Primitives)
    ensures Shed(primitives, {}) == primitives
  {
    forall q | q in primitives ensures Shed(primitives, {})[q] == primitives[q] {
      MinusNothing(primitives[q].targets, {});
    }
  }

  /** One primitive stripped; its targets are gone from every other primitive too. */
  function StripOne(primitives: Primitives, p: Id): Primitives
    requires p in primitives && POSITION in primitives[p].attributes
  {
    Shed(primitives, Elements(primitives[p].targets))[p := Bare(primitives[p])]
  }

  ghost predicate Positioned(primitives: Primitives, ps: seq<Id>) {
    forall p :: p in ps ==> p in primitives && POSITION in primitives[p].attributes
  }

  /** The primitives of some meshes stripped one after the other; a primitive can be in several. */
  ghost function StripAll(primitives: Primitives, ps: seq<Id>): (r: Primitives)
    requires Positioned(primitives, ps)
    ensures r.Keys == primitives.Keys
    ensures forall q :: q in primitives && POSITION in primitives[q].attributes ==> POSITION in r[q].attributes
    ensures forall q :: q in primitives && POSITION !in primitives[q].attributes ==> POSITION !in r[q].attributes
  {
    if ps == [] then primitives
    else
      assert ps[|ps| - 1] in ps;
      StripOne(StripAll(primitives, ps[..|ps| - 1]), ps[|ps| - 1])
  }

  ghost function TargetsOf(primitives: Primitives, ps: seq<Id>): set<Id>
    requires Positioned(primitives, ps)
  {
    set p, t | p in ps && t in primitives[p].targets :: t
  }

  /** Each primitive once the ones in `ps` are stripped. */
  ghost function Left(primitives: Primitives, ps: seq<Id>, q: Id): Primitive
    requires Positioned(primitives, ps) && q in primitives
  {
    if q in ps then Bare(primitives[q])
    else primitives[q].(targets := Minus(primitives[q].targets, TargetsOf(primitives, ps)))
  }

  /** The order of the primitives, and how often one is met, make no difference. */
  lemma {:induction false} StripAllLeaves(primitives: Primitives, ps: seq<Id>, q: Id)
    requires Positioned(primitives, ps) && q in primitives
    ensures StripAll(primitives, ps)[q] == Left(primitives, ps, q)
    decreases |ps|
  {
    if ps == [] {
      MinusNothing(primitives[q].targets, TargetsOf(primitives, ps));
    } else {
      var front, last := ps[..|ps| - 1], ps[|ps| - 1];
      assert ps == front + [last];
      StripAllLeaves(primitives, front, q);
      StripAllLeaves(primitives, front, last);
      OneMoreLeaves(primitives, front, last, StripAll(primitives, front), q);
    }
  }

  lemma OneMoreLeaves(primitives: Primitives, front: seq<Id>, last: Id, stripped: Primitives, q: Id)
    requires Positioned(primitives, front + [last]) && q in primitives && q in stripped && last in stripped
    requires Positioned(primitives, front) && last in primitives && POSITION in primitives[last].attributes
    requires stripped[q] == Left(primitives, front, q) && stripped[last] == Left(primitives, front, last)
    ensures StripOne(stripped, last)[q] == Left(primitives, front + [last], q)
  {
    var gone := Elements(stripped[last].targets);
    if q != last && q !in front {
      GoneTogether(primitives, front, last);
      MinusTwice(primitives[q].targets, TargetsOf(primitives, front), gone);
    }
  }

  lemma GoneTogether(primitives: Primitives, front: seq<Id>, last: Id)
    requires Positioned(primitives, front) && Positioned(primitives, front + [last]) && last in primitives
    requires POSITION in primitives[last].attributes
    ensures TargetsOf(primitives, front + [last])
         == TargetsOf(primitives, front) + Elements(Left(primitives, front, last).targets)
  {
  }

  lemma NextPositioned(original: Primitives, done: seq<Id>, ps: seq<Id>, i: nat)
    requires i < |ps| && ps[i] in original && Positioned(original, done + ps[..i])
    ensures POSITION !in StripAll(original, done + ps[..i])[ps[i]].attributes ==> !Positioned(original, done + ps)
    ensures POSITION in StripAll(original, done + ps[..i])[ps[i]].attributes ==>
              && Positioned(original, done + ps[..i + 1])
              && StripAll(original, done + ps[..i + 1]) == StripOne(StripAll(original, done + ps[..i]), ps[i])
  {
    hide StripOne;
    var longer := done + ps[..i + 1];
    assert longer == (done + ps[..i]) + [ps[i]];
    assert longer[..|longer| - 1] == done + ps[..i];
    assert ps[i] in done + ps;
  }

  lemma ShedOfAll(primitives: Primitives, p: Id, primitive: Primitive)
    requires p in primitives && POSITION in primitives[p].attributes
    requires primitive == Bare(primitives[p]).(targets := primitives[p].targets)
    ensures Shed(primitives[p := primitive], Elements(primitive.targets)) == StripOne(primitives, p)
  {
    MinusAll(primitive.targets, Elements(primitive.targets));
  }

  // ----- the whole document -----

  function UnsetIn(material: Option<Id>, gone: set<Id>): Option<Id> {
    if material.Some? && material.value in gone then None else material
  }

  /** Every primitive without these materials. */
  function Unset(primitives: Primitives, gone: set<Id>): Primitives {
    map q | q in primitives :: primitives[q].(material := UnsetIn(primitives[q].material, gone))
  }

  lemma UnsetTwice(primitives: Primitives, a: set<Id>, b: set<Id>)
    ensures Unset(Unset(primitives, a), b) == Unset(primitives, a + b)
  {
  }

  lemma UnsetNothing(primitives: Primitives)
    ensures Unset(primitives, {}) == primitives
  {
  }

  ghost predicate MeshesKnown(meshes: seq<Id>, meshAt: map<Id, Mesh>, primitives: Primitives) {
    forall m :: m in meshes ==> m in meshAt && forall p :: p in meshAt[m].primitives ==> p in primitives
  }

  /** All primitives of the meshes, mesh by mesh. */
  function PrimitivesOf(meshes: seq<Id>, meshAt: map<Id, Mesh>): (ps: seq<Id>)
    requires forall m :: m in meshes ==> m in meshAt
    ensures forall p :: p in ps <==> exists m :: m in meshes && p in meshAt[m].primitives
  {
    if meshes == [] then []
    else
      assert meshes == meshes[..|meshes| - 1] + [meshes[|meshes| - 1]];
      PrimitivesOf(meshes[..|meshes| - 1], meshAt) + meshAt[meshes[|meshes| - 1]].primitives
  }

  lemma PrimitivesOfNext(meshes: seq<Id>, meshAt: map<Id, Mesh>, i: nat)
    requires i < |meshes| && forall m :: m in meshes ==> m in meshAt
    ensures PrimitivesOf(meshes[..i + 1], meshAt) == PrimitivesOf(meshes[..i], meshAt) + meshAt[meshes[i]].primitives
  {
    assert meshes[..i + 1][..i] == meshes[..i];
  }

  lemma NothingToStrip(primitives: Primitives, meshAt: map<Id, Mesh>)
    ensures PrimitivesOf([], meshAt) == [] && Positioned(primitives, []) && StripAll(primitives, []) == primitives
  {
  }

  lemma PrefixPositioned(primitives: Primitives, meshes: seq<Id>, meshAt: map<Id, Mesh>, i: nat)
    requires i <= |meshes| && forall m :: m in meshes ==> m in meshAt
    ensures Positioned(primitives, PrimitivesOf(meshes, meshAt)) ==> Positioned(primitives, PrimitivesOf(meshes[..i], meshAt))
  {
  }

  ghost predicate Known(g: Graph) {
    MeshesKnown(g.meshes, g.meshAt, g.primitiveAt)
  }

  ghost function Used(g: Graph): seq<Id>
    requires Known(g)
  {
    PrimitivesOf(g.meshes, g.meshAt)
  }

  /** Every primitive of a mesh has a POSITION. */
  ghost predicate Strippable(g: Graph)
    requires Known(g)
  {
    Positioned(g.primitiveAt, Used(g))
  }

  /** The document without all that particles do not need. */
  ghost function Stripped(g: Graph): Graph
    requires Known(g) && Strippable(g)
  {
    Graph([], [], [], [], [],
          map n | n in g.nodes :: BareNode(g.nodes[n]),
          g.meshes,
          map m | m in g.meshAt :: if m in g.meshes then BareMesh(g.meshAt[m]) else g.meshAt[m],
          Unset(map q | q in g.primitiveAt :: Left(g.primitiveAt, Used(g), q), Elements(g.materials)))
  }

  lemma AllLeft(primitives: Primitives, ps: seq<Id>)
    requires Positioned(primitives, ps)
    ensures StripAll(primitives, ps) == map q | q in primitives :: Left(primitives, ps, q)
  {
    forall q | q in primitives ensures StripAll(primitives, ps)[q] == Left(primitives, ps, q) {
      StripAllLeaves(primitives, ps, q);
    }
  }

  lemma StrippedParts(g: Graph, s: Graph)
    requires Known(g) && Strippable(g)
    requires s.extensions == s.animations == s.skins == s.materials == s.textures == []
    requires s.nodes == map n | n in g.nodes :: BareNode(g.nodes[n])
    requires s.meshes == g.meshes
    requires s.meshAt == map m | m in g.meshAt :: if m in g.meshes then BareMesh(g.meshAt[m]) else g.meshAt[m]
    requires s.primitiveAt == Unset(StripAll(g.primitiveAt, Used(g)), Elements(g.materials))
    ensures s == Stripped(g)
  {
    AllLeft(g.primitiveAt, Used(g));
    hide StripAll, Left, Unset, PrimitivesOf, Positioned;
  }

  /** The pass goes through exactly when every primitive of every listed mesh has a POSITION. */
  lemma StrippableExactly(g: Graph)
    requires Known(g)
    ensures Strippable(g) <==>
              forall m, p :: m in g.meshes && p in g.meshAt[m].primitives ==> "POSITION" in g.primitiveAt[p].attributes
  {
    assert forall p :: p in Used(g) <==> exists m :: m in g.meshes && p in g.meshAt[m].primitives;
    hide PrimitivesOf;
  }

  /** What the strip pass takes away, and what it leaves as it was. */
  lemma StripKeeps(g: Graph)
    requires Known(g) && Strippable(g)
    ensures var s := Stripped(g);
            && s.extensions == s.animations == s.skins == s.materials == s.textures == []
            && s.nodes.Keys == g.nodes.Keys && s.meshes == g.meshes && s.primitiveAt.Keys == g.primitiveAt.Keys
            && (forall n :: n in g.nodes ==> s.nodes[n] == Node(g.nodes[n].name, g.nodes[n].mesh, None, []))
            && (forall m :: m in g.meshes ==> m in s.meshAt && s.meshAt[m] == Mesh(g.meshAt[m].name, [], g.meshAt[m].primitives))
            && (forall m, p :: m in g.meshes && p in g.meshAt[m].primitives ==>
                  && "POSITION" in g.primitiveAt[p].attributes
                  && s.primitiveAt[p] == Primitive(map["POSITION" := g.primitiveAt[p].attributes["POSITION"]],
                                                   g.primitiveAt[p].indices, None, []))
  {
    hide Minus, StripAll;
    forall m, p | m in g.meshes && p in g.meshAt[m].primitives ensures p in Used(g) && p in g.primitiveAt {
    }
  }

  /** Meshes and primitives that are not listed keep all but what was disposed of. */
  lemma StripLeavesOthers(g: Graph)
    requires Known(g) && Strippable(g)
    ensures var s := Stripped(g);
            && s.meshAt.Keys == g.meshAt.Keys && s.primitiveAt.Keys == g.primitiveAt.Keys
            && (forall m :: m in g.meshAt && m !in g.meshes ==> s.meshAt[m] == g.meshAt[m])
            && (forall q :: q in g.primitiveAt && q !in Used(g) ==>
                  && s.primitiveAt[q].attributes == g.primitiveAt[q].attributes
                  && s.primitiveAt[q].indices == g.primitiveAt[q].indices)
  {
    hide Minus, StripAll, PrimitivesOf;
  }

  /** Stripping again changes nothing. */
  lemma StripTwice(g: Graph)
    requires Known(g) && Strippable(g)
    ensures Known(Stripped(g)) && Strippable(Stripped(g)) && Stripped(Stripped(g)) == Stripped(g)
  {
    var s := Stripped(g);
    StripKeeps(g);
    SameUsed(g);
    UsedAgain(g);
    UnsetNothing(s.primitiveAt);
    assert Elements(s.materials) == {};
    hide Minus, StripAll, Left, Unset, PrimitivesOf;
    assert (map q | q in s.primitiveAt :: Left(s.primitiveAt, Used(s), q)) == s.primitiveAt;
  }

  /** A stripped document has no targets to take and nothing left to strip. */
  lemma UsedAgain(g: Graph)
    requires Known(g) && Strippable(g) && Known(Stripped(g)) && Used(Stripped(g)) == Used(g)
    ensures var s := Stripped(g);
            && Strippable(s)
            && forall q :: q in s.primitiveAt ==> Left(s.primitiveAt, Used(s), q) == s.primitiveAt[q]
  {
    var s := Stripped(g);
    StripKeeps(g);
    StrippedPrimitives(g);
    hide Stripped, StripAll, Left, MeshesKnown;
    BareAlready(s.primitiveAt, Used(s));
  }

  lemma StrippedPrimitives(g: Graph)
    requires Known(g) && Strippable(g)
    ensures forall p :: p in Used(g) ==>
              p in Stripped(g).primitiveAt && POSITION in g.primitiveAt[p].attributes && Stripped(g).primitiveAt[p] == Bare(g.primitiveAt[p])
  {
    hide Minus, StripAll, PrimitivesOf, TargetsOf;
  }

  lemma BareAlready(primitives: Primitives, ps: seq<Id>)
    requires forall p :: p in ps ==>
               p in primitives && POSITION in primitives[p].attributes && primitives[p] == Bare(primitives[p])
    ensures Positioned(primitives, ps)
    ensures forall q :: q in primitives ==> Left(primitives, ps, q) == primitives[q]
  {
    assert TargetsOf(primitives, ps) == {};
    forall q | q in primitives ensures Left(primitives, ps, q) == primitives[q] {
      MinusNothing(primitives[q].targets, {});
    }
  }

  lemma SameUsed(g: Graph)
    requires Known(g) && Strippable(g)
    ensures Known(Stripped(g)) && Used(Stripped(g)) == Used(g)
  {
    hide Minus, StripAll, Left;
    SamePrimitivesOf(g.meshes, g.meshAt, Stripped(g).meshAt);
  }

  lemma {:induction false} SamePrimitivesOf(meshes: seq<Id>, meshAt: map<Id, Mesh>, other: map<Id, Mesh>)
    requires forall m :: m in meshes ==> m in meshAt && m in other && other[m].primitives == meshAt[m].primitives
    ensures PrimitivesOf(meshes, other) == PrimitivesOf(meshes, meshAt)
  {
    if meshes != [] {
      SamePrimitivesOf(meshes[..|meshes| - 1], meshAt, other);
    }
  }

  // ----- the code -----

  class Document {
    var extensions: seq<Id>
    var animations: seq<Id>
    var skins: seq<Id>
    var materials: seq<Id>
    var textures: seq<Id>
    var nodes: map<Id, Node>
    var meshes: seq<Id>
    var meshAt: map<Id, Mesh>
    var primitiveAt: map<Id, Primitive>

    ghost function Contents(): Graph
      reads this
    {
      Graph(extensions, animations, skins, materials, textures, nodes, meshes, meshAt, primitiveAt)
    }

    /** Removes every attribute but POSITION, then disposes of the targets. */
    method StripPrimitive(p: Id)
      requires p in primitiveAt && POSITION in primitiveAt[p].attributes
      modifies this
      ensures unchanged(`extensions, `animations, `skins, `materials, `textures, `nodes, `meshes, `meshAt)
      ensures primitiveAt == StripOne(old(primitiveAt), p)
    {
      var primitive := primitiveAt[p].(material := None);
      var semantics := primitive.attributes.Keys;
      while semantics != {}
        invariant primitive == old(primitiveAt[p]).(material := None, attributes := primitive.attributes)
        invariant POSITION in primitive.attributes && primitive.attributes[POSITION] == old(primitiveAt[p]).attributes[POSITION]
        invariant primitive.attributes.Keys <= semantics + {POSITION}
        decreases |semantics|
      {
        var semantic :| semantic in semantics;
        if semantic != POSITION {
          primitive := primitive.(attributes := primitive.attributes - {semantic});
        }
        semantics := semantics - {semantic};
      }
      assert primitive.attributes == map[POSITION := primitive.attributes[POSITION]];
      ghost var before := primitiveAt;
      primitiveAt := primitiveAt[p := primitive];
      DisposeTargets(primitive.targets);
      ShedOfAll(before, p, primitive);
    }

    /** Each target leaves the lists of all primitives. */
    method DisposeTargets(targets: seq<Id>)
      modifies this
      ensures unchanged(`extensions, `animations, `skins, `materials, `textures, `nodes, `meshes, `meshAt)
      ensures primitiveAt == Shed(old(primitiveAt), Elements(targets))
    {
      hide Shed;
      var i := 0;
      assert Elements(targets[..0]) == {};
      ShedNothing(primitiveAt);
      while i < |targets|
        invariant unchanged(`extensions, `animations, `skins, `materials, `textures, `nodes, `meshes, `meshAt)
        invariant 0 <= i <= |targets|
        invariant primitiveAt == Shed(old(primitiveAt), Elements(targets[..i]))
      {
        ShedTwice(old(primitiveAt), Elements(targets[..i]), {targets[i]});
        OneMoreElement(targets, i);
        primitiveAt := Shed(primitiveAt, {targets[i]});
        i := i + 1;
      }
      assert targets[..i] == targets;
    }

    /** The objects of a root list disposed of one by one, over a copy of the list. */
    method DisposeAll(list: seq<Id>) returns (left: seq<Id>)
      ensures left == []
    {
      hide Minus, Elements;
      left := list;
      NothingGone(list);
      for i := 0 to |list|
        invariant left == Minus(list, Elements(list[..i]))
      {
        OneMoreGone(list, i);
        left := Minus(left, {list[i]});
      }
      AllGone(list);
    }

    method StripNodes()
      modifies this
      ensures unchanged(`extensions, `animations, `skins, `materials, `textures, `meshes, `meshAt, `primitiveAt)
      ensures nodes == map n | n in old(nodes) :: BareNode(old(nodes)[n])
    {
      var left := nodes.Keys;
      while left != {}
        invariant unchanged(`extensions, `animations, `skins, `materials, `textures, `meshes, `meshAt, `primitiveAt)
        invariant left <= nodes.Keys == old(nodes).Keys
        invariant forall n :: n in nodes ==> nodes[n] == if n in left then old(nodes)[n] else BareNode(old(nodes)[n])
        decreases |left|
      {
        var n :| n in left;
        nodes := nodes[n := nodes[n].(skin := None, weights := [])];
        left := left - {n};
      }
    }

    /** Each material leaves its list and the primitives that use it. */
    method DisposeMaterials()
      modifies this
      ensures unchanged(`extensions, `animations, `skins, `textures, `nodes, `meshes, `meshAt)
      ensures materials == []
      ensures primitiveAt == Unset(old(primitiveAt), Elements(old(materials)))
    {
      var copy := materials;
      var i := 0;
      assert Elements(copy[..0]) == {};
      UnsetNothing(primitiveAt);
      while i < |copy|
        invariant 0 <= i <= |copy|
        invariant unchanged(`extensions, `animations, `skins, `materials, `textures, `nodes, `meshes, `meshAt)
        invariant primitiveAt == Unset(old(primitiveAt), Elements(copy[..i]))
      {
        UnsetTwice(old(primitiveAt), Elements(copy[..i]), {copy[i]});
        OneMoreElement(copy, i);
        primitiveAt := Unset(primitiveAt, {copy[i]});
        i := i + 1;
      }
      assert copy[..i] == copy;
      materials := DisposeAll(copy);
    }

    /** The meshes in their order; stops at the first primitive without POSITION. */
    method StripMeshes() returns (ok: bool)
      requires MeshesKnown(meshes, meshAt, primitiveAt)
      modifies this
      ensures unchanged(`extensions, `animations, `skins, `materials, `textures, `nodes, `meshes)
      ensures ok <==> Positioned(old(primitiveAt), PrimitivesOf(meshes, old(meshAt)))
      ensures ok ==> primitiveAt == StripAll(old(primitiveAt), PrimitivesOf(meshes, old(meshAt)))
      ensures ok ==> meshAt == map m | m in old(meshAt) :: if m in meshes then BareMesh(old(meshAt)[m]) else old(meshAt)[m]
    {
      hide Positioned, StripAll, PrimitivesOf;
      NothingToStrip(primitiveAt, meshAt);
      ok := true;
      var i := 0;
      while i < |meshes|
        invariant unchanged(`extensions, `animations, `skins, `materials, `textures, `nodes, `meshes)
        invariant 0 <= i <= |meshes|
        invariant Positioned(old(primitiveAt), PrimitivesOf(meshes[..i], old(meshAt)))
        invariant primitiveAt == StripAll(old(primitiveAt), PrimitivesOf(meshes[..i], old(meshAt)))
        invariant meshAt.Keys == old(meshAt).Keys
        invariant forall m :: m in meshAt ==> meshAt[m] == if m in meshes[..i] then BareMesh(old(meshAt)[m]) else old(meshAt)[m]
      {
        var m := meshes[i];
        meshAt := meshAt[m := meshAt[m].(weights := [])];
        ok := StripPrimitives(meshAt[m].primitives, PrimitivesOf(meshes[..i], old(meshAt)), old(primitiveAt));
        PrimitivesOfNext(meshes, old(meshAt), i);
        if !ok {
          PrefixPositioned(old(primitiveAt), meshes, old(meshAt), i + 1);
          return;
        }
        i := i + 1;
      }
      assert meshes[..i] == meshes;
    }

    /** The primitives of one mesh, after those in `done`. */
    method StripPrimitives(ps: seq<Id>, ghost done: seq<Id>, ghost original: Primitives) returns (ok: bool)
      requires Positioned(original, done) && primitiveAt == StripAll(original, done)
      requires forall p :: p in ps ==> p in original
      modifies this
      ensures unchanged(`extensions, `animations, `skins, `materials, `textures, `nodes, `meshes, `meshAt)
      ensures ok <==> Positioned(original, done + ps)
      ensures ok ==> primitiveAt == StripAll(original, done + ps)
    {
      hide Positioned, StripAll, StripOne;
      var i := 0;
      assert done + ps[..0] == done;
      while i < |ps|
        invariant unchanged(`extensions, `animations, `skins, `materials, `textures, `nodes, `meshes, `meshAt)
        invariant 0 <= i <= |ps| && Positioned(original, done + ps[..i])
        invariant primitiveAt == StripAll(original, done + ps[..i])
      {
        var p := ps[i];
        NextPositioned(original, done, ps, i);
        if POSITION !in primitiveAt[p].attributes {
          return false;
        }
        StripPrimitive(p);
        i := i + 1;
      }
      assert done + ps[..i] == done + ps;
      ok := true;
    }

    /** The whole pass: it fails exactly when some primitive has no POSITION. */
    method StripParticleMeshPayload() returns (ok: bool)
      requires Known(Contents())
      modifies this
      ensures ok <==> Strippable(old(Contents()))
      ensures ok ==> Contents() == Stripped(old(Contents()))
    {
      ghost var before := Contents();
      hide MeshesKnown, PrimitivesOf, Positioned, StripAll, Stripped, Unset;
      extensions := DisposeAll(extensions);
      animations := DisposeAll(animations);
      StripNodes();
      skins := DisposeAll(skins);
      ok := StripMeshes();
      if !ok {
        return;
      }
      DisposeMaterials();
      textures := DisposeAll(textures);
      StrippedParts(before, Contents());
    }
  }
}
