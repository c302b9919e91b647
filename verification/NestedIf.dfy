/**
 The nested-`if` linter (scripts/ci/no-nested-if.go): a syntax-tree walk that
 carries its nesting depth down and appends findings to one shared list.
 */
module NestedIf {
  import opened Wrappers

  /** go/token's Position; line directives can move all of it but the offset. */
  datatype Position = Position(filename: string, offset: nat, line: nat, column: nat)

  /**
   A syntax tree as far as the walk tells nodes apart. `signature` holds what a
   function has besides its body: receiver, parameter and result types.
   */
  datatype Node =
    | FuncDecl(signature: seq<Node>, body: Node)
    | FuncLit(signature: seq<Node>, body: Node)
    | If(position: Position, init: Option<Node>, cond: Node, body: Node, els: Option<Node>)
    | Other(children: seq<Node>)

  datatype Violation = Violation(path: string, position: Position)

  class Violations {
    var list: seq<Violation>

    constructor ()
      ensures list == []
    {
      list := [];
    }
  }

  datatype Visitor = Visitor(path: string, ifDepth: nat, violations: Violations) {
    function WithDepth(depth: nat): Visitor {
      this.(ifDepth := depth)
    }
  }

  // ----- what the walk appends -----

  function Report(path: string, depth: nat, node: Node): seq<Violation>
    decreases node, 1
  {
    match node
    case FuncDecl(_, body) => Report(path, 0, body)
    case FuncLit(_, body) => Report(path, 0, body)
    case If(position, init, cond, body, els) =>
      (if depth > 0 then [Violation(path, position)] else [])
      + (ReportOption(path, depth + 1, init)
         + (Report(path, depth + 1, cond)
            + (Report(path, depth + 1, body)
               + ReportOption(path, ElseDepth(depth, els), els))))
    case Other(children) => ReportAll(path, depth, children)
  }

  function ReportOption(path: string, depth: nat, node: Option<Node>): seq<Violation>
    decreases node, 0
  {
    if node.None? then [] else Report(path, depth, node.value)
  }

  function ReportAll(path: string, depth: nat, nodes: seq<Node>): seq<Violation>
    decreases nodes, 0
  {
    if nodes == [] then [] else Report(path, depth, nodes[0]) + ReportAll(path, depth, nodes[1..])
  }

  /** `else if` continues its statement at the same depth. */
  function ElseDepth(depth: nat, els: Option<Node>): nat {
    if els.Some? && els.value.If? then depth else depth + 1
  }

  // ----- the code -----

  /** ast.Walk */
  method Walk(visitor: Visitor, node: Node)
    modifies visitor.violations
    ensures visitor.violations.list == old(visitor.violations.list) + Report(visitor.path, visitor.ifDepth, node)
    decreases node, 2
  {
    var inner := Visit(visitor, node);
    if inner.Some? {
      WalkList(visitor, node.children);
    }
  }

  method WalkList(visitor: Visitor, nodes: seq<Node>)
    modifies visitor.violations
    ensures visitor.violations.list == old(visitor.violations.list) + ReportAll(visitor.path, visitor.ifDepth, nodes)
    decreases nodes, 0
  {
    ghost var before := visitor.violations.list;
    for i := 0 to |nodes|
      invariant before + ReportAll(visitor.path, visitor.ifDepth, nodes)
             == visitor.violations.list + ReportAll(visitor.path, visitor.ifDepth, nodes[i..])
    {
      Walk(visitor, nodes[i]);
      assert nodes[i..][1..] == nodes[i + 1..];
    }
  }

  /** Returns the visitor for the children; None when they have been walked, or are not to be. */
  method Visit(visitor: Visitor, node: Node) returns (inner: Option<Visitor>)
    modifies visitor.violations
    ensures node.Other? ==> inner == Some(visitor) && visitor.violations.list == old(visitor.violations.list)
    ensures !node.Other? ==>
              inner == None
              && visitor.violations.list == old(visitor.violations.list) + Report(visitor.path, visitor.ifDepth, node)
    decreases node, 1
  {
    match node
    case FuncDecl(_, body) =>
      Walk(visitor.WithDepth(0), body);
      return None;
    case FuncLit(_, body) =>
      Walk(visitor.WithDepth(0), body);
      return None;
    case If(_, _, _, _, _) =>
      InspectIf(visitor, node);
      return None;
    case Other(_) =>
      return Some(visitor);
  }

  method InspectIf(visitor: Visitor, statement: Node)
    requires statement.If?
    modifies visitor.violations
    ensures visitor.violations.list
         == old(visitor.violations.list) + Report(visitor.path, visitor.ifDepth, statement)
    decreases statement, 0
  {
    if visitor.ifDepth > 0 {
      visitor.violations.list := visitor.violations.list + [Violation(visitor.path, statement.position)];
    }
    var nested := visitor.WithDepth(visitor.ifDepth + 1);
    WalkOption(nested, statement.init);
    Walk(nested, statement.cond);
    Walk(nested, statement.body);
    Gather(old(visitor.violations.list),
           if visitor.ifDepth > 0 then [Violation(visitor.path, statement.position)] else [],
           ReportOption(visitor.path, visitor.ifDepth + 1, statement.init),
           Report(visitor.path, visitor.ifDepth + 1, statement.cond),
           Report(visitor.path, visitor.ifDepth + 1, statement.body),
           ReportOption(visitor.path, ElseDepth(visitor.ifDepth, statement.els), statement.els));
    if statement.els.Some? && statement.els.value.If? {
      Walk(visitor, statement.els.value);
      return;
    }
    WalkOption(nested, statement.els);
  }

  lemma Gather<T>(list: seq<T>, a: seq<T>, b: seq<T>, c: seq<T>, d: seq<T>, e: seq<T>)
    ensures list + a + b + c + d + e == list + (a + (b + (c + (d + e))))
  {
  }

  /** ast.Walk on a node that may be missing. */
  method WalkOption(visitor: Visitor, node: Option<Node>)
    modifies visitor.violations
    ensures visitor.violations.list == old(visitor.violations.list) + ReportOption(visitor.path, visitor.ifDepth, node)
    decreases node, 0
  {
    if node.Some? {
      Walk(visitor, node.value);
    }
  }

  // ----- where nodes are -----

  /** The way from a node down to another: one child slot after the other. */
  type Path = seq<nat>

  const ELSE: nat := 3

  function Child(node: Node, slot: nat): (child: Option<Node>)
    ensures child.Some? ==> child.value < node
  {
    match node
    case FuncDecl(signature, body) =>
      if slot < |signature| then Some(signature[slot]) else if slot == |signature| then Some(body) else None
    case FuncLit(signature, body) =>
      if slot < |signature| then Some(signature[slot]) else if slot == |signature| then Some(body) else None
    case If(_, init, cond, body, els) =>
      if slot == 0 then init
      else if slot == 1 then Some(cond)
      else if slot == 2 then Some(body)
      else if slot == ELSE then els
      else None
    case Other(children) => if slot < |children| then Some(children[slot]) else None
  }

  function At(node: Node, path: Path): Option<Node>
    decreases |path|
  {
    if path == [] then Some(node)
    else
      var child := Child(node, path[0]);
      if child.None? then None else At(child.value, path[1..])
  }

  /** The step from `node` into this slot enters a function's body. */
  predicate EntersBody(node: Option<Node>, slot: nat) {
    node.Some? && (node.value.FuncDecl? || node.value.FuncLit?) && slot == |node.value.signature|
  }

  /** ... or stays in a function's signature. */
  predicate EntersSignature(node: Option<Node>, slot: nat) {
    node.Some? && (node.value.FuncDecl? || node.value.FuncLit?) && slot < |node.value.signature|
  }

  /** ... or goes inside an `if` statement other than along its `else if`. */
  predicate EntersIf(node: Option<Node>, slot: nat) {
    && node.Some? && node.value.If?
    && !(slot == ELSE && node.value.els.Some? && node.value.els.value.If?)
  }

  /** Inside an `if` of the same function, `else if` links not counted. */
  ghost predicate NestedAt(root: Node, path: Path) {
    exists k :: 0 <= k < |path| && EntersIf(At(root, path[..k]), path[k]) && SameFunction(root, path, k + 1)
  }

  /** No function body is entered from step `from` on. */
  ghost predicate SameFunction(root: Node, path: Path, from: nat) {
    forall j :: from <= j < |path| ==> !EntersBody(At(root, path[..j]), path[j])
  }

  ghost predicate OutsideSignatures(root: Node, path: Path) {
    forall j :: 0 <= j < |path| ==> !EntersSignature(At(root, path[..j]), path[j])
  }

  ghost predicate IsNestedIf(root: Node, path: Path) {
    At(root, path).Some? && At(root, path).value.If? && NestedAt(root, path)
  }

  /** The nodes the linter is to report. */
  ghost predicate IsFinding(root: Node, path: Path) {
    IsNestedIf(root, path) && OutsideSignatures(root, path)
  }

  /** Source order: ancestors first, then by the first slot that differs. */
  predicate Before(p: Path, q: Path)
    decreases |p|
  {
    q != [] && (p == [] || p[0] < q[0] || (p[0] == q[0] && Before(p[1..], q[1..])))
  }

  ghost predicate InSourceOrder(paths: seq<Path>) {
    forall i, j :: 0 <= i < j < |paths| ==> Before(paths[i], paths[j])
  }

  // ----- the places of what the walk appends -----

  function Under(slot: nat, paths: seq<Path>): (r: seq<Path>)
    ensures |r| == |paths|
    ensures forall i :: 0 <= i < |paths| ==> r[i] == [slot] + paths[i]
  {
    seq(|paths|, i requires 0 <= i < |paths| => [slot] + paths[i])
  }

  function Findings(depth: nat, node: Node): seq<Path>
    decreases node, 1
  {
    match node
    case FuncDecl(signature, body) => Under(|signature|, Findings(0, body))
    case FuncLit(signature, body) => Under(|signature|, Findings(0, body))
    case If(_, init, cond, body, els) =>
      (if depth > 0 then [[]] else []) + SlotFindings(depth, node, 0, 4)
    case Other(children) => SlotFindings(depth, node, 0, |children|)
  }

  /** The findings under the slots from `slot` up to `end`. */
  function SlotFindings(depth: nat, node: Node, slot: nat, end: nat): seq<Path>
    requires slot <= end
    decreases node, 0, end - slot
  {
    if slot == end then []
    else
      var child := Child(node, slot);
      (if child.None? then [] else Under(slot, Findings(ChildDepth(depth, node, slot), child.value)))
      + SlotFindings(depth, node, slot + 1, end)
  }

  function ChildDepth(depth: nat, node: Node, slot: nat): nat {
    if node.If? then (if EntersIf(Some(node), slot) then depth + 1 else depth) else depth
  }

  // ----- one step down -----

  lemma AtBelow(root: Node, path: Path, k: nat)
    requires k < |path| && Child(root, path[0]).Some?
    ensures At(root, path[..k + 1]) == At(Child(root, path[0]).value, path[1..][..k])
  {
    assert path[..k + 1][1..] == path[1..][..k];
  }

  lemma SameFunctionBelow(root: Node, path: Path, from: nat)
    requires path != [] && Child(root, path[0]).Some?
    ensures SameFunction(root, path, from + 1) <==> SameFunction(Child(root, path[0]).value, path[1..], from)
  {
    var c, rest := Child(root, path[0]).value, path[1..];
    forall j | 0 <= j < |rest|
      ensures EntersBody(At(root, path[..j + 1]), path[j + 1]) <==> EntersBody(At(c, rest[..j]), rest[j])
    {
      AtBelow(root, path, j);
    }
    if SameFunction(root, path, from + 1) {
      forall j | from <= j < |rest| ensures !EntersBody(At(c, rest[..j]), rest[j]) {
        assert !EntersBody(At(root, path[..j + 1]), path[j + 1]);
      }
    }
    if SameFunction(c, rest, from) {
      forall j | from + 1 <= j < |path| ensures !EntersBody(At(root, path[..j]), path[j]) {
        assert !EntersBody(At(c, rest[..j - 1]), rest[j - 1]);
      }
    }
  }

  lemma SameFunctionFromTop(root: Node, path: Path)
    requires path != [] && Child(root, path[0]).Some?
    ensures SameFunction(root, path, 0)
       <==> !EntersBody(Some(root), path[0]) && SameFunction(Child(root, path[0]).value, path[1..], 0)
  {
    SameFunctionBelow(root, path, 0);
    assert path[..0] == [];
    if SameFunction(root, path, 0) {
      assert !EntersBody(At(root, path[..0]), path[0]);
    }
  }

  lemma NestedBelow(root: Node, path: Path)
    requires path != [] && Child(root, path[0]).Some?
    ensures NestedAt(root, path)
       <==> NestedAt(Child(root, path[0]).value, path[1..])
            || (EntersIf(Some(root), path[0]) && SameFunction(Child(root, path[0]).value, path[1..], 0))
  {
    var c, rest := Child(root, path[0]).value, path[1..];
    assert path[..0] == [];
    SameFunctionBelow(root, path, 0);
    if NestedAt(root, path) {
      var k :| 0 <= k < |path| && EntersIf(At(root, path[..k]), path[k]) && SameFunction(root, path, k + 1);
      if k > 0 {
        AtBelow(root, path, k - 1);
        SameFunctionBelow(root, path, k);
        assert EntersIf(At(c, rest[..k - 1]), rest[k - 1]);
      }
    }
    if NestedAt(c, rest) {
      var k :| 0 <= k < |rest| && EntersIf(At(c, rest[..k]), rest[k]) && SameFunction(c, rest, k + 1);
      AtBelow(root, path, k);
      SameFunctionBelow(root, path, k + 1);
      assert EntersIf(At(root, path[..k + 1]), path[k + 1]);
    }
    if EntersIf(Some(root), path[0]) && SameFunction(c, rest, 0) {
      assert EntersIf(At(root, path[..0]), path[0]);
    }
  }

  lemma SignaturesBelow(root: Node, path: Path)
    requires path != [] && Child(root, path[0]).Some?
    ensures OutsideSignatures(root, path)
       <==> !EntersSignature(Some(root), path[0]) && OutsideSignatures(Child(root, path[0]).value, path[1..])
  {
    var c, rest := Child(root, path[0]).value, path[1..];
    assert path[..0] == [];
    forall j | 0 <= j < |rest|
      ensures EntersSignature(At(root, path[..j + 1]), path[j + 1]) <==> EntersSignature(At(c, rest[..j]), rest[j])
    {
      AtBelow(root, path, j);
    }
    if OutsideSignatures(root, path) {
      assert !EntersSignature(At(root, path[..0]), path[0]);
      forall j | 0 <= j < |rest| ensures !EntersSignature(At(c, rest[..j]), rest[j]) {
        assert !EntersSignature(At(root, path[..j + 1]), path[j + 1]);
      }
    }
    if !EntersSignature(Some(root), path[0]) && OutsideSignatures(c, rest) {
      forall j | 0 <= j < |path| ensures !EntersSignature(At(root, path[..j]), path[j]) {
        assert j > 0 ==> !EntersSignature(At(c, rest[..j - 1]), rest[j - 1]);
      }
    }
  }

  /** A finding of a subtree that may itself stand inside an `if` of its function. */
  ghost predicate FindingFrom(root: Node, path: Path, deep: bool) {
    && At(root, path).Some? && At(root, path).value.If? && OutsideSignatures(root, path)
    && (NestedAt(root, path) || (deep && SameFunction(root, path, 0)))
  }

  lemma FindingBelow(root: Node, path: Path, deep: bool)
    requires path != [] && Child(root, path[0]).Some?
    ensures FindingFrom(root, path, deep)
       <==> !EntersSignature(Some(root), path[0])
            && FindingFrom(Child(root, path[0]).value, path[1..],
                           !EntersBody(Some(root), path[0]) && (deep || EntersIf(Some(root), path[0])))
  {
    hide SameFunction, NestedAt, OutsideSignatures;
    SignaturesBelow(root, path);
    NestedBelow(root, path);
    SameFunctionFromTop(root, path);
  }

  // ----- the walk finds exactly the findings -----

  lemma InUnder(p: Path, slot: nat, paths: seq<Path>)
    ensures p in Under(slot, paths) <==> p != [] && p[0] == slot && p[1..] in paths
  {
    var under := Under(slot, paths);
    if p in under {
      var i :| 0 <= i < |under| && under[i] == p;
      assert p[1..] == paths[i];
    }
    if p != [] && p[0] == slot && p[1..] in paths {
      var i :| 0 <= i < |paths| && paths[i] == p[1..];
      assert under[i] == [slot] + p[1..];
      assert p == [p[0]] + p[1..];
    }
  }

  lemma {:induction false} InSlots(p: Path, depth: nat, node: Node, slot: nat, end: nat)
    requires slot <= end
    ensures p in SlotFindings(depth, node, slot, end)
       <==> p != [] && slot <= p[0] < end && Child(node, p[0]).Some?
            && p[1..] in Findings(ChildDepth(depth, node, p[0]), Child(node, p[0]).value)
    decreases end - slot
  {
    hide Findings, Child, Under;
    if slot < end {
      InSlots(p, depth, node, slot + 1, end);
      var child := Child(node, slot);
      if child.Some? {
        InUnder(p, slot, Findings(ChildDepth(depth, node, slot), child.value));
      }
    }
  }

  /** The walk at a given depth finds exactly the findings of its subtree. */
  lemma {:induction false} FindingsExact(p: Path, depth: nat, node: Node)
    ensures p in Findings(depth, node) <==> FindingFrom(node, p, depth > 0)
    decreases node
  {
    if p == [] {
      EmptyPath(depth, node);
    } else {
      FindingsByChild(p, depth, node);
      var child := Child(node, p[0]);
      if child.Some? {
        FindingBelow(node, p, depth > 0);
        if !EntersSignature(Some(node), p[0]) {
          FindingsExact(p[1..], WalkDepth(depth, node, p[0]), child.value);
        }
      }
    }
  }

  /** The depth with which a child is walked. */
  function WalkDepth(depth: nat, node: Node, slot: nat): nat {
    if EntersBody(Some(node), slot) then 0 else ChildDepth(depth, node, slot)
  }

  lemma EmptyPath(depth: nat, node: Node)
    ensures [] in Findings(depth, node) <==> FindingFrom(node, [], depth > 0)
  {
    match node
    case FuncDecl(signature, body) => InUnder([], |signature|, Findings(0, body));
    case FuncLit(signature, body) => InUnder([], |signature|, Findings(0, body));
    case If(_, _, _, _, _) => InSlots([], depth, node, 0, 4);
    case Other(children) => InSlots([], depth, node, 0, |children|);
  }

  lemma FindingsByChild(p: Path, depth: nat, node: Node)
    requires p != []
    ensures p in Findings(depth, node)
       <==> Child(node, p[0]).Some? && !EntersSignature(Some(node), p[0])
            && p[1..] in Findings(WalkDepth(depth, node, p[0]), Child(node, p[0]).value)
  {
    match node
    case FuncDecl(signature, body) => InUnder(p, |signature|, Findings(0, body));
    case FuncLit(signature, body) => InUnder(p, |signature|, Findings(0, body));
    case If(_, _, _, _, _) => InSlots(p, depth, node, 0, 4);
    case Other(children) => InSlots(p, depth, node, 0, |children|);
  }

  // ----- in source order -----

  lemma UnderOrdered(slot: nat, paths: seq<Path>)
    requires InSourceOrder(paths)
    ensures InSourceOrder(Under(slot, paths))
  {
    var under := Under(slot, paths);
    forall i, j | 0 <= i < j < |under| ensures Before(under[i], under[j]) {
      assert under[i][1..] == paths[i] && under[j][1..] == paths[j];
    }
  }

  lemma AppendOrdered(ps: seq<Path>, qs: seq<Path>)
    requires InSourceOrder(ps) && InSourceOrder(qs)
    requires forall p, q :: p in ps && q in qs ==> Before(p, q)
    ensures InSourceOrder(ps + qs)
  {
    var all := ps + qs;
    forall i, j | 0 <= i < j < |all| ensures Before(all[i], all[j]) {
      if i < |ps| <= j {
        assert all[i] in ps && all[j] in qs;
      }
    }
  }

  lemma EarlierSlot(depth: nat, node: Node, slot: nat, end: nat, paths: seq<Path>)
    requires slot < end
    ensures forall p, q :: p in Under(slot, paths) && q in SlotFindings(depth, node, slot + 1, end) ==> Before(p, q)
  {
    hide Before, Findings, SlotFindings, Under;
    forall p, q | p in Under(slot, paths) && q in SlotFindings(depth, node, slot + 1, end)
      ensures Before(p, q)
    {
      InUnder(p, slot, paths);
      InSlots(q, depth, node, slot + 1, end);
      BySlot(p, q);
    }
  }

  lemma {:induction false} SlotsOrdered(depth: nat, node: Node, slot: nat, end: nat)
    requires slot <= end
    ensures InSourceOrder(SlotFindings(depth, node, slot, end))
    decreases node, 0, end - slot
  {
    if slot < end {
      SlotsOrdered(depth, node, slot + 1, end);
      var child := Child(node, slot);
      if child.Some? {
        var inner := Findings(ChildDepth(depth, node, slot), child.value);
        FindingsOrdered(ChildDepth(depth, node, slot), child.value);
        hide Before, Findings, InSourceOrder;
        UnderOrdered(slot, inner);
        EarlierSlot(depth, node, slot, end, inner);
        AppendOrdered(Under(slot, inner), SlotFindings(depth, node, slot + 1, end));
      }
    }
  }

  lemma BySlot(p: Path, q: Path)
    requires p != [] && q != [] && p[0] < q[0]
    ensures Before(p, q)
  {
  }

  lemma {:induction false} FindingsOrdered(depth: nat, node: Node)
    ensures InSourceOrder(Findings(depth, node))
    decreases node, 1
  {
    match node
    case FuncDecl(signature, body) =>
      FindingsOrdered(0, body);
      UnderOrdered(|signature|, Findings(0, body));
    case FuncLit(signature, body) =>
      FindingsOrdered(0, body);
      UnderOrdered(|signature|, Findings(0, body));
    case If(_, _, _, _, _) =>
      SlotsOrdered(depth, node, 0, 4);
      var inner := SlotFindings(depth, node, 0, 4);
      forall q | q in inner ensures Before([], q) {
        InSlots(q, depth, node, 0, 4);
      }
      var here: seq<Path> := if depth > 0 then [[]] else [];
      AppendOrdered(here, inner);
    case Other(children) =>
      SlotsOrdered(depth, node, 0, |children|);
  }

  // ----- the violations are the findings, one by one -----

  /** The violations stand for these places of the tree, in this order. */
  ghost predicate Locates(path: string, node: Node, violations: seq<Violation>, places: seq<Path>) {
    && |violations| == |places|
    && forall i :: 0 <= i < |places| ==>
         && At(node, places[i]).Some? && At(node, places[i]).value.If?
         && violations[i] == Violation(path, At(node, places[i]).value.position)
  }

  lemma LocatesUnder(path: string, node: Node, slot: nat, violations: seq<Violation>, places: seq<Path>)
    requires Child(node, slot).Some?
    requires Locates(path, Child(node, slot).value, violations, places)
    ensures Locates(path, node, violations, Under(slot, places))
  {
    var under := Under(slot, places);
    forall i | 0 <= i < |places| ensures At(node, under[i]) == At(Child(node, slot).value, places[i]) {
      assert under[i][1..] == places[i];
    }
  }

  lemma LocatesAppend(path: string, node: Node, vs: seq<Violation>, ps: seq<Path>, ws: seq<Violation>, qs: seq<Path>)
    requires Locates(path, node, vs, ps) && Locates(path, node, ws, qs)
    ensures Locates(path, node, vs + ws, ps + qs)
  {
  }

  /** What is appended for the children in the slots from `slot` up to `end`. */
  function SlotReport(path: string, depth: nat, node: Node, slot: nat, end: nat): seq<Violation>
    requires slot <= end
    decreases end - slot
  {
    if slot == end then []
    else
      ReportOption(path, ChildDepth(depth, node, slot), Child(node, slot))
      + SlotReport(path, depth, node, slot + 1, end)
  }

  lemma {:induction false} ListReport(path: string, depth: nat, node: Node, slot: nat)
    requires node.Other? && slot <= |node.children|
    ensures SlotReport(path, depth, node, slot, |node.children|) == ReportAll(path, depth, node.children[slot..])
    decreases |node.children| - slot
  {
    if slot < |node.children| {
      ListReport(path, depth, node, slot + 1);
      assert node.children[slot..][1..] == node.children[slot + 1..];
    }
  }

  lemma IfReport(path: string, depth: nat, node: Node)
    requires node.If?
    ensures Report(path, depth, node)
         == (if depth > 0 then [Violation(path, node.position)] else []) + SlotReport(path, depth, node, 0, 4)
  {
    assert SlotReport(path, depth, node, 4, 4) == [];
    assert SlotReport(path, depth, node, 3, 4) == ReportOption(path, ElseDepth(depth, node.els), node.els);
  }

  lemma {:induction false} SlotsLocated(path: string, depth: nat, node: Node, slot: nat, end: nat)
    requires slot <= end
    ensures Locates(path, node, SlotReport(path, depth, node, slot, end), SlotFindings(depth, node, slot, end))
    decreases node, 0, end - slot
  {
    if slot < end {
      SlotsLocated(path, depth, node, slot + 1, end);
      var child := Child(node, slot);
      if child.Some? {
        var inner := ChildDepth(depth, node, slot);
        FindingsLocated(path, inner, child.value);
        hide Report, Findings, Locates;
        LocatesUnder(path, node, slot, Report(path, inner, child.value), Findings(inner, child.value));
        LocatesAppend(path, node,
                      Report(path, inner, child.value), Under(slot, Findings(inner, child.value)),
                      SlotReport(path, depth, node, slot + 1, end), SlotFindings(depth, node, slot + 1, end));
      } else {
        assert ReportOption(path, ChildDepth(depth, node, slot), child) == [];
        assert SlotReport(path, depth, node, slot, end) == SlotReport(path, depth, node, slot + 1, end);
      }
    }
  }

  lemma {:induction false} FindingsLocated(path: string, depth: nat, node: Node)
    ensures Locates(path, node, Report(path, depth, node), Findings(depth, node))
    decreases node, 1
  {
    match node
    case FuncDecl(signature, body) =>
      FindingsLocated(path, 0, body);
      LocatesUnder(path, node, |signature|, Report(path, 0, body), Findings(0, body));
    case FuncLit(signature, body) =>
      FindingsLocated(path, 0, body);
      LocatesUnder(path, node, |signature|, Report(path, 0, body), Findings(0, body));
    case If(position, _, _, _, _) =>
      IfReport(path, depth, node);
      SlotsLocated(path, depth, node, 0, 4);
      if depth > 0 {
        assert Locates(path, node, [Violation(path, position)], [[]]);
        LocatesAppend(path, node, [Violation(path, position)], [[]],
                      SlotReport(path, depth, node, 0, 4), SlotFindings(depth, node, 0, 4));
      }
    case Other(children) =>
      ListReport(path, depth, node, 0);
      assert children[0..] == children;
      SlotsLocated(path, depth, node, 0, |children|);
  }

  /**
   The walk of a file appends, in source order and each once, exactly the `if`
   statements nested in another of the same function.
   */
  lemma VisitorMeetsSpecification(path: string, file: Node)
    ensures Locates(path, file, Report(path, 0, file), Findings(0, file))
    ensures forall p :: p in Findings(0, file) <==> IsFinding(file, p)
    ensures InSourceOrder(Findings(0, file))
  {
    FindingsLocated(path, 0, file);
    forall p ensures p in Findings(0, file) <==> IsFinding(file, p) {
      FindingsExact(p, 0, file);
    }
    FindingsOrdered(0, file);
  }

  lemma {:induction false} BeforeIsStrict(p: Path, q: Path)
    requires Before(p, q)
    ensures p != q && !Before(q, p)
    decreases |p|
  {
    if p != [] && p[0] == q[0] {
      BeforeIsStrict(p[1..], q[1..]);
    }
  }

  /** Source order and membership leave one list only. */
  lemma {:induction false} SourceOrderIsUnique(ps: seq<Path>, qs: seq<Path>)
    requires InSourceOrder(ps) && InSourceOrder(qs)
    requires forall p :: p in ps <==> p in qs
    ensures ps == qs
    decreases |ps|
  {
    assert qs == [] || qs[0] in qs;
    if ps != [] {
      hide Before;
      assert ps[0] in qs;
      SameHead(ps, qs);
      forall p ensures p in ps[1..] <==> p in qs[1..] {
        InTail(ps, p);
        InTail(qs, p);
      }
      SourceOrderIsUnique(ps[1..], qs[1..]);
    }
  }

  lemma InTail(ps: seq<Path>, p: Path)
    requires ps != [] && InSourceOrder(ps)
    ensures p in ps[1..] <==> p in ps && p != ps[0]
  {
    if p in ps[1..] {
      var i :| 0 <= i < |ps[1..]| && ps[1..][i] == p;
      assert p == ps[i + 1];
      BeforeIsStrict(ps[0], ps[i + 1]);
    }
  }

  lemma SameHead(ps: seq<Path>, qs: seq<Path>)
    requires ps != [] && qs != []
    requires InSourceOrder(ps) && InSourceOrder(qs)
    requires ps[0] in qs && qs[0] in ps
    ensures ps[0] == qs[0]
  {
    var i :| 0 <= i < |qs| && qs[i] == ps[0];
    var j :| 0 <= j < |ps| && ps[j] == qs[0];
    assert i > 0 ==> Before(qs[0], qs[i]);
    if j > 0 {
      BeforeIsStrict(ps[0], ps[j]);
    }
  }

  // ----- signatures are not looked into -----

  /** Every nested `if` of the file is reported. */
  ghost predicate ReportsAll(file: Node) {
    forall p :: IsNestedIf(file, p) ==> p in Findings(0, file)
  }

  /** The linter misses a nested `if` exactly when it stands in a function's signature. */
  lemma ReportsAllExactly(file: Node)
    ensures ReportsAll(file) <==> forall p :: IsNestedIf(file, p) ==> OutsideSignatures(file, p)
  {
    VisitorMeetsSpecification("", file);
    if ReportsAll(file) {
      forall p | IsNestedIf(file, p) ensures OutsideSignatures(file, p) {
        assert p in Findings(0, file);
        assert IsFinding(file, p);
      }
    }
  }

  function IfAt(offset: nat, body: Node): Node {
    If(Position("x.go", offset, 1, offset + 1), None, Other([]), body, None)
  }

  /**
   A function whose parameter is an array with a function literal in its length:
   package p;func f(x [func() int { if a { if b {} }; return 1 }()]int) {}
   */
  function MissedFile(): Node {
    var inner := IfAt(40, Other([]));
    var outer := IfAt(33, Other([inner]));
    Other([FuncDecl([Other([FuncLit([], Other([outer]))])], Other([]))])
  }

  lemma OneStep(node: Node, slot: nat, path: Path)
    requires Child(node, slot).Some?
    ensures At(node, [slot] + path) == At(Child(node, slot).value, path)
  {
    assert ([slot] + path)[1..] == path;
  }

  const TO_OUTER: Path := [0, 0, 0, 0, 0]

  /** The way to the outer `if`: the function, its parameter, the literal, its block, the statement. */
  lemma ToOuter(rest: Path)
    ensures At(MissedFile(), TO_OUTER + rest) == At(IfAt(33, Other([IfAt(40, Other([]))])), rest)
  {
    var file := MissedFile();
    var decl := file.children[0];
    var params := decl.signature[0];
    var literal := params.children[0];
    OneStep(literal.body, 0, rest);
    OneStep(literal, 0, [0] + rest);
    OneStep(params, 0, [0] + ([0] + rest));
    OneStep(decl, 0, [0] + ([0] + ([0] + rest)));
    OneStep(file, 0, [0] + ([0] + ([0] + ([0] + rest))));
    assert TO_OUTER + rest == [0] + ([0] + ([0] + ([0] + ([0] + rest))));
  }

  /** The nested `if` of that file is not reported; nothing is. */
  lemma SignatureIsMissed()
    ensures Report("x.go", 0, MissedFile()) == [] && !ReportsAll(MissedFile())
  {
    var file := MissedFile();
    var inner := IfAt(40, Other([]));
    var outer := IfAt(33, Other([inner]));
    var p := TO_OUTER + [2, 0];
    ToOuter([]);
    ToOuter([2]);
    ToOuter([2, 0]);
    OneStep(outer.body, 0, []);
    OneStep(outer, 2, [0]);
    OneStep(outer, 2, []);
    OneStep(file, 0, []);
    assert [2] + [0] == [2, 0] && [0] + [] == [0] && [2] + [] == [2];
    assert p[..5] == TO_OUTER + [] && p[..6] == TO_OUTER + [2] && p[..1] == [0];
    NestedBy(file, p, outer, inner);
    assert EntersSignature(At(file, p[..1]), p[1]);
    ReportsAllExactly(file);
  }

  lemma NestedBy(file: Node, p: Path, outer: Node, inner: Node)
    requires |p| == 7 && p[5] == 2 && At(file, p) == Some(inner) && inner.If?
    requires At(file, p[..5]) == Some(outer) && outer.If? && At(file, p[..6]).Some? && At(file, p[..6]).value.Other?
    ensures IsNestedIf(file, p)
  {
    assert EntersIf(At(file, p[..5]), p[5]) && SameFunction(file, p, 6);
  }

  // ----- the final sort -----

  /** Go's `<` on strings. */
  predicate TextLess(a: string, b: string) {
    b != "" && (a == "" || a[0] < b[0] || (a[0] == b[0] && TextLess(a[1..], b[1..])))
  }

  /** The comparator handed to sort.Slice. */
  predicate Less(left: Violation, right: Violation) {
    if left.path == right.path then left.position.offset < right.position.offset else TextLess(left.path, right.path)
  }

  lemma {:induction false} TextOrder(a: string, b: string)
    ensures !(TextLess(a, b) && TextLess(b, a)) && !TextLess(a, a)
    ensures TextLess(a, b) || TextLess(b, a) || a == b
    decreases |a|
  {
    if a != "" {
      TextOrder(a[1..], a[1..]);
      if b != "" && a[0] == b[0] {
        TextOrder(a[1..], b[1..]);
        assert a == [a[0]] + a[1..] && b == [b[0]] + b[1..];
      }
    }
  }

  lemma {:induction false} TextTransitive(a: string, b: string, c: string)
    requires TextLess(a, b) && TextLess(b, c)
    ensures TextLess(a, c)
    decreases |a|
  {
    if a != "" && a[0] == b[0] && b[0] == c[0] {
      TextTransitive(a[1..], b[1..], c[1..]);
    }
  }

  /** What the comparator looks at. */
  predicate Tied(u: Violation, v: Violation) {
    u.path == v.path && u.position.offset == v.position.offset
  }

  /** The comparator is a strict weak order; it leaves exactly the findings at one path and offset in either order. */
  lemma LessIsStrictWeakOrder(u: Violation, v: Violation, w: Violation)
    ensures !Less(u, u)
    ensures Less(u, v) && Less(v, w) ==> Less(u, w)
    ensures !Less(u, v) && !Less(v, u) <==> Tied(u, v)
    ensures !(Less(u, v) && Less(v, u))
  {
    hide TextLess;
    TextOrder(u.path, v.path);
    TextOrder(v.path, w.path);
    TextOrder(u.path, w.path);
    TextOrder(u.path, u.path);
    if TextLess(u.path, v.path) && TextLess(v.path, w.path) {
      TextTransitive(u.path, v.path, w.path);
    }
  }

  ghost predicate Sorted(list: seq<Violation>) {
    forall i, j :: 0 <= i < j < |list| ==> !Less(list[j], list[i])
  }

  /** The texts agree up to k; there the first ends, or has the smaller character. */
  ghost predicate PrecedesAt(a: string, b: string, k: nat) {
    && k <= |a| && k < |b| && (forall i :: 0 <= i < k ==> a[i] == b[i])
    && (k == |a| || a[k] < b[k])
  }

  /** One text stands before another: it is a proper prefix, or smaller at the first place where they differ. */
  ghost predicate Precedes(a: string, b: string) {
    exists k :: PrecedesAt(a, b, k)
  }

  lemma {:induction false} TextLessMeans(a: string, b: string)
    ensures TextLess(a, b) <==> Precedes(a, b)
    decreases |b|
  {
    if TextLess(a, b) {
      var k := FirstDifference(a, b);
    }
    forall k | PrecedesAt(a, b, k) ensures TextLess(a, b) {
      DifferenceDecides(a, b, k);
    }
  }

  lemma {:induction false} FirstDifference(a: string, b: string) returns (k: nat)
    requires TextLess(a, b)
    ensures PrecedesAt(a, b, k)
    decreases |b|
  {
    k := 0;
    if a != "" && a[0] == b[0] {
      k := FirstDifference(a[1..], b[1..]);
      k := k + 1;
      assert forall i :: 0 < i < k ==> a[i] == a[1..][i - 1] && b[i] == b[1..][i - 1];
    }
  }

  lemma {:induction false} DifferenceDecides(a: string, b: string, k: nat)
    requires PrecedesAt(a, b, k)
    ensures TextLess(a, b)
    decreases k
  {
    if k > 0 {
      assert a[0] == b[0];
      assert forall i :: 0 <= i < k - 1 ==> a[1..][i] == a[i + 1] && b[1..][i] == b[i + 1];
      DifferenceDecides(a[1..], b[1..], k - 1);
    }
  }

  /** What comes out of the sort: by path, and at one path by offset. */
  lemma SortedMeans(list: seq<Violation>, sorted: seq<Violation>, i: nat, j: nat)
    requires SortsTo(list, sorted) && i < j < |sorted|
    ensures var u, v := sorted[i], sorted[j];
            Precedes(u.path, v.path) || (u.path == v.path && u.position.offset <= v.position.offset)
  {
    var u, v := sorted[i], sorted[j];
    assert !Less(v, u);
    TextOrder(u.path, v.path);
    TextLessMeans(u.path, v.path);
    hide TextLess, Precedes;
  }

  /** What sort.Slice can leave of a list: it is not stable. */
  ghost predicate SortsTo(list: seq<Violation>, sorted: seq<Violation>) {
    Sorted(sorted) && multiset(sorted) == multiset(list)
  }

  /** Tied findings are equal. */
  ghost predicate TiesAreEqual(list: seq<Violation>) {
    forall i, j :: 0 <= i < |list| && 0 <= j < |list| && Tied(list[i], list[j]) ==> list[i] == list[j]
  }

  /** Two tied findings can trade places in a sorted list. */
  lemma TiesTrade(a: seq<Violation>, i: nat, j: nat)
    requires Sorted(a) && i < |a| && j < |a| && Tied(a[i], a[j])
    ensures SortsTo(a, a[i := a[j]][j := a[i]])
    ensures forall k :: 0 <= k < |a| ==> Tied(a[i := a[j]][j := a[i]][k], a[k])
  {
    var b := a[i := a[j]][j := a[i]];
    forall k, l | 0 <= k < l < |b| ensures !Less(b[l], b[k]) {
      assert Tied(b[k], a[k]) && Tied(b[l], a[l]);
      assert !Less(a[l], a[k]);
    }
  }

  lemma LeastComesFirst(a: seq<Violation>, b: seq<Violation>)
    requires a != [] && b != []
    requires Sorted(a) && Sorted(b) && multiset(a) == multiset(b)
    ensures Tied(a[0], b[0])
  {
    hide Less, Tied;
    assert a[0] in multiset(b) && b[0] in multiset(a);
    var i :| 0 <= i < |b| && b[i] == a[0];
    var j :| 0 <= j < |a| && a[j] == b[0];
    LessIsStrictWeakOrder(a[0], b[0], b[0]);
    assert i > 0 ==> !Less(b[i], b[0]);
    assert j > 0 ==> !Less(a[j], a[0]);
    LessIsStrictWeakOrder(a[0], a[0], a[0]);
  }

  lemma SameTail(a: seq<Violation>, b: seq<Violation>)
    requires a != [] && b != [] && multiset(a) == multiset(b) && a[0] == b[0]
    ensures multiset(a[1..]) == multiset(b[1..])
  {
    assert a == [a[0]] + a[1..] && b == [b[0]] + b[1..];
    assert multiset(a[1..]) == multiset(a) - multiset{a[0]};
    assert multiset(b[1..]) == multiset(b) - multiset{b[0]};
  }

  /** Two sorted lists of the same findings are tied place by place. */
  lemma {:induction false} SortedUpToTies(a: seq<Violation>, b: seq<Violation>)
    requires Sorted(a) && Sorted(b) && multiset(a) == multiset(b)
    ensures |a| == |b| && forall i :: 0 <= i < |a| ==> Tied(a[i], b[i])
    decreases |a|
  {
    assert |a| == |multiset(a)| == |multiset(b)| == |b|;
    if a != [] {
      hide Less;
      LeastComesFirst(a, b);
      assert a[0] in multiset(b);
      var j :| 0 <= j < |b| && b[j] == a[0];
      TiesTrade(b, 0, j);
      var c := b[0 := b[j]][j := b[0]];
      SameTail(a, c);
      SortedUpToTies(a[1..], c[1..]);
      forall i | 0 <= i < |a| ensures Tied(a[i], b[i]) {
        if i > 0 {
          assert Tied(a[1..][i - 1], c[1..][i - 1]) && Tied(c[i], b[i]);
        }
      }
    }
  }

  lemma BothThere(list: seq<Violation>, a: seq<Violation>, b: seq<Violation>, i: nat) returns (m: nat, n: nat)
    requires SortsTo(list, a) && SortsTo(list, b) && i < |a| && i < |b| && Tied(a[i], b[i])
    ensures m < |list| && n < |list| && list[m] == a[i] && list[n] == b[i] && Tied(list[m], list[n])
  {
    hide Tied, Less;
    assert a[i] in multiset(list) && b[i] in multiset(list);
    m :| 0 <= m < |list| && list[m] == a[i];
    n :| 0 <= n < |list| && list[n] == b[i];
  }

  function Insert(v: Violation, list: seq<Violation>): seq<Violation> {
    if list == [] || Less(v, list[0]) then [v] + list else [list[0]] + Insert(v, list[1..])
  }

  lemma {:induction false} InsertSorted(v: Violation, list: seq<Violation>)
    requires Sorted(list)
    ensures SortsTo([v] + list, Insert(v, list))
  {
    hide Less, Tied;
    if list == [] {
      assert Insert(v, list) == [v] + list;
    } else if Less(v, list[0]) {
      SmallestFirst(v, list);
    } else {
      InsertSorted(v, list[1..]);
      var rest := Insert(v, list[1..]);
      assert [v] + list == [v] + [list[0]] + list[1..];
      assert multiset([list[0]] + rest) == multiset([v] + list) by {
        assert multiset(rest) == multiset([v] + list[1..]);
      }
      HeadStays(list[0], rest, [v] + list[1..]);
    }
  }

  lemma SmallestFirst(v: Violation, list: seq<Violation>)
    requires list != [] && Sorted(list) && Less(v, list[0])
    ensures Sorted([v] + list)
  {
    hide Less, Tied;
    forall j | 0 <= j < |list| ensures !Less(list[j], v) {
      LessIsStrictWeakOrder(list[j], v, list[0]);
      LessIsStrictWeakOrder(v, list[0], list[j]);
      assert j > 0 ==> !Less(list[j], list[0]);
      LessIsStrictWeakOrder(list[0], list[0], list[0]);
    }
  }

  lemma HeadStays(head: Violation, rest: seq<Violation>, others: seq<Violation>)
    requires Sorted(rest) && multiset(rest) == multiset(others)
    requires forall i :: 0 <= i < |others| ==> !Less(others[i], head)
    ensures Sorted([head] + rest)
  {
    forall j | 0 <= j < |rest| ensures !Less(rest[j], head) {
      assert rest[j] in multiset(others);
    }
  }

  lemma {:induction false} SomeSorted(list: seq<Violation>) returns (sorted: seq<Violation>)
    ensures SortsTo(list, sorted)
  {
    if list == [] {
      sorted := [];
    } else {
      var rest := SomeSorted(list[1..]);
      sorted := Insert(list[0], rest);
      InsertSorted(list[0], rest);
      assert list == [list[0]] + list[1..];
    }
  }

  // ----- what is printed -----

  datatype Line = Line(path: string, line: nat, column: nat)

  /** The line printed for a finding, up to its fixed text. */
  function Print(v: Violation): Line {
    Line(v.path, v.position.line, v.position.column)
  }

  function PrintAll(list: seq<Violation>): (r: seq<Line>)
    ensures |r| == |list|
    ensures forall i :: 0 <= i < |list| ==> r[i] == Print(list[i])
  {
    seq(|list|, i requires 0 <= i < |list| => Print(list[i]))
  }

  ghost predicate SortDetermined(list: seq<Violation>) {
    forall a, b :: SortsTo(list, a) && SortsTo(list, b) ==> a == b
  }

  ghost predicate OutputDetermined(list: seq<Violation>) {
    forall a, b :: SortsTo(list, a) && SortsTo(list, b) ==> PrintAll(a) == PrintAll(b)
  }

  /** Tied findings print alike. */
  ghost predicate TiesPrintAlike(list: seq<Violation>) {
    forall i, j :: 0 <= i < |list| && 0 <= j < |list| && Tied(list[i], list[j]) ==> Print(list[i]) == Print(list[j])
  }

  /** The sorted list is determined exactly when no two findings at one path and offset differ otherwise. */
  lemma SortDeterminedExactly(list: seq<Violation>)
    ensures SortDetermined(list) <==> TiesAreEqual(list)
  {
    hide Less, Tied;
    if TiesAreEqual(list) {
      forall a, b | SortsTo(list, a) && SortsTo(list, b) ensures a == b {
        SortedUpToTies(a, b);
        forall i | 0 <= i < |a| ensures a[i] == b[i] {
          var m, n := BothThere(list, a, b, i);
        }
      }
    } else {
      var i, j :| 0 <= i < |list| && 0 <= j < |list| && Tied(list[i], list[j]) && list[i] != list[j];
      var a, b, k := TwoOrders(list, i, j);
      assert a != b;
    }
  }

  lemma TwoOrders(list: seq<Violation>, i: nat, j: nat) returns (a: seq<Violation>, b: seq<Violation>, k: nat)
    requires i < |list| && j < |list| && Tied(list[i], list[j])
    ensures SortsTo(list, a) && SortsTo(list, b)
    ensures k < |a| == |b| && a[k] == list[i] && b[k] == list[j]
  {
    hide Less, Tied;
    a := SomeSorted(list);
    assert list[i] in multiset(a) && list[j] in multiset(a);
    k :| 0 <= k < |a| && a[k] == list[i];
    var l :| 0 <= l < |a| && a[l] == list[j];
    TiesTrade(a, k, l);
    b := a[k := a[l]][l := a[k]];
  }

  /** The printed report is determined exactly when findings at one path and offset print alike. */
  lemma OutputDeterminedExactly(list: seq<Violation>)
    ensures OutputDetermined(list) <==> TiesPrintAlike(list)
  {
    hide Less, Tied;
    if TiesPrintAlike(list) {
      forall a, b | SortsTo(list, a) && SortsTo(list, b) ensures PrintAll(a) == PrintAll(b) {
        SortedUpToTies(a, b);
        forall i | 0 <= i < |a| ensures PrintAll(a)[i] == PrintAll(b)[i] {
          var m, n := BothThere(list, a, b, i);
        }
      }
    } else {
      var i, j :| 0 <= i < |list| && 0 <= j < |list| && Tied(list[i], list[j]) && Print(list[i]) != Print(list[j]);
      var a, b, k := TwoOrders(list, i, j);
      assert PrintAll(a)[k] != PrintAll(b)[k];
    }
  }

  // ----- the files of a run -----

  /** A parsed file under the path that is displayed for it, relative to the root it was found under. */
  datatype File = File(path: string, tree: Node)

  function RunReport(files: seq<File>): seq<Violation> {
    if files == [] then []
    else RunReport(files[..|files| - 1]) + Report(files[|files| - 1].path, 0, files[|files| - 1].tree)
  }

  /** Under one root no two files are displayed alike, and in a parsed file offsets grow. */
  ghost predicate OneRoot(files: seq<File>) {
    && (forall i, j :: 0 <= i < j < |files| ==> files[i].path != files[j].path)
    && forall i :: 0 <= i < |files| ==> OffsetsGrow(files[i].tree)
  }

  /** Offsets that grow in source order, as a parsed file's do. */
  ghost predicate OffsetsGrow(file: Node) {
    forall p, q :: IsFinding(file, p) && IsFinding(file, q) && Before(p, q) ==>
      At(file, p).value.position.offset < At(file, q).value.position.offset
  }

  /** One file's findings come out of the walk already sorted, no two at one offset. */
  lemma FileReportIsSorted(path: string, file: Node)
    requires OffsetsGrow(file)
    ensures var report := Report(path, 0, file);
            && Sorted(report)
            && (forall i, j :: 0 <= i < j < |report| ==> !Tied(report[i], report[j]))
            && forall i :: 0 <= i < |report| ==> report[i].path == path
  {
    VisitorMeetsSpecification(path, file);
    var report, places := Report(path, 0, file), Findings(0, file);
    forall i, j | 0 <= i < j < |report| ensures Less(report[i], report[j]) {
      assert places[i] in places && places[j] in places;
      assert Before(places[i], places[j]);
    }
    forall i, j | 0 <= i < j < |report| ensures !Less(report[j], report[i]) && !Tied(report[i], report[j]) {
      LessIsStrictWeakOrder(report[i], report[j], report[j]);
    }
  }

  ghost predicate From(files: seq<File>, v: Violation) {
    exists k :: 0 <= k < |files| && files[k].path == v.path
  }

  lemma {:induction false} RunPaths(files: seq<File>)
    ensures forall i :: 0 <= i < |RunReport(files)| ==> From(files, RunReport(files)[i])
  {
    if files != [] {
      var front, last := files[..|files| - 1], files[|files| - 1];
      RunPaths(front);
      VisitorMeetsSpecification(last.path, last.tree);
      var report := Report(last.path, 0, last.tree);
      assert forall v :: From(front, v) ==> From(files, v) by {
        forall v | From(front, v) ensures From(files, v) {
          var k :| 0 <= k < |front| && front[k].path == v.path;
          assert files[k].path == v.path;
        }
      }
      assert forall i :: 0 <= i < |report| ==> report[i].path == files[|files| - 1].path;
      hide Report, From;
      assert forall i :: 0 <= i < |report| ==> From(files, report[i]) by {
        forall i | 0 <= i < |report| ensures From(files, report[i]) {
          FromLast(files, report[i]);
        }
      }
    }
  }

  lemma FromLast(files: seq<File>, v: Violation)
    requires files != [] && v.path == files[|files| - 1].path
    ensures From(files, v)
  {
  }

  lemma {:induction false} OneRootHasNoTies(files: seq<File>)
    requires OneRoot(files)
    ensures forall i, j :: 0 <= i < j < |RunReport(files)| ==> !Tied(RunReport(files)[i], RunReport(files)[j])
  {
    if files != [] {
      var front, last := files[..|files| - 1], files[|files| - 1];
      OneRootHasNoTies(front);
      RunPaths(front);
      FileReportIsSorted(last.path, last.tree);
    }
  }

  /** The findings under one root are sorted and printed in one way only. */
  lemma OneRootIsDetermined(files: seq<File>)
    requires OneRoot(files)
    ensures SortDetermined(RunReport(files)) && OutputDetermined(RunReport(files))
  {
    OneRootHasNoTies(files);
    SortDeterminedExactly(RunReport(files));
    hide Tied;
    var report := RunReport(files);
    assert TiesAreEqual(report) by {
      forall i, j | 0 <= i < |report| && 0 <= j < |report| && Tied(report[i], report[j]) ensures report[i] == report[j] {
        if i != j {
          TiedBack(report[i], report[j]);
        }
      }
    }
  }

  lemma TiedBack(u: Violation, v: Violation)
    ensures Tied(u, v) <==> Tied(v, u)
  {
  }

  lemma {:induction false} OnceOnly(list: seq<Violation>, v: Violation)
    requires forall i, j :: 0 <= i < j < |list| ==> list[i] != list[j]
    ensures multiset(list)[v] <= 1
  {
    if list != [] {
      var front, last := list[..|list| - 1], list[|list| - 1];
      assert list == front + [last];
      OnceOnly(front, v);
      if v == last {
        assert v !in front;
      }
    }
  }

  lemma TwiceThere(list: seq<Violation>, i: nat, j: nat)
    requires i < j < |list| && list[i] == list[j]
    ensures multiset(list)[list[i]] >= 2
  {
    assert list == list[..j] + [list[j]] + list[j + 1..];
    assert list[..j][i] == list[i];
  }

  /** The findings under one root come file by file in the order of their paths, and in each file by growing offset. */
  lemma OneRootOrder(files: seq<File>, sorted: seq<Violation>, i: nat, j: nat)
    requires OneRoot(files) && SortsTo(RunReport(files), sorted) && i < j < |sorted|
    ensures var u, v := sorted[i], sorted[j];
            Precedes(u.path, v.path) || (u.path == v.path && u.position.offset < v.position.offset)
  {
    var report := RunReport(files);
    SortedMeans(report, sorted, i, j);
    OneRootHasNoTies(files);
    OneRootIsDetermined(files);
    SortDeterminedExactly(report);
    hide RunReport, Less, OneRoot, Precedes, SortDetermined;
    if Tied(sorted[i], sorted[j]) {
      assert sorted[i] in multiset(report) && sorted[j] in multiset(report);
      assert sorted[i] == sorted[j];
      OnceOnly(report, sorted[i]);
      TwiceThere(sorted, i, j);
      assert false;
    }
  }

  /** `package p;func f() { if a { if b {} } }`, or the same with a line break for the semicolon. */
  function Sample(filename: string, line: nat, column: nat): File
    requires column >= 7
  {
    var inner := If(Position(filename, 28, line, column), None, Other([]), Other([]), None);
    var outer := If(Position(filename, 21, line, column - 7), None, Other([]), Other([inner]), None);
    File("x.go", Other([FuncDecl([], Other([outer]))]))
  }

  /**
   Two roots, each with one of these as its x.go: both findings are displayed under one path and offset on different
   lines, and either can be printed first.
   */
  lemma TwoRootsAreNot()
    ensures var report := RunReport([Sample("a/x.go", 1, 29), Sample("b/x.go", 2, 19)]);
            && !SortDetermined(report) && !OutputDetermined(report)
            && SortsTo(report, report) && PrintAll(report) == [Line("x.go", 1, 29), Line("x.go", 2, 19)]
            && |report| == 2 && SortsTo(report, [report[1], report[0]])
            && PrintAll([report[1], report[0]]) == [Line("x.go", 2, 19), Line("x.go", 1, 29)]
  {
    var u, v := Violation("x.go", Position("a/x.go", 28, 1, 29)), Violation("x.go", Position("b/x.go", 28, 2, 19));
    TwoSamples();
    hide Report, Sample, RunReport;
    TwoTied(u, v);
  }

  lemma TwoSamples()
    ensures RunReport([Sample("a/x.go", 1, 29), Sample("b/x.go", 2, 19)])
         == [Violation("x.go", Position("a/x.go", 28, 1, 29)), Violation("x.go", Position("b/x.go", 28, 2, 19))]
  {
    SampleReport("a/x.go", 1, 29);
    SampleReport("b/x.go", 2, 19);
    TwoFiles(Sample("a/x.go", 1, 29), Sample("b/x.go", 2, 19));
    hide Report, RunReport;
  }

  lemma TwoTied(u: Violation, v: Violation)
    requires Tied(u, v) && Print(u) != Print(v)
    ensures SortsTo([u, v], [u, v]) && SortsTo([u, v], [v, u])
    ensures !SortDetermined([u, v]) && !OutputDetermined([u, v])
    ensures PrintAll([u, v]) == [Print(u), Print(v)] && PrintAll([v, u]) == [Print(v), Print(u)]
  {
    LessIsStrictWeakOrder(u, v, v);
    hide Less;
    assert [u, v] == [u] + [v] && [v, u] == [v] + [u];
    assert SortsTo([u, v], [u, v]) && SortsTo([u, v], [v, u]);
    assert [u, v][0] != [v, u][0] && PrintAll([u, v])[0] != PrintAll([v, u])[0];
  }

  lemma TwoFiles(a: File, b: File)
    ensures RunReport([a, b]) == Report(a.path, 0, a.tree) + Report(b.path, 0, b.tree)
  {
    hide Report;
    assert [a, b][..1] == [a] && [a][..0] == [];
    assert RunReport([a]) == [] + Report(a.path, 0, a.tree);
  }

  lemma SampleReport(filename: string, line: nat, column: nat)
    requires column >= 7
    ensures Report("x.go", 0, Sample(filename, line, column).tree) == [Violation("x.go", Position(filename,
                   28, line, column))]
  {
    var inner := If(Position(filename, 28, line, column), None, Other([]), Other([]), None);
    var outer := If(Position(filename, 21, line, column - 7), None, Other([]), Other([inner]), None);
    assert Report("x.go", 1, Other([])) == [];
    assert Report("x.go", 2, Other([])) == [];
    assert Report("x.go", 1, inner) == [Violation("x.go", inner.position)];
    assert ReportAll("x.go", 1, [inner]) == Report("x.go", 1, inner) + ReportAll("x.go", 1, []);
    assert Report("x.go", 0, outer) == [Violation("x.go", inner.position)];
    assert ReportAll("x.go", 0, [outer]) == Report("x.go", 0, outer) + ReportAll("x.go", 0, []);
    assert ReportAll("x.go", 0, [FuncDecl([], Other([outer]))])
        == Report("x.go", 0, FuncDecl([], Other([outer]))) + ReportAll("x.go", 0, []);
  }
}
