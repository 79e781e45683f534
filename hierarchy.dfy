/** Game-object hierarchies as values, and the structural queries the tool
    runs on them: addresses of nodes, the pre-order renderer traversal of
    `GetComponentsInChildren<Renderer>(true)`, name paths, and the path lookup
    of `Transform.Find`. */
module Hierarchy {
  import opened Paths

  datatype Option<+T> = None | Some(value: T)

  /** A material asset. A slot holding `None` is a null material. */
  type Material = nat

  /** A Renderer component: its shared material slots, in slot order. */
  datatype Renderer = Renderer(sharedMaterials: seq<Option<Material>>)

  /** A game object: its name, its children in sibling order, the Renderer
      attached to it (if any) and whether it carries a VRChat avatar
      descriptor. */
  datatype Node = Node(name: string, children: seq<Node>, renderer: Option<Renderer>, hasDescriptor: bool)

  /** A node inside a hierarchy is identified by the child indices that lead
      to it from the hierarchy root; the root itself is `[]`. */
  type Address = seq<nat>

  predicate ValidAddress(t: Node, a: Address)
    decreases a
  {
    a == [] || (a[0] < |t.children| && ValidAddress(t.children[a[0]], a[1..]))
  }

  function At(t: Node, a: Address): Node
    requires ValidAddress(t, a)
    decreases a
  {
    if a == [] then t else At(t.children[a[0]], a[1..])
  }

  /** `transform.parent`: the root of a hierarchy has none. */
  function Parent(a: Address): Option<Address>
  {
    if a == [] then None else Some(a[..|a| - 1])
  }

  predicate HasRenderer(t: Node, a: Address)
  {
    ValidAddress(t, a) && At(t, a).renderer.Some?
  }

  /** There is a node at `a` and it is called `name`. */
  predicate NamedAt(t: Node, a: Address, name: string)
  {
    ValidAddress(t, a) && At(t, a).name == name
  }

  /** `sharedMaterials` of the renderer at `a`. */
  function SlotsAt(t: Node, a: Address): seq<Option<Material>>
    requires HasRenderer(t, a)
  {
    At(t, a).renderer.value.sharedMaterials
  }

  lemma {:induction false} AtConcat(t: Node, a: Address, b: Address)
    requires ValidAddress(t, a)
    ensures ValidAddress(t, a + b) <==> ValidAddress(At(t, a), b)
    ensures ValidAddress(t, a + b) ==> At(t, a + b) == At(At(t, a), b)
    decreases a
  {
    if a == [] {
      assert a + b == b;
    } else {
      assert (a + b)[0] == a[0] && (a + b)[1..] == a[1..] + b;
      AtConcat(t.children[a[0]], a[1..], b);
    }
  }

  lemma AtChild(t: Node, a: Address, i: nat)
    requires ValidAddress(t, a) && i < |At(t, a).children|
    ensures ValidAddress(t, a + [i]) && At(t, a + [i]) == At(t, a).children[i]
  {
    AtConcat(t, a, [i]);
    assert ValidAddress(At(t, a), [i]) by { assert [i][1..] == []; }
  }

  lemma {:induction false} PrefixValid(t: Node, a: Address, k: nat)
    requires ValidAddress(t, a) && k <= |a|
    ensures ValidAddress(t, a[..k])
    decreases a
  {
    if k > 0 {
      assert a[..k][0] == a[0] && a[..k][1..] == a[1..][..k - 1];
      PrefixValid(t.children[a[0]], a[1..], k - 1);
    }
  }

  // ----- the set of all nodes -----

  function Shift(p: Address, s: set<Address>): set<Address>
  {
    set a | a in s :: p + a
  }

  lemma ShiftMember(p: Address, s: set<Address>, a: Address)
    ensures a in Shift(p, s) <==> (p <= a && a[|p|..] in s)
  {
    if a in Shift(p, s) {
      var b :| b in s && a == p + b;
      assert a[|p|..] == b;
    }
    if p <= a && a[|p|..] in s {
      assert a == p + a[|p|..];
    }
  }

  /** Every node of `t`, by address. */
  function Nodes(t: Node): set<Address>
    decreases t, |t.children| + 1
  {
    {[]} + ChildNodes(t, |t.children|)
  }

  /** The nodes below the first `i` children of the root of `t`. */
  function ChildNodes(t: Node, i: nat): set<Address>
    requires i <= |t.children|
    decreases t, i
  {
    if i == 0 then {} else ChildNodes(t, i - 1) + Shift([i - 1], Nodes(t.children[i - 1]))
  }

  lemma {:induction false} ChildNodesMember(t: Node, i: nat, a: Address)
    requires i <= |t.children|
    ensures a in ChildNodes(t, i) <==> (a != [] && a[0] < i && a[1..] in Nodes(t.children[a[0]]))
    decreases i
  {
    if i > 0 {
      ChildNodesMember(t, i - 1, a);
      ShiftMember([i - 1], Nodes(t.children[i - 1]), a);
      if a != [] {
        assert [i - 1] <= a <==> a[0] == i - 1;
      }
    }
  }

  /** The node set is exactly the set of valid addresses. */
  lemma {:induction false} NodesValid(t: Node, a: Address)
    ensures a in Nodes(t) <==> ValidAddress(t, a)
    decreases a
  {
    if a != [] {
      ChildNodesMember(t, |t.children|, a);
      if a[0] < |t.children| {
        NodesValid(t.children[a[0]], a[1..]);
      }
    }
  }

  /** The subtree at `a`, addressed from the root of `t`, is part of `t`. */
  lemma SubtreeNodes(t: Node, a: Address)
    requires ValidAddress(t, a)
    ensures Shift(a, Nodes(At(t, a))) <= Nodes(t)
  {
    forall b | b in Shift(a, Nodes(At(t, a))) ensures b in Nodes(t) {
      ShiftMember(a, Nodes(At(t, a)), b);
      var rest := b[|a|..];
      assert b == a + rest;
      NodesValid(At(t, a), rest);
      AtConcat(t, a, rest);
      NodesValid(t, b);
    }
  }

  lemma ShiftUnion(p: Address, s: set<Address>, r: set<Address>)
    ensures Shift(p, s + r) == Shift(p, s) + Shift(p, r)
  {
  }

  lemma ShiftShift(p: Address, q: Address, s: set<Address>)
    ensures Shift(p, Shift(q, s)) == Shift(p + q, s)
  {
    forall a | a in Shift(p + q, s) ensures a in Shift(p, Shift(q, s)) {
      var b :| b in s && a == p + q + b;
      assert q + b in Shift(q, s);
      assert a == p + (q + b);
    }
    forall a | a in Shift(p, Shift(q, s)) ensures a in Shift(p + q, s) {
      var c :| c in Shift(q, s) && a == p + c;
      var b :| b in s && c == q + b;
      assert a == p + q + b;
    }
  }

  lemma {:induction false} ChildNodesOfChildren(t: Node, u: Node, i: nat)
    requires t.children == u.children && i <= |t.children|
    ensures ChildNodes(t, i) == ChildNodes(u, i)
  {
    if i > 0 {
      ChildNodesOfChildren(t, u, i - 1);
    }
  }

  lemma ShiftEmpty(s: set<Address>)
    ensures Shift([], s) == s
  {
    forall a | a in s ensures a in Shift([], s) {
      assert [] + a == a;
    }
    forall a | a in Shift([], s) ensures a in s {
      var b :| b in s && a == [] + b;
      assert [] + b == b;
    }
  }

  /** Before any child is finished only the node itself is visited. */
  lemma VisitedNone(a: Address, node: Node)
    ensures Visited(a, node, 0) == {a}
  {
  }

  /** Two nodes with the same children have the same node set. */
  lemma NodesOfChildren(t: Node, u: Node)
    requires t.children == u.children
    ensures Nodes(t) == Nodes(u)
  {
    ChildNodesOfChildren(t, u, |t.children|);
  }

  /** The node at `a` and the subtrees of its first `i` children, addressed
      from the hierarchy root: what a depth-first walk from `a` has reached
      after finishing `i` children. */
  function Visited(a: Address, node: Node, i: nat): set<Address>
    requires i <= |node.children|
  {
    {a} + Shift(a, ChildNodes(node, i))
  }

  lemma VisitedAll(a: Address, node: Node)
    ensures Visited(a, node, |node.children|) == Shift(a, Nodes(node))
  {
    ShiftUnion(a, {[]}, ChildNodes(node, |node.children|));
    assert Shift(a, {[]}) == {a} by {
      assert a + [] == a;
    }
  }

  /** Finishing child `i` adds exactly that child's subtree, which the walk
      had not reached before. */
  lemma VisitedStep(a: Address, node: Node, i: nat)
    requires i < |node.children|
    ensures Visited(a, node, i + 1) == Visited(a, node, i) + Shift(a + [i], Nodes(node.children[i]))
    ensures Visited(a, node, i) !! Shift(a + [i], Nodes(node.children[i]))
    ensures Shift(a + [i], Nodes(node.children[i])) <= Shift(a, Nodes(node))
  {
    var sub := Nodes(node.children[i]);
    ShiftUnion(a, ChildNodes(node, i), Shift([i], sub));
    ShiftShift(a, [i], sub);
    forall b | b in Shift(a + [i], sub)
      ensures b !in Visited(a, node, i) && b in Shift(a, Nodes(node))
    {
      ShiftMember(a + [i], sub, b);
      assert b[|a|] == i && |b| > |a|;
      ShiftMember(a, ChildNodes(node, i), b);
      if b in Shift(a, ChildNodes(node, i)) {
        ChildNodesMember(node, i, b[|a|..]);
      }
      ShiftMember(a, Nodes(node), b);
      ChildNodesMember(node, |node.children|, b[|a|..]);
      assert b[|a|..][1..] == b[|a| + 1..];
      assert b[|a| + 1..] == b[|a + [i]|..];
    }
  }

  // ----- pre-order renderer traversal -----

  function Lift(i: nat, s: seq<Address>): (r: seq<Address>)
    ensures |r| == |s|
    ensures forall k :: 0 <= k < |s| ==> r[k] == [i] + s[k]
  {
    seq(|s|, k requires 0 <= k < |s| => [i] + s[k])
  }

  /** `GetComponentsInChildren<Renderer>(true)`: the renderers of the whole
      hierarchy, inactive ones included, root first, then each child's
      subtree in sibling order (depth-first pre-order). */
  function Renderers(t: Node): seq<Address>
    decreases t, |t.children| + 1
  {
    (if t.renderer.Some? then [[]] else []) + ChildRenderers(t, 0)
  }

  function ChildRenderers(t: Node, i: nat): seq<Address>
    requires i <= |t.children|
    decreases t, |t.children| - i
  {
    if i == |t.children| then [] else Lift(i, Renderers(t.children[i])) + ChildRenderers(t, i + 1)
  }

  /** Every address the traversal yields carries a renderer. */
  lemma {:induction false} RenderersHaveRenderer(t: Node)
    ensures forall a :: a in Renderers(t) ==> HasRenderer(t, a)
    ensures forall k :: 0 <= k < |Renderers(t)| ==> HasRenderer(t, Renderers(t)[k])
    decreases t, |t.children| + 1
  {
    ChildRenderersHaveRenderer(t, 0);
  }

  lemma {:induction false} ChildRenderersHaveRenderer(t: Node, i: nat)
    requires i <= |t.children|
    ensures forall a :: a in ChildRenderers(t, i) ==> HasRenderer(t, a)
    decreases t, |t.children| - i
  {
    if i < |t.children| {
      var sub := Renderers(t.children[i]);
      RenderersHaveRenderer(t.children[i]);
      ChildRenderersHaveRenderer(t, i + 1);
      forall a | a in Lift(i, sub) ensures HasRenderer(t, a) {
        var k :| 0 <= k < |sub| && Lift(i, sub)[k] == a;
        assert sub[k] in sub;
        assert a[0] == i && a[1..] == sub[k];
      }
    }
  }

  /** No node of `t` carries a renderer. */
  predicate RendererFree(t: Node)
  {
    t.renderer.None? && forall i :: 0 <= i < |t.children| ==> RendererFree(t.children[i])
  }

  /** The traversal finds nothing exactly when no node carries a renderer. */
  lemma {:induction false} RendererFreeIff(t: Node)
    ensures RendererFree(t) <==> Renderers(t) == []
    decreases t, |t.children| + 1
  {
    ChildRendererFreeIff(t, 0);
  }

  lemma {:induction false} ChildRendererFreeIff(t: Node, i: nat)
    requires i <= |t.children|
    ensures (forall j :: i <= j < |t.children| ==> RendererFree(t.children[j])) <==> ChildRenderers(t, i) == []
    decreases t, |t.children| - i
  {
    if i < |t.children| {
      RendererFreeIff(t.children[i]);
      ChildRendererFreeIff(t, i + 1);
      assert |ChildRenderers(t, i)| == |Renderers(t.children[i])| + |ChildRenderers(t, i + 1)|;
    }
  }

  // ----- names and Transform.Find -----

  /** The names on the way from the root (excluded) down to `a` (included). */
  function NamesTo(t: Node, a: Address): (names: seq<string>)
    requires ValidAddress(t, a)
    ensures |names| == |a|
    decreases a
  {
    if a == [] then [] else [t.children[a[0]].name] + NamesTo(t.children[a[0]], a[1..])
  }

  /** Index of the first node called `name`, or `|cs|` when there is none. */
  function FirstNamed(cs: seq<Node>, name: string): (k: nat)
    ensures k <= |cs|
    ensures k < |cs| ==> cs[k].name == name
    ensures forall j :: 0 <= j < k ==> cs[j].name != name
  {
    if cs == [] then 0
    else if cs[0].name == name then 0
    else 1 + FirstNamed(cs[1..], name)
  }

  /** Follows a path given as names: at each step the FIRST child with the
      next name, without trying later siblings of the same name. */
  function FollowNames(t: Node, names: seq<string>): (r: Option<Address>)
    ensures r.Some? ==> ValidAddress(t, r.value) && NamesTo(t, r.value) == names
    decreases names
  {
    if names == [] then Some([])
    else
      var k := FirstNamed(t.children, names[0]);
      if k == |t.children| then None
      else match FollowNames(t.children[k], names[1..])
        case None => None
        case Some(a) =>
          assert ([k] + a)[0] == k && ([k] + a)[1..] == a;
          assert names == [names[0]] + names[1..];
          Some([k] + a)
  }

  /** `transform.Find(path)`: the empty path stands for the transform itself;
      any other path is split at '/' and followed name by name. */
  function Find(t: Node, path: string): (r: Option<Address>)
    ensures r.Some? ==> ValidAddress(t, r.value)
  {
    if path == "" then Some([]) else FollowNames(t, Split(path))
  }

  /** Looking up a joined name path is following the names themselves, unless
      the only name is the empty one (whose join is the empty path). */
  lemma FindJoin(t: Node, names: seq<string>)
    requires AllPlain(names) && names != [""]
    ensures Find(t, Join(names)) == FollowNames(t, names)
  {
    if |names| >= 2 {
      JoinNonEmpty(names);
      SplitJoin(names);
    } else if |names| == 1 {
      assert Join(names) == names[0] != "";
      SplitJoin(names);
    }
  }

  // ----- hierarchies that differ only in their materials -----

  /** `t` and `u` differ at most in the materials their renderers hold. */
  predicate SameShape(t: Node, u: Node)
  {
    && t.name == u.name
    && t.hasDescriptor == u.hasDescriptor
    && t.renderer.Some? == u.renderer.Some?
    && |t.children| == |u.children|
    && forall i :: 0 <= i < |t.children| ==> SameShape(t.children[i], u.children[i])
  }

  lemma {:induction false} SameShapeRefl(t: Node)
    ensures SameShape(t, t)
  {
    forall i | 0 <= i < |t.children| ensures SameShape(t.children[i], t.children[i]) {
      SameShapeRefl(t.children[i]);
    }
  }

  lemma {:induction false} SameShapeTrans(t: Node, u: Node, v: Node)
    requires SameShape(t, u) && SameShape(u, v)
    ensures SameShape(t, v)
  {
    forall i | 0 <= i < |t.children| ensures SameShape(t.children[i], v.children[i]) {
      SameShapeTrans(t.children[i], u.children[i], v.children[i]);
    }
  }

  lemma {:induction false} SameShapeAt(t: Node, u: Node, a: Address)
    requires SameShape(t, u) && ValidAddress(t, a)
    ensures ValidAddress(u, a) && SameShape(At(t, a), At(u, a))
    decreases a
  {
    if a != [] {
      SameShapeAt(t.children[a[0]], u.children[a[0]], a[1..]);
    }
  }

  lemma {:induction false} SameShapeValid(t: Node, u: Node, a: Address)
    requires SameShape(t, u)
    ensures ValidAddress(t, a) <==> ValidAddress(u, a)
    decreases a
  {
    if a != [] && a[0] < |t.children| {
      SameShapeValid(t.children[a[0]], u.children[a[0]], a[1..]);
    }
  }

  lemma SameShapeNodes(t: Node, u: Node)
    requires SameShape(t, u)
    ensures Nodes(t) == Nodes(u)
  {
    forall a ensures a in Nodes(t) <==> a in Nodes(u) {
      NodesValid(t, a);
      NodesValid(u, a);
      SameShapeValid(t, u, a);
    }
  }

  lemma {:induction false} SameShapeRenderers(t: Node, u: Node)
    requires SameShape(t, u)
    ensures Renderers(t) == Renderers(u)
    decreases t, |t.children| + 1
  {
    SameShapeChildRenderers(t, u, 0);
  }

  lemma {:induction false} SameShapeChildRenderers(t: Node, u: Node, i: nat)
    requires SameShape(t, u) && i <= |t.children|
    ensures ChildRenderers(t, i) == ChildRenderers(u, i)
    decreases t, |t.children| - i
  {
    if i < |t.children| {
      SameShapeRenderers(t.children[i], u.children[i]);
      SameShapeChildRenderers(t, u, i + 1);
    }
  }

  lemma {:induction false} SameNamesFirstNamed(cs: seq<Node>, ds: seq<Node>, name: string)
    requires |cs| == |ds| && forall i :: 0 <= i < |cs| ==> cs[i].name == ds[i].name
    ensures FirstNamed(cs, name) == FirstNamed(ds, name)
  {
    if cs != [] && cs[0].name != name {
      SameNamesFirstNamed(cs[1..], ds[1..], name);
    }
  }

  lemma {:induction false} SameShapeFollow(t: Node, u: Node, names: seq<string>)
    requires SameShape(t, u)
    ensures FollowNames(t, names) == FollowNames(u, names)
    decreases names
  {
    if names != [] {
      SameNamesFirstNamed(t.children, u.children, names[0]);
      var k := FirstNamed(t.children, names[0]);
      if k < |t.children| {
        SameShapeFollow(t.children[k], u.children[k], names[1..]);
      }
    }
  }

  lemma SameShapeFind(t: Node, u: Node, path: string)
    requires SameShape(t, u)
    ensures Find(t, path) == Find(u, path)
  {
    if path != "" {
      SameShapeFollow(t, u, Split(path));
    }
  }

  /** The hierarchy `t` with the renderer at `a` given the slots `ms`. */
  function WithMaterials(t: Node, a: Address, ms: seq<Option<Material>>): Node
    requires HasRenderer(t, a)
    decreases a
  {
    if a == [] then t.(renderer := Some(Renderer(ms)))
    else t.(children := t.children[a[0] := WithMaterials(t.children[a[0]], a[1..], ms)])
  }

  /** Replacing a renderer's slots changes nothing else: the result has the
      same shape, `a` holds `ms` and every other renderer keeps its slots. */
  lemma {:induction false} WithMaterialsEffect(t: Node, a: Address, ms: seq<Option<Material>>, b: Address)
    requires HasRenderer(t, a) && HasRenderer(t, b)
    ensures SameShape(t, WithMaterials(t, a, ms))
    ensures HasRenderer(WithMaterials(t, a, ms), b)
    ensures SlotsAt(WithMaterials(t, a, ms), b) == if b == a then ms else SlotsAt(t, b)
    decreases a
  {
    var r := WithMaterials(t, a, ms);
    if a == [] {
      SameShapeRefl(t);
      forall i | 0 <= i < |t.children| ensures SameShape(t.children[i], r.children[i]) {
        SameShapeRefl(t.children[i]);
      }
      if b != [] {
        assert At(r, b) == At(t, b);
      }
    } else {
      var c := t.children[a[0]];
      if b != [] && b[0] == a[0] {
        WithMaterialsEffect(c, a[1..], ms, b[1..]);
        assert b == a <==> b[1..] == a[1..] by {
          if b[1..] == a[1..] { assert b == [b[0]] + b[1..] && a == [a[0]] + a[1..]; }
        }
      } else {
        assert HasRenderer(c, a[1..]);
        WithMaterialsEffect(c, a[1..], ms, a[1..]);
        if b != [] {
          assert r.children[b[0]] == t.children[b[0]];
        }
      }
      forall i | 0 <= i < |t.children| ensures SameShape(t.children[i], r.children[i]) {
        if i == a[0] {
          assert HasRenderer(c, a[1..]);
          WithMaterialsEffect(c, a[1..], ms, a[1..]);
        } else {
          SameShapeRefl(t.children[i]);
        }
      }
    }
  }

  /** Writing back the slots a renderer already has changes nothing. */
  lemma {:induction false} WithMaterialsSame(t: Node, a: Address)
    requires HasRenderer(t, a)
    ensures WithMaterials(t, a, SlotsAt(t, a)) == t
    decreases a
  {
    if a != [] {
      WithMaterialsSame(t.children[a[0]], a[1..]);
      assert t.children[a[0] := t.children[a[0]]] == t.children;
    }
  }

  /** A second write to the same renderer replaces the first. */
  lemma {:induction false} WithMaterialsTwice(t: Node, a: Address, ms: seq<Option<Material>>, ms': seq<Option<Material>>)
    requires HasRenderer(t, a)
    ensures HasRenderer(WithMaterials(t, a, ms), a)
    ensures WithMaterials(WithMaterials(t, a, ms), a, ms') == WithMaterials(t, a, ms')
    decreases a
  {
    WithMaterialsEffect(t, a, ms, a);
    if a != [] {
      WithMaterialsTwice(t.children[a[0]], a[1..], ms, ms');
    }
  }
}
