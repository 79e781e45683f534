/** Matching a renderer of a donor prefab with a renderer of a target
    hierarchy: first by the donor's name path below the prefab root, then,
    failing that, by the first renderer of the same name. The creator and the
    preview generator each carry a copy of this code; both copies are this
    module. */
module Correspondence {
  import opened Paths
  import opened Hierarchy

  // ----- the relative path -----

  /** How far up the walk from `child` goes: it stops at `parent` when that
      lies on the way up, and otherwise at the root. */
  function StopDepth(child: Address, parent: Address): (d: nat)
    ensures d <= |child|
  {
    if parent <= child then |parent| else 0
  }

  /** The names the walk collects, root-to-leaf: those of the nodes below the
      stop point down to `child` itself. */
  function RelativeNames(t: Node, child: Address, parent: Address): (names: seq<string>)
    requires ValidAddress(t, child)
    ensures |names| == |child| - StopDepth(child, parent)
  {
    NamesTo(t, child)[StopDepth(child, parent)..]
  }

  function Reverse<T>(s: seq<T>): (r: seq<T>)
    ensures |r| == |s|
  {
    if s == [] then [] else [s[|s| - 1]] + Reverse(s[..|s| - 1])
  }

  lemma ReverseSnoc<T>(s: seq<T>, x: T)
    ensures Reverse(s + [x]) == [x] + Reverse(s)
  {
    assert (s + [x])[..|s|] == s;
  }

  lemma {:induction false} ReverseReverse<T>(s: seq<T>)
    ensures Reverse(Reverse(s)) == s
  {
    if s != [] {
      var init := s[..|s| - 1];
      ReverseReverse(init);
      calc {
        Reverse(Reverse(s));
        Reverse([s[|s| - 1]] + Reverse(init));
        { ReverseCons(s[|s| - 1], Reverse(init)); }
        Reverse(Reverse(init)) + [s[|s| - 1]];
        init + [s[|s| - 1]];
        s;
      }
    }
  }

  lemma {:induction false} ReverseCons<T>(x: T, s: seq<T>)
    ensures Reverse([x] + s) == Reverse(s) + [x]
    decreases |s|
  {
    if s != [] {
      var last := s[|s| - 1];
      assert ([x] + s)[..|s|] == [x] + s[..|s| - 1];
      ReverseCons(x, s[..|s| - 1]);
    }
  }

  /** The `i`-th name on the way to `a` is the name of the node `i + 1` steps
      down. */
  lemma {:induction false} NamesToAt(t: Node, a: Address, k: nat)
    requires ValidAddress(t, a) && 1 <= k <= |a|
    ensures ValidAddress(t, a[..k]) && NamesTo(t, a)[k - 1] == At(t, a[..k]).name
    decreases a
  {
    PrefixValid(t, a, k);
    var c := t.children[a[0]];
    assert a[..k][0] == a[0] && a[..k][1..] == a[1..][..k - 1];
    if k > 1 {
      NamesToAt(c, a[1..], k - 1);
    }
  }

  /** The names on the way to `p + b` are those to `p`, then those from `p`
      down to `p + b`. */
  lemma {:induction false} NamesToConcat(t: Node, p: Address, b: Address)
    requires ValidAddress(t, p) && ValidAddress(At(t, p), b)
    ensures ValidAddress(t, p + b)
    ensures NamesTo(t, p + b) == NamesTo(t, p) + NamesTo(At(t, p), b)
    decreases p
  {
    AtConcat(t, p, b);
    if p != [] {
      assert (p + b)[0] == p[0] && (p + b)[1..] == p[1..] + b;
      NamesToConcat(t.children[p[0]], p[1..], b);
    } else {
      assert p + b == b;
    }
  }

  /** `GetRelativePath`: walks up from `child`, collecting names, until it
      reaches `parent` or a node without a parent; then reverses the list in
      place and joins it with '/'. */
  method GetRelativePath(t: Node, child: Address, parent: Address) returns (path: string)
    requires ValidAddress(t, child)
    ensures path == Join(RelativeNames(t, child, parent))
  {
    var names: seq<string> := [];
    var current := child;
    while current != parent && current != []
      invariant current <= child
      invariant Reverse(names) == NamesTo(t, child)[|current|..]
      invariant forall k :: |current| < k <= |child| ==> child[..k] != parent
      decreases |current|
    {
      NamesToAt(t, child, |current|);
      assert child[..|current|] == current;
      ReverseSnoc(names, At(t, current).name);
      names := names + [At(t, current).name];
      current := current[..|current| - 1];
    }
    ReverseReverse(NamesTo(t, child)[|current|..]);
    names := Reverse(names);
    assert names == NamesTo(t, child)[|current|..];
    if current != parent {
      assert 0 < |parent| <= |child| ==> child[..|parent|] != parent;
    }
    path := Join(names);
  }

  /** From a node up to itself the path is empty. */
  lemma RelativeToSelf(t: Node, x: Address)
    requires ValidAddress(t, x)
    ensures RelativeNames(t, x, x) == [] && Join(RelativeNames(t, x, x)) == ""
  {
  }

  /** Relative to an ancestor, the names are exactly those from the ancestor
      (excluded) down to the node: the path leads from one to the other. */
  lemma RelativeToAncestor(t: Node, p: Address, b: Address)
    requires ValidAddress(t, p) && ValidAddress(At(t, p), b)
    ensures ValidAddress(t, p + b)
    ensures RelativeNames(t, p + b, p) == NamesTo(At(t, p), b)
  {
    NamesToConcat(t, p, b);
  }

  // ----- the fallback: first renderer of a name -----

  /** Position of the first node in `rs` called `name`, or `|rs|`. */
  function FirstIndexNamed(t: Node, rs: seq<Address>, name: string): (k: nat)
    ensures k <= |rs|
    ensures k < |rs| ==> NamedAt(t, rs[k], name)
    ensures forall j :: 0 <= j < k ==> !NamedAt(t, rs[j], name)
  {
    if rs == [] then 0
    else if NamedAt(t, rs[0], name) then 0
    else 1 + FirstIndexNamed(t, rs[1..], name)
  }

  /** `FindCorrespondingRenderer`: the renderer found at the donor's relative
      path in `target`, when there is a node there and it has a renderer;
      otherwise the first renderer of `target`, in traversal order, whose
      name is the donor's name; otherwise none. */
  function FindCorrespondingRenderer(prefab: Node, donor: Address, target: Node): (r: Option<Address>)
    requires ValidAddress(prefab, donor)
    ensures r.Some? ==> HasRenderer(target, r.value)
  {
    var found := Find(target, Join(RelativeNames(prefab, donor, [])));
    if found.Some? && At(target, found.value).renderer.Some? then found
    else
      var rs := Renderers(target);
      RenderersHaveRenderer(target);
      var k := FirstIndexNamed(target, rs, At(prefab, donor).name);
      if k < |rs| then Some(rs[k]) else None
  }

  /** The name path of a renderer below the prefab root is the names on the
      way to it. */
  lemma RelativeToRoot(prefab: Node, donor: Address)
    requires ValidAddress(prefab, donor)
    ensures RelativeNames(prefab, donor, []) == NamesTo(prefab, donor)
  {
  }

  /** Whenever following the donor's names reaches a node of `target` that
      has a renderer, that renderer is the answer, whatever same-named
      renderers come earlier in the traversal. */
  lemma PathMatchWins(prefab: Node, donor: Address, target: Node, a: Address)
    requires ValidAddress(prefab, donor)
    requires AllPlain(NamesTo(prefab, donor)) && NamesTo(prefab, donor) != [""]
    requires FollowNames(target, NamesTo(prefab, donor)) == Some(a) && HasRenderer(target, a)
    ensures FindCorrespondingRenderer(prefab, donor, target) == Some(a)
  {
    FindJoin(target, NamesTo(prefab, donor));
  }

  /** A renderer on the prefab root has the empty path, which names the
      target's own root; that root wins when it has a renderer. */
  lemma RootDonorMatchesRoot(prefab: Node, target: Node)
    requires target.renderer.Some?
    ensures FindCorrespondingRenderer(prefab, [], target) == Some([])
  {
  }

  /** When the path finds no renderer, the answer is the first renderer of
      `target` in traversal order bearing the donor's name, or none when no
      renderer does. */
  lemma FallbackByName(prefab: Node, donor: Address, target: Node)
    requires ValidAddress(prefab, donor)
    requires var found := Find(target, Join(RelativeNames(prefab, donor, [])));
      found.None? || At(target, found.value).renderer.None?
    ensures var r := FindCorrespondingRenderer(prefab, donor, target);
      var rs := Renderers(target);
      var name := At(prefab, donor).name;
      && (r.Some? ==> exists k :: (0 <= k < |rs| && rs[k] == r.value && NamedAt(target, rs[k], name)
            && forall j :: 0 <= j < k ==> !NamedAt(target, rs[j], name)))
      && (r.None? ==> forall k :: 0 <= k < |rs| ==> !NamedAt(target, rs[k], name))
  {
    var rs := Renderers(target);
    var name := At(prefab, donor).name;
    var k := FirstIndexNamed(target, rs, name);
    var r := FindCorrespondingRenderer(prefab, donor, target);
    FallbackIndex(prefab, donor, target);
    if k < |rs| {
      assert rs[k] == r.value && NamedAt(target, rs[k], name);
    }
  }

  /** Without a renderer at the path, the answer is the renderer at the
      first index the name search stops at. */
  lemma FallbackIndex(prefab: Node, donor: Address, target: Node)
    requires ValidAddress(prefab, donor)
    requires var found := Find(target, Join(RelativeNames(prefab, donor, [])));
      found.None? || At(target, found.value).renderer.None?
    ensures var rs := Renderers(target);
      var k := FirstIndexNamed(target, rs, At(prefab, donor).name);
      FindCorrespondingRenderer(prefab, donor, target) == if k < |rs| then Some(rs[k]) else None
  {
  }

  // ----- invariance and self-correspondence -----

  lemma {:induction false} SameShapeNamesTo(t: Node, u: Node, a: Address)
    requires SameShape(t, u) && ValidAddress(t, a)
    ensures ValidAddress(u, a) && NamesTo(t, a) == NamesTo(u, a)
    decreases a
  {
    SameShapeValid(t, u, a);
    if a != [] {
      SameShapeNamesTo(t.children[a[0]], u.children[a[0]], a[1..]);
    }
  }

  /** Which renderer corresponds depends only on names and structure: it is
      the same for hierarchies that differ only in their materials. */
  lemma SameShapeCorrespondence(prefab: Node, prefab': Node, donor: Address, target: Node, target': Node)
    requires SameShape(prefab, prefab') && SameShape(target, target') && ValidAddress(prefab, donor)
    ensures ValidAddress(prefab', donor)
    ensures FindCorrespondingRenderer(prefab, donor, target) == FindCorrespondingRenderer(prefab', donor, target')
  {
    SameShapeNamesTo(prefab, prefab', donor);
    SameShapeAt(prefab, prefab', donor);
    var path := Join(RelativeNames(prefab, donor, []));
    SameShapeFind(target, target', path);
    var found := Find(target, path);
    if found.Some? {
      SameShapeAt(target, target', found.value);
    }
    SameShapeFirstNamed(target, target', At(prefab, donor).name);
  }

  /** The fallback search finds the same renderer in hierarchies that differ
      only in their materials. */
  lemma SameShapeFirstNamed(target: Node, target': Node, name: string)
    requires SameShape(target, target')
    ensures Renderers(target) == Renderers(target')
    ensures FirstIndexNamed(target, Renderers(target), name) == FirstIndexNamed(target', Renderers(target'), name)
  {
    SameShapeRenderers(target, target');
    var rs := Renderers(target);
    forall k | 0 <= k < |rs| ensures NamedAt(target, rs[k], name) == NamedAt(target', rs[k], name) {
      SameShapeValid(target, target', rs[k]);
      if ValidAddress(target, rs[k]) {
        SameShapeAt(target, target', rs[k]);
      }
    }
    FirstIndexSameNames(target, target', rs, name);
  }

  lemma {:induction false} FirstIndexSameNames(t: Node, u: Node, rs: seq<Address>, name: string)
    requires forall k :: 0 <= k < |rs| ==> NamedAt(t, rs[k], name) == NamedAt(u, rs[k], name)
    ensures FirstIndexNamed(t, rs, name) == FirstIndexNamed(u, rs, name)
  {
    if rs != [] && !NamedAt(t, rs[0], name) {
      FirstIndexSameNames(t, u, rs[1..], name);
    }
  }

  /** Along `a`, every node is the first of its siblings to bear its name,
      so looking its names up leads back to it. */
  predicate FirstOfNameAlong(t: Node, a: Address)
    decreases a
  {
    a == [] ||
      (a[0] < |t.children|
       && FirstNamed(t.children, t.children[a[0]].name) == a[0]
       && FirstOfNameAlong(t.children[a[0]], a[1..]))
  }

  lemma {:induction false} FollowOwnNames(t: Node, a: Address)
    requires ValidAddress(t, a) && FirstOfNameAlong(t, a)
    ensures FollowNames(t, NamesTo(t, a)) == Some(a)
    decreases a
  {
    if a != [] {
      var names := NamesTo(t, a);
      assert names[1..] == NamesTo(t.children[a[0]], a[1..]);
      FollowOwnNames(t.children[a[0]], a[1..]);
      assert [a[0]] + a[1..] == a;
    }
  }

  /** A prefab matched against itself (a variation made by copying the
      target) maps every renderer to itself, provided its names are plain,
      the path is not the lone empty name, and no earlier sibling on the way
      shares a name. */
  lemma SelfCorrespondence(t: Node, a: Address)
    requires HasRenderer(t, a) && FirstOfNameAlong(t, a)
    requires AllPlain(NamesTo(t, a)) && NamesTo(t, a) != [""]
    ensures FindCorrespondingRenderer(t, a, t) == Some(a)
  {
    FollowOwnNames(t, a);
    PathMatchWins(t, a, t, a);
  }
}
