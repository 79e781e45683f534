/** How a preview dresses the avatar clone: `ApplyPrefabMaterials` copies
    every prefab renderer's non-null materials onto the corresponding avatar
    renderer, in place. The result is the hierarchy the Material Setter
    would produce with all of the variation's switches applied in list
    order. */
module PreviewMaterials {
  import opened Hierarchy
  import opened Correspondence
  import opened MaterialSwitches
  import opened Scene

  /** The slots `materials` after the non-null slots among the first `n` of
      `donor` are copied onto them; slots past the end of either are left
      alone. */
  function OverlayUpTo(materials: seq<Option<Material>>, donor: seq<Option<Material>>, n: nat): (r: seq<Option<Material>>)
    ensures |r| == |materials|
  {
    seq(|materials|, i requires 0 <= i < |materials| =>
      if i < n && i < |donor| && donor[i].Some? then donor[i] else materials[i])
  }

  function Overlay(materials: seq<Option<Material>>, donor: seq<Option<Material>>): (r: seq<Option<Material>>)
    ensures |r| == |materials|
  {
    OverlayUpTo(materials, donor, |donor|)
  }

  /** Some slot shared by both arrays has a non-null donor material: the
      copy assigns at least one slot (`materialChanged`). */
  predicate Writes(materials: seq<Option<Material>>, donor: seq<Option<Material>>)
  {
    exists i :: 0 <= i < |materials| && i < |donor| && donor[i].Some?
  }

  /** One donor renderer's effect on the avatar hierarchy `tree`. */
  function ApplyOne(prefab: Node, tree: Node, d: Address): Node
    requires HasRenderer(prefab, d)
  {
    match FindCorrespondingRenderer(prefab, d, tree)
    case None => tree
    case Some(tr) => WithMaterials(tree, tr, Overlay(SlotsAt(tree, tr), SlotsAt(prefab, d)))
  }

  /** The donors `ds` applied one after the other; each one looks up its
      renderer in the hierarchy as the earlier ones left it. */
  function ApplyAll(prefab: Node, tree: Node, ds: seq<Address>): Node
    requires AllRenderers(prefab, ds)
  {
    if ds == [] then tree
    else ApplyOne(prefab, ApplyAll(prefab, tree, ds[..|ds| - 1]), ds[|ds| - 1])
  }

  /** The avatar after `ApplyPrefabMaterials` with every prefab renderer. */
  function Applied(prefab: Node, avatar: Node): Node
  {
    RenderersHaveRenderer(prefab);
    ApplyAll(prefab, avatar, Renderers(prefab))
  }

  // ----- what applying a switch list does -----

  /** What one switch entry does when it is applied: the slot it names gets
      its material, if the renderer and the slot exist. */
  function SetSlot(t: Node, e: MaterialSwitch): Node
  {
    if HasRenderer(t, e.obj) && e.index < |SlotsAt(t, e.obj)|
    then WithMaterials(t, e.obj, SlotsAt(t, e.obj)[e.index := Some(e.material)])
    else t
  }

  /** The entries `es` applied in list order. */
  function ApplySwitches(t: Node, es: seq<MaterialSwitch>): Node
  {
    if es == [] then t else SetSlot(ApplySwitches(t, es[..|es| - 1]), es[|es| - 1])
  }

  predicate Targets(e: MaterialSwitch, a: Address, i: nat)
  {
    e.obj == a && e.index == i
  }

  // ----- hierarchies with the same structure and slot counts -----

  /** `u` differs from `t` only in which materials its slots hold. */
  ghost predicate Conforms(t: Node, u: Node)
  {
    && SameShape(t, u)
    && forall a :: HasRenderer(t, a) ==> HasRenderer(u, a) && |SlotsAt(u, a)| == |SlotsAt(t, a)|
  }

  lemma ConformsRefl(t: Node)
    ensures Conforms(t, t)
  {
    SameShapeRefl(t);
  }

  lemma ConformsTrans(t: Node, u: Node, v: Node)
    requires Conforms(t, u) && Conforms(u, v)
    ensures Conforms(t, v)
  {
    SameShapeTrans(t, u, v);
  }

  lemma WithMaterialsConforms(t: Node, a: Address, ms: seq<Option<Material>>)
    requires HasRenderer(t, a) && |ms| == |SlotsAt(t, a)|
    ensures Conforms(t, WithMaterials(t, a, ms))
  {
    WithMaterialsEffect(t, a, ms, a);
    forall b | HasRenderer(t, b)
      ensures HasRenderer(WithMaterials(t, a, ms), b)
      ensures |SlotsAt(WithMaterials(t, a, ms), b)| == |SlotsAt(t, b)|
    {
      WithMaterialsEffect(t, a, ms, b);
    }
  }

  /** Which entries a donor gives depends only on structure, names and slot
      counts, not on the materials the target currently shows. */
  lemma DonorSwitchesConform(prefab: Node, t: Node, u: Node, d: Address)
    requires HasRenderer(prefab, d) && Conforms(t, u)
    ensures DonorSwitches(prefab, t, d) == DonorSwitches(prefab, u, d)
  {
    SameShapeRefl(prefab);
    SameShapeCorrespondence(prefab, prefab, d, t, u);
  }

  lemma ApplyOneConforms(prefab: Node, tree: Node, d: Address)
    requires HasRenderer(prefab, d)
    ensures Conforms(tree, ApplyOne(prefab, tree, d))
  {
    match FindCorrespondingRenderer(prefab, d, tree)
    case None => ConformsRefl(tree);
    case Some(tr) => WithMaterialsConforms(tree, tr, Overlay(SlotsAt(tree, tr), SlotsAt(prefab, d)));
  }

  lemma {:induction false} ApplyAllConforms(prefab: Node, tree: Node, ds: seq<Address>)
    requires AllRenderers(prefab, ds)
    ensures Conforms(tree, ApplyAll(prefab, tree, ds))
  {
    if ds == [] {
      ConformsRefl(tree);
    } else {
      var init := ds[..|ds| - 1];
      assert AllRenderers(prefab, init);
      ApplyAllConforms(prefab, tree, init);
      ApplyOneConforms(prefab, ApplyAll(prefab, tree, init), ds[|ds| - 1]);
      ConformsTrans(tree, ApplyAll(prefab, tree, init), ApplyAll(prefab, tree, ds));
    }
  }

  lemma ApplyAllAppend(prefab: Node, tree: Node, ds: seq<Address>, d: Address)
    requires AllRenderers(prefab, ds) && HasRenderer(prefab, d)
    ensures AllRenderers(prefab, ds + [d])
    ensures ApplyAll(prefab, tree, ds + [d]) == ApplyOne(prefab, ApplyAll(prefab, tree, ds), d)
  {
    assert (ds + [d])[..|ds|] == ds;
  }

  lemma SetSlotConforms(t: Node, e: MaterialSwitch)
    ensures Conforms(t, SetSlot(t, e))
  {
    if HasRenderer(t, e.obj) && e.index < |SlotsAt(t, e.obj)| {
      WithMaterialsConforms(t, e.obj, SlotsAt(t, e.obj)[e.index := Some(e.material)]);
    } else {
      ConformsRefl(t);
    }
  }

  lemma {:induction false} ApplySwitchesConforms(t: Node, es: seq<MaterialSwitch>)
    ensures Conforms(t, ApplySwitches(t, es))
  {
    if es == [] {
      ConformsRefl(t);
    } else {
      var r := ApplySwitches(t, es[..|es| - 1]);
      ApplySwitchesConforms(t, es[..|es| - 1]);
      SetSlotConforms(r, es[|es| - 1]);
      ConformsTrans(t, r, ApplySwitches(t, es));
    }
  }

  lemma {:induction false} ApplySwitchesAppend(t: Node, es: seq<MaterialSwitch>, fs: seq<MaterialSwitch>)
    ensures ApplySwitches(t, es + fs) == ApplySwitches(ApplySwitches(t, es), fs)
  {
    if fs == [] {
      assert es + fs == es;
    } else {
      var fi := fs[..|fs| - 1];
      assert (es + fs)[..|es + fs| - 1] == es + fi;
      ApplySwitchesAppend(t, es, fi);
    }
  }

  // ----- the copy equals applying the donor's entries -----

  lemma OverlayNone(materials: seq<Option<Material>>, donor: seq<Option<Material>>)
    ensures OverlayUpTo(materials, donor, 0) == materials
  {
  }

  lemma OverlayStep(materials: seq<Option<Material>>, donor: seq<Option<Material>>, i: nat)
    requires i < |donor|
    ensures OverlayUpTo(materials, donor, i + 1)
         == if donor[i].Some? && i < |materials| then OverlayUpTo(materials, donor, i)[i := donor[i]]
            else OverlayUpTo(materials, donor, i)
  {
  }

  lemma {:induction false} EntriesOverlay(t: Node, tr: Address, donor: seq<Option<Material>>, n: nat)
    requires HasRenderer(t, tr) && n <= |donor|
    ensures ApplySwitches(t, Entries(tr, donor, PickedSlots(donor, |SlotsAt(t, tr)|, n)))
         == WithMaterials(t, tr, OverlayUpTo(SlotsAt(t, tr), donor, n))
  {
    if n == 0 {
      EntriesOverlayBase(t, tr, donor);
    } else {
      var i := n - 1;
      assert i + 1 == n;
      EntriesOverlay(t, tr, donor, i);
      EntriesOverlayStep(t, tr, donor, i);
    }
  }

  /** No donor slot yet: no entries, and the overlay is the renderer's own
      slots. */
  lemma EntriesOverlayBase(t: Node, tr: Address, donor: seq<Option<Material>>)
    requires HasRenderer(t, tr)
    ensures ApplySwitches(t, Entries(tr, donor, PickedSlots(donor, |SlotsAt(t, tr)|, 0)))
         == WithMaterials(t, tr, OverlayUpTo(SlotsAt(t, tr), donor, 0))
  {
    OverlayNone(SlotsAt(t, tr), donor);
    WithMaterialsSame(t, tr);
  }

  /** Slot `i` of the donor adds its entry exactly when the overlay copies
      it, so one more slot keeps the entries and the overlay in step. */
  lemma EntriesOverlayStep(t: Node, tr: Address, donor: seq<Option<Material>>, i: nat)
    requires HasRenderer(t, tr) && i < |donor|
    requires ApplySwitches(t, Entries(tr, donor, PickedSlots(donor, |SlotsAt(t, tr)|, i)))
          == WithMaterials(t, tr, OverlayUpTo(SlotsAt(t, tr), donor, i))
    ensures ApplySwitches(t, Entries(tr, donor, PickedSlots(donor, |SlotsAt(t, tr)|, i + 1)))
         == WithMaterials(t, tr, OverlayUpTo(SlotsAt(t, tr), donor, i + 1))
  {
    var m := SlotsAt(t, tr);
    var es := Entries(tr, donor, PickedSlots(donor, |m|, i));
    EntriesStep(tr, donor, |m|, i);
    OverlayStep(m, donor, i);
    if donor[i].Some? && i < |m| {
      var e := MaterialSwitch(tr, donor[i].value, i);
      assert (es + [e])[..|es|] == es;
      SetSlotAfterWrite(t, tr, OverlayUpTo(m, donor, i), i, donor[i].value);
    }
  }

  /** Setting one slot of a renderer whose slots were just written is
      writing the updated slots in one go. */
  lemma SetSlotAfterWrite(t: Node, tr: Address, prev: seq<Option<Material>>, i: nat, material: Material)
    requires HasRenderer(t, tr) && |prev| == |SlotsAt(t, tr)| && i < |prev|
    ensures SetSlot(WithMaterials(t, tr, prev), MaterialSwitch(tr, material, i))
         == WithMaterials(t, tr, prev[i := Some(material)])
  {
    WithMaterialsEffect(t, tr, prev, tr);
    WithMaterialsTwice(t, tr, prev, prev[i := Some(material)]);
  }

  /** A donor's effect is exactly that of applying its entries in order. */
  lemma ApplyOneBySwitches(prefab: Node, t: Node, d: Address)
    requires HasRenderer(prefab, d)
    ensures ApplyOne(prefab, t, d) == ApplySwitches(t, DonorSwitches(prefab, t, d))
  {
    match FindCorrespondingRenderer(prefab, d, t)
    case None =>
    case Some(tr) =>
      EntriesOverlay(t, tr, SlotsAt(prefab, d), |SlotsAt(prefab, d)|);
  }

  lemma {:induction false} ApplyAllBySwitches(prefab: Node, t: Node, ds: seq<Address>)
    requires AllRenderers(prefab, ds)
    ensures ApplyAll(prefab, t, ds) == ApplySwitches(t, Switches(prefab, t, ds))
  {
    if ds != [] {
      var init := ds[..|ds| - 1];
      var last := ds[|ds| - 1];
      assert AllRenderers(prefab, init);
      ApplyAllBySwitches(prefab, t, init);
      var a := ApplyAll(prefab, t, init);
      ApplySwitchesAppend(t, Switches(prefab, t, init), DonorSwitches(prefab, t, last));
      ApplyAllConforms(prefab, t, init);
      DonorSwitchesConform(prefab, t, a, last);
      ApplyOneBySwitches(prefab, a, last);
    }
  }

  /** Dressing `avatar` with `prefab`'s materials gives the hierarchy that
      the switch list built for the same donor against the same hierarchy
      gives, applied in list order. */
  lemma PreviewMatchesSetter(prefab: Node, avatar: Node)
    ensures Applied(prefab, avatar) == ApplySwitches(avatar, SwitchList(prefab, avatar))
  {
    RenderersHaveRenderer(prefab);
    ApplyAllBySwitches(prefab, avatar, Renderers(prefab));
  }

  /** After applying a list of entries, a slot shows the material of the
      last entry naming it, and a slot no entry names keeps its material. */
  lemma {:induction false} ApplySwitchesSlot(t: Node, es: seq<MaterialSwitch>, a: Address, i: nat)
    requires HasRenderer(t, a) && i < |SlotsAt(t, a)|
    ensures HasRenderer(ApplySwitches(t, es), a)
    ensures |SlotsAt(ApplySwitches(t, es), a)| == |SlotsAt(t, a)|
    ensures (forall j :: 0 <= j < |es| ==> !Targets(es[j], a, i))
      ==> SlotsAt(ApplySwitches(t, es), a)[i] == SlotsAt(t, a)[i]
    ensures forall j :: 0 <= j < |es| && Targets(es[j], a, i) && (forall j' :: j < j' < |es| ==> !Targets(es[j'], a, i))
                ==> SlotsAt(ApplySwitches(t, es), a)[i] == Some(es[j].material)
  {
    ApplySwitchesConforms(t, es);
    if es != [] {
      var init := es[..|es| - 1];
      var last := es[|es| - 1];
      var r := ApplySwitches(t, init);
      ApplySwitchesSlot(t, init, a, i);
      ApplySwitchesConforms(t, init);
      if HasRenderer(r, last.obj) && last.index < |SlotsAt(r, last.obj)| {
        WithMaterialsEffect(r, last.obj, SlotsAt(r, last.obj)[last.index := Some(last.material)], a);
      }
      forall j | 0 <= j < |es| && Targets(es[j], a, i) && (forall j' :: j < j' < |es| ==> !Targets(es[j'], a, i))
        ensures SlotsAt(ApplySwitches(t, es), a)[i] == Some(es[j].material)
      {
        if j < |init| {
          assert es[j] == init[j];
          assert !Targets(last, a, i);
          forall j' | j < j' < |init| ensures !Targets(init[j'], a, i) {
            assert init[j'] == es[j'];
          }
        }
      }
      if forall j :: 0 <= j < |es| ==> !Targets(es[j], a, i) {
        forall j | 0 <= j < |init| ensures !Targets(init[j], a, i) {
          assert init[j] == es[j];
        }
      }
    }
  }

  /** For every avatar renderer slot: if some donor gives it a material, it
      ends up with the material of the last such entry in donor-then-slot
      order (the last donor mapped onto it wins); otherwise it keeps its
      material. */
  lemma PreviewSlot(prefab: Node, avatar: Node, a: Address, i: nat)
    requires HasRenderer(avatar, a) && i < |SlotsAt(avatar, a)|
    ensures var es := SwitchList(prefab, avatar);
      && HasRenderer(Applied(prefab, avatar), a)
      && |SlotsAt(Applied(prefab, avatar), a)| == |SlotsAt(avatar, a)|
      && ((forall j :: 0 <= j < |es| ==> !Targets(es[j], a, i))
          ==> SlotsAt(Applied(prefab, avatar), a)[i] == SlotsAt(avatar, a)[i])
      && (forall j :: 0 <= j < |es| && Targets(es[j], a, i) && (forall j' :: j < j' < |es| ==> !Targets(es[j'], a, i))
                 ==> SlotsAt(Applied(prefab, avatar), a)[i] == Some(es[j].material))
  {
    PreviewMatchesSetter(prefab, avatar);
    ApplySwitchesSlot(avatar, SwitchList(prefab, avatar), a, i);
  }

  // ----- the methods -----

  lemma NoWritesOverlay(materials: seq<Option<Material>>, donor: seq<Option<Material>>)
    requires !Writes(materials, donor)
    ensures Overlay(materials, donor) == materials
  {
  }

  lemma WritesIffPicked(materials: seq<Option<Material>>, donor: seq<Option<Material>>)
    ensures Writes(materials, donor) <==> PickedSlots(donor, |materials|, |donor|) != []
  {
    var p := PickedSlots(donor, |materials|, |donor|);
    if p != [] {
      assert p[0] < |materials| && p[0] < |donor| && donor[p[0]].Some?;
    }
  }

  /** The slot loop of `ApplyPrefabMaterials`: copies each non-null donor
      material into the array, up to the shorter of the two, and reports
      whether it copied any. */
  method OverlayInPlace(materials: array<Option<Material>>, donor: seq<Option<Material>>) returns (changed: bool)
    modifies materials
    ensures materials[..] == Overlay(old(materials[..]), donor)
    ensures changed <==> Writes(old(materials[..]), donor)
  {
    ghost var m := materials[..];
    changed := false;
    var bound := if materials.Length < |donor| then materials.Length else |donor|;
    for i := 0 to bound
      invariant materials[..] == OverlayUpTo(m, donor, i)
      invariant changed <==> exists j :: 0 <= j < i && donor[j].Some?
    {
      if donor[i].Some? {
        materials[i] := donor[i];
        changed := true;
      }
      assert materials[..] == OverlayUpTo(m, donor, i + 1);
    }
    assert OverlayUpTo(m, donor, bound) == Overlay(m, donor);
  }

  /** The body of the donor loop: look up the avatar renderer, copy the
      donor's materials onto a copy of its slots and write them back if any
      slot was assigned. */
  method ApplyDonor(prefab: Node, d: Address, avatar: GameObject) returns (materialChanged: bool)
    requires HasRenderer(prefab, d)
    modifies avatar`tree
    ensures avatar.tree == ApplyOne(prefab, old(avatar.tree), d)
    ensures materialChanged <==> DonorSwitches(prefab, old(avatar.tree), d) != []
  {
    materialChanged := false;
    var avatarRenderer := FindCorrespondingRenderer(prefab, d, avatar.tree);
    if avatarRenderer.Some? {
      var tr := avatarRenderer.value;
      var current := SlotsAt(avatar.tree, tr);
      var materials := new Option<Material>[|current|](i requires 0 <= i < |current| => current[i]);
      assert materials[..] == current;
      var donor := SlotsAt(prefab, d);
      materialChanged := OverlayInPlace(materials, donor);
      WritesIffPicked(current, donor);
      if materialChanged {
        avatar.tree := WithMaterials(avatar.tree, tr, materials[..]);
      } else {
        NoWritesOverlay(current, donor);
        WithMaterialsSame(avatar.tree, tr);
      }
    }
  }

  /** `ApplyPrefabMaterials`: false and no change for a missing prefab or
      avatar; otherwise the avatar receives every donor's materials in
      traversal order, keeps its structure, and the result is true exactly
      when the switch list for the two is not empty, that is, when some
      slot was assigned. */
  method ApplyPrefabMaterials(prefab: GameObject?, avatar: GameObject?) returns (anyApplied: bool)
    requires avatar != null ==> avatar.Valid()
    requires prefab != avatar
    modifies avatar
    ensures avatar != null ==> avatar.Valid() && SameShape(old(avatar.tree), avatar.tree)
    ensures avatar != null ==>
              avatar.layers == old(avatar.layers) && avatar.activeSelf == old(avatar.activeSelf)
              && avatar.destroyed == old(avatar.destroyed)
    ensures prefab == null || avatar == null ==> !anyApplied && (avatar != null ==> avatar.tree == old(avatar.tree))
    ensures prefab != null && avatar != null ==> avatar.tree == Applied(prefab.tree, old(avatar.tree))
    ensures prefab != null && avatar != null ==> (anyApplied <==> SwitchList(prefab.tree, old(avatar.tree)) != [])
  {
    if prefab == null || avatar == null {
      if avatar != null {
        SameShapeRefl(avatar.tree);
      }
      return false;
    }
    var p := prefab.tree;
    ghost var t0 := avatar.tree;
    var prefabRenderers := Renderers(p);
    RenderersHaveRenderer(p);
    anyApplied := false;
    ConformsRefl(t0);
    for k := 0 to |prefabRenderers|
      invariant AllRenderers(p, prefabRenderers[..k])
      invariant avatar.tree == ApplyAll(p, t0, prefabRenderers[..k])
      invariant Conforms(t0, avatar.tree)
      invariant anyApplied <==> Switches(p, t0, prefabRenderers[..k]) != []
      invariant avatar.layers == old(avatar.layers)
      invariant avatar.activeSelf == old(avatar.activeSelf) && avatar.destroyed == old(avatar.destroyed)
    {
      var d := prefabRenderers[k];
      PrefixStep(prefabRenderers, k);
      SwitchesAppend(p, t0, prefabRenderers[..k], d);
      ApplyAllAppend(p, t0, prefabRenderers[..k], d);
      DonorSwitchesConform(p, t0, avatar.tree, d);
      ghost var before := avatar.tree;
      var materialChanged := ApplyDonor(p, d, avatar);
      ApplyOneConforms(p, before, d);
      ConformsTrans(t0, before, avatar.tree);
      if materialChanged {
        anyApplied := true;
      }
    }
    assert prefabRenderers[..|prefabRenderers|] == prefabRenderers;
    SameShapeNodes(t0, avatar.tree);
  }
}
