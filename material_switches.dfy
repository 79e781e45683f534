/** The list of material switches a Material Setter component receives for
    one colour variation: for every renderer of the variation prefab, in
    traversal order, and every slot of it holding a material, an entry that
    puts that material into the same slot of the corresponding target
    renderer, when the target renderer has that slot. */
module MaterialSwitches {
  import opened Hierarchy
  import opened Correspondence

  /** A `MaterialSwitchObject`: while the toggle is on, slot `index` of the
      renderer at `obj` (in the target) shows `material`. */
  datatype MaterialSwitch = MaterialSwitch(obj: Address, material: Material, index: nat)

  /** The Material Setter component a variation object carries. */
  class MaterialSetter {
    var objects: seq<MaterialSwitch>

    constructor ()
      ensures objects == []
    {
      objects := [];
    }
  }

  /** The slots among the first `n` that give an entry: those holding a
      material and existing in a target renderer of `targetLen` slots, in
      ascending order. */
  function PickedSlots(slots: seq<Option<Material>>, targetLen: nat, n: nat): (p: seq<nat>)
    requires n <= |slots|
    ensures forall j :: 0 <= j < |p| ==> p[j] < n && p[j] < targetLen && slots[p[j]].Some?
    ensures forall j1, j2 :: 0 <= j1 < j2 < |p| ==> p[j1] < p[j2]
    ensures forall i :: 0 <= i < n && i < targetLen && slots[i].Some? ==> i in p
    ensures |p| <= n
  {
    if n == 0 then []
    else
      var p := PickedSlots(slots, targetLen, n - 1);
      if slots[n - 1].Some? && n - 1 < targetLen then p + [n - 1] else p
  }

  /** The entries for the picked slots of one donor, targeting `tr`. */
  function Entries(tr: Address, slots: seq<Option<Material>>, picked: seq<nat>): (es: seq<MaterialSwitch>)
    requires forall j :: 0 <= j < |picked| ==> picked[j] < |slots| && slots[picked[j]].Some?
    ensures |es| == |picked|
  {
    seq(|picked|, j requires 0 <= j < |picked| => MaterialSwitch(tr, slots[picked[j]].value, picked[j]))
  }

  /** Entry `j` puts the material of the `j`-th picked slot into that slot. */
  lemma EntriesAt(tr: Address, slots: seq<Option<Material>>, picked: seq<nat>, j: nat)
    requires forall j :: 0 <= j < |picked| ==> picked[j] < |slots| && slots[picked[j]].Some?
    requires j < |picked|
    ensures Entries(tr, slots, picked)[j] == MaterialSwitch(tr, slots[picked[j]].value, picked[j])
  {
  }

  /** Looking at one more slot adds its entry, if it gives one, at the end. */
  lemma EntriesStep(tr: Address, slots: seq<Option<Material>>, targetLen: nat, i: nat)
    requires i < |slots|
    ensures Entries(tr, slots, PickedSlots(slots, targetLen, i + 1))
      == Entries(tr, slots, PickedSlots(slots, targetLen, i))
         + (if slots[i].Some? && i < targetLen then [MaterialSwitch(tr, slots[i].value, i)] else [])
  {
  }

  /** What one donor renderer contributes: nothing without a corresponding
      target renderer, else one entry per picked slot. */
  function DonorSwitches(prefab: Node, target: Node, d: Address): seq<MaterialSwitch>
    requires HasRenderer(prefab, d)
  {
    match FindCorrespondingRenderer(prefab, d, target)
    case None => []
    case Some(tr) =>
      var slots := SlotsAt(prefab, d);
      Entries(tr, slots, PickedSlots(slots, |SlotsAt(target, tr)|, |slots|))
  }

  predicate AllRenderers(t: Node, ds: seq<Address>)
  {
    forall k :: 0 <= k < |ds| ==> HasRenderer(t, ds[k])
  }

  /** The switch list for the donors `ds`: each donor's entries in turn, in
      the order of `ds`. */
  function Switches(prefab: Node, target: Node, ds: seq<Address>): seq<MaterialSwitch>
    requires AllRenderers(prefab, ds)
  {
    if ds == [] then []
    else Switches(prefab, target, ds[..|ds| - 1]) + DonorSwitches(prefab, target, ds[|ds| - 1])
  }

  /** The list `SetupMaterialSetter` builds for a prefab and a target. */
  function SwitchList(prefab: Node, target: Node): seq<MaterialSwitch>
  {
    RenderersHaveRenderer(prefab);
    Switches(prefab, target, Renderers(prefab))
  }

  // ----- counting -----

  function NonNull(slots: seq<Option<Material>>): (n: nat)
    ensures n <= |slots|
  {
    if slots == [] then 0
    else NonNull(slots[..|slots| - 1]) + (if slots[|slots| - 1].Some? then 1 else 0)
  }

  function SlotTotal(t: Node, ds: seq<Address>): nat
    requires AllRenderers(t, ds)
  {
    if ds == [] then 0 else SlotTotal(t, ds[..|ds| - 1]) + NonNull(SlotsAt(t, ds[|ds| - 1]))
  }

  /** `CountMaterials`: how many slots of all the prefab's renderers hold a
      material; none for a missing prefab. */
  function CountMaterials(prefab: Option<Node>): nat
  {
    match prefab
    case None => 0
    case Some(p) =>
      RenderersHaveRenderer(p);
      SlotTotal(p, Renderers(p))
  }

  lemma {:induction false} PickedAtMostNonNull(slots: seq<Option<Material>>, targetLen: nat, n: nat)
    requires n <= |slots|
    ensures |PickedSlots(slots, targetLen, n)| <= NonNull(slots[..n])
  {
    if n > 0 {
      PickedAtMostNonNull(slots, targetLen, n - 1);
      assert slots[..n][..n - 1] == slots[..n - 1];
    }
  }

  lemma {:induction false} PickedAllNonNull(slots: seq<Option<Material>>, targetLen: nat, n: nat)
    requires n <= |slots| <= targetLen
    ensures |PickedSlots(slots, targetLen, n)| == NonNull(slots[..n])
  {
    if n > 0 {
      PickedAllNonNull(slots, targetLen, n - 1);
      assert slots[..n][..n - 1] == slots[..n - 1];
    }
  }

  /** A donor contributes at most as many entries as it has materials, and
      exactly that many when its target renderer exists and has at least as
      many slots. */
  lemma DonorCount(prefab: Node, target: Node, d: Address)
    requires HasRenderer(prefab, d)
    ensures |DonorSwitches(prefab, target, d)| <= NonNull(SlotsAt(prefab, d))
    ensures (match FindCorrespondingRenderer(prefab, d, target)
             case None => false
             case Some(tr) => |SlotsAt(prefab, d)| <= |SlotsAt(target, tr)|)
      ==> |DonorSwitches(prefab, target, d)| == NonNull(SlotsAt(prefab, d))
  {
    var slots := SlotsAt(prefab, d);
    assert slots[..|slots|] == slots;
    match FindCorrespondingRenderer(prefab, d, target)
    case None =>
    case Some(tr) =>
      PickedAtMostNonNull(slots, |SlotsAt(target, tr)|, |slots|);
      if |slots| <= |SlotsAt(target, tr)| {
        PickedAllNonNull(slots, |SlotsAt(target, tr)|, |slots|);
      }
  }

  /** Every donor with a corresponding renderer of enough slots. */
  predicate AllFit(prefab: Node, target: Node, ds: seq<Address>)
    requires AllRenderers(prefab, ds)
  {
    forall k :: 0 <= k < |ds| ==>
      match FindCorrespondingRenderer(prefab, ds[k], target)
      case None => false
      case Some(tr) => |SlotsAt(prefab, ds[k])| <= |SlotsAt(target, tr)|
  }

  lemma {:induction false} SwitchesCount(prefab: Node, target: Node, ds: seq<Address>)
    requires AllRenderers(prefab, ds)
    ensures |Switches(prefab, target, ds)| <= SlotTotal(prefab, ds)
    ensures AllFit(prefab, target, ds) ==> |Switches(prefab, target, ds)| == SlotTotal(prefab, ds)
  {
    if ds != [] {
      var init := ds[..|ds| - 1];
      assert AllRenderers(prefab, init);
      SwitchesCount(prefab, target, init);
      DonorCount(prefab, target, ds[|ds| - 1]);
      if AllFit(prefab, target, ds) {
        assert AllFit(prefab, target, init) by {
          forall k | 0 <= k < |init| ensures init[k] == ds[k] {
          }
        }
      }
    }
  }

  /** The switch list never has more entries than `CountMaterials` counts
      for the same prefab, and exactly as many when every donor renderer
      finds a target renderer with at least as many slots. */
  lemma SwitchListCount(prefab: Node, target: Node)
    ensures |SwitchList(prefab, target)| <= CountMaterials(Some(prefab))
    ensures (RenderersHaveRenderer(prefab); AllFit(prefab, target, Renderers(prefab)))
      ==> |SwitchList(prefab, target)| == CountMaterials(Some(prefab))
  {
    RenderersHaveRenderer(prefab);
    SwitchesCount(prefab, target, Renderers(prefab));
  }

  // ----- soundness and completeness -----

  /** Donor `d` gives `e`: `e` targets the renderer corresponding to `d`,
      whose slot `e.index` exists, and `d` holds `e.material` in that slot. */
  predicate Gives(prefab: Node, target: Node, d: Address, e: MaterialSwitch)
    requires HasRenderer(prefab, d)
  {
    && FindCorrespondingRenderer(prefab, d, target) == Some(e.obj)
    && e.index < |SlotsAt(prefab, d)|
    && SlotsAt(prefab, d)[e.index] == Some(e.material)
    && e.index < |SlotsAt(target, e.obj)|
  }

  lemma DonorSwitchesExactly(prefab: Node, target: Node, d: Address, e: MaterialSwitch)
    requires HasRenderer(prefab, d)
    ensures e in DonorSwitches(prefab, target, d) <==> Gives(prefab, target, d, e)
  {
    match FindCorrespondingRenderer(prefab, d, target)
    case None =>
    case Some(tr) =>
      var slots := SlotsAt(prefab, d);
      var picked := PickedSlots(slots, |SlotsAt(target, tr)|, |slots|);
      var es := Entries(tr, slots, picked);
      if Gives(prefab, target, d, e) {
        var j :| 0 <= j < |picked| && picked[j] == e.index;
        assert es[j] == e;
      }
  }

  /** Every entry of the list comes from a donor slot holding its
      material, aimed at that donor's corresponding renderer and at a slot
      that renderer has. */
  lemma {:induction false} SwitchesSound(prefab: Node, target: Node, ds: seq<Address>, e: MaterialSwitch)
      returns (k: nat)
    requires AllRenderers(prefab, ds)
    requires e in Switches(prefab, target, ds)
    ensures k < |ds| && Gives(prefab, target, ds[k], e)
  {
    var init := ds[..|ds| - 1];
    assert AllRenderers(prefab, init);
    if e in Switches(prefab, target, init) {
      k := SwitchesSound(prefab, target, init, e);
      assert init[k] == ds[k];
    } else {
      k := |ds| - 1;
      DonorSwitchesExactly(prefab, target, ds[k], e);
    }
  }

  /** No entry a donor gives is left out of the list. */
  lemma {:induction false} SwitchesComplete(prefab: Node, target: Node, ds: seq<Address>, k: nat, e: MaterialSwitch)
    requires AllRenderers(prefab, ds)
    requires k < |ds| && Gives(prefab, target, ds[k], e)
    ensures e in Switches(prefab, target, ds)
  {
    var init := ds[..|ds| - 1];
    assert AllRenderers(prefab, init);
    if k == |ds| - 1 {
      DonorSwitchesExactly(prefab, target, ds[k], e);
    } else {
      assert init[k] == ds[k];
      SwitchesComplete(prefab, target, init, k, e);
    }
  }

  /** Within one donor's entries the slot index strictly increases, and
      all of them target the same renderer. */
  lemma DonorSwitchesAscending(prefab: Node, target: Node, d: Address)
    requires HasRenderer(prefab, d)
    ensures var es := DonorSwitches(prefab, target, d);
      forall j1, j2 :: 0 <= j1 < j2 < |es| ==> es[j1].index < es[j2].index && es[j1].obj == es[j2].obj
  {
  }

  /** Unfolding `Switches` once at the end of the donor list. */
  lemma SwitchesAppend(prefab: Node, target: Node, ds: seq<Address>, d: Address)
    requires AllRenderers(prefab, ds) && HasRenderer(prefab, d)
    ensures AllRenderers(prefab, ds + [d])
    ensures Switches(prefab, target, ds + [d]) == Switches(prefab, target, ds) + DonorSwitches(prefab, target, d)
  {
    assert (ds + [d])[..|ds|] == ds;
  }

  /** For each entry of `Switches(prefab, target, ds)`, the position in `ds`
      of the donor renderer it comes from. */
  function DonorOf(prefab: Node, target: Node, ds: seq<Address>): (o: seq<nat>)
    requires AllRenderers(prefab, ds)
    ensures |o| == |Switches(prefab, target, ds)|
  {
    if ds == [] then []
    else
      DonorOf(prefab, target, ds[..|ds| - 1])
        + seq(|DonorSwitches(prefab, target, ds[|ds| - 1])|, _ => |ds| - 1)
  }

  /** Entry `p` of `sw` is given by donor `ds[o[p]]`. */
  predicate GivenBy(prefab: Node, target: Node, ds: seq<Address>, sw: seq<MaterialSwitch>, o: seq<nat>)
    requires AllRenderers(prefab, ds)
  {
    |o| == |sw| && forall p :: 0 <= p < |sw| ==> o[p] < |ds| && Gives(prefab, target, ds[o[p]], sw[p])
  }

  /** The entries `sw`, from the donors at positions `o`, are ordered donor
      first and then by slot. */
  predicate DonorFirst(sw: seq<MaterialSwitch>, o: seq<nat>)
  {
    |o| == |sw| && forall p, q :: 0 <= p < q < |sw| ==> o[p] <= o[q] && (o[p] == o[q] ==> sw[p].index < sw[q].index)
  }

  lemma GivenByAppend(prefab: Node, target: Node, ds: seq<Address>, sw: seq<MaterialSwitch>, o: seq<nat>, d: Address)
    requires AllRenderers(prefab, ds) && HasRenderer(prefab, d)
    requires GivenBy(prefab, target, ds, sw, o)
    ensures AllRenderers(prefab, ds + [d])
    ensures GivenBy(prefab, target, ds + [d], sw + DonorSwitches(prefab, target, d),
                    o + seq(|DonorSwitches(prefab, target, d)|, _ => |ds|))
  {
    var b := DonorSwitches(prefab, target, d);
    var sw', o', ds' := sw + b, o + seq(|b|, _ => |ds|), ds + [d];
    forall p | 0 <= p < |sw'|
      ensures o'[p] < |ds'| && Gives(prefab, target, ds'[o'[p]], sw'[p])
    {
      if p < |sw| {
        assert sw'[p] == sw[p] && o'[p] == o[p] && ds'[o[p]] == ds[o[p]];
      } else {
        assert sw'[p] == b[p - |sw|] && o'[p] == |ds| && ds'[|ds|] == d;
        DonorSwitchesExactly(prefab, target, d, sw'[p]);
      }
    }
  }

  lemma DonorFirstAppend(sw: seq<MaterialSwitch>, o: seq<nat>, b: seq<MaterialSwitch>, k: nat)
    requires DonorFirst(sw, o) && forall p :: 0 <= p < |o| ==> o[p] < k
    requires forall j1, j2 :: 0 <= j1 < j2 < |b| ==> b[j1].index < b[j2].index
    ensures DonorFirst(sw + b, o + seq(|b|, _ => k))
  {
    var sw', o' := sw + b, o + seq(|b|, _ => k);
    forall p, q | 0 <= p < q < |sw'|
      ensures o'[p] <= o'[q] && (o'[p] == o'[q] ==> sw'[p].index < sw'[q].index)
    {
      if q < |sw| {
        assert sw'[p] == sw[p] && o'[p] == o[p] && sw'[q] == sw[q] && o'[q] == o[q];
      } else if p < |sw| {
        assert o'[p] == o[p] && o'[q] == k;
      } else {
        assert sw'[p] == b[p - |sw|] && sw'[q] == b[q - |sw|] && o'[p] == o'[q];
      }
    }
  }

  /** The order of the list is that of the two nested loops: entry `p` comes
      from donor `ds[DonorOf(..)[p]]`; entries of an earlier donor come
      before those of a later one, and within one donor the slot index
      increases. */
  lemma {:induction false} SwitchesOrdered(prefab: Node, target: Node, ds: seq<Address>)
    requires AllRenderers(prefab, ds)
    ensures GivenBy(prefab, target, ds, Switches(prefab, target, ds), DonorOf(prefab, target, ds))
    ensures DonorFirst(Switches(prefab, target, ds), DonorOf(prefab, target, ds))
    ensures forall p :: 0 <= p < |DonorOf(prefab, target, ds)| ==> DonorOf(prefab, target, ds)[p] < |ds|
  {
    if ds != [] {
      var init, d := ds[..|ds| - 1], ds[|ds| - 1];
      assert AllRenderers(prefab, init);
      assert ds == init + [d];
      SwitchesOrdered(prefab, target, init);
      DonorSwitchesAscending(prefab, target, d);
      GivenByAppend(prefab, target, init, Switches(prefab, target, init), DonorOf(prefab, target, init), d);
      DonorFirstAppend(Switches(prefab, target, init), DonorOf(prefab, target, init),
                       DonorSwitches(prefab, target, d), |init|);
    }
  }

  /** The list `SetupMaterialSetter` builds is ordered by donor renderer in
      traversal order, then by slot. */
  lemma SwitchListOrdered(prefab: Node, target: Node)
    ensures AllRenderers(prefab, Renderers(prefab))
    ensures GivenBy(prefab, target, Renderers(prefab), SwitchList(prefab, target), DonorOf(prefab, target, Renderers(prefab)))
    ensures DonorFirst(SwitchList(prefab, target), DonorOf(prefab, target, Renderers(prefab)))
  {
    RenderersHaveRenderer(prefab);
    SwitchesOrdered(prefab, target, Renderers(prefab));
  }

  // ----- the method -----

  lemma PrefixStep<T>(s: seq<T>, k: nat)
    requires k < |s|
    ensures s[..k + 1] == s[..k] + [s[k]]
  {
  }

  /** `EntriesStep` after a prefix of entries already in the list. */
  lemma AppendEntriesStep(objects: seq<MaterialSwitch>, tr: Address, slots: seq<Option<Material>>, targetLen: nat, i: nat)
    requires i < |slots|
    ensures objects + Entries(tr, slots, PickedSlots(slots, targetLen, i + 1))
      == (objects + Entries(tr, slots, PickedSlots(slots, targetLen, i)))
         + (if slots[i].Some? && i < targetLen then [MaterialSwitch(tr, slots[i].value, i)] else [])
  {
    EntriesStep(tr, slots, targetLen, i);
    var done := Entries(tr, slots, PickedSlots(slots, targetLen, i));
    if slots[i].Some? && i < targetLen {
      assert objects + (done + [MaterialSwitch(tr, slots[i].value, i)])
          == (objects + done) + [MaterialSwitch(tr, slots[i].value, i)];
    }
  }

  /** The inner loop of `SetupMaterialSetter`: one entry per slot of the
      donor renderer that holds a material and exists in the target
      renderer, each one counted. */
  method AppendSlotSwitches(objects: seq<MaterialSwitch>, count: nat, tr: Address,
                            slots: seq<Option<Material>>, targetLen: nat)
      returns (objects': seq<MaterialSwitch>, count': nat)
    requires count == |objects|
    ensures objects' == objects + Entries(tr, slots, PickedSlots(slots, targetLen, |slots|))
    ensures count' == |objects'|
  {
    objects', count' := objects, count;
    for i := 0 to |slots|
      invariant objects' == objects + Entries(tr, slots, PickedSlots(slots, targetLen, i))
      invariant count' == |objects'|
    {
      AppendEntriesStep(objects, tr, slots, targetLen, i);
      if slots[i].Some? && i < targetLen {
        objects' := objects' + [MaterialSwitch(tr, slots[i].value, i)];
        count' := count' + 1;
      }
    }
  }

  /** `SetupMaterialSetter`: without a prefab or a target nothing is
      assigned and the count is 0; otherwise the setter receives the switch
      list and the count is its length. */
  method SetupMaterialSetter(setter: MaterialSetter, prefab: Option<Node>, target: Option<Node>)
      returns (materialCount: nat)
    modifies setter
    ensures prefab.None? || target.None? ==> materialCount == 0 && setter.objects == old(setter.objects)
    ensures prefab.Some? && target.Some? ==>
      setter.objects == SwitchList(prefab.value, target.value) && materialCount == |setter.objects|
  {
    if prefab.None? || target.None? {
      return 0;
    }
    var p := prefab.value;
    var t := target.value;
    materialCount := 0;
    var prefabRenderers := Renderers(p);
    RenderersHaveRenderer(p);
    var objects: seq<MaterialSwitch> := [];
    for k := 0 to |prefabRenderers|
      invariant AllRenderers(p, prefabRenderers[..k])
      invariant objects == Switches(p, t, prefabRenderers[..k])
      invariant materialCount == |objects|
    {
      var d := prefabRenderers[k];
      SwitchesAppend(p, t, prefabRenderers[..k], d);
      PrefixStep(prefabRenderers, k);
      var targetRenderer := FindCorrespondingRenderer(p, d, t);
      if targetRenderer.Some? {
        var tr := targetRenderer.value;
        objects, materialCount := AppendSlotSwitches(objects, materialCount, tr, SlotsAt(p, d), |SlotsAt(t, tr)|);
      }
    }
    assert prefabRenderers[..|prefabRenderers|] == prefabRenderers;
    setter.objects := objects;
  }
}
