/** Building the menu: one variation object per colour variation, each with
    a toggle menu item and a Material Setter component, an icon generated for
    variations that ask for one, and a count of the objects created and of
    the materials their prefabs hold.

    The menu objects, their Modular Avatar components and the menu item
    settings are not modelled; what is modelled is which variations are
    created, the icon each ends up with, the switch list each Material
    Setter receives and the two counters. */
module Creator {
  import opened Hierarchy
  import opened Scene
  import opened Variations
  import opened MaterialSwitches

  /** What the preview generator does for one variation: it throws (the
      exception is caught on the spot), or it returns a texture or none. */
  datatype PreviewOutcome = PreviewThrows | PreviewReturns(texture: Option<Texture2D>)

  /** Where building one variation object throws, if it does: before the
      preview step (creating the object or its menu item) or after it
      (the menu item settings, adding the Material Setter or filling it).
      A throwing step has no effect; the exception is caught and the
      variation counts as not created. */
  datatype BuildFault = BuildsFine | ThrowsBeforePreview | ThrowsAfterPreview

  /** The automatic preview is attempted only for a variation that asks for
      it, has no icon yet and has a prefab. */
  predicate WantsPreview(v: ColorVariation)
  {
    v.autoGeneratePreview && v.icon.None? && v.prefab.Some?
  }

  /** The icon of `v` once the preview step has run with outcome `outcome`. */
  function IconAfterPreview(v: ColorVariation, outcome: PreviewOutcome): (icon: Option<Texture2D>)
    ensures icon != v.icon ==> WantsPreview(v) && outcome == PreviewReturns(icon) && icon.Some?
    ensures WantsPreview(v) && outcome.PreviewReturns? && outcome.texture.Some? ==> icon == outcome.texture
    ensures v.icon.Some? ==> icon == v.icon
  {
    if WantsPreview(v) && outcome.PreviewReturns? && outcome.texture.Some? then outcome.texture else v.icon
  }

  /** The variation as it stands after `CreateVariationObject`: only its
      icon can change, and only when the preview step was reached. */
  function Updated(v: ColorVariation, fault: BuildFault, outcome: PreviewOutcome): (u: ColorVariation)
    ensures u.name == v.name && u.prefab == v.prefab && u.autoGeneratePreview == v.autoGeneratePreview
    ensures fault.ThrowsBeforePreview? || outcome.PreviewThrows? ==> u == v
  {
    if fault.ThrowsBeforePreview? then v else v.(icon := IconAfterPreview(v, outcome))
  }

  /** `CreateVariationObject` for entry `index` of the variation list. The
      variation is created exactly when nothing throws, a failing preview
      included; the preview icon is written back into the list even when a
      later step throws. A created object's menu item shows the variation's
      icon and its Material Setter holds the switch list of the prefab
      against the object to dress. */
  method CreateVariationObject(variations: array<ColorVariation>, index: nat, target: Option<Node>,
                               fault: BuildFault, preview: PreviewOutcome)
      returns (created: bool, menuIcon: Option<Texture2D>, setter: MaterialSetter?)
    requires index < variations.Length
    modifies variations
    ensures created <==> fault.BuildsFine?
    ensures variations[..] == old(variations[..])[index := Updated(old(variations[index]), fault, preview)]
    ensures created ==> menuIcon == variations[index].icon
    ensures created ==> setter != null && fresh(setter)
    ensures created && variations[index].prefab.Some? && target.Some? ==>
              setter.objects == SwitchList(variations[index].prefab.value, target.value)
    ensures created && (variations[index].prefab.None? || target.None?) ==> setter.objects == []
    ensures !created ==> setter == null
  {
    if fault.ThrowsBeforePreview? {
      return false, None, null;
    }
    var variation := variations[index];
    menuIcon := variation.icon;
    if variation.autoGeneratePreview && variation.icon.None? && variation.prefab.Some? {
      if preview.PreviewReturns? && preview.texture.Some? {
        variations[index] := variation.(icon := preview.texture);
        menuIcon := preview.texture;
      }
    }
    if fault.ThrowsAfterPreview? {
      return false, menuIcon, null;
    }
    setter := new MaterialSetter();
    var materialCount := SetupMaterialSetter(setter, variations[index].prefab, target);
    created := true;
  }

  // ----- the counters of CreateMaterialSetterMenu -----

  /** How many of the first `n` variations are created. */
  function Created(faults: seq<BuildFault>, n: nat): (c: nat)
    requires n <= |faults|
    ensures c <= n
    ensures c == n <==> forall j :: 0 <= j < n ==> faults[j].BuildsFine?
  {
    if n == 0 then 0 else Created(faults, n - 1) + (if faults[n - 1].BuildsFine? then 1 else 0)
  }

  /** The materials counted for the first `n` variations: the prefab's
      material count for each created one. */
  function MaterialTotal(vs: seq<ColorVariation>, faults: seq<BuildFault>, n: nat): nat
    requires n <= |vs| && n <= |faults|
  {
    if n == 0 then 0
    else MaterialTotal(vs, faults, n - 1) + (if faults[n - 1].BuildsFine? then CountMaterials(vs[n - 1].prefab) else 0)
  }

  /** The entries the Material Setters of the first `n` created variations
      hold. */
  function SwitchTotal(vs: seq<ColorVariation>, target: Option<Node>, faults: seq<BuildFault>, n: nat): nat
    requires n <= |vs| && n <= |faults|
  {
    if n == 0 then 0
    else
      var setUp := if faults[n - 1].BuildsFine? && vs[n - 1].prefab.Some? && target.Some?
                    then |SwitchList(vs[n - 1].prefab.value, target.value)| else 0;
      SwitchTotal(vs, target, faults, n - 1) + setUp
  }

  /** The reported material count bounds the entries actually set up: a
      slot whose target renderer is missing or too short is counted but
      switches nothing. */
  lemma {:induction false} SwitchTotalAtMost(vs: seq<ColorVariation>, target: Option<Node>, faults: seq<BuildFault>, n: nat)
    requires n <= |vs| && n <= |faults|
    ensures SwitchTotal(vs, target, faults, n) <= MaterialTotal(vs, faults, n)
  {
    if n > 0 {
      SwitchTotalAtMost(vs, target, faults, n - 1);
      if faults[n - 1].BuildsFine? && vs[n - 1].prefab.Some? && target.Some? {
        SwitchListCount(vs[n - 1].prefab.value, target.value);
      }
    }
  }

  /** Failed variations add nothing: the totals only see created ones. */
  lemma {:induction false} NothingCreatedNothingCounted(vs: seq<ColorVariation>, target: Option<Node>,
                                                        faults: seq<BuildFault>, n: nat)
    requires n <= |vs| && n <= |faults|
    requires Created(faults, n) == 0
    ensures MaterialTotal(vs, faults, n) == 0 && SwitchTotal(vs, target, faults, n) == 0
  {
    if n > 0 {
      NothingCreatedNothingCounted(vs, target, faults, n - 1);
    }
  }

  /** The loop of `CreateMaterialSetterMenu` over the variations: variation
      `i` is built with fault `faults[i]` and preview outcome `previews[i]`;
      `createdObjects` counts the variations created and
      `materialSetterCount` adds up their prefabs' material counts. */
  method CreateVariations(variations: array<ColorVariation>, target: Option<Node>,
                          faults: seq<BuildFault>, previews: seq<PreviewOutcome>)
      returns (createdObjects: nat, materialSetterCount: nat)
    requires |faults| == variations.Length && |previews| == variations.Length
    modifies variations
    ensures forall j :: 0 <= j < variations.Length ==>
              variations[j] == Updated(old(variations[j]), faults[j], previews[j])
    ensures createdObjects == Created(faults, |faults|)
    ensures materialSetterCount == MaterialTotal(old(variations[..]), faults, |faults|)
  {
    ghost var original := variations[..];
    createdObjects, materialSetterCount := 0, 0;
    for i := 0 to variations.Length
      invariant forall j :: 0 <= j < i ==> variations[j] == Updated(original[j], faults[j], previews[j])
      invariant forall j :: i <= j < variations.Length ==> variations[j] == original[j]
      invariant createdObjects == Created(faults, i)
      invariant materialSetterCount == MaterialTotal(original, faults, i)
    {
      var created, menuIcon, setter := CreateVariationObject(variations, i, target, faults[i], previews[i]);
      if created {
        createdObjects := createdObjects + 1;
        materialSetterCount := materialSetterCount + CountMaterials(variations[i].prefab);
      }
    }
  }
}
