/** The earlier, single-window version of the tool. It keeps its settings
    in the window itself and carries its own copies of the validation and
    switch-list code; its variation record has no automatic-preview flag.
    Its validation gives the same list as the refactored check, because that
    check reads nothing of a variation but its name and prefab. */
module LegacyWindow {
  import opened Hierarchy
  import opened Scene
  import opened Variations
  import opened Validator
  import opened MaterialSwitches

  /** The window's own variation record: a name, a prefab and an icon. */
  datatype LegacyVariation = LegacyVariation(name: string, prefab: Option<Node>, icon: Option<Texture2D>)

  const NewLegacyVariation: LegacyVariation := LegacyVariation("", None, None)

  /** The same entry in the refactored record; the legacy tool never
      generates previews. */
  function AsVariation(v: LegacyVariation): ColorVariation
  {
    ColorVariation(v.name, v.prefab, v.icon, false)
  }

  function AsVariations(lvs: seq<LegacyVariation>): (vs: seq<ColorVariation>)
    ensures |vs| == |lvs|
    ensures forall i :: 0 <= i < |lvs| ==> vs[i] == AsVariation(lvs[i])
  {
    seq(|lvs|, i requires 0 <= i < |lvs| => AsVariation(lvs[i]))
  }

  // ----- the check reads only names and prefabs -----

  /** Two variation lists that agree on every name and prefab. */
  predicate SameEntries(vs: seq<ColorVariation>, ws: seq<ColorVariation>)
  {
    |vs| == |ws| && forall i :: 0 <= i < |vs| ==> vs[i].name == ws[i].name && vs[i].prefab == ws[i].prefab
  }

  lemma {:induction false} VariationErrorsAgree(vs: seq<ColorVariation>, ws: seq<ColorVariation>, n: nat)
    requires SameEntries(vs, ws) && n <= |vs|
    ensures VariationErrors(vs, n) == VariationErrors(ws, n)
  {
    if n > 0 {
      VariationErrorsAgree(vs, ws, n - 1);
      assert EntryErrors(n, vs[n - 1]) == EntryErrors(n, ws[n - 1]);
    }
  }

  lemma {:induction false} OccurrencesAgree(vs: seq<ColorVariation>, ws: seq<ColorVariation>, name: string, n: nat)
    requires SameEntries(vs, ws) && n <= |vs|
    ensures Occurrences(vs, name, n) == Occurrences(ws, name, n)
  {
    if n > 0 {
      OccurrencesAgree(vs, ws, name, n - 1);
    }
  }

  lemma {:induction false} NameKeysAgree(vs: seq<ColorVariation>, ws: seq<ColorVariation>, n: nat)
    requires SameEntries(vs, ws) && n <= |vs|
    ensures NameKeys(vs, n) == NameKeys(ws, n)
  {
    if n > 0 {
      NameKeysAgree(vs, ws, n - 1);
    }
  }

  lemma {:induction false} SharedKeysAgree(ks: seq<string>, vs: seq<ColorVariation>, ws: seq<ColorVariation>)
    requires SameEntries(vs, ws)
    ensures SharedKeys(ks, vs) == SharedKeys(ks, ws)
  {
    if ks != [] {
      OccurrencesAgree(vs, ws, ks[0], |vs|);
      SharedKeysAgree(ks[1..], vs, ws);
    }
  }

  /** The check gives the same list for two variation lists that agree on
      names and prefabs, whatever their icons and preview flags. */
  lemma ValidationAgrees(scene: Node, avatarRoot: Option<Address>, target: Option<Address>,
                         menuName: string, vs: seq<ColorVariation>, ws: seq<ColorVariation>)
    requires ObjectsInScene(scene, avatarRoot, target)
    requires SameEntries(vs, ws)
    ensures ValidationErrors(scene, avatarRoot, target, menuName, vs)
         == ValidationErrors(scene, avatarRoot, target, menuName, ws)
  {
    VariationErrorsAgree(vs, ws, |vs|);
    NameKeysAgree(vs, ws, |vs|);
    SharedKeysAgree(NameKeys(vs, |vs|), vs, ws);
  }

  /** The legacy list and a refactored list with the same names and
      prefabs are checked alike. */
  lemma LegacyAgrees(scene: Node, avatarRoot: Option<Address>, target: Option<Address>,
                     menuName: string, lvs: seq<LegacyVariation>, vs: seq<ColorVariation>)
    requires ObjectsInScene(scene, avatarRoot, target)
    requires |lvs| == |vs| && forall i :: 0 <= i < |vs| ==> lvs[i].name == vs[i].name && lvs[i].prefab == vs[i].prefab
    ensures ValidationErrors(scene, avatarRoot, target, menuName, AsVariations(lvs))
         == ValidationErrors(scene, avatarRoot, target, menuName, vs)
  {
    ValidationAgrees(scene, avatarRoot, target, menuName, AsVariations(lvs), vs);
  }

  /** The legacy checks of variation number `number`. */
  method CheckLegacyVariation(number: nat, v: LegacyVariation) returns (errors: seq<ValidationError>)
    ensures errors == EntryErrors(number, AsVariation(v))
  {
    errors := [];
    if v.name == "" {
      errors := errors + [UnnamedVariation(number)];
    }
    if v.prefab.None? {
      errors := errors + [NoPrefab(number)];
    } else {
      var renderers := Renderers(v.prefab.value);
      RendererFreeIff(v.prefab.value);
      if |renderers| == 0 {
        errors := errors + [NoRenderer(number)];
      }
    }
  }

  /** The legacy loop over the variations, numbering them from 1. */
  method CheckLegacyVariations(errors: seq<ValidationError>, variations: seq<LegacyVariation>)
      returns (result: seq<ValidationError>)
    ensures result == errors + VariationErrors(AsVariations(variations), |variations|)
  {
    ghost var vs := AsVariations(variations);
    result := errors;
    for i := 0 to |variations|
      invariant result == errors + VariationErrors(vs, i)
    {
      var entry := CheckLegacyVariation(i + 1, variations[i]);
      result := result + entry;
    }
  }

  /** The window: the open scene, the avatar root and the object to dress
      (both objects of the scene when set), the menu name and the variation
      list. */
  class MaterialSetterCreatorWindow {
    var scene: Node
    var avatarRoot: Option<Address>
    var targetObject: Option<Address>
    var menuName: string
    var variations: seq<LegacyVariation>

    predicate Valid()
      reads this
    {
      ObjectsInScene(scene, avatarRoot, targetObject)
    }

    /** A new window: nothing selected, the menu named "Color", no
        variations yet. */
    constructor (scene: Node)
      ensures Valid()
      ensures this.scene == scene && avatarRoot.None? && targetObject.None?
      ensures menuName == "Color" && variations == []
    {
      this.scene := scene;
      avatarRoot := None;
      targetObject := None;
      menuName := "Color";
      variations := [];
    }

    /** `OnEnable`: an empty list receives one blank variation. */
    method OnEnable()
      modifies this`variations
      ensures variations == if old(variations) == [] then [NewLegacyVariation] else old(variations)
      ensures |variations| >= 1
    {
      if |variations| == 0 {
        variations := variations + [NewLegacyVariation];
      }
    }

    /** The "add variation" button: a blank variation at the end. */
    method AddVariation()
      modifies this`variations
      ensures variations == old(variations) + [NewLegacyVariation]
    {
      variations := variations + [NewLegacyVariation];
    }

    /** The "delete" button of variation `i`: it is removed unless it is the
        only one, so the list never becomes empty. */
    method DeleteVariation(i: nat)
      requires i < |variations|
      modifies this`variations
      ensures old(|variations|) > 1 ==> variations == old(variations[..i] + variations[i + 1..])
      ensures old(|variations|) == 1 ==> variations == old(variations)
      ensures |variations| >= 1
    {
      if |variations| > 1 {
        variations := variations[..i] + variations[i + 1..];
      }
    }

    /** The window's `GetValidationErrors`: the same list the refactored
        check gives for the window's settings. */
    method GetValidationErrors() returns (errors: seq<ValidationError>)
      requires Valid()
      ensures errors == ValidationErrors(scene, avatarRoot, targetObject, menuName, AsVariations(variations))
    {
      errors := CheckSettings(scene, avatarRoot, targetObject, menuName, AsVariations(variations));
      errors := CheckLegacyVariations(errors, variations);
      var duplicateNames := DuplicateNames(AsVariations(variations));
      errors := ReportDuplicates(errors, duplicateNames);
    }

    /** The window's `SetupMaterialSetter`: the object to dress is the
        window's own field; without it or without a prefab nothing is
        assigned and the count is 0. */
    method SetupMaterialSetter(setter: MaterialSetter, prefab: Option<Node>) returns (materialCount: nat)
      requires Valid()
      modifies setter
      ensures prefab.None? || targetObject.None? ==> materialCount == 0 && setter.objects == old(setter.objects)
      ensures prefab.Some? && targetObject.Some? ==>
        setter.objects == SwitchList(prefab.value, At(scene, targetObject.value)) && materialCount == |setter.objects|
    {
      var target := if targetObject.Some? then Some(At(scene, targetObject.value)) else None;
      materialCount := MaterialSwitches.SetupMaterialSetter(setter, prefab, target);
    }
  }
}
