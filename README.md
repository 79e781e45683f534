# Material Setter tool — a verified model

The Material Setter tool is a Unity editor extension for VRChat avatars. It
builds a toggle menu of colour variations for one object of an avatar, such
as a garment. Each variation names a prefab that holds the same object in
other materials. For every renderer of that prefab, the tool finds the
corresponding renderer of the object being dressed. It then fills a
Modular Avatar Material Setter component with one switch per material slot.

This project models the tool's core in Dafny and proves what it promises:

- **Renderer correspondence.** `GetRelativePath` builds a donor renderer's
  name path, and `FindCorrespondingRenderer` looks that path up in the
  target, falling back to the first renderer of the same name. Both are
  modelled in `correspondence.dfy`, on the hierarchies of `hierarchy.dfy`
  and the path strings of `paths.dfy`.
- **The switch list.** `SetupMaterialSetter` and `CountMaterials` are
  modelled in `material_switches.dfy`. The list is proved sound and
  complete against a per-donor description, and bounded by the material
  count. Its order is proved to be that of the two nested loops: by donor
  renderer in traversal order, then by slot.
- **The menu builder's loop.** The loop in `CreateMaterialSetterMenu`, and
  the automatic-preview guard in `CreateVariationObject`, are modelled in
  `creator.dfy`.
- **Previews.**
  - `ApplyPrefabMaterials` is modelled in `preview_materials.dfy`. It is
    proved to dress the avatar exactly as applying the switch list built
    for the same donor against the same avatar would. That is not the
    variation's own Material Setter; see "Left out".
  - The file naming and saving of `SavePreviewAsAsset` are in
    `preview_assets.dfy`.
  - The camera rig's layer and active-flag bookkeeping is in
    `preview_camera.dfy`.
  - The guard and `try`/`finally` structure of `GeneratePreview` is in
    `preview_generator.dfy`.
- **The validator.** `GetValidationErrors` and `IsChildOf` are modelled in
  `validator.dfy`. The error list is proved empty exactly when the
  settings are acceptable. Every error is proved to be raised exactly for
  its cause, and at most once.
- **The legacy window.** The earlier single-window version of the tool is
  modelled in `legacy_window.dfy`. Its validation is proved to give the
  refactored check's list. Its `SetupMaterialSetter` has the same code as
  the refactored one and is modelled by calling it with the window's target.

Conventions of the model:

- A hierarchy is a value, `Hierarchy.Node`: a name, children in sibling
  order, an optional renderer holding its material slots, and whether it
  carries an avatar descriptor.
- A node is identified by its address, the child indices leading to it
  from the root.
- Objects the tool changes in place are classes in `scene.dfy`: live game
  objects (hierarchy, per-node layers, active flag), cameras, render
  targets, the engine's active render target and the asset database.
- Two engine behaviours are assumptions of the model, not verified facts:
  - `GetComponentsInChildren<Renderer>(true)` lists renderers in
    depth-first pre-order, the root first.
  - `Transform.Find` takes an empty path as the transform itself. It
    follows any other path name by name, taking the first child of each
    name, and does not try later siblings of the same name.
- Several helpers exist in more than one copy in the sources, with the
  same logic. One member models every copy, and its table row cites the
  first copy:
  - `GetRelativePath` is also at `PreviewGenerator.cs:160-173` and at
    legacy `MaterialSetterCreatorWindow.cs:481-494`.
  - `FindCorrespondingRenderer` is also at `PreviewGenerator.cs:139-155`
    and at legacy `MaterialSetterCreatorWindow.cs:463-479`.
  - `CountMaterials` (see `SwitchListCount`) is also at legacy
    `MaterialSetterCreatorWindow.cs:455-461`.
  - `IsChildOf` is also at legacy `MaterialSetterCreatorWindow.cs:244-253`.
- Exceptions are modelled by oracle parameters that say where a step
  throws. A throw keeps the effects of the statements before it and has no
  other effect. Examples are `Creator.BuildFault`,
  `PreviewGenerator.PreviewFault` and `PreviewAssets.SaveFault`.
- The preview a variation receives while the menu is built is an oracle
  parameter, `Creator.PreviewOutcome`.
- The validator's messages are constructors of
  `Validator.ValidationError`, carrying the 1-based variation number or
  the duplicated name, instead of message strings.

## Model

Source paths below are relative to the repository root.

| member | source | states |
|---|---|---|
| Hierarchy.RenderersHaveRenderer | Packages/com.428-tm.material-setter-tool-for-ma/Editor/MaterialSetterCreator.cs:188 | every address the pre-order renderer traversal yields carries a renderer |
| Hierarchy.RendererFreeIff | Packages/com.428-tm.material-setter-tool-for-ma/Editor/MaterialSetterValidator.cs:76-77 | the renderer traversal of a prefab is empty exactly when no node of it carries a renderer |
| Hierarchy.FollowNames | Packages/com.428-tm.material-setter-tool-for-ma/Editor/MaterialSetterCreator.cs:251 | a node reached by following names lies in the hierarchy and the names on the way to it are exactly the names followed |
| Hierarchy.FindJoin | Packages/com.428-tm.material-setter-tool-for-ma/Editor/MaterialSetterCreator.cs:249-251 | looking up the '/'-join of plain names follows exactly those names (except the lone empty name, whose join denotes the root) |
| Hierarchy.SameShapeRenderers | Packages/com.428-tm.material-setter-tool-for-ma/Editor/PreviewGenerator.cs:99 | the renderer traversal does not depend on the materials the renderers hold |
| Hierarchy.WithMaterialsEffect | Packages/com.428-tm.material-setter-tool-for-ma/Editor/PreviewGenerator.cs:127 | writing a renderer's material array back changes that renderer's slots and nothing else in the hierarchy |
| Hierarchy.WithMaterialsSame | Packages/com.428-tm.material-setter-tool-for-ma/Editor/PreviewGenerator.cs:125-129 | writing back the array a renderer already holds leaves the hierarchy as it was |
| Hierarchy.WithMaterialsTwice | Packages/com.428-tm.material-setter-tool-for-ma/Editor/PreviewGenerator.cs:102-131 | a second write to the same renderer replaces the first |
| Paths.SplitJoin | Packages/com.428-tm.material-setter-tool-for-ma/Editor/MaterialSetterCreator.cs:251 | splitting a '/'-joined path at '/' gives back the names, provided no name contains '/' |
| Correspondence.GetRelativePath | Packages/com.428-tm.material-setter-tool-for-ma/Editor/MaterialSetterCreator.cs:265-278 | the walk up from the child collects the names of the nodes below the stop point (the parent when it is an ancestor, otherwise the root), reversed into root-to-leaf order and joined with '/' |
| Correspondence.RelativeToSelf | Packages/com.428-tm.material-setter-tool-for-ma/Editor/MaterialSetterCreator.cs:270 | the path from a node to itself is the empty string |
| Correspondence.RelativeToAncestor | Packages/com.428-tm.material-setter-tool-for-ma/Editor/MaterialSetterCreator.cs:265-278 | relative to an ancestor, the names are exactly those leading from the ancestor (excluded) down to the node (included) |
| Correspondence.RelativeToRoot | Packages/com.428-tm.material-setter-tool-for-ma/Editor/MaterialSetterCreator.cs:249 | a donor renderer's path below the prefab root is the names on the way to it |
| Correspondence.FindCorrespondingRenderer | Packages/com.428-tm.material-setter-tool-for-ma/Editor/MaterialSetterCreator.cs:247-260 | a renderer it returns is a renderer of the target |
| Correspondence.PathMatchWins | Packages/com.428-tm.material-setter-tool-for-ma/Editor/MaterialSetterCreator.cs:251-256 | when the donor's path reaches a target node with a renderer, that renderer is the answer, even if a same-named renderer comes earlier in the traversal |
| Correspondence.RootDonorMatchesRoot | Packages/com.428-tm.material-setter-tool-for-ma/Editor/MaterialSetterCreator.cs:249-256 | a renderer on the prefab root has the empty path and is matched with the target's own root renderer |
| Correspondence.FallbackByName | Packages/com.428-tm.material-setter-tool-for-ma/Editor/MaterialSetterCreator.cs:258-259 | when the path finds no renderer, the answer is the first renderer of the target, in traversal order, bearing the donor's name, and none when no renderer bears it |
| Correspondence.SameShapeCorrespondence | Packages/com.428-tm.material-setter-tool-for-ma/Editor/PreviewGenerator.cs:139-155 | the renderer matched depends only on names and structure, not on materials, so earlier donors' writes never change a later donor's match |
| Correspondence.SelfCorrespondence | Packages/com.428-tm.material-setter-tool-for-ma/Editor/MaterialSetterCreator.cs:247-260 | a hierarchy matched against itself maps each renderer to itself when its names are plain and no earlier sibling on the way shares a name |
| MaterialSwitches.PickedSlots | Packages/com.428-tm.material-setter-tool-for-ma/Editor/MaterialSetterCreator.cs:197-210 | the slots giving an entry are exactly those holding a material that also exist in the target renderer, in ascending order |
| MaterialSwitches.DonorSwitchesExactly | Packages/com.428-tm.material-setter-tool-for-ma/Editor/MaterialSetterCreator.cs:193-212 | a donor renderer contributes an entry exactly when the entry targets the donor's corresponding renderer at a slot that renderer has, and the donor holds the entry's material in that slot |
| MaterialSwitches.DonorSwitchesAscending | Packages/com.428-tm.material-setter-tool-for-ma/Editor/MaterialSetterCreator.cs:197-210 | one donor's entries all target the same renderer, with strictly increasing slot indices |
| MaterialSwitches.SwitchesOrdered | Packages/com.428-tm.material-setter-tool-for-ma/Editor/MaterialSetterCreator.cs:191-220 | entry p comes from donor `DonorOf(..)[p]`, which gives it; an earlier entry never comes from a later donor, and two entries of the same donor appear in increasing slot order |
| MaterialSwitches.SwitchListOrdered | Packages/com.428-tm.material-setter-tool-for-ma/Editor/MaterialSetterCreator.cs:188-220 | the same order for the list built from the prefab's renderers in traversal order |
| MaterialSwitches.SwitchesSound | Packages/com.428-tm.material-setter-tool-for-ma/Editor/MaterialSetterCreator.cs:191-220 | every entry of the list comes from some donor renderer as described above |
| MaterialSwitches.SwitchesComplete | Packages/com.428-tm.material-setter-tool-for-ma/Editor/MaterialSetterCreator.cs:191-220 | no entry that a donor gives is missing from the list |
| MaterialSwitches.DonorCount | Packages/com.428-tm.material-setter-tool-for-ma/Editor/MaterialSetterCreator.cs:197-210 | a donor contributes at most as many entries as it holds materials, and exactly that many when its target renderer has at least as many slots |
| MaterialSwitches.SwitchListCount | Packages/com.428-tm.material-setter-tool-for-ma/Editor/MaterialSetterCreator.cs:236-242 | the switch list never has more entries than `CountMaterials` counts for the prefab, and exactly as many when every donor finds a target renderer with enough slots |
| MaterialSwitches.AppendSlotSwitches | Packages/com.428-tm.material-setter-tool-for-ma/Editor/MaterialSetterCreator.cs:197-212 | the slot loop appends one entry per picked slot, in slot order, and counts each |
| MaterialSwitches.SetupMaterialSetter | Packages/com.428-tm.material-setter-tool-for-ma/Editor/MaterialSetterCreator.cs:183-231 | without a prefab or a target the count is 0 and nothing is assigned; otherwise the setter receives the switch list and the count is its length |
| Creator.IconAfterPreview | Packages/com.428-tm.material-setter-tool-for-ma/Editor/MaterialSetterCreator.cs:136-152 | the icon changes only when the preview is wanted (preview flag on, no icon, a prefab) and returns a texture, and then it becomes that texture; an existing icon is kept |
| Creator.Updated | Packages/com.428-tm.material-setter-tool-for-ma/Editor/MaterialSetterCreator.cs:106-178 | building a variation keeps its name, prefab and preview flag; it is unchanged when a step before the preview throws or the preview throws |
| Creator.CreateVariationObject | Packages/com.428-tm.material-setter-tool-for-ma/Editor/MaterialSetterCreator.cs:106-178 | the variation is created exactly when no step throws, a failing preview included; only its icon in the list can change; a created object's menu shows that icon and its fresh Material Setter holds the switch list |
| Creator.Created | Packages/com.428-tm.material-setter-tool-for-ma/Editor/MaterialSetterCreator.cs:78-85 | at most all variations are counted as created, and all of them exactly when none fails |
| Creator.SwitchTotalAtMost | Packages/com.428-tm.material-setter-tool-for-ma/Editor/MaterialSetterCreator.cs:78-85 | the reported material total bounds the switches actually set up by the created variations |
| Creator.NothingCreatedNothingCounted | Packages/com.428-tm.material-setter-tool-for-ma/Editor/MaterialSetterCreator.cs:78-85 | when no variation is created, both totals are 0 |
| Creator.CreateVariations | Packages/com.428-tm.material-setter-tool-for-ma/Editor/MaterialSetterCreator.cs:75-85 | the loop updates each variation as building it does, counts the created variations, and adds up the created prefabs' material counts |
| PreviewMaterials.OverlayInPlace | Packages/com.428-tm.material-setter-tool-for-ma/Editor/PreviewGenerator.cs:113-123 | each slot below both lengths whose donor material is non-null is overwritten with it, all other slots are kept, and the flag says whether any slot was written |
| PreviewMaterials.NoWritesOverlay | Packages/com.428-tm.material-setter-tool-for-ma/Editor/PreviewGenerator.cs:125-129 | skipping the write-back when nothing was written loses nothing |
| PreviewMaterials.WritesIffPicked | Packages/com.428-tm.material-setter-tool-for-ma/Editor/PreviewGenerator.cs:114-123 | the copy writes some slot exactly when the same donor would give a Material Setter entry |
| PreviewMaterials.ApplyDonor | Packages/com.428-tm.material-setter-tool-for-ma/Editor/PreviewGenerator.cs:104-130 | one donor's step changes the avatar as specified, and reports a change exactly when the donor gives some entry |
| PreviewMaterials.ApplyPrefabMaterials | Packages/com.428-tm.material-setter-tool-for-ma/Editor/PreviewGenerator.cs:94-134 | false and no change for a missing prefab or avatar; otherwise the avatar ends in the dressed hierarchy, keeps its shape, and the result is true exactly when the switch list is non-empty |
| PreviewMaterials.ApplyAllConforms | Packages/com.428-tm.material-setter-tool-for-ma/Editor/PreviewGenerator.cs:102-131 | dressing changes only which materials slots hold: structure, names and slot counts stay |
| PreviewMaterials.ApplyOneBySwitches | Packages/com.428-tm.material-setter-tool-for-ma/Editor/PreviewGenerator.cs:108-130 | one donor's effect equals applying its switch entries in order |
| PreviewMaterials.ApplyAllBySwitches | Packages/com.428-tm.material-setter-tool-for-ma/Editor/PreviewGenerator.cs:102-131 | the donors' effects in turn equal applying their concatenated entries in order |
| PreviewMaterials.PreviewMatchesSetter | Packages/com.428-tm.material-setter-tool-for-ma/Editor/PreviewGenerator.cs:94-134 | the dressed avatar equals the avatar with the switch list built for the same donor against the same avatar applied in list order |
| PreviewMaterials.PreviewSlot | Packages/com.428-tm.material-setter-tool-for-ma/Editor/PreviewGenerator.cs:102-131 | a slot some donor writes shows the material of the last such entry in donor-then-slot order (the last donor wins); every other slot keeps its material |
| PreviewAssets.DecimalInjective | Packages/com.428-tm.material-setter-tool-for-ma/Editor/PreviewGenerator.cs:197 | different counters are written as different decimal strings |
| PreviewAssets.CandidateInjective | Packages/com.428-tm.material-setter-tool-for-ma/Editor/PreviewGenerator.cs:190-198 | different attempts try different file paths |
| PreviewAssets.ChosenUnique | Packages/com.428-tm.material-setter-tool-for-ma/Editor/PreviewGenerator.cs:194-200 | there is only one first free candidate path |
| PreviewAssets.PlainNameWhenFree | Packages/com.428-tm.material-setter-tool-for-ma/Editor/PreviewGenerator.cs:190-195 | when `Preview_<prefab>.png` is free it is the path chosen |
| PreviewAssets.ChooseFilePath | Packages/com.428-tm.material-setter-tool-for-ma/Editor/PreviewGenerator.cs:190-200 | the loop stops on the first candidate path (plain name, then `_1`, `_2`, …) that holds no texture, so an existing texture is never chosen |
| PreviewAssets.SavePreviewAsAsset | Packages/com.428-tm.material-setter-tool-for-ma/Editor/PreviewGenerator.cs:178-230 | the preview folder exists afterwards unless creating it failed; on success the texture is stored under the chosen path and the loaded asset is returned; on failure the captured texture is returned and no texture is added |
| PreviewCamera.PreviewCameraController.constructor | Packages/com.428-tm.material-setter-tool-for-ma/Editor/PreviewCameraController.cs:29-39 | without an avatar descriptor, or when setup throws before it changes anything, nothing is set up; when setup throws after the camera object exists, the avatar is on the preview layer and a fresh camera object exists with no render target; otherwise the avatar is wholly on the preview layer with every original layer remembered, hidden, and a fresh camera renders into a fresh square target |
| PreviewCamera.PreviewCameraController.SetupCamera | Packages/com.428-tm.material-setter-tool-for-ma/Editor/PreviewCameraController.cs:41-88 | the early return for an avatar without a descriptor, and a throw while reading the avatar's proportions, leave layers, active flag and camera untouched; a throw after line 65 leaves the camera object created and the render target not; otherwise the set-up state above |
| PreviewCamera.PreviewCameraController.MoveToPreviewLayer | Packages/com.428-tm.material-setter-tool-for-ma/Editor/PreviewCameraController.cs:61-62 | every node of the avatar goes to the preview layer, and the remembered layers are exactly the layers before |
| PreviewCamera.PreviewCameraController.CreateCamera | Packages/com.428-tm.material-setter-tool-for-ma/Editor/PreviewCameraController.cs:65-86 | a fresh camera culling all but the preview layer renders into a fresh target of the requested size |
| PreviewCamera.PreviewCameraController.SetLayerRecursively | Packages/com.428-tm.material-setter-tool-for-ma/Editor/PreviewCameraController.cs:129-137 | every node of the subtree is visited once: its previous layer is remembered and it is moved to the preview layer; no other node changes |
| PreviewCamera.PreviewCameraController.ResetLayers | Packages/com.428-tm.material-setter-tool-for-ma/Editor/PreviewCameraController.cs:142-150 | every remembered node of a still-existing avatar gets its remembered layer back, and the memory is emptied |
| PreviewCamera.PreviewCameraController.CapturePreview | Packages/com.428-tm.material-setter-tool-for-ma/Editor/PreviewCameraController.cs:93-124 | without a camera it returns nothing; otherwise one frame shows the avatar active, a square image is returned, the avatar is hidden again and the active render target is restored; a throw before the render leaves the avatar shown and renders nothing; a throw during the read-back leaves the avatar shown and the rig's target active |
| PreviewCamera.PreviewCameraController.Dispose | Packages/com.428-tm.material-setter-tool-for-ma/Editor/PreviewCameraController.cs:152-176 | every layer is back as before the session, the camera is destroyed, the target released, both fields cleared, and a set-up avatar is shown again |
| PreviewCamera.PhotographOnce | Packages/com.428-tm.material-setter-tool-for-ma/Editor/PreviewCameraController.cs:152-176 | a whole session restores every layer; an avatar with a descriptor ends shown; a second `Dispose` changes nothing |
| PreviewGenerator.CloneAvatarHidden | Packages/com.428-tm.material-setter-tool-for-ma/Editor/PreviewGenerator.cs:44-46 | the avatar's clone is a fresh copy, renamed and hidden |
| PreviewGenerator.ClonePrefabRenamed | Packages/com.428-tm.material-setter-tool-for-ma/Editor/PreviewGenerator.cs:49-50 | the prefab's clone is a fresh copy, renamed |
| PreviewGenerator.CaptureAndSave | Packages/com.428-tm.material-setter-tool-for-ma/Editor/PreviewGenerator.cs:63-69 | one frame of the avatar is taken and the picture is saved under the prefab's name; a throw during the capture saves nothing |
| PreviewGenerator.RigAndCapture | Packages/com.428-tm.material-setter-tool-for-ma/Editor/PreviewGenerator.cs:59-71 | a rig exists exactly when its constructor returned, a camera object exactly when the constructor got past its creation, and the clone was photographed exactly when the render was reached; a camera object of a constructor that threw is left undestroyed |
| PreviewGenerator.Photograph | Packages/com.428-tm.material-setter-tool-for-ma/Editor/PreviewGenerator.cs:53-71 | the avatar's clone is dressed in the prefab clone's materials before it is photographed |
| PreviewGenerator.Attempt | Packages/com.428-tm.material-setter-tool-for-ma/Editor/PreviewGenerator.cs:33-78 | each clone, the rig, its camera object and its render target exist exactly when the `try` block got far enough to create them; a throw yields no preview and saves nothing |
| PreviewGenerator.CleanUp | Packages/com.428-tm.material-setter-tool-for-ma/Editor/PreviewGenerator.cs:79-88 | the rig is disposed and both clones are destroyed, whichever of them exist; a camera object without a rig is not reached |
| PreviewGenerator.Run | Packages/com.428-tm.material-setter-tool-for-ma/Editor/PreviewGenerator.cs:33-88 | on every path the clones are destroyed and any render target released; the camera object is destroyed unless the constructor threw after creating it, when it is left in the scene; the active render target is restored except after a throw during the read-back, when it is the released render target |
| PreviewGenerator.GeneratePreview | Packages/com.428-tm.material-setter-tool-for-ma/Editor/PreviewGenerator.cs:23-89 | without a prefab, an avatar or a descriptor it returns nothing and has no effect; otherwise the single frame shows the dressed clone, the picture is saved, and the temporaries are cleaned up as `Run` states, with its two exceptions |
| Validator.IsChildOf | Packages/com.428-tm.material-setter-tool-for-ma/Editor/MaterialSetterValidator.cs:102-111 | true exactly when the parent is the child or one of its ancestors |
| Validator.VariationErrors | Packages/com.428-tm.material-setter-tool-for-ma/Editor/MaterialSetterValidator.cs:62-82 | every per-variation error carries a variation number between 1 and the list length |
| Validator.SettingsErrors | Packages/com.428-tm.material-setter-tool-for-ma/Editor/MaterialSetterValidator.cs:22-60 | the settings checks give no error exactly when the root is set and has a descriptor, the target is set and lies under the root, the menu name is non-empty and the list is non-empty |
| Validator.VariationErrorsOrdered | Packages/com.428-tm.material-setter-tool-for-ma/Editor/MaterialSetterValidator.cs:62-82 | per-variation errors appear in variation order |
| Validator.EntryErrorsExact | Packages/com.428-tm.material-setter-tool-for-ma/Editor/MaterialSetterValidator.cs:64-81 | a variation gets the unnamed error exactly when its name is empty, the no-prefab error exactly when it has no prefab, and the no-renderer error exactly when its prefab has no renderer, never both of the last two |
| Validator.VariationErrorsExact | Packages/com.428-tm.material-setter-tool-for-ma/Editor/MaterialSetterValidator.cs:62-82 | the list holds each per-variation error exactly for the variations it concerns |
| Validator.DuplicateErrorsExact | Packages/com.428-tm.material-setter-tool-for-ma/Editor/MaterialSetterValidator.cs:91-94 | one duplicate error is reported for each duplicated name, and no other |
| Validator.VariationErrorsDistinct | Packages/com.428-tm.material-setter-tool-for-ma/Editor/MaterialSetterValidator.cs:62-82 | no per-variation error is reported twice |
| Validator.NameKeysExact | Packages/com.428-tm.material-setter-tool-for-ma/Editor/MaterialSetterValidator.cs:85-87 | the groups are exactly the distinct non-empty names, each listed once |
| Validator.SharedKeysExact | Packages/com.428-tm.material-setter-tool-for-ma/Editor/MaterialSetterValidator.cs:88-89 | the kept groups are exactly those with more than one member |
| Validator.DuplicateNamesExact | Packages/com.428-tm.material-setter-tool-for-ma/Editor/MaterialSetterValidator.cs:85-89 | a name is reported as duplicated exactly when it is non-empty and borne by at least two variations, and each such name once |
| Validator.SettingsErrorsExact | Packages/com.428-tm.material-setter-tool-for-ma/Editor/MaterialSetterValidator.cs:22-60 | each settings error is in the list exactly when its own condition holds |
| Validator.ErrorsExact | Packages/com.428-tm.material-setter-tool-for-ma/Editor/MaterialSetterValidator.cs:16-97 | every possible error is in the list exactly when its cause holds |
| Validator.ErrorsOnce | Packages/com.428-tm.material-setter-tool-for-ma/Editor/MaterialSetterValidator.cs:16-97 | no error is reported twice |
| Validator.VariationErrorsNone | Packages/com.428-tm.material-setter-tool-for-ma/Editor/MaterialSetterValidator.cs:62-82 | there is no per-variation error exactly when every variation has a name, a prefab and a renderer in it |
| Validator.NamesDifferent | Packages/com.428-tm.material-setter-tool-for-ma/Editor/MaterialSetterValidator.cs:85-94 | among named variations, no name is duplicated exactly when all names differ |
| Validator.NoDuplicateNames | Packages/com.428-tm.material-setter-tool-for-ma/Editor/MaterialSetterValidator.cs:85-89 | the duplicate query is empty exactly when no non-empty name is shared |
| Validator.NoErrorsIffAccepted | Packages/com.428-tm.material-setter-tool-for-ma/Editor/MaterialSetterValidator.cs:16-97 | the error list is empty exactly when the settings are acceptable: root with a descriptor, target under it, a menu name, at least one variation, every variation named, with a prefab holding a renderer, and all names different |
| Validator.CheckObjects | Packages/com.428-tm.material-setter-tool-for-ma/Editor/MaterialSetterValidator.cs:22-48 | the root and target checks append their errors in source order |
| Validator.CheckSettings | Packages/com.428-tm.material-setter-tool-for-ma/Editor/MaterialSetterValidator.cs:22-60 | the settings checks append their errors in source order |
| Validator.CheckVariation | Packages/com.428-tm.material-setter-tool-for-ma/Editor/MaterialSetterValidator.cs:64-81 | one variation's checks append its errors |
| Validator.CheckVariations | Packages/com.428-tm.material-setter-tool-for-ma/Editor/MaterialSetterValidator.cs:62-82 | the loop appends every variation's errors in variation order |
| Validator.ReportDuplicates | Packages/com.428-tm.material-setter-tool-for-ma/Editor/MaterialSetterValidator.cs:91-94 | one duplicate error per queried name is appended, in query order |
| Validator.GetValidationErrors | Packages/com.428-tm.material-setter-tool-for-ma/Editor/MaterialSetterValidator.cs:16-97 | the method computes exactly the error list specified above |
| LegacyWindow.MaterialSetterCreatorWindow.constructor | Packages/com.tm428.material-setter-tool-for-ma/Editor/MaterialSetterCreatorWindow.cs:19-23 | a new window has no root, no target, the menu name "Color" and no variations |
| LegacyWindow.MaterialSetterCreatorWindow.OnEnable | Packages/com.tm428.material-setter-tool-for-ma/Editor/MaterialSetterCreatorWindow.cs:35-41 | an empty list receives one blank variation, so the list is never empty afterwards |
| LegacyWindow.MaterialSetterCreatorWindow.AddVariation | Packages/com.tm428.material-setter-tool-for-ma/Editor/MaterialSetterCreatorWindow.cs:147-150 | a blank variation is appended |
| LegacyWindow.MaterialSetterCreatorWindow.DeleteVariation | Packages/com.tm428.material-setter-tool-for-ma/Editor/MaterialSetterCreatorWindow.cs:133-139 | the chosen variation is removed unless it is the only one, so the last remaining variation is never removed |
| LegacyWindow.CheckLegacyVariation | Packages/com.tm428.material-setter-tool-for-ma/Editor/MaterialSetterCreatorWindow.cs:213-226 | the legacy checks of one variation give the refactored errors for that variation |
| LegacyWindow.CheckLegacyVariations | Packages/com.tm428.material-setter-tool-for-ma/Editor/MaterialSetterCreatorWindow.cs:211-227 | the legacy loop appends the refactored per-variation errors in variation order |
| LegacyWindow.MaterialSetterCreatorWindow.GetValidationErrors | Packages/com.tm428.material-setter-tool-for-ma/Editor/MaterialSetterCreatorWindow.cs:178-242 | the legacy validation gives exactly the refactored check's list for the window's settings |
| LegacyWindow.ValidationAgrees | Packages/com.428-tm.material-setter-tool-for-ma/Editor/MaterialSetterValidator.cs:16-97 | the check gives the same list for two variation lists that agree on names and prefabs, whatever their icons and preview flags |
| LegacyWindow.LegacyAgrees | Packages/com.tm428.material-setter-tool-for-ma/Editor/MaterialSetterCreatorWindow.cs:178-242 | the legacy variation list and a refactored list with the same names and prefabs are checked alike |
| LegacyWindow.MaterialSetterCreatorWindow.SetupMaterialSetter | Packages/com.tm428.material-setter-tool-for-ma/Editor/MaterialSetterCreatorWindow.cs:394-453 | with the window's own target: the count is 0 and nothing is assigned without a prefab or a target; otherwise the setter receives `SwitchList` and the count is its length. The legacy body is the same code as the refactored one, so this member calls the refactored method rather than proving a second copy |

## Left out

- Editor user interface: windows, layout, dialogs, progress bars, editor preferences, selection and pinging.
- The refactored editor window is presentation only; it is not part of this model.
- Undo registration and logging.
- The menu objects: the Modular Avatar menu-item and installer components, their settings, and the parameter they drive.
- The dialog that asks before replacing an existing menu object in `CreateMaterialSetterMenu`.
- `CreateMaterialSetterMenu`'s outer `try`/`catch`.
- Camera framing: head bone lookup, avatar height, distance, position, field of view, clip planes, and the constructor's extra floating-point parameters.
- Pixel contents: `ReadPixels`, PNG encoding and the file write. A texture is its size and, when loaded from the asset database, its path.
- `Object.Instantiate` internals. A clone copies the original's hierarchy, layers and active flag.
- Null strings. A null name or menu name is treated as the empty string, which `string.IsNullOrEmpty` treats alike.
- `CreateVariationObject`: the preview is not computed there. Its outcome is a parameter, because `GeneratePreview` is modelled separately and on other objects (`GameObject` clones).
- `PreviewCamera.PreviewCameraController.ResetLayers`: a node destroyed during a session is not modelled. Only the whole avatar can be destroyed, and then no layer is restored.
- The legacy window's `CreateMaterialSetterMenu` and `CreateVariationObject`. Its counting loop is the refactored one without the preview step, with the same counters.
- Variation fields edited through the legacy window's user interface.
- The index adjustment after a delete inside the legacy window's drawing loop, which only serves the redraw.
- `PreviewMaterials.PreviewMatchesSetter`: the preview is not proved to match the variation's Material Setter. The setter's list is built against the object to dress and the original prefab (MaterialSetterCreator.cs:165, 193). The preview builds nothing against that object: the donor is the prefab clone renamed "TempPrefab_Preview" (PreviewGenerator.cs:50), and it is matched against the avatar clone's root (PreviewGenerator.cs:53, 108). The donor root's empty path then resolves to the avatar root, and the name fallback looks for the renamed root's name. A renderer of the same name elsewhere in the avatar, earlier in traversal order, is dressed instead of the garment's.
- `PreviewGenerator.Run`: throws inside `Dispose` or `DestroyImmediate` in the `finally` block are not modelled.
- `PreviewGenerator.GeneratePreview`: a throw between the camera object's creation and its culling mask is merged with a throw after the mask. A throw between the render target's creation and the end of `SetupCamera` is not modelled.
