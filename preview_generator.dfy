/** Generating the preview image of one colour variation: the avatar and
    the variation's prefab are cloned, the clone of the avatar is dressed in
    the prefab's materials, photographed once by a preview camera rig, and
    the picture is saved as a texture asset. Whatever happens, the clones
    are destroyed and the originals are never touched; the rig is disposed
    when its constructor returned. */
module PreviewGenerator {
  import opened Hierarchy
  import opened Scene
  import opened PreviewCamera
  import opened PreviewMaterials
  import opened PreviewAssets

  /** The layer reserved for previews. */
  const PreviewLayer: int := 31
  /** Width and height of a preview, in pixels. */
  const PreviewSize: nat := 128

  const TempAvatarName: string := "TempAvatar_Preview"
  const TempPrefabName: string := "TempPrefab_Preview"

  /** The points of the generator's `try` block where it can throw, in
      order: the two clones, the material copy, the rig's constructor before
      it changes anything (`CreateController`) or once its camera object
      exists (`SetupCamera`), and the capture before the frame is rendered
      (`Capture`) or while the pixels are read back (`Readback`). */
  datatype Stage = CloneAvatar | ClonePrefab | ApplyMaterials | CreateController | SetupCamera | Capture | Readback

  function Rank(s: Stage): nat
  {
    match s
    case CloneAvatar => 0
    case ClonePrefab => 1
    case ApplyMaterials => 2
    case CreateController => 3
    case SetupCamera => 4
    case Capture => 5
    case Readback => 6
  }

  /** Whether the `try` block runs to the end or throws, and where. The
      exception is caught by the generator. */
  datatype PreviewFault = NoThrow | ThrowsAt(stage: Stage)

  /** Whether the `try` block got through step `s`. */
  predicate Passes(fault: PreviewFault, s: Stage)
  {
    fault.NoThrow? || Rank(s) < Rank(fault.stage)
  }

  /** The fault as the rig's constructor sees it. */
  function SetupFaultOf(fault: PreviewFault): SetupFault
  {
    if fault == ThrowsAt(CreateController) then ThrowsBeforeLayers
    else if fault == ThrowsAt(SetupCamera) then ThrowsAfterCamera
    else SetsUp
  }

  /** The fault as `CapturePreview` sees it. */
  function CaptureFaultOf(fault: PreviewFault): CaptureFault
  {
    if fault == ThrowsAt(Capture) then ThrowsBeforeRender
    else if fault == ThrowsAt(Readback) then ThrowsInReadback
    else Captures
  }

  /** The hierarchy the single preview frame shows: the renamed clone of the
      avatar wearing the materials of the renamed clone of the prefab. */
  function Dressed(prefab: Node, avatar: Node): Node
  {
    Applied(prefab.(name := TempPrefabName), avatar.(name := TempAvatarName))
  }

  /** The texture the generator returns after saving `captured` under the
      prefab's name: the loaded asset, or the captured texture itself when
      saving failed. */
  ghost predicate Saved(captured: Texture2D, result: Texture2D, prefabName: string,
                  fault: SaveFault, folders: set<string>, texturesBefore: set<string>, texturesAfter: set<string>)
  {
    if SaveFailed(fault, folders) then
      result == captured && texturesAfter == texturesBefore
    else
      && result.width == captured.width && result.height == captured.height
      && result.assetPath.Some?
      && ChosenFor(texturesBefore, prefabName, result.assetPath.value)
      && texturesAfter == texturesBefore + {result.assetPath.value}
  }

  /** The avatar's clone, renamed and hidden. */
  method CloneAvatarHidden(avatarRoot: GameObject) returns (clone: GameObject)
    requires avatarRoot.Valid()
    ensures fresh(clone) && clone.Valid() && !clone.destroyed && !clone.activeSelf
    ensures clone.tree == avatarRoot.tree.(name := TempAvatarName) && clone.layers == avatarRoot.layers
  {
    clone := new GameObject.Instantiate(avatarRoot);
    clone.Rename(TempAvatarName);
    clone.SetActive(false);
  }

  /** The prefab's clone, renamed. */
  method ClonePrefabRenamed(prefab: GameObject) returns (clone: GameObject)
    requires prefab.Valid()
    ensures fresh(clone) && clone.Valid() && !clone.destroyed
    ensures clone.tree == prefab.tree.(name := TempPrefabName)
  {
    clone := new GameObject.Instantiate(prefab);
    clone.Rename(TempPrefabName);
  }

  /** Photographs the rig's avatar once and saves the picture under the
      prefab's name. A throw during the capture leaves nothing saved. */
  method CaptureAndSave(controller: PreviewCameraController, prefabName: string, gfx: Graphics,
                        db: AssetDatabase, captureFault: CaptureFault, saveFault: SaveFault)
      returns (preview: Option<Texture2D>)
    requires controller.Valid() && controller.cameraObject != null
    requires controller.textureSize == PreviewSize
    modifies controller.subject`activeSelf, gfx, controller.cameraObject, db
    ensures controller.Valid()
    ensures gfx.activeRenderTexture
         == if captureFault == ThrowsInReadback then controller.renderTexture else old(gfx.activeRenderTexture)
    ensures controller.cameraObject.frames == old(controller.cameraObject.frames)
         + (if captureFault == ThrowsBeforeRender then [] else [Frame(controller.subject.tree, true, true)])
    ensures controller.cameraObject.destroyed == old(controller.cameraObject.destroyed)
    ensures captureFault != Captures ==> preview == None && db.folders == old(db.folders) && db.textures == old(db.textures)
    ensures captureFault == Captures ==>
      && preview.Some?
      && Saved(Texture2D(PreviewSize, PreviewSize, None), preview.value, prefabName,
               saveFault, old(db.folders), old(db.textures), db.textures)
      && db.folders == (if saveFault == FolderFails then old(db.folders) else old(db.folders) + {PreviewFolder})
  {
    var captured := controller.CapturePreview(gfx, captureFault);
    if captureFault != Captures {
      return None;
    }
    if captured.Some? {
      var saved := SavePreviewAsAsset(captured.value, prefabName, db, saveFault);
      preview := Some(saved);
    } else {
      preview := captured;
    }
  }

  /** `controller` is a rig set up on `avatar` for a preview: the avatar is
      on the preview layer, a camera culling only that layer renders into a
      preview-sized target. */
  ghost predicate Rigged(controller: PreviewCameraController, avatar: GameObject)
    reads controller, controller.subject, controller.cameraObject, controller.renderTexture
  {
    && controller.Valid() && controller.subject == avatar && controller.avatarObject == avatar
    && controller.cameraObject != null && controller.renderTexture != null
    && controller.cameraObject.cullingLayer == PreviewLayer && controller.textureSize == PreviewSize
    && controller.renderTexture.width == PreviewSize && controller.renderTexture.height == PreviewSize
  }

  /** The last steps of the generator's `try` block: a rig is set up on the
      dressed avatar clone, and the picture is taken and saved. `camera` and
      `target` are the camera object and the render target the rig's
      constructor created, whether or not it returned. */
  method RigAndCapture(tempAvatar: GameObject, prefabName: string, gfx: Graphics,
                       db: AssetDatabase, fault: PreviewFault, saveFault: SaveFault)
      returns (preview: Option<Texture2D>, controller: PreviewCameraController?,
               ghost camera: Camera?, ghost target: RenderTexture?)
    requires tempAvatar.Valid() && tempAvatar.tree.hasDescriptor
    requires Passes(fault, ApplyMaterials)
    modifies tempAvatar, gfx, db
    ensures gfx.activeRenderTexture == if fault == ThrowsAt(Readback) then target else old(gfx.activeRenderTexture)
    ensures tempAvatar.Valid() && tempAvatar.tree == old(tempAvatar.tree)
    ensures controller != null <==> Passes(fault, SetupCamera)
    ensures camera != null <==> Passes(fault, CreateController)
    ensures target != null <==> Passes(fault, SetupCamera)
    ensures camera != null ==> fresh(camera) && camera.cullingLayer == PreviewLayer
    ensures target != null ==> fresh(target)
    ensures fault == ThrowsAt(SetupCamera) ==>
      camera != null && !camera.destroyed && camera.targetTexture == null && camera.frames == []
    ensures controller != null ==>
      && fresh(controller) && Rigged(controller, tempAvatar)
      && camera == controller.cameraObject && target == controller.renderTexture
      && camera.frames == (if Passes(fault, Capture) then [Frame(old(tempAvatar.tree), true, true)] else [])
    ensures !fault.NoThrow? ==> preview == None && db.folders == old(db.folders) && db.textures == old(db.textures)
    ensures fault.NoThrow? ==>
      && preview.Some?
      && Saved(Texture2D(PreviewSize, PreviewSize, None), preview.value, prefabName,
               saveFault, old(db.folders), old(db.textures), db.textures)
      && db.folders == (if saveFault == FolderFails then old(db.folders) else old(db.folders) + {PreviewFolder})
  {
    preview, controller, camera, target := None, null, null, null;
    var rig := new PreviewCameraController(tempAvatar, PreviewLayer, PreviewSize, SetupFaultOf(fault));
    if !Passes(fault, SetupCamera) {
      camera := rig.cameraObject;
      return;
    }
    controller := rig;
    camera, target := rig.cameraObject, rig.renderTexture;
    preview := CaptureAndSave(controller, prefabName, gfx, db, CaptureFaultOf(fault), saveFault);
  }

  /** The part of the generator's `try` block after the clones exist:
      the avatar's clone is dressed in the prefab clone's materials, then
      photographed. */
  method Photograph(tempPrefab: GameObject, tempAvatar: GameObject, prefabName: string, gfx: Graphics,
                    db: AssetDatabase, fault: PreviewFault, saveFault: SaveFault)
      returns (preview: Option<Texture2D>, controller: PreviewCameraController?,
               ghost camera: Camera?, ghost target: RenderTexture?)
    requires tempAvatar.Valid() && tempAvatar.tree.hasDescriptor && tempPrefab != tempAvatar
    requires Passes(fault, ClonePrefab)
    modifies tempAvatar, gfx, db
    ensures gfx.activeRenderTexture == if fault == ThrowsAt(Readback) then target else old(gfx.activeRenderTexture)
    ensures tempAvatar.Valid()
    ensures controller != null <==> Passes(fault, SetupCamera)
    ensures camera != null <==> Passes(fault, CreateController)
    ensures target != null <==> Passes(fault, SetupCamera)
    ensures camera != null ==> fresh(camera) && camera.cullingLayer == PreviewLayer
    ensures target != null ==> fresh(target)
    ensures fault == ThrowsAt(SetupCamera) ==>
      camera != null && !camera.destroyed && camera.targetTexture == null && camera.frames == []
    ensures controller != null ==>
      && fresh(controller) && Rigged(controller, tempAvatar)
      && camera == controller.cameraObject && target == controller.renderTexture
      && camera.frames
         == (if Passes(fault, Capture) then [Frame(Applied(tempPrefab.tree, old(tempAvatar.tree)), true, true)] else [])
    ensures !fault.NoThrow? ==> preview == None && db.folders == old(db.folders) && db.textures == old(db.textures)
    ensures fault.NoThrow? ==>
      && preview.Some?
      && Saved(Texture2D(PreviewSize, PreviewSize, None), preview.value, prefabName,
               saveFault, old(db.folders), old(db.textures), db.textures)
      && db.folders == (if saveFault == FolderFails then old(db.folders) else old(db.folders) + {PreviewFolder})
  {
    if fault == ThrowsAt(ApplyMaterials) {
      return None, null, null, null;
    }
    var anyApplied := ApplyPrefabMaterials(tempPrefab, tempAvatar);
    preview, controller, camera, target := RigAndCapture(tempAvatar, prefabName, gfx, db, fault, saveFault);
  }

  /** The generator's `try` block, for inputs that passed the null and
      descriptor checks. It returns the preview (or nothing, when a step
      threw) and whatever it created before that step, for the cleanup. */
  method Attempt(prefab: GameObject, avatarRoot: GameObject, gfx: Graphics, db: AssetDatabase,
                 fault: PreviewFault, saveFault: SaveFault)
      returns (preview: Option<Texture2D>, tempAvatar: GameObject?, tempPrefab: GameObject?,
               controller: PreviewCameraController?, ghost camera: Camera?, ghost target: RenderTexture?)
    requires prefab.Valid() && avatarRoot.Valid() && avatarRoot.tree.hasDescriptor
    modifies gfx, db
    ensures gfx.activeRenderTexture == if fault == ThrowsAt(Readback) then target else old(gfx.activeRenderTexture)
    ensures tempAvatar != null <==> Passes(fault, CloneAvatar)
    ensures tempPrefab != null <==> Passes(fault, ClonePrefab)
    ensures controller != null <==> Passes(fault, SetupCamera)
    ensures camera != null <==> Passes(fault, CreateController)
    ensures target != null <==> Passes(fault, SetupCamera)
    ensures tempAvatar != null ==> fresh(tempAvatar) && tempAvatar.Valid() && tempAvatar != tempPrefab
    ensures tempPrefab != null ==> fresh(tempPrefab)
    ensures camera != null ==> fresh(camera) && camera.cullingLayer == PreviewLayer
    ensures target != null ==> fresh(target)
    ensures fault == ThrowsAt(SetupCamera) ==>
      camera != null && !camera.destroyed && camera.targetTexture == null && camera.frames == []
    ensures controller != null ==>
      && fresh(controller) && Rigged(controller, tempAvatar)
      && camera == controller.cameraObject && target == controller.renderTexture
      && camera.frames
         == (if Passes(fault, Capture) then [Frame(Dressed(prefab.tree, avatarRoot.tree), true, true)] else [])
    ensures !fault.NoThrow? ==> preview == None && db.folders == old(db.folders) && db.textures == old(db.textures)
    ensures fault.NoThrow? ==>
      && preview.Some?
      && Saved(Texture2D(PreviewSize, PreviewSize, None), preview.value, prefab.tree.name,
               saveFault, old(db.folders), old(db.textures), db.textures)
      && db.folders == (if saveFault == FolderFails then old(db.folders) else old(db.folders) + {PreviewFolder})
  {
    preview, tempAvatar, tempPrefab, controller, camera, target := None, null, null, null, null, null;
    if fault == ThrowsAt(CloneAvatar) {
      return;
    }
    tempAvatar := CloneAvatarHidden(avatarRoot);
    if fault == ThrowsAt(ClonePrefab) {
      return;
    }
    tempPrefab := ClonePrefabRenamed(prefab);
    preview, controller, camera, target := Photograph(tempPrefab, tempAvatar, prefab.tree.name, gfx, db, fault, saveFault);
  }

  /** After the generator: each clone, the camera object and the render
      target exist exactly when the `try` block got far enough to create
      them. The clones are destroyed and the render target released. The
      camera object is destroyed when the rig's constructor returned; when
      the constructor threw after creating it, no rig was kept to dispose
      of it, and it is left in the scene. */
  ghost predicate Disposed(fault: PreviewFault, avatarClone: GameObject?, prefabClone: GameObject?,
                           camera: Camera?, target: RenderTexture?)
    reads avatarClone, prefabClone, camera, target
  {
    && (avatarClone != null <==> Passes(fault, CloneAvatar)) && (avatarClone != null ==> avatarClone.destroyed)
    && (prefabClone != null <==> Passes(fault, ClonePrefab)) && (prefabClone != null ==> prefabClone.destroyed)
    && (camera != null <==> Passes(fault, CreateController))
    && (camera != null ==> camera.cullingLayer == PreviewLayer)
    && (camera != null && Passes(fault, SetupCamera) ==> camera.destroyed && camera.targetTexture == null)
    && (fault == ThrowsAt(SetupCamera) ==> camera != null && !camera.destroyed)
    && (target != null <==> Passes(fault, SetupCamera))
    && (target != null ==> target.released && target.width == PreviewSize && target.height == PreviewSize)
  }

  /** What the camera photographed: one frame of the dressed avatar clone,
      visible and wholly on the preview layer, when the frame was rendered,
      and nothing otherwise. */
  ghost predicate Photographed(fault: PreviewFault, camera: Camera?, prefab: Node, avatar: Node)
    reads camera
  {
    camera != null ==>
      camera.frames == (if Passes(fault, Capture) then [Frame(Dressed(prefab, avatar), true, true)] else [])
  }

  /** The generator's `finally` block: the rig, when there is one, is
      disposed (its camera destroyed, its target released), then both clones
      are destroyed. `camera` and `target` are the ones the rig's
      constructor created. */
  method CleanUp(fault: PreviewFault, controller: PreviewCameraController?, tempAvatar: GameObject?,
                 tempPrefab: GameObject?, ghost camera: Camera?, ghost target: RenderTexture?)
    requires tempAvatar != null <==> Passes(fault, CloneAvatar)
    requires tempPrefab != null <==> Passes(fault, ClonePrefab)
    requires controller != null <==> Passes(fault, SetupCamera)
    requires camera != null <==> Passes(fault, CreateController)
    requires camera != null ==> camera.cullingLayer == PreviewLayer
    requires fault == ThrowsAt(SetupCamera) ==> camera != null && !camera.destroyed
    requires controller != null ==>
      tempAvatar != null && Rigged(controller, tempAvatar)
      && camera == controller.cameraObject && target == controller.renderTexture
    requires controller == null ==> target == null
    modifies controller, camera, target, tempAvatar, tempPrefab
    ensures Disposed(fault, tempAvatar, tempPrefab, camera, target)
    ensures camera != null ==> camera.frames == old(camera.frames)
  {
    if controller != null {
      controller.Dispose();
    }
    if tempAvatar != null {
      tempAvatar.DestroyImmediate();
    }
    if tempPrefab != null {
      tempPrefab.DestroyImmediate();
    }
  }

  /** The generator for a prefab and an avatar with an avatar descriptor.
      After a throw during the read-back the engine's active render target
      is still the rig's, which the cleanup has released. */
  method Run(prefab: GameObject, avatarRoot: GameObject, gfx: Graphics, db: AssetDatabase,
             fault: PreviewFault, saveFault: SaveFault)
      returns (preview: Option<Texture2D>, ghost avatarClone: GameObject?, ghost prefabClone: GameObject?,
               ghost camera: Camera?, ghost target: RenderTexture?)
    requires prefab.Valid() && avatarRoot.Valid() && avatarRoot.tree.hasDescriptor
    modifies gfx, db
    ensures gfx.activeRenderTexture == if fault == ThrowsAt(Readback) then target else old(gfx.activeRenderTexture)
    ensures (avatarClone != null ==> fresh(avatarClone)) && (prefabClone != null ==> fresh(prefabClone))
    ensures (camera != null ==> fresh(camera)) && (target != null ==> fresh(target))
    ensures Disposed(fault, avatarClone, prefabClone, camera, target)
    ensures Photographed(fault, camera, prefab.tree, avatarRoot.tree)
    ensures !fault.NoThrow? ==> preview == None && db.folders == old(db.folders) && db.textures == old(db.textures)
    ensures fault.NoThrow? ==>
      && preview.Some?
      && Saved(Texture2D(PreviewSize, PreviewSize, None), preview.value, prefab.tree.name,
               saveFault, old(db.folders), old(db.textures), db.textures)
      && db.folders == (if saveFault == FolderFails then old(db.folders) else old(db.folders) + {PreviewFolder})
  {
    var tempAvatar, tempPrefab, controller;
    preview, tempAvatar, tempPrefab, controller, camera, target := Attempt(prefab, avatarRoot, gfx, db, fault, saveFault);
    avatarClone, prefabClone := tempAvatar, tempPrefab;
    CleanUp(fault, controller, tempAvatar, tempPrefab, camera, target);
  }

  /** `GeneratePreview`. Without a prefab, an avatar, or an avatar
      descriptor on the avatar it returns nothing and does nothing.
      Otherwise its single frame shows the avatar's clone in the prefab's
      materials, visible and wholly on the preview layer; the picture is
      saved; and whether or not a step threw, the clones are destroyed and
      the render target released. Two throws are not fully cleaned up: one
      in the rig's constructor after its camera object exists leaves that
      object in the scene, and one during the read-back leaves the released
      render target active. The originals are not modified. */
  method GeneratePreview(prefab: GameObject?, avatarRoot: GameObject?, gfx: Graphics, db: AssetDatabase,
                         fault: PreviewFault, saveFault: SaveFault)
      returns (preview: Option<Texture2D>, ghost avatarClone: GameObject?, ghost prefabClone: GameObject?,
               ghost camera: Camera?, ghost target: RenderTexture?)
    requires prefab != null ==> prefab.Valid()
    requires avatarRoot != null ==> avatarRoot.Valid()
    modifies gfx, db
    ensures (avatarClone != null ==> fresh(avatarClone)) && (prefabClone != null ==> fresh(prefabClone))
    ensures (camera != null ==> fresh(camera)) && (target != null ==> fresh(target))
    ensures prefab == null || avatarRoot == null || !avatarRoot.tree.hasDescriptor ==>
      && preview == None && avatarClone == null && prefabClone == null && camera == null && target == null
      && gfx.activeRenderTexture == old(gfx.activeRenderTexture)
      && db.folders == old(db.folders) && db.textures == old(db.textures)
    ensures prefab != null && avatarRoot != null && avatarRoot.tree.hasDescriptor ==>
      && gfx.activeRenderTexture == (if fault == ThrowsAt(Readback) then target else old(gfx.activeRenderTexture))
      && Disposed(fault, avatarClone, prefabClone, camera, target)
      && Photographed(fault, camera, prefab.tree, avatarRoot.tree)
      && (!fault.NoThrow? ==> preview == None && db.folders == old(db.folders) && db.textures == old(db.textures))
      && (fault.NoThrow? ==>
            && preview.Some?
            && Saved(Texture2D(PreviewSize, PreviewSize, None), preview.value, prefab.tree.name,
                     saveFault, old(db.folders), old(db.textures), db.textures)
            && db.folders == (if saveFault == FolderFails then old(db.folders) else old(db.folders) + {PreviewFolder}))
  {
    preview, avatarClone, prefabClone, camera, target := None, null, null, null, null;
    if prefab == null || avatarRoot == null {
      return;
    }
    if !avatarRoot.tree.hasDescriptor {
      return;
    }
    preview, avatarClone, prefabClone, camera, target := Run(prefab, avatarRoot, gfx, db, fault, saveFault);
  }
}
