/** The camera rig that photographs an avatar for a preview: it moves the
    whole avatar onto a dedicated layer, keeps the avatar hidden except while
    a frame is rendered, and puts every layer back when it is disposed. */
module PreviewCamera {
  import opened Hierarchy
  import opened Scene

  /** Bit depth of the render target's depth buffer. */
  const DepthBits: nat := 24

  /** Where `SetupCamera` throws on an avatar with a descriptor, if it does:
      while reading the avatar's proportions, before anything is changed, or
      once the camera object exists with its culling mask, before the render
      target is made. The exception leaves the constructor. */
  datatype SetupFault = SetsUp | ThrowsBeforeLayers | ThrowsAfterCamera

  /** Where `CapturePreview` throws, if it does: once the avatar is shown,
      before the frame is rendered, or while the pixels are read back, once
      the engine's active render target is the rig's. */
  datatype CaptureFault = Captures | ThrowsBeforeRender | ThrowsInReadback

  /** Every node of `nodes` mapped to `layer`. */
  function Fill(nodes: set<Address>, layer: int): (m: map<Address, int>)
    ensures m.Keys == nodes
    ensures AllOnLayer(m, layer)
  {
    map a | a in nodes :: layer
  }

  /** `layers` with every node of `region` moved onto `layer`. */
  function Relayer(layers: map<Address, int>, region: set<Address>, layer: int): (m: map<Address, int>)
    ensures m.Keys == layers.Keys
  {
    map a | a in layers :: if a in region then layer else layers[a]
  }

  /** The layers of the nodes of `region` alone. */
  function Restrict(layers: map<Address, int>, region: set<Address>): (m: map<Address, int>)
    requires region <= layers.Keys
    ensures m.Keys == region
  {
    map a | a in region :: layers[a]
  }

  /** Handling a region and then a second, disjoint one handles their
      union: both moved onto the layer, and the layers both had at the start
      remembered. */
  lemma RegionAfterRegion(before: map<Address, int>, layers: map<Address, int>,
                          r1: set<Address>, r2: set<Address>, layer: int)
    requires r1 + r2 <= layers.Keys && r1 !! r2
    ensures Relayer(Relayer(layers, r1, layer), r2, layer) == Relayer(layers, r1 + r2, layer)
    ensures before + Restrict(layers, r1) + Restrict(Relayer(layers, r1, layer), r2)
         == before + Restrict(layers, r1 + r2)
  {
    assert Restrict(Relayer(layers, r1, layer), r2) == Restrict(layers, r2);
  }

  /** Handling child `i` of the node at `obj` after the node and its first
      `i` children (the region `done`) extends the handled region by that
      child's subtree. */
  lemma ChildStep(before: map<Address, int>, layers: map<Address, int>, obj: Address, node: Node,
                  i: nat, done: set<Address>, layer: int)
    requires i < |node.children| && done == Visited(obj, node, i) && done <= Shift(obj, Nodes(node))
    requires Shift(obj, Nodes(node)) <= layers.Keys && Shift(obj, Nodes(node)) !! before.Keys
    ensures Shift(obj + [i], Nodes(node.children[i])) <= Relayer(layers, done, layer).Keys
    ensures Shift(obj + [i], Nodes(node.children[i])) !! (before + Restrict(layers, done)).Keys
    ensures done + Shift(obj + [i], Nodes(node.children[i])) == Visited(obj, node, i + 1)
    ensures Visited(obj, node, i + 1) <= Shift(obj, Nodes(node))
    ensures Relayer(Relayer(layers, done, layer), Shift(obj + [i], Nodes(node.children[i])), layer)
         == Relayer(layers, done + Shift(obj + [i], Nodes(node.children[i])), layer)
    ensures before + Restrict(layers, done) + Restrict(Relayer(layers, done, layer), Shift(obj + [i], Nodes(node.children[i])))
         == before + Restrict(layers, done + Shift(obj + [i], Nodes(node.children[i])))
  {
    VisitedStep(obj, node, i);
    var sub := Shift(obj + [i], Nodes(node.children[i]));
    RegionAfterRegion(before, layers, done, sub, layer);
  }

  /** Moving or remembering one node is moving or remembering the region
      made of that node alone. */
  lemma SingleNode(before: map<Address, int>, layers: map<Address, int>, a: Address, layer: int)
    requires a in layers
    ensures layers[a := layer] == Relayer(layers, {a}, layer)
    ensures before[a := layers[a]] == before + Restrict(layers, {a})
  {
  }

  /** Moving every node onto a layer fills the layer; remembering every node
      remembers the whole map. */
  lemma WholeRegion(layers: map<Address, int>, layer: int)
    ensures Relayer(layers, layers.Keys, layer) == Fill(layers.Keys, layer)
    ensures map[] + Restrict(layers, layers.Keys) == layers
  {
  }

  class PreviewCameraController {
    /** The avatar handed to the constructor. */
    const subject: GameObject
    const previewLayer: int
    const textureSize: nat
    /** Set once the avatar turned out to carry an avatar descriptor. */
    var avatarObject: GameObject?
    /** The layer each node had before the session, by node. */
    var originalLayers: map<Address, int>
    /** The camera game object with its `Camera` component. */
    var cameraObject: Camera?
    var renderTexture: RenderTexture?

    /** The rig's invariant: a camera exists only for an avatar that has been
        moved, all of it, onto the preview layer, with every original layer
        remembered; the render target has the requested size. */
    ghost predicate Valid()
      reads this, subject
    {
      && subject.Valid()
      && (avatarObject == null || avatarObject == subject)
      && originalLayers.Keys <= subject.layers.Keys
      && (avatarObject == null ==> originalLayers == map[] && cameraObject == null && renderTexture == null)
      && (cameraObject != null ==>
            && renderTexture != null
            && cameraObject.cullingLayer == previewLayer
            && originalLayers.Keys == subject.layers.Keys
            && AllOnLayer(subject.layers, previewLayer))
      && (renderTexture != null ==> renderTexture.width == textureSize && renderTexture.height == textureSize)
    }

    /** Without an avatar descriptor nothing is set up and the avatar is
        untouched; with one the avatar is moved onto the preview layer, a
        camera culling only that layer renders into a fresh square target,
        and the avatar is hidden. */
    constructor (avatar: GameObject, layer: int, texSize: nat, fault: SetupFault)
      requires avatar.Valid()
      modifies avatar
      ensures fault != ThrowsAfterCamera || !avatar.tree.hasDescriptor ==> Valid()
      ensures avatar.Valid()
      ensures subject == avatar && previewLayer == layer && textureSize == texSize
      ensures avatar.tree == old(avatar.tree) && avatar.destroyed == old(avatar.destroyed)
      ensures avatar.tree.hasDescriptor && fault == SetsUp ==>
        && avatarObject == avatar
        && originalLayers == old(avatar.layers)
        && avatar.layers == Fill(Nodes(avatar.tree), layer)
        && !avatar.activeSelf
        && cameraObject != null && fresh(cameraObject)
        && renderTexture != null && fresh(renderTexture)
        && cameraObject.targetTexture == renderTexture
        && !cameraObject.destroyed && cameraObject.frames == []
      ensures avatar.tree.hasDescriptor && fault == ThrowsAfterCamera ==>
        && avatarObject == avatar
        && originalLayers == old(avatar.layers)
        && avatar.layers == Fill(Nodes(avatar.tree), layer)
        && avatar.activeSelf == old(avatar.activeSelf)
        && cameraObject != null && fresh(cameraObject) && renderTexture == null
        && cameraObject.cullingLayer == layer && cameraObject.targetTexture == null
        && !cameraObject.destroyed && cameraObject.frames == []
      ensures !avatar.tree.hasDescriptor || fault == ThrowsBeforeLayers ==>
        && avatarObject == null && cameraObject == null && renderTexture == null
        && avatar.layers == old(avatar.layers) && avatar.activeSelf == old(avatar.activeSelf)
    {
      subject := avatar;
      previewLayer := layer;
      textureSize := texSize;
      avatarObject := null;
      originalLayers := map[];
      cameraObject := null;
      renderTexture := null;
      new;
      SetupCamera(avatar, fault);
    }

    method SetupCamera(avatar: GameObject, fault: SetupFault)
      requires Valid() && avatar == subject
      requires avatarObject == null
      modifies this, avatar
      ensures fault != ThrowsAfterCamera || !avatar.tree.hasDescriptor ==> Valid()
      ensures avatar.Valid()
      ensures avatar.tree == old(avatar.tree) && avatar.destroyed == old(avatar.destroyed)
      ensures avatar.tree.hasDescriptor && fault == SetsUp ==>
        && avatarObject == avatar
        && originalLayers == old(avatar.layers)
        && avatar.layers == Fill(Nodes(avatar.tree), previewLayer)
        && !avatar.activeSelf
        && cameraObject != null && fresh(cameraObject)
        && renderTexture != null && fresh(renderTexture)
        && cameraObject.targetTexture == renderTexture
        && !cameraObject.destroyed && cameraObject.frames == []
      ensures avatar.tree.hasDescriptor && fault == ThrowsAfterCamera ==>
        && avatarObject == avatar
        && originalLayers == old(avatar.layers)
        && avatar.layers == Fill(Nodes(avatar.tree), previewLayer)
        && avatar.activeSelf == old(avatar.activeSelf)
        && cameraObject != null && fresh(cameraObject) && renderTexture == null
        && cameraObject.cullingLayer == previewLayer && cameraObject.targetTexture == null
        && !cameraObject.destroyed && cameraObject.frames == []
      ensures !avatar.tree.hasDescriptor || fault == ThrowsBeforeLayers ==>
        && avatarObject == null && cameraObject == null && renderTexture == null
        && avatar.layers == old(avatar.layers) && avatar.activeSelf == old(avatar.activeSelf)
    {
      if !avatar.tree.hasDescriptor {
        return;
      }
      if fault == ThrowsBeforeLayers {
        return;
      }
      avatarObject := avatar;
      MoveToPreviewLayer();
      if fault == ThrowsAfterCamera {
        cameraObject := new Camera(previewLayer);
        return;
      }
      CreateCamera();
      avatar.SetActive(false);
    }

    /** The whole avatar moved onto the preview layer, every original layer
        remembered. */
    method MoveToPreviewLayer()
      requires subject.Valid() && originalLayers == map[]
      modifies this`originalLayers, subject`layers
      ensures subject.Valid()
      ensures originalLayers == old(subject.layers)
      ensures subject.layers == Fill(Nodes(subject.tree), previewLayer)
    {
      ShiftEmpty(Nodes(subject.tree));
      WholeRegion(subject.layers, previewLayer);
      SetLayerRecursively([], subject.tree);
    }

    /** A camera culling everything but the preview layer, rendering into a
        fresh square target. */
    method CreateCamera()
      modifies this`cameraObject, this`renderTexture
      ensures cameraObject != null && fresh(cameraObject)
      ensures renderTexture != null && fresh(renderTexture)
      ensures cameraObject.cullingLayer == previewLayer
      ensures renderTexture.width == textureSize && renderTexture.height == textureSize
      ensures cameraObject.targetTexture == renderTexture
      ensures !cameraObject.destroyed && cameraObject.frames == []
    {
      var cam := new Camera(previewLayer);
      var rt := new RenderTexture(textureSize, textureSize, DepthBits);
      cam.targetTexture := rt;
      cameraObject := cam;
      renderTexture := rt;
    }

    /** Moves the node at `obj` and everything below it onto the preview
        layer, remembering each one's previous layer. Each node is recorded
        once: the dictionary's `Add` would throw on a node seen twice. */
    method SetLayerRecursively(obj: Address, node: Node)
      requires ValidAddress(subject.tree, obj) && At(subject.tree, obj) == node
      requires Shift(obj, Nodes(node)) <= subject.layers.Keys
      requires Shift(obj, Nodes(node)) !! originalLayers.Keys
      modifies this`originalLayers, subject`layers
      ensures originalLayers == old(originalLayers) + Restrict(old(subject.layers), Shift(obj, Nodes(node)))
      ensures subject.layers == Relayer(old(subject.layers), Shift(obj, Nodes(node)), previewLayer)
      decreases node
    {
      ghost var start := subject.layers;
      ghost var remembered := originalLayers;
      ghost var t := subject.tree;
      VisitedAll(obj, node);
      VisitedNone(obj, node);
      assert obj in Shift(obj, Nodes(node)) by {
        assert obj == obj + [];
      }
      SingleNode(remembered, start, obj, previewLayer);
      originalLayers := originalLayers[obj := subject.layers[obj]];
      subject.layers := subject.layers[obj := previewLayer];
      ghost var done := {obj};
      var i: nat := 0;
      while i < |node.children|
        invariant 0 <= i <= |node.children|
        invariant subject.tree == t
        invariant done == Visited(obj, node, i) && done <= Shift(obj, Nodes(node))
        invariant originalLayers == remembered + Restrict(start, done)
        invariant subject.layers == Relayer(start, done, previewLayer)
      {
        ChildStep(remembered, start, obj, node, i, done, previewLayer);
        AtChild(t, obj, i);
        SetLayerRecursively(obj + [i], node.children[i]);
        done := done + Shift(obj + [i], Nodes(node.children[i]));
        i := i + 1;
      }
    }

    /** Puts back every remembered layer, unless the avatar has been
        destroyed in the meantime (its nodes then compare equal to null),
        and forgets them. */
    method ResetLayers()
      requires Valid()
      modifies this`originalLayers, subject`layers
      ensures originalLayers == map[]
      ensures subject.layers == if subject.destroyed then old(subject.layers) else old(subject.layers) + old(originalLayers)
    {
      var pending := originalLayers.Keys;
      while pending != {}
        invariant pending <= originalLayers.Keys
        invariant originalLayers == old(originalLayers)
        invariant subject.layers == if subject.destroyed then old(subject.layers)
          else old(subject.layers) + Restrict(originalLayers, originalLayers.Keys - pending)
        decreases pending
      {
        var k :| k in pending;
        if !subject.destroyed {
          assert Restrict(originalLayers, originalLayers.Keys - (pending - {k}))
            == Restrict(originalLayers, originalLayers.Keys - pending)[k := originalLayers[k]];
          subject.layers := subject.layers[k := originalLayers[k]];
        }
        pending := pending - {k};
      }
      assert Restrict(originalLayers, originalLayers.Keys - {}) == originalLayers;
      originalLayers := map[];
    }

    /** Renders one frame with the avatar shown and reads it back. Without a
        camera there is nothing to capture. When nothing throws, the avatar
        is hidden again and the engine's active render target is what it was
        before. There is no `finally`: a throw leaves the avatar shown, and a
        throw during the read-back leaves the rig's render target active. A
        throw yields no texture. */
    method CapturePreview(gfx: Graphics, fault: CaptureFault) returns (tex: Option<Texture2D>)
      requires Valid()
      modifies subject`activeSelf, gfx, cameraObject
      ensures Valid()
      ensures old(cameraObject) == null ==>
        tex == None && subject.activeSelf == old(subject.activeSelf)
        && gfx.activeRenderTexture == old(gfx.activeRenderTexture)
      ensures old(cameraObject) != null ==>
        && tex == (if fault == Captures then Some(Texture2D(textureSize, textureSize, None)) else None)
        && subject.activeSelf == (fault != Captures)
        && gfx.activeRenderTexture
           == (if fault == ThrowsInReadback then renderTexture else old(gfx.activeRenderTexture))
        && cameraObject.frames
           == old(cameraObject.frames) + (if fault == ThrowsBeforeRender then [] else [Frame(subject.tree, true, true)])
        && cameraObject.targetTexture == old(cameraObject.targetTexture)
        && cameraObject.destroyed == old(cameraObject.destroyed)
    {
      if cameraObject == null || renderTexture == null {
        return None;
      }
      avatarObject.SetActive(true);
      if fault == ThrowsBeforeRender {
        return None;
      }
      cameraObject.Render(avatarObject);
      var currentActive := gfx.activeRenderTexture;
      gfx.activeRenderTexture := renderTexture;
      if fault == ThrowsInReadback {
        return None;
      }
      tex := Some(Texture2D(renderTexture.width, renderTexture.height, None));
      gfx.activeRenderTexture := currentActive;
      avatarObject.SetActive(false);
    }

    /** Ends the session: every layer back as it was before, the camera
        destroyed, the render target released, the avatar shown again. */
    method Dispose()
      requires Valid()
      modifies this, subject, cameraObject, renderTexture
      ensures Valid()
      ensures originalLayers == map[] && cameraObject == null && renderTexture == null
      ensures avatarObject == old(avatarObject)
      ensures subject.tree == old(subject.tree) && subject.destroyed == old(subject.destroyed)
      ensures subject.layers == if old(subject.destroyed) then old(subject.layers)
        else old(subject.layers) + old(originalLayers)
      ensures old(cameraObject) != null ==> old(cameraObject).destroyed && old(cameraObject).targetTexture == null
      ensures old(cameraObject) != null ==> old(cameraObject).frames == old(cameraObject.frames)
      ensures old(renderTexture) != null ==> old(renderTexture).released
      ensures subject.activeSelf == if avatarObject != null && !subject.destroyed then true
        else old(subject.activeSelf)
    {
      ResetLayers();
      if cameraObject != null {
        cameraObject.targetTexture := null;
        cameraObject.DestroyImmediate();
        cameraObject := null;
      }
      if renderTexture != null {
        renderTexture.Release();
        renderTexture := null;
      }
      if avatarObject != null && !avatarObject.destroyed {
        avatarObject.SetActive(true);
      }
    }
  }

  /** A whole session on a live avatar: set up, capture once, dispose, and
      dispose again. An avatar with a descriptor yields a square image and
      ends shown; every node of any avatar ends on the layer it started on,
      and a second `Dispose` changes nothing. */
  method PhotographOnce(avatar: GameObject, gfx: Graphics, layer: int, size: nat)
      returns (tex: Option<Texture2D>)
    requires avatar.Valid() && !avatar.destroyed
    modifies avatar, gfx
    ensures avatar.Valid()
    ensures avatar.tree == old(avatar.tree) && !avatar.destroyed
    ensures avatar.layers == old(avatar.layers)
    ensures gfx.activeRenderTexture == old(gfx.activeRenderTexture)
    ensures avatar.tree.hasDescriptor ==> tex == Some(Texture2D(size, size, None)) && avatar.activeSelf
    ensures !avatar.tree.hasDescriptor ==> tex == None && avatar.activeSelf == old(avatar.activeSelf)
  {
    var rig := new PreviewCameraController(avatar, layer, size, SetsUp);
    tex := rig.CapturePreview(gfx, Captures);
    rig.Dispose();
    ghost var once := (avatar.layers, avatar.activeSelf);
    rig.Dispose();
    assert avatar.layers == once.0 by {
      assert once.0 + map[] == once.0;
    }
    assert avatar.activeSelf == once.1;
  }
}
