/** The engine objects the tool changes in place: live game-object
    hierarchies, cameras, render targets, the engine-wide active render
    target and the asset database. Only the state the tool reads or writes
    is kept. */
module Scene {
  import opened Hierarchy

  /** A game object living in the scene, with everything below it.
      `tree` holds the structure, names, renderers and materials; `layers`
      holds each node's `layer`, by address; `activeSelf` is the root's
      active flag; `destroyed` is set by `DestroyImmediate`. */
  class GameObject {
    var tree: Node
    var layers: map<Address, int>
    var activeSelf: bool
    var destroyed: bool

    /** Every node of the hierarchy has exactly one layer. */
    ghost predicate Valid()
      reads this
    {
      layers.Keys == Nodes(tree)
    }

    /** A game object with the given hierarchy and layers. */
    constructor (tree: Node, layers: map<Address, int>, active: bool)
      requires layers.Keys == Nodes(tree)
      ensures Valid()
      ensures this.tree == tree && this.layers == layers
      ensures activeSelf == active && !destroyed
    {
      this.tree := tree;
      this.layers := layers;
      activeSelf := active;
      destroyed := false;
    }

    /** `Object.Instantiate`: a new object copying the original's whole
        hierarchy, components, layers and active flag. */
    constructor Instantiate(original: GameObject)
      requires original.Valid()
      ensures Valid()
      ensures tree == original.tree && layers == original.layers
      ensures activeSelf == original.activeSelf && !destroyed
    {
      tree := original.tree;
      layers := original.layers;
      activeSelf := original.activeSelf;
      destroyed := false;
    }

    /** Assigning `name`: renames the root, nothing else. */
    method Rename(newName: string)
      requires Valid()
      modifies this`tree
      ensures Valid()
      ensures tree == old(tree).(name := newName)
    {
      NodesOfChildren(tree, tree.(name := newName));
      tree := tree.(name := newName);
    }

    method SetActive(value: bool)
      modifies this`activeSelf
      ensures activeSelf == value
    {
      activeSelf := value;
    }

    method DestroyImmediate()
      modifies this`destroyed
      ensures destroyed
    {
      destroyed := true;
    }
  }

  /** A render target of fixed size. */
  class RenderTexture {
    const width: nat
    const height: nat
    const depth: nat
    var released: bool

    constructor (width: nat, height: nat, depth: nat)
      ensures this.width == width && this.height == height && this.depth == depth
      ensures !released
    {
      this.width := width;
      this.height := height;
      this.depth := depth;
      released := false;
    }

    method Release()
      modifies this`released
      ensures released
    {
      released := true;
    }
  }

  /** Engine-wide graphics state: the render target that pixel reads use
      (`RenderTexture.active`). */
  class Graphics {
    var activeRenderTexture: RenderTexture?

    constructor (active: RenderTexture?)
      ensures activeRenderTexture == active
    {
      activeRenderTexture := active;
    }
  }

  /** Every node of a hierarchy sits on `layer`. */
  ghost predicate AllOnLayer(layers: map<Address, int>, layer: int)
  {
    forall a :: a in layers ==> layers[a] == layer
  }

  /** What one `Camera.Render` call saw of the photographed object: its
      hierarchy (with the materials it wore), whether it was active and
      whether all of it was on the camera's culling layer. */
  datatype Frame = Frame(shown: Node, subjectActive: bool, subjectOnLayer: bool)

  /** A camera game object with its `Camera` component. Its culling mask is
      `1 << cullingLayer`, so it sees exactly the nodes on that layer. */
  class Camera {
    const cullingLayer: int
    var targetTexture: RenderTexture?
    var destroyed: bool
    ghost var frames: seq<Frame>

    constructor (cullingLayer: int)
      ensures this.cullingLayer == cullingLayer
      ensures targetTexture == null && !destroyed && frames == []
    {
      this.cullingLayer := cullingLayer;
      targetTexture := null;
      destroyed := false;
      frames := [];
    }

    /** `Camera.Render`: draws into `targetTexture`; the frame records what
        the camera saw of `subject`. */
    method Render(subject: GameObject)
      modifies this`frames
      ensures frames == old(frames) + [Frame(subject.tree, subject.activeSelf, AllOnLayer(subject.layers, cullingLayer))]
    {
      frames := frames + [Frame(subject.tree, subject.activeSelf, AllOnLayer(subject.layers, cullingLayer))];
    }

    method DestroyImmediate()
      modifies this`destroyed
      ensures destroyed
    {
      destroyed := true;
    }
  }

  /** A `Texture2D`: its size and, for one loaded from the asset database,
      the asset path it came from. Pixel contents are not modelled. */
  datatype Texture2D = Texture2D(width: nat, height: nat, assetPath: Option<string>)

  /** The project's asset database: its folders and the paths that hold a
      texture asset. */
  class AssetDatabase {
    var folders: set<string>
    var textures: set<string>

    constructor (folders: set<string>, textures: set<string>)
      ensures this.folders == folders && this.textures == textures
    {
      this.folders := folders;
      this.textures := textures;
    }
  }
}
