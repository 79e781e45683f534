/** The colour variations a menu is built from. */
module Variations {
  import opened Hierarchy
  import opened Scene

  /** One entry of the variation list: the menu item's name, the prefab
      whose materials the variation switches to, the menu icon and whether
      a preview should be generated for a missing icon. */
  datatype ColorVariation = ColorVariation(name: string, prefab: Option<Node>, icon: Option<Texture2D>,
                                           autoGeneratePreview: bool)

  /** A freshly added entry: no name, no prefab, no icon, automatic preview
      on. */
  const NewVariation: ColorVariation := ColorVariation("", None, None, true)
}
