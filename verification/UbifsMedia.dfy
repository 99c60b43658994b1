/** Sizes of what UBIFS stores. */
module UbifsMedia {

  const INO_NODE_SZ := 160
  const DENT_NODE_SZ := 56
}
