/** The two command-line enumerations of lutris-coverup. */
module Enums {

  /** How a fetched cover or banner is brought to Lutris' size (`NONE`, `STRETCH`, `CROP`). */
  datatype ResizeMethod = NoResize | Stretch | Crop

  /** The `--target` option: every kind of asset, or one of them. */
  datatype AssetType = All | Covers | Banners | Icons

  /** One concrete kind of asset, with its own directory, file name and size. */
  type AssetKind = t: AssetType | t != All witness Covers

  /** `target is KIND or target is AssetType.ALL`: whether a run with `target` handles `kind`. */
  predicate Includes(target: AssetType, kind: AssetKind)
  {
    target == kind || target == All
  }
}
