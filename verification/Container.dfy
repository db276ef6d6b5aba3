/** Where the headers and data areas of a container lie. */
module Containers {
  import opened Bytes
  import opened VcTypes

  predicate SectorSize(n: nat) { n == 512 || n == 4096 }

  /** The data area of a standard volume: 128 KiB of headers before it and 128 KiB after it. */
  function OuterLayout(size: u64, sectorSize: nat): VcResult<(nat, nat)>
  {
    if !SectorSize(sectorSize) then Bad(Internal("unsupported sector size"))
    else if size < 2 * 131072 + 512 then Bad(Internal("container too small"))
    else Good((131072, size - 2 * 131072))
  }

  /** The data area of a hidden volume, ending 256 KiB before the end of a container that already holds a
      standard volume. */
  function HiddenLayout(size: u64, sectorSize: nat, hiddenSize: u64): VcResult<(nat, nat)>
    requires 2 * 131072 <= size
  {
    var end := size - 2 * 131072;
    if !SectorSize(sectorSize) then Bad(Internal("unsupported sector size"))
    else if hiddenSize < sectorSize || hiddenSize % sectorSize != 0 || hiddenSize + 131072 > end then
      Bad(Internal("invalid hidden volume size"))
    else Good((end - hiddenSize, hiddenSize))
  }

  /** The byte offset of a header slot, or none when the container cannot hold it. */
  function PositionOffset(p: Position, len: u64): Option<nat>
  {
    match p
    case Primary => Some(0)
    case Hidden => if len >= 65536 + 512 then Some(65536) else None
    case BackupPrimary => if len >= 131072 then Some(len - 131072) else None
    case BackupHidden => if len >= 65536 then Some(len - 65536) else None
  }

  /** The hidden data area in the outer volume's coordinates: where it starts. */
  function TranslateRegion(outer: Geometry, hidden: Geometry): VcResult<nat>
  {
    if hidden.areaStart < outer.areaStart then Bad(Internal("hidden region precedes outer data"))
    else
      var start := hidden.areaStart - outer.areaStart;
      if start + hidden.areaSize > outer.areaSize then Bad(Internal("hidden region exceeds outer data area"))
      else Good(start)
  }

  /** The session accepts a hidden area exactly when it lies in the outer one. */
  lemma TranslatesExactly(outer: Geometry, hidden: Geometry)
    ensures TranslateRegion(outer, hidden).Good?
       <==> outer.areaStart <= hidden.areaStart && hidden.areaStart + hidden.areaSize <= outer.areaStart + outer.areaSize
    ensures TranslateRegion(outer, hidden).Good? ==> outer.areaStart + TranslateRegion(outer, hidden).value == hidden.areaStart
  {
  }

  /** The geometry a header records for a data area. */
  function Recorded(area: (nat, nat), sectorSize: nat, hiddenSize: u64): Geometry
    requires area.0 <= U64_MAX && area.1 <= U64_MAX
  {
    Geometry(area.1, area.0, area.1, sectorSize, hiddenSize)
  }

  /** Both checks of the session pass for every container laid out by this crate, the translated region
      is the hidden data area, and the outer volume keeps at least 128 KiB after it. */
  lemma CreatedLayoutTranslates(size: u64, outerSector: nat, hiddenSector: nat, hiddenSize: u64)
    requires OuterLayout(size, outerSector).Good?
    requires HiddenLayout(size, hiddenSector, hiddenSize).Good?
    ensures var outer := OuterLayout(size, outerSector).value;
            var hidden := HiddenLayout(size, hiddenSector, hiddenSize).value;
            && TranslateRegion(Recorded(outer, outerSector, 0), Recorded(hidden, hiddenSector, hiddenSize))
               == Good(hidden.0 - outer.0)
            && hidden.1 == hiddenSize
            && outer.0 <= hidden.0
            && hidden.0 + hidden.1 + 131072 == outer.0 + outer.1
            && outer.0 + outer.1 + 131072 == size
  {
  }
}
