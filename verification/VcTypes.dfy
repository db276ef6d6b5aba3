/** The vocabulary of the encrypted container: errors and geometries. */
module VcTypes {
  const U64_MAX := 0xFFFF_FFFF_FFFF_FFFF

  lemma LargestWord()
    ensures U64_MAX == 0xFFFF_FFFF_FFFF_FFFF
  {
  }

  type u64 = n: int | 0 <= n <= 0xFFFF_FFFF_FFFF_FFFF

  datatype VcError =
    | NotFoundOrWrongPassword
    | HeaderDamaged
    | VersionTooNew(required: nat)
    | SystemVolume
    | HiddenVolumeProtected
    | Internal(what: string)
    | DeviceIo

  datatype VcResult<+T> = Good(value: T) | Bad(error: VcError) {
    predicate IsFailure() { Bad? }
    function PropagateFailure<U>(): VcResult<U>
    {
      match this
      case Bad(e) => Bad(e)
      case Good(_) => Bad(DeviceIo)
    }
    function Extract(): T
      requires Good?
    {
      value
    }
  }

  datatype Position = Primary | Hidden | BackupPrimary | BackupHidden

  predicate IsHidden(p: Position) { p.Hidden? || p.BackupHidden? }

  datatype Geometry = Geometry(volumeSize: u64, areaStart: u64, areaSize: u64, sectorSize: nat, hiddenSize: u64)
}
