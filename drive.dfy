/**
 * The drive status reported by the `CDROM_DRIVE_STATUS` ioctl. The numeric
 * codes are those of the Linux kernel's `linux/cdrom.h`.
 */
module Drive {

  const CdsNoInfo: int := 0
  const CdsNoDisc: int := 1
  const CdsTrayOpen: int := 2
  const CdsDriveNotReady: int := 3
  const CdsDiscOk: int := 4

  /** What the daemon's status switch distinguishes; any other code is `Unknown`. */
  datatype DriveStatus = NoInfo | NoDisc | TrayOpen | DriveNotReady | DiscOk | Unknown(code: int)

  /** A code the status switch names explicitly. */
  predicate IsKnownCode(code: int) {
    CdsNoInfo <= code <= CdsDiscOk
  }

  /** A status value whose `Unknown` case does not shadow a named code. */
  predicate IsCanonical(s: DriveStatus) {
    s.Unknown? ==> !IsKnownCode(s.code)
  }

  /** The kernel's code for a status. */
  function StatusCode(s: DriveStatus): int {
    match s
    case NoInfo => CdsNoInfo
    case NoDisc => CdsNoDisc
    case TrayOpen => CdsTrayOpen
    case DriveNotReady => CdsDriveNotReady
    case DiscOk => CdsDiscOk
    case Unknown(c) => c
  }

  /** The case of the status switch a raw ioctl result falls into. */
  function DecodeStatus(code: int): (s: DriveStatus)
    ensures IsCanonical(s)
    ensures StatusCode(s) == code
    ensures s.Unknown? <==> !IsKnownCode(code)
  {
    if code == CdsNoInfo then NoInfo
    else if code == CdsNoDisc then NoDisc
    else if code == CdsTrayOpen then TrayOpen
    else if code == CdsDriveNotReady then DriveNotReady
    else if code == CdsDiscOk then DiscOk
    else Unknown(code)
  }

  /** Decoding inverts `StatusCode` on every canonical status. */
  lemma DecodeStatusCode(s: DriveStatus)
    requires IsCanonical(s)
    ensures DecodeStatus(StatusCode(s)) == s
  {
  }

  /** Only the code `CDS_DISC_OK` decodes to `DiscOk`. */
  lemma DiscOkOnlyFromItsCode(code: int)
    ensures DecodeStatus(code) == DiscOk <==> code == CdsDiscOk
  {
  }
}
