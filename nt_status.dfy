/** The NTSTATUS values the DFS client and its helpers distinguish. */
module NtStatus {

  /** A 32-bit NTSTATUS code. */
  type NTStatus = x: int | 0 <= x < 0x1_0000_0000

  const STATUS_SUCCESS: NTStatus := 0x0000_0000
  const STATUS_NO_MORE_FILES: NTStatus := 0x8000_0006
  const STATUS_END_OF_FILE: NTStatus := 0xC000_0011
  const STATUS_ACCESS_DENIED: NTStatus := 0xC000_0022
  const STATUS_OBJECT_NAME_NOT_FOUND: NTStatus := 0xC000_0034
  const STATUS_OBJECT_NAME_COLLISION: NTStatus := 0xC000_0035
  const STATUS_OBJECT_PATH_NOT_FOUND: NTStatus := 0xC000_003A
  const STATUS_DATA_ERROR: NTStatus := 0xC000_003E
  const STATUS_FILE_IS_A_DIRECTORY: NTStatus := 0xC000_00BA
  const STATUS_NOT_FOUND: NTStatus := 0xC000_0225
  const STATUS_PATH_NOT_COVERED: NTStatus := 0xC000_0257
}
