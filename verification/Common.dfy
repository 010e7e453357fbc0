/**
 Shared by several modules.
 */
module Common {

  datatype Option<+T> = None | Some(value: T)

  /** Frame numbers are 32 bits wide. */
  const FRAME_LIMIT: nat := 0x1_0000_0000

  function NextFrame(frame: nat): nat { (frame + 1) % FRAME_LIMIT }
}
