/** Status and state codes shared by the components (include/QC/Common/QCDefs.hpp). */
module QCDefs {

  datatype Option<+T> = None | Some(value: T)

  datatype Status =
    | Ok | BadArguments | BadState | NoMem | InvalidBuf | Unsupported
    | Already | Timeout | OutOfBound | Fail | NullPtr | NoResource

  datatype ObjectState =
    | Initial | Initializing | Ready | Starting | Running | Stopping
    | Error | Pausing | Pause | Resuming | DeInitializing

  datatype Result<+T, +E> = Success(value: T) | Failure(error: E)

  type UInt8 = x: int | 0 <= x < 0x100
  type UInt16 = x: int | 0 <= x < 0x1_0000
  type UInt32 = x: int | 0 <= x < 0x1_0000_0000
  type UInt64 = x: int | 0 <= x < 0x1_0000_0000_0000_0000
  type Int8 = x: int | -0x80 <= x < 0x80
  type Int16 = x: int | -0x8000 <= x < 0x8000
  type Int32 = x: int | -0x8000_0000 <= x < 0x8000_0000
  type Int64 = x: int | -0x8000_0000_0000_0000 <= x < 0x8000_0000_0000_0000

  /** Conversion to the source's unsigned integer widths. */
  function Wrap8(x: int): UInt8 { x % 0x100 }
  function Wrap16(x: int): UInt16 { x % 0x1_0000 }
  function Wrap32(x: int): UInt32 { x % 0x1_0000_0000 }
  function Wrap64(x: int): UInt64 { x % 0x1_0000_0000_0000_0000 }

  const U32: int := 0x1_0000_0000
  const U64: int := 0x1_0000_0000_0000_0000
}
