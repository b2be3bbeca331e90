/** Machine integer widths, the error kinds of the service and the
    outcome of an operation that may panic. */
module Common {

  type u8 = x: int | 0 <= x < 0x100
  type u16 = x: int | 0 <= x < 0x1_0000
  type u32 = x: int | 0 <= x < 0x1_0000_0000
  type i32 = x: int | -0x8000_0000 <= x < 0x8000_0000
  type u64 = x: int | 0 <= x < 0x1_0000_0000_0000_0000

  /** Exclusive upper bound of `usize`; the model assumes a 64-bit target. */
  const USIZE_BOUND: nat := 0x1_0000_0000_0000_0000
  type usize = x: int | 0 <= x < USIZE_BOUND

  /** `x as i32` for a `u32`: reinterpret the bits as two's complement. */
  function AsI32(x: u32): (r: i32)
    ensures (r - x) % 0x1_0000_0000 == 0
    ensures AsU32(r) == x
  {
    if x < 0x8000_0000 then x else x - 0x1_0000_0000
  }

  /** `x as u32` for an `i32`: reinterpret the bits as unsigned. */
  function AsU32(x: i32): (r: u32)
    ensures (r - x) % 0x1_0000_0000 == 0
  {
    if x >= 0 then x else x + 0x1_0000_0000
  }

  datatype Option<T> = None | Some(value: T) {
    function GetOr(default: T): T {
      if Some? then value else default
    }
  }

  /** The error kinds of `OtaErr`. */
  datatype OtaErr =
    | SetValueErr | SelectPinErr | SetDirectionErr | GetValueErr
    | HttpErr | MqttErr | TimoutErr | RepeatErr
    | OpenFileErr | ReadFileErr | ConvertTempErr

  /** `Result<T, OtaErr>`. */
  datatype Result<T> = Ok(value: T) | Err(error: OtaErr)

  /** The places where the service panics: an arithmetic overflow (with
      overflow checks, as in a debug build) or an `unwrap` of a failed parse. */
  datatype PanicKind =
    | TickUnderflow        // `get_tick - tick` on u64
    | ToggleOverflow       // `index += 1` on u8
    | SelectionUnderflow   // `index -= 1` on usize
    | TempDiffOverflow     // `cpu - last` on i32
    | EventCodeNotNumeric  // `parse::<u32>().unwrap()`

  /** What an operation produced, or the panic that ended the process. */
  datatype Outcome<T> = Done(value: T) | Panicked(kind: PanicKind)
}
