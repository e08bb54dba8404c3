/** 32-bit words and bytes of the simulated machine. */
module MachineWords {

  const WORD := 0x1_0000_0000

  type Addr = a: int | 0 <= a < WORD

  type Byte = b: int | 0 <= b < 256

  datatype Option<+T> = None | Some(value: T)

  /** Unsigned 32-bit arithmetic. */
  function Wrap(x: int): Addr { x % WORD }

  function Plus(x: Addr, y: Addr): Addr { if x + y < WORD then x + y else x + y - WORD }

  function Minus(x: Addr, y: Addr): Addr { if y <= x then x - y else x - y + WORD }
}
