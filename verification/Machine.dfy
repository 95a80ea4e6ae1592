/**
 The fixed-width unsigned integers of the gateway and the client, and the optional value.
 Wrap-around is always written out at the place where the program wraps.
 */
module Machine {

  type u8 = x: int | 0 <= x < 0x100
  type u16 = x: int | 0 <= x < 0x1_0000
  type u32 = x: int | 0 <= x < 0x1_0000_0000

  datatype Option<+T> = None | Some(value: T)
}
