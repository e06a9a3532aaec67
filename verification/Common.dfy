/** Types several modules share. */
module Common {
  datatype Option<+T> = None | Some(value: T)

  type u16 = n: int | 0 <= n < 0x1_0000
  type u32 = n: int | 0 <= n < 0x1_0000_0000

  const U64: nat := 0x1_0000_0000_0000_0000
  type u64 = n: int | 0 <= n < U64

  /** The size of the buffer a TCP relay reads into (TCP_IO_BUFFER_SIZE in src/consts.rs). */
  const IO_BUFFER: nat := 2048

  /** Where a connection is to go, as a listener's handshake reports it; A: the address as text, or before it is printed. */
  datatype RunAddr<+A> = RunAddr(addr: A, port: u16, udp: bool)
}
