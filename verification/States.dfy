/** The channel's one-byte state codes and the two arithmetic shortcuts the sender uses on them. */
module States {

  type Byte = bv8

  const EMPTY: Byte := 0x3
  const MESSAGE: Byte := 0x4
  const RECEIVING: Byte := 0x0
  const UNPARKING: Byte := 0x1
  const DISCONNECTED: Byte := 0x2

  /** How the sender computes the byte of its first state update. */
  datatype Arithmetic =
    | Fast   // fetch_add(1) and fetch_xor(1), as the code does
    | Branch // compare and branch, leaving DISCONNECTED alone

  /** The byte `Sender::send` writes over `was`. */
  function AfterSend(how: Arithmetic, was: Byte): Byte {
    match how
    case Fast => was + 1
    case Branch =>
      if was == EMPTY then MESSAGE else if was == RECEIVING then UNPARKING else was
  }

  /** The byte `Drop for Sender` writes over `was`. */
  function AfterDrop(how: Arithmetic, was: Byte): Byte {
    match how
    case Fast => was ^ 1
    case Branch =>
      if was == EMPTY then DISCONNECTED else if was == RECEIVING then UNPARKING else was
  }
}
