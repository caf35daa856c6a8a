/** What the buffers and sessions of ServerCore have in common. */
module CoreValues {

  type Byte = x: int | 0 <= x < 256

  const SEND_BUFFER_CHUNK_SIZE := 6000

  /** What WSASend or WSARecv answers: accepted (or pending), or an error on the spot that
      is or is not fatal for the connection. */
  datatype Answer = Accepted | Refused(fatal: bool)
}
