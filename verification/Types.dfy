/** Error codes and the message record shared by the library's layers. */
module Types {
  import opened Bytes

  datatype Option<+T> = None | Some(value: T)

  datatype Result<+T> = Ok(value: T) | Err(error: Error)

  /** The codes of OctopipesError. */
  datatype Error =
    | UNINITIALIZED | BAD_PACKET | BAD_CHECKSUM | UNSUPPORTED_VERSION | NO_DATA_AVAILABLE | OPEN_FAILED
    | WRITE_FAILED | READ_FAILED | CAP_TIMEOUT | NOT_SUBSCRIBED | NOT_UNSUBSCRIBED | THREAD | BAD_ALLOC
    | UNKNOWN_ERROR

  /**
   Where the text of the source departs from what it is documented to do, both readings are modelled:
   the statements as they stand, and the documented behaviour.
   */
  datatype Reading = AsWritten | Documented

  lemma Assoc<T>(a: seq<T>, b: seq<T>, c: seq<T>)
    ensures a + (b + c) == (a + b) + c
  {
  }

  /** What pipe_send can return. */
  predicate SendResult(r: Result<()>) {
    r.Ok? || r.error == OPEN_FAILED || r.error == WRITE_FAILED || r.error == NO_DATA_AVAILABLE
  }

  const VERSION_1: byte := 1

  // Option flags; x & flag != 0 is x / flag % 2 == 1 for a single-bit flag.
  const REQUIRE_ACK: byte := 1
  const ACK: byte := 2
  const IGNORE_CHECKSUM: byte := 4

  /** The size fields of the C record are the lengths of origin, remote and data; a NULL pointer is []. */
  datatype Message = Message(version: byte, origin: Data, remote: Data, ttl: byte, options: byte,
                             checksum: byte, data: Data)
  {
    predicate IgnoresChecksum() {
      options / IGNORE_CHECKSUM % 2 == 1
    }

    predicate RequiresAck() {
      options / REQUIRE_ACK % 2 == 1
    }

    function FrameSize(): (n: nat) {
      17 + |remote| + |origin| + |data|
    }

    /** The sizes fit the C fields that hold them. */
    predicate Sized() {
      && |origin| <= 255
      && |remote| <= 255
      && FrameSize() < SIZE_LIMIT
    }
  }
}
