/** The plain records of the system (internal/tweet/model.go,
    internal/user/model.go) and the integer widths they use. */
module Models {

  /** Go's `int64`. */
  newtype int64 = x: int | -0x8000_0000_0000_0000 <= x < 0x8000_0000_0000_0000

  /** One byte of a Go string; `len` of a string counts these. */
  newtype byte = x: int | 0 <= x < 256

  /** A tweet. `text` is the UTF-8 bytes of the Go string.
      `CreatedAt` is not modelled. */
  datatype Tweet = Tweet(id: int64, userId: int64, text: seq<byte>)

  /** A row of the follow relation: `followerId` follows `followedId`. */
  datatype Follow = Follow(id: int64, followerId: int64, followedId: int64)

  /** A Go `error`, identified by its message. */
  datatype Error = Error(message: string)
}
