/**
 * The persisted `Block` of blockchain/block.go, the failure outcomes that
 * stand for `log.Panic`, and the serializer interface that stands for gob.
 */
module Blocks {
  import opened Bytes

  /** blockchain/block.go's `Block`; `Nonce` is Go's 64-bit `int`. */
  datatype Block = Block(hash: Bytes, data: Bytes, prevHash: Bytes, nonce: int64)

  datatype Option<T> = None | Some(value: T)

  /** The errors the core hands to `Handle`. */
  datatype Error =
    | KeyNotFound   // badger.ErrKeyNotFound from txn.Get
    | EmptyKey      // badger.ErrEmptyKey from txn.Get on a zero-length key
    | DecodeFailed  // gob failed to decode the bytes as a Block

  /**
   * The result of an operation that may panic: `Panic(e)` stands for the
   * `log.Panic(e)` that ends the program.
   */
  datatype Result<T> = Ok(value: T) | Panic(error: Error)

  /** `Handle`: nothing happens on a nil error; any other error panics. */
  function Handle(err: Option<Error>): (r: Result<()>)
    ensures r.Ok? <==> err.None?
    ensures err.Some? ==> r.error == err.value
  {
    match err
    case None => Ok(())
    case Some(e) => Panic(e)
  }

  /**
   * gob as `Serialize`/`DeserializeBlock` use it. Encoding a `Block` cannot
   * fail; decoding returns `None` on bytes that are not a gob-encoded block.
   */
  datatype Codec = Codec(serialize: Block -> Bytes, deserialize: Bytes -> Option<Block>)

  /**
   * What `DeserializeBlock` must undo: decoding an encoded block gives it back.
   * This is a hypothesis on the codec parameter, never proved of gob itself.
   */
  ghost predicate RoundTrips(codec: Codec) {
    forall b :: codec.deserialize(codec.serialize(b)) == Some(b)
  }

  /** `DeserializeBlock`: a block, or the panic `Handle` raises on a decode error. */
  function DeserializeBlock(codec: Codec, data: Bytes): (r: Result<Block>)
    ensures r.Ok? <==> codec.deserialize(data).Some?
    ensures r.Ok? ==> r.value == codec.deserialize(data).value
    ensures r.Panic? ==> r.error == DecodeFailed
  {
    match codec.deserialize(data)
    case Some(b) => Ok(b)
    case None => Panic(DecodeFailed)
  }

  /** With a round-tripping codec, what `Serialize` writes `DeserializeBlock` reads back. */
  lemma DeserializeSerialized(codec: Codec, b: Block)
    requires RoundTrips(codec)
    ensures DeserializeBlock(codec, codec.serialize(b)) == Ok(b)
  {
  }
}
