/**
 * The part of serde_json the actor relies on: the `Value` tree it builds
 * configurations with, and the outcome of deserializing a byte payload.
 */
module Json {

  /** Raw bytes exchanged with the host and not interpreted by the actor. */
  type Bytes = seq<bv8>

  /**
   * serde_json's `Value`. Objects are maps because serde_json keys its
   * objects by string without regard to insertion order. Numbers are split
   * into integers and floating-point literals; a float is kept as the
   * literal that was written.
   */
  datatype Value =
    | Null
    | Bool(b: bool)
    | Int(i: int)
    | Float(literal: string)
    | Str(s: string)
    | Array(items: seq<Value>)
    | Object(fields: map<string, Value>)

  /**
   * A byte payload as `from_slice::<T>` sees it: the encoding of some `T`
   * (serde gives that value back), or bytes that it rejects with `reason`.
   */
  datatype Payload<T> = Encoded(value: T) | Malformed(reason: string)
}
