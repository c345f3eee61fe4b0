/** The JSON documents the two services answer with, as the stream of tokens
    a streaming parser hands out one `nextToken()` at a time.

    A field's value is one token when it is a scalar; an object or array
    value is its opening token, its contents and its closing token. Numbers,
    strings, booleans and `null` are all scalars that keep their text.
 */
module Tokens {

  datatype Token =
    | StartObject
    | EndObject
    | StartArray
    | EndArray
    | FieldName(name: string)
    | Scalar(text: string)

  /** `getText()` on the current token. */
  function TextOf(t: Token): string {
    match t
    case StartObject => "{"
    case EndObject => "}"
    case StartArray => "["
    case EndArray => "]"
    case FieldName(name) => name
    case Scalar(text) => text
  }
  /** `rest` is what is left of `ts` once a token that ends an object has
      been read: the tokens before `rest` end with `EndObject`. */
  predicate ClosesObject(ts: seq<Token>, rest: seq<Token>) {
    |rest| < |ts| && ts[|ts| - |rest| - 1] == EndObject && ts[|ts| - |rest|..] == rest
  }

  /** What opening an address of a service gives: nothing at all (the
      `FileNotFoundException` case) or a document. */
  datatype Response = NotFound | Document(tokens: seq<Token>)
}
