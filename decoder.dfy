/**
 * Turning the raw body of the service's answer into a Response: drop one
 * leading UTF-8 byte-order mark, then decode the rest. The structured-text
 * decoder itself is a parameter of the model.
 */
module Decoder {
  import opened Wrappers
  import opened Types

  /** U+FEFF encoded in UTF-8 (section 6 of RFC 3629). */
  const ByteOrderMark: seq<byte> := [0xEF, 0xBB, 0xBF]

  /** Removes `prefix` once from the front of `s` when `s` starts with it; otherwise returns `s`. */
  function TrimPrefix<T(==)>(s: seq<T>, prefix: seq<T>): (r: seq<T>)
    ensures prefix <= s ==> prefix + r == s
    ensures !(prefix <= s) ==> r == s
  {
    if prefix <= s then s[|prefix|..] else s
  }

  /** The body as handed to the decoder. */
  function TrimBom(body: seq<byte>): (trimmed: seq<byte>)
    ensures ByteOrderMark <= body ==> ByteOrderMark + trimmed == body
    ensures !(ByteOrderMark <= body) ==> trimmed == body
  {
    TrimPrefix(body, ByteOrderMark)
  }

  /**
   * Decodes a body with `parse`, the structured-text decoder, after dropping a
   * byte-order mark. A decoder failure becomes a DecodeError with its message.
   */
  function Unmarshal(body: seq<byte>, parse: seq<byte> -> Result<Response, string>): (r: Result<Response, FetchError>)
    ensures r.Success? <==> parse(TrimBom(body)).Success?
    ensures r.Success? ==> r.value == parse(TrimBom(body)).value
    ensures r.Failure? ==> r.error == DecodeError(parse(TrimBom(body)).error)
  {
    match parse(TrimBom(body))
    case Success(res) => Success(res)
    case Failure(message) => Failure(DecodeError(message))
  }

  /** A marked body loses exactly its mark. */
  lemma TrimBomRemovesMark(body: seq<byte>)
    ensures TrimBom(ByteOrderMark + body) == body
  {
  }

  /** A body that does not start with the mark is passed on untouched. */
  lemma TrimBomKeepsUnmarked(body: seq<byte>)
    requires !(ByteOrderMark <= body)
    ensures TrimBom(body) == body
  {
  }

  /** Only one mark is removed: a doubled mark leaves the second one in place. */
  lemma TrimBomOnlyOnce(body: seq<byte>)
    ensures TrimBom(ByteOrderMark + ByteOrderMark + body) == ByteOrderMark + body
  {
  }

  /** What reaches the decoder is a suffix of the body, shorter by the mark or not at all. */
  lemma TrimBomIsSuffix(body: seq<byte>)
    ensures var r := TrimBom(body);
            (|r| == |body| && r == body) || (|r| == |body| - 3 && body == ByteOrderMark + r)
  {
  }

  /** Prefixing a body with the mark does not change what it decodes to. */
  lemma UnmarshalIgnoresBom(body: seq<byte>, parse: seq<byte> -> Result<Response, string>)
    requires !(ByteOrderMark <= body)
    ensures Unmarshal(ByteOrderMark + body, parse) == Unmarshal(body, parse)
  {
  }
}
