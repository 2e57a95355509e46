/** Android binary XML: what a document means.

    A document is a list of chunks. `Scan` turns the chunks into tokens and `Content` reads the
    tokens by recursive descent; together they give each byte string its tree and its error.
    The parser itself keeps a stack instead; module AxmlParser proves that it agrees.
 */
module Axml {
  import opened Bytes
  import opened Chunks
  import opened Text
  import StringPool

  const CHUNK_XML := 0x0003
  const CHUNK_RESOURCE_MAP := 0x0180
  const CHUNK_START_ELEMENT := 0x0102
  const CHUNK_END_ELEMENT := 0x0103
  const CHUNK_CDATA := 0x0104

  const TYPE_REFERENCE := 0x01
  const TYPE_STRING := 0x03
  const TYPE_FLOAT := 0x04
  const TYPE_INT_DEC := 0x10
  const TYPE_INT_HEX := 0x11
  const TYPE_INT_BOOL := 0x12

  datatype Attr = Attr(ns: Str, name: Str, value: Str, dataType: Byte, data: U32)
  datatype Head = Head(name: Str, line: U32, attrs: seq<Attr>)
  datatype Tree = Elem(head: Head, children: seq<Tree>, text: Str)

  /** What the decoder is given: character decoding, the optional resource resolver,
      the table of framework attribute names, and floating-point formatting. */
  datatype Env = Env(
    utf16: StringPool.Utf16Decoder,
    resolve: Option<U32 -> Option<Str>>,
    attributeName: U32 -> Str,
    formatFloat: U32 -> Str)

  datatype Error =
    | NotBinaryXml | BadHeaderSize | InvalidChunk | BadPool(StringPool.PoolError)
    | ElementTooSmall | NamelessElement | NoRoot

  /** The latest string pool and resource map. */
  datatype Context = Context(pool: Option<StringPool.Pool>, resMap: seq<U32>)

  datatype Token = Start(head: Head) | Text(text: Str) | End | Other

  datatype Outcome = Outcome(root: Option<Tree>, error: Option<Error>)

  // ---- one chunk ----

  function NameAt(env: Env, ctx: Context, i: U32): Str {
    var s := StringPool.At(ctx.pool, i);
    if s == [] && i < |ctx.resMap| then env.attributeName(ctx.resMap[i]) else s
  }

  function Reference(env: Env, data: U32): Str {
    var hex := Ascii("@0x") + Hex(data, 8);
    if env.resolve.None? then hex
    else
      match env.resolve.value(data)
      case Some(v) => if v != [] then v else hex
      case None => hex
  }

  /** The value of an attribute that carries no raw string. */
  function TypedValue(env: Env, ctx: Context, dataType: Byte, data: U32): Str {
    if dataType == TYPE_STRING then StringPool.At(ctx.pool, data)
    else if dataType == TYPE_REFERENCE then Reference(env, data)
    else if dataType == TYPE_INT_BOOL then (if data != 0 then TRUE else FALSE)
    else if dataType == TYPE_INT_DEC || dataType == TYPE_INT_HEX then Decimal(data)
    else if dataType == TYPE_FLOAT then env.formatFloat(data)
    else []
  }

  const NO_RAW := 0xffff_ffff

  function AttrOf(env: Env, ctx: Context, a: seq<Byte>): Attr
    requires |a| == 20
  {
    var raw, dataType, data := Le32(a, 8), a[15], Le32(a, 16);
    Attr(
      StringPool.At(ctx.pool, Le32(a, 0)),
      NameAt(env, ctx, Le32(a, 4)),
      if raw != NO_RAW then StringPool.At(ctx.pool, raw) else TypedValue(env, ctx, dataType, data),
      dataType,
      data)
  }

  /** The attributes from number i on; the list stops early where the body ends. */
  function AttrsFrom(env: Env, ctx: Context, body: seq<Byte>, start: nat, size: nat, count: nat, i: nat): seq<Attr>
    requires i <= count
    decreases count - i
  {
    var off := start + i * size;
    if i == count || off + 20 > |body| then []
    else [AttrOf(env, ctx, body[off..off + 20])] + AttrsFrom(env, ctx, body, start, size, count, i + 1)
  }

  function AttrStart(body: seq<Byte>): nat
    requires |body| >= 20
  {
    if Le16(body, 8) == 0 then 20 else Le16(body, 8)
  }

  function AttrSize(body: seq<Byte>): nat
    requires |body| >= 20
  {
    if Le16(body, 10) < 20 then 20 else Le16(body, 10)
  }

  function HeadOf(env: Env, ctx: Context, chunk: seq<Byte>): Result<Head, Error> {
    if |chunk| < 36 then Err(ElementTooSmall)
    else
      var body := chunk[16..];
      var name := NameAt(env, ctx, Le32(body, 4));
      if name == [] then Err(NamelessElement)
      else Ok(Head(name, Le32(chunk, 8),
                   AttrsFrom(env, ctx, body, AttrStart(body), AttrSize(body), Le16(body, 12), 0)))
  }

  function WordsIn(chunk: seq<Byte>): (ws: seq<U32>)
    requires |chunk| >= 8
    ensures |ws| == (|chunk| - 8) / 4
  {
    seq((|chunk| - 8) / 4, i requires 0 <= i < (|chunk| - 8) / 4 => Le32(chunk, 8 + 4 * i))
  }

  /** The token of one chunk and the context after it. */
  function ScanChunk(env: Env, ctx: Context, chunk: seq<Byte>): Result<(Context, Token), Error>
    requires |chunk| >= 8
  {
    var kind := Le16(chunk, 0);
    if kind == StringPool.POOL_CHUNK then
      match StringPool.Parse(env.utf16, chunk)
      case Ok(pool) => Ok((ctx.(pool := Some(pool)), Other))
      case Err(e) => Err(BadPool(e))
    else if kind == CHUNK_RESOURCE_MAP then Ok((ctx.(resMap := WordsIn(chunk)), Other))
    else if kind == CHUNK_START_ELEMENT then
      match HeadOf(env, ctx, chunk)
      case Ok(head) => Ok((ctx, Start(head)))
      case Err(e) => Err(e)
    else if kind == CHUNK_CDATA then
      Ok((ctx, if |chunk| >= 24 then Text(StringPool.At(ctx.pool, Le32(chunk, 20))) else Other))
    else if kind == CHUNK_END_ELEMENT then Ok((ctx, End))
    else Ok((ctx, Other))
  }

  // ---- all chunks ----

  datatype Scanned = Scanned(tokens: seq<Token>, error: Option<Error>)

  function Scan(env: Env, ctx: Context, rest: seq<Byte>): Scanned
    decreases |rest|
  {
    if |rest| < 8 then Scanned([], None)
    else if !Fits(rest) then Scanned([], Some(InvalidChunk))
    else
      var size := Le32(rest, 4);
      match ScanChunk(env, ctx, rest[..size])
      case Err(e) => Scanned([], Some(e))
      case Ok((ctx', token)) =>
        var tail := Scan(env, ctx', rest[size..]);
        tail.(tokens := [token] + tail.tokens)
  }

  // ---- recursive descent over tokens ----

  datatype Inside = Inside(children: seq<Tree>, text: Str, rest: seq<Token>)

  /** What is inside an open element: everything up to its end token, or to the end of input. */
  function Content(tokens: seq<Token>): (r: Inside)
    ensures |r.rest| <= |tokens|
    decreases |tokens|
  {
    if tokens == [] then Inside([], [], [])
    else
      match tokens[0]
      case End => Inside([], [], tokens[1..])
      case Other => Content(tokens[1..])
      case Text(s) =>
        var more := Content(tokens[1..]);
        more.(text := s + more.text)
      case Start(head) =>
        var first := Content(tokens[1..]);
        var more := Content(first.rest);
        more.(children := [Elem(head, first.children, first.text)] + more.children)
  }

  /** The elements at the top level, in order. Stray text and end tokens there mean nothing. */
  function TopLevel(tokens: seq<Token>): seq<Tree>
    decreases |tokens|
  {
    if tokens == [] then []
    else if tokens[0].Start? then
      var inside := Content(tokens[1..]);
      [Elem(tokens[0].head, inside.children, inside.text)] + TopLevel(inside.rest)
    else TopLevel(tokens[1..])
  }

  /** A later top-level element replaces an earlier one. */
  function LastOr(trees: seq<Tree>, default: Option<Tree>): Option<Tree> {
    if trees == [] then default else Some(trees[|trees| - 1])
  }

  function Parse(env: Env, data: seq<Byte>): Outcome {
    if |data| < 8 || Le16(data, 0) != CHUNK_XML then Outcome(None, Some(NotBinaryXml))
    else if Le16(data, 2) < 8 || Le16(data, 2) > |data| then Outcome(None, Some(BadHeaderSize))
    else
      var scanned := Scan(env, Context(None, []), data[Le16(data, 2)..]);
      var root := LastOr(TopLevel(scanned.tokens), None);
      Outcome(root, if scanned.error.None? && root.None? then Some(NoRoot) else scanned.error)
  }
}
