/** Writing binary XML, and reading it back.

    The encoder covers the forms the decoder accepts: any pool that contains the document's strings,
    attributes carried as raw strings or as typed values, mixed content in any nesting.
 */
module AxmlEncoder {
  import opened Axml
  import opened Bytes
  import opened Chunks
  import StringPool

  // ---- documents ----

  /** An element whose children and character data appear in document order. */
  datatype Doc = Doc(head: Head, content: Content)
  datatype Content = Nothing | Child(doc: Doc, rest: Content) | Chars(text: Str, rest: Content)

  function Denote(doc: Doc): Tree {
    Elem(doc.head, Children(doc.content), TextOf(doc.content))
  }

  function Children(content: Content): seq<Tree> {
    match content
    case Nothing => []
    case Child(doc, rest) => [Denote(doc)] + Children(rest)
    case Chars(_, rest) => Children(rest)
  }

  function TextOf(content: Content): Str {
    match content
    case Nothing => []
    case Child(_, rest) => TextOf(rest)
    case Chars(text, rest) => text + TextOf(rest)
  }

  function DocTokens(doc: Doc): seq<Token> {
    [Start(doc.head)] + (ContentTokens(doc.content) + [End])
  }

  function ContentTokens(content: Content): seq<Token> {
    match content
    case Nothing => []
    case Child(doc, rest) => DocTokens(doc) + ContentTokens(rest)
    case Chars(text, rest) => [Text(text)] + ContentTokens(rest)
  }

  /** Recursive descent over a document's tokens rebuilds the document and stops at its end. */
  lemma {:induction false} ContentReadBack(content: Content, rest: seq<Token>)
    ensures Axml.Content(ContentTokens(content) + [End] + rest) == Inside(Children(content), TextOf(content), rest)
  {
    var tokens := ContentTokens(content) + [End] + rest;
    match content
    case Nothing =>
      assert tokens[1..] == rest;
    case Chars(text, more) =>
      assert tokens[1..] == ContentTokens(more) + [End] + rest;
      ContentReadBack(more, rest);
    case Child(doc, more) =>
      var after := ContentTokens(more) + [End] + rest;
      var inner := ContentTokens(doc.content) + [End];
      assert DocTokens(doc) == [Start(doc.head)] + inner;
      assert tokens == DocTokens(doc) + after;
      assert tokens[1..] == inner + after;
      ContentReadBack(doc.content, after);
      ContentReadBack(more, rest);
  }

  lemma DocReadBack(doc: Doc)
    ensures TopLevel(DocTokens(doc)) == [Denote(doc)]
  {
    ContentReadBack(doc.content, []);
    assert DocTokens(doc)[1..] == ContentTokens(doc.content) + [End] + [];
  }

  // ---- chunks ----

  predicate Carries(env: Env, ctx: Context, chunk: seq<Byte>, token: Token) {
    WellFormed(chunk) && ScanChunk(env, ctx, chunk) == Ok((ctx, token))
  }

  /** Scanning a well-formed chunk and what follows it. */
  lemma ScanCons(env: Env, ctx: Context, chunk: seq<Byte>, rest: seq<Byte>)
    requires WellFormed(chunk)
    ensures match ScanChunk(env, ctx, chunk)
            case Err(e) => Scan(env, ctx, chunk + rest) == Scanned([], Some(e))
            case Ok((ctx', token)) =>
              var tail := Scan(env, ctx', rest);
              Scan(env, ctx, chunk + rest) == Scanned([token] + tail.tokens, tail.error)
  {
    hide ScanChunk;
    ChunkThenRest(chunk, rest);
  }

  lemma {:induction false} ScanAll(env: Env, ctx: Context, chunks: seq<seq<Byte>>, tokens: seq<Token>, rest: seq<Byte>)
    requires |chunks| == |tokens|
    requires forall i :: 0 <= i < |chunks| ==> Carries(env, ctx, chunks[i], tokens[i])
    ensures var tail := Scan(env, ctx, rest);
            Scan(env, ctx, Flatten(chunks) + rest) == Scanned(tokens + tail.tokens, tail.error)
  {
    hide ScanChunk, Scan, WellFormed;
    var tail := Scan(env, ctx, rest);
    if chunks == [] {
      assert Flatten(chunks) + rest == rest && tokens + tail.tokens == tail.tokens;
    } else {
      assert Carries(env, ctx, chunks[0], tokens[0]);
      ScanAll(env, ctx, chunks[1..], tokens[1..], rest);
      ScanCons(env, ctx, chunks[0], Flatten(chunks[1..]) + rest);
      assert Flatten(chunks) + rest == chunks[0] + (Flatten(chunks[1..]) + rest);
      assert [tokens[0]] + (tokens[1..] + tail.tokens) == tokens + tail.tokens;
    }
  }

  // ---- encoding one element ----

  /** An index no pool or resource map reaches; it spells the empty string. */
  const NOWHERE := 0xffff_fffe

  predicate Holds(ctx: Context, s: Str) {
    && ctx.pool.Some? && |ctx.pool.value| <= NOWHERE && |ctx.resMap| <= NOWHERE
    && (s == [] || s in ctx.pool.value)
  }

  function First(pool: StringPool.Pool, s: Str): (i: nat)
    requires s in pool
    ensures i < |pool| && pool[i] == s
  {
    if pool[0] == s then 0 else 1 + First(pool[1..], s)
  }

  function IndexOf(ctx: Context, s: Str): (i: U32)
    requires Holds(ctx, s)
    ensures i != NO_RAW && StringPool.At(ctx.pool, i) == s
    ensures s == [] ==> i >= |ctx.resMap|
  {
    if s == [] then NOWHERE else First(ctx.pool.value, s)
  }

  /** The last place below n that the pool leaves blank and where the resource map has this attribute name. */
  function Mapped(env: Env, ctx: Context, s: Str, n: nat): (r: Option<nat>)
    requires n <= |ctx.resMap| <= NOWHERE
    ensures r.Some? ==> r.value < n && NameAt(env, ctx, r.value) == s
  {
    if n == 0 then None
    else if StringPool.At(ctx.pool, n - 1) == [] && env.attributeName(ctx.resMap[n - 1]) == s then Some(n - 1)
    else Mapped(env, ctx, s, n - 1)
  }

  /** A name that the pool holds, or that the resource map supplies. */
  predicate Named(env: Env, ctx: Context, s: Str) {
    Holds(ctx, s) || (|ctx.resMap| <= NOWHERE && Mapped(env, ctx, s, |ctx.resMap|).Some?)
  }

  function NameIndexOf(env: Env, ctx: Context, s: Str): (i: U32)
    requires Named(env, ctx, s)
    ensures NameAt(env, ctx, i) == s
  {
    if Holds(ctx, s) then IndexOf(ctx, s) else Mapped(env, ctx, s, |ctx.resMap|).value
  }

  /** Which attributes are written with a raw string. */
  type RawChoice = Attr -> bool

  predicate AttrFits(env: Env, ctx: Context, raw: RawChoice, a: Attr) {
    && Holds(ctx, a.ns) && Named(env, ctx, a.name)
    && if raw(a) then Holds(ctx, a.value) else TypedValue(env, ctx, a.dataType, a.data) == a.value
  }

  function AttrBytes(env: Env, ctx: Context, raw: RawChoice, a: Attr): (r: seq<Byte>)
    requires AttrFits(env, ctx, raw, a)
    ensures |r| == 20
  {
    Put32(IndexOf(ctx, a.ns)) + Put32(NameIndexOf(env, ctx, a.name))
    + Put32(if raw(a) then IndexOf(ctx, a.value) else NO_RAW)
    + (Put16(8) + [0, a.dataType]) + Put32(a.data)
  }

  lemma AttrReadBack(env: Env, ctx: Context, raw: RawChoice, a: Attr)
    requires AttrFits(env, ctx, raw, a)
    ensures AttrOf(env, ctx, AttrBytes(env, ctx, raw, a)) == a
  {
    hide TypedValue, Put16, Put32, NameAt;
    var r := AttrBytes(env, ctx, raw, a);
    var rawIndex := if raw(a) then IndexOf(ctx, a.value) else NO_RAW;
    assert r[0..4] == Put32(IndexOf(ctx, a.ns)) && r[4..8] == Put32(NameIndexOf(env, ctx, a.name));
    assert r[8..12] == Put32(rawIndex) && r[16..20] == Put32(a.data);
    Le32Slice(r, 0, 4, 0);
    Le32Slice(r, 4, 8, 0);
    Le32Slice(r, 8, 12, 0);
    Le32Slice(r, 16, 20, 0);
  }

  predicate HeadFits(env: Env, ctx: Context, raw: RawChoice, head: Head) {
    && head.name != [] && Named(env, ctx, head.name)
    && |head.attrs| < 0x1_0000
    && forall a :: a in head.attrs ==> AttrFits(env, ctx, raw, a)
  }

  function AttrsBytes(env: Env, ctx: Context, raw: RawChoice, attrs: seq<Attr>): (r: seq<Byte>)
    requires forall a :: a in attrs ==> AttrFits(env, ctx, raw, a)
    ensures |r| == 20 * |attrs|
  {
    if attrs == [] then [] else AttrBytes(env, ctx, raw, attrs[0]) + AttrsBytes(env, ctx, raw, attrs[1..])
  }

  /** The fixed part of an element body: namespace, name, and the shape of the attribute table. */
  function BodyHeader(name: U32, count: U16): (r: seq<Byte>)
    ensures |r| == 20 && Le32(r, 4) == name && Le16(r, 8) == 20 && Le16(r, 10) == 20 && Le16(r, 12) == count
  {
    var a, b := Put32(NO_RAW) + Put32(name), Put16(20) + Put16(20) + Put16(count) + [0, 0, 0, 0, 0, 0];
    assert Le32(a, 4) == name;
    assert Le16(b, 0) == 20 && Le16(b, 2) == 20 && Le16(b, 4) == count;
    a + b
  }

  lemma {:induction false} AttrsReadBack(env: Env, ctx: Context, raw: RawChoice, attrs: seq<Attr>, body: seq<Byte>,
      i: nat)
    requires forall a :: a in attrs ==> AttrFits(env, ctx, raw, a)
    requires i <= |attrs| && |body| == 20 + 20 * |attrs|
    requires body[20 + 20 * i..] == AttrsBytes(env, ctx, raw, attrs[i..])
    ensures AttrsFrom(env, ctx, body, 20, 20, |attrs|, i) == attrs[i..]
    decreases |attrs| - i
  {
    hide AttrBytes, AttrFits, AttrOf;
    if i < |attrs| {
      var here := AttrBytes(env, ctx, raw, attrs[i]);
      var at := 20 + 20 * i;
      assert attrs[i..][1..] == attrs[i + 1..];
      assert body[at..at + 20] == body[at..][..20] == here;
      assert body[20 + 20 * (i + 1)..] == body[at..][20..];
      AttrReadBack(env, ctx, raw, attrs[i]);
      AttrsReadBack(env, ctx, raw, attrs, body, i + 1);
    }
  }

  function StartChunk(env: Env, ctx: Context, raw: RawChoice, head: Head): (r: seq<Byte>)
    requires HeadFits(env, ctx, raw, head)
    ensures |r| == 36 + 20 * |head.attrs| && WellFormed(r) && Le16(r, 0) == CHUNK_START_ELEMENT
  {
    Chunk(CHUNK_START_ELEMENT, 16,
          Put32(head.line) + Put32(NO_RAW) + (BodyHeader(NameIndexOf(env, ctx, head.name), |head.attrs|)
                                             + AttrsBytes(env, ctx, raw, head.attrs)))
  }

  lemma StartReadBack(env: Env, ctx: Context, raw: RawChoice, head: Head)
    requires HeadFits(env, ctx, raw, head)
    ensures Carries(env, ctx, StartChunk(env, ctx, raw, head), Start(head))
  {
    hide Put32, BodyHeader, AttrsBytes, AttrsFrom, NameAt;
    var name := NameIndexOf(env, ctx, head.name);
    var table := AttrsBytes(env, ctx, raw, head.attrs);
    var chunk := StartChunk(env, ctx, raw, head);
    var body := BodyHeader(name, |head.attrs|) + table;
    assert chunk[8..] == Put32(head.line) + Put32(NO_RAW) + body;
    assert chunk[8..12] == Put32(head.line) && chunk[16..] == body && body[0..20] == BodyHeader(name, |head.attrs|);
    Le32Slice(chunk, 8, 12, 0);
    Le32Slice(body, 0, 20, 4);
    Le16Slice(body, 0, 20, 8);
    Le16Slice(body, 0, 20, 10);
    Le16Slice(body, 0, 20, 12);
    assert head.attrs[0..] == head.attrs && body[20..] == table;
    AttrsReadBack(env, ctx, raw, head.attrs, body, 0);
  }

  function TextChunk(ctx: Context, text: Str): (r: seq<Byte>)
    requires Holds(ctx, text)
    ensures WellFormed(r) && Le16(r, 0) == CHUNK_CDATA
  {
    Chunk(CHUNK_CDATA, 16, Put32(1) + Put32(NO_RAW) + Put32(NO_RAW) + Put32(IndexOf(ctx, text)))
  }

  lemma TextReadBack(env: Env, ctx: Context, text: Str)
    requires Holds(ctx, text)
    ensures Carries(env, ctx, TextChunk(ctx, text), Text(text))
  {
    hide Put32;
    var chunk := TextChunk(ctx, text);
    assert chunk[8..] == Put32(1) + Put32(NO_RAW) + Put32(NO_RAW) + Put32(IndexOf(ctx, text));
    assert chunk[20..24] == chunk[8..][12..16] == Put32(IndexOf(ctx, text));
    Le32Slice(chunk, 20, 24, 0);
  }

  function EndChunk(env: Env, ctx: Context, name: Str): (r: seq<Byte>)
    requires Named(env, ctx, name)
  {
    Chunk(CHUNK_END_ELEMENT, 16, Put32(1) + Put32(NO_RAW) + Put32(NO_RAW) + Put32(NameIndexOf(env, ctx, name)))
  }

  // ---- encoding a document ----

  predicate DocFits(env: Env, ctx: Context, raw: RawChoice, doc: Doc) {
    HeadFits(env, ctx, raw, doc.head) && ContentFits(env, ctx, raw, doc.content)
  }

  predicate ContentFits(env: Env, ctx: Context, raw: RawChoice, content: Content) {
    match content
    case Nothing => true
    case Child(doc, rest) => DocFits(env, ctx, raw, doc) && ContentFits(env, ctx, raw, rest)
    case Chars(text, rest) => Holds(ctx, text) && ContentFits(env, ctx, raw, rest)
  }

  function DocChunks(env: Env, ctx: Context, raw: RawChoice, doc: Doc): (r: seq<seq<Byte>>)
    requires DocFits(env, ctx, raw, doc)
  {
    [StartChunk(env, ctx, raw, doc.head)]
    + (ContentChunks(env, ctx, raw, doc.content) + [EndChunk(env, ctx, doc.head.name)])
  }

  function ContentChunks(env: Env, ctx: Context, raw: RawChoice, content: Content): (r: seq<seq<Byte>>)
    requires ContentFits(env, ctx, raw, content)
  {
    match content
    case Nothing => []
    case Child(doc, rest) => DocChunks(env, ctx, raw, doc) + ContentChunks(env, ctx, raw, rest)
    case Chars(text, rest) => [TextChunk(ctx, text)] + ContentChunks(env, ctx, raw, rest)
  }

  predicate CarryAll(env: Env, ctx: Context, chunks: seq<seq<Byte>>, tokens: seq<Token>) {
    && |chunks| == |tokens|
    && forall i :: 0 <= i < |chunks| ==> Carries(env, ctx, chunks[i], tokens[i])
  }

  lemma CarryConcat(env: Env, ctx: Context, c1: seq<seq<Byte>>, t1: seq<Token>, c2: seq<seq<Byte>>, t2: seq<Token>)
    requires CarryAll(env, ctx, c1, t1) && CarryAll(env, ctx, c2, t2)
    ensures CarryAll(env, ctx, c1 + c2, t1 + t2)
  {
    hide Carries;
  }

  lemma {:induction false} DocCarries(env: Env, ctx: Context, raw: RawChoice, doc: Doc)
    requires DocFits(env, ctx, raw, doc)
    ensures CarryAll(env, ctx, DocChunks(env, ctx, raw, doc), DocTokens(doc))
    decreases doc, 1
  {
    hide Carries, StartChunk, EndChunk;
    StartReadBack(env, ctx, raw, doc.head);
    var endChunk := EndChunk(env, ctx, doc.head.name);
    assert Carries(env, ctx, endChunk, End) by { EndReadBack(env, ctx, doc.head.name); }
    ContentCarries(env, ctx, raw, doc.content);
    var chunks, tokens := ContentChunks(env, ctx, raw, doc.content), ContentTokens(doc.content);
    CarryConcat(env, ctx, chunks, tokens, [endChunk], [End]);
    CarryConcat(env, ctx, [StartChunk(env, ctx, raw, doc.head)], [Start(doc.head)], chunks + [endChunk], tokens +
        [End]);
  }

  lemma EndReadBack(env: Env, ctx: Context, name: Str)
    requires Named(env, ctx, name)
    ensures Carries(env, ctx, EndChunk(env, ctx, name), End)
  {
  }

  lemma {:induction false} ContentCarries(env: Env, ctx: Context, raw: RawChoice, content: Content)
    requires ContentFits(env, ctx, raw, content)
    ensures CarryAll(env, ctx, ContentChunks(env, ctx, raw, content), ContentTokens(content))
    decreases content, 0
  {
    hide Carries, TextChunk, DocFits, Holds, DocChunks, DocTokens;
    match content
    case Nothing =>
    case Chars(text, rest) =>
      TextReadBack(env, ctx, text);
      ContentCarries(env, ctx, raw, rest);
      CarryConcat(env, ctx, [TextChunk(ctx, text)], [Text(text)],
                  ContentChunks(env, ctx, raw, rest), ContentTokens(rest));
    case Child(doc, rest) =>
      DocCarries(env, ctx, raw, doc);
      ContentCarries(env, ctx, raw, rest);
      CarryConcat(env, ctx, DocChunks(env, ctx, raw, doc), DocTokens(doc),
                  ContentChunks(env, ctx, raw, rest), ContentTokens(rest));
  }

  /** The resource map of a document; without one there are no ids. */
  predicate MapFits(ids: seq<U32>) { 8 + 4 * |ids| < 0x1_0000_0000 }

  function MapChunk(ids: seq<U32>): (r: seq<Byte>)
    requires MapFits(ids)
    ensures WellFormed(r) && Le16(r, 0) == CHUNK_RESOURCE_MAP
  {
    Chunk(CHUNK_RESOURCE_MAP, 8, Words32(ids))
  }

  lemma MapReadBack(env: Env, ctx: Context, ids: seq<U32>)
    requires MapFits(ids)
    ensures ScanChunk(env, ctx, MapChunk(ids)) == Ok((ctx.(resMap := ids), Other))
  {
    hide Words32, Chunk;
    var chunk := MapChunk(ids);
    assert chunk[8..8 + 4 * |ids|] == chunk[8..] == Words32(ids);
    forall i | 0 <= i < |ids| ensures Le32(chunk, 8 + 4 * i) == ids[i] { Word32In(chunk, 8, ids, i); }
    assert WordsIn(chunk) == ids;
  }

  /** A whole document: file header, string pool, a resource map if there is one, elements. */
  function Document(env: Env, layout: StringPool.Layout, pool: StringPool.Pool, ids: seq<U32>, raw: RawChoice,
      doc: Doc):
      seq<Byte>
    requires StringPool.Encodable(layout, env.utf16, pool) && MapFits(ids)
    requires DocFits(env, Context(Some(pool), ids), raw, doc)
  {
    var body := StringPool.Encode(layout, env.utf16, pool)
                + ((if ids == [] then [] else MapChunk(ids))
                   + Flatten(DocChunks(env, Context(Some(pool), ids), raw, doc)));
    FileHeader((8 + |body|) % 0x1_0000_0000) + body
  }

  function FileHeader(size: U32): (r: seq<Byte>)
    ensures |r| == 8 && Le16(r, 0) == CHUNK_XML && Le16(r, 2) == 8
  {
    Put16(CHUNK_XML) + Put16(8) + Put32(size)
  }

  /** Behind the pool, a resource map is taken up and leaves a token that means nothing. */
  lemma ScanMap(env: Env, pool: StringPool.Pool, ids: seq<U32>, rest: seq<Byte>) returns (skipped: seq<Token>)
    requires MapFits(ids)
    ensures skipped == [] || skipped == [Other]
    ensures var tail := Scan(env, Context(Some(pool), ids), rest);
            Scan(env, Context(Some(pool), []), (if ids == [] then [] else MapChunk(ids)) + rest)
            == Scanned(skipped + tail.tokens, tail.error)
  {
    hide Scan, MapChunk;
    var tail := Scan(env, Context(Some(pool), ids), rest);
    if ids == [] {
      assert [] + rest == rest && [] + tail.tokens == tail.tokens;
      skipped := [];
    } else {
      MapReadBack(env, Context(Some(pool), []), ids);
      ScanCons(env, Context(Some(pool), []), MapChunk(ids), rest);
      skipped := [Other];
    }
  }

  lemma SkippedAtTop(skipped: seq<Token>, tokens: seq<Token>)
    requires skipped == [] || skipped == [Other]
    ensures TopLevel([Other] + (skipped + tokens)) == TopLevel(tokens)
  {
    assert ([Other] + (skipped + tokens))[1..] == skipped + tokens;
    if skipped == [] { assert skipped + tokens == tokens; } else { assert (skipped + tokens)[1..] == tokens; }
  }

  /** Parsing undoes encoding: any pool layout, any pool, with any resource map or none, that spell the document's
      strings, any choice of raw values. */
  lemma ParseUndoesDocument(env: Env, layout: StringPool.Layout, pool: StringPool.Pool, ids: seq<U32>, raw: RawChoice,
      doc: Doc)
    requires StringPool.Encodable(layout, env.utf16, pool) && MapFits(ids)
    requires DocFits(env, Context(Some(pool), ids), raw, doc)
    ensures Parse(env, Document(env, layout, pool, ids, raw, doc)) == Outcome(Some(Denote(doc)), None)
  {
    hide StringPool.Encode, StringPool.Encodable, StringPool.Parse, FileHeader, DocFits, DocChunks, DocTokens, Denote,
         Scan, TopLevel, MapChunk;
    var ctx := Context(Some(pool), ids);
    var poolChunk := StringPool.Encode(layout, env.utf16, pool);
    var chunks, tokens := DocChunks(env, ctx, raw, doc), DocTokens(doc);
    var data := Document(env, layout, pool, ids, raw, doc);
    var behind := (if ids == [] then [] else MapChunk(ids)) + Flatten(chunks);
    var body := poolChunk + behind;
    assert data[0..8] == FileHeader((8 + |body|) % 0x1_0000_0000) && data[8..] == body;
    Le16Slice(data, 0, 8, 0);
    Le16Slice(data, 0, 8, 2);

    StringPool.ParseUndoesEncode(layout, env.utf16, pool);
    ScanCons(env, Context(None, []), poolChunk, behind);
    var skipped := ScanMap(env, pool, ids, Flatten(chunks));
    DocCarries(env, ctx, raw, doc);
    ScanAll(env, ctx, chunks, tokens, []);
    ScanNothing(env, ctx);
    assert Flatten(chunks) + [] == Flatten(chunks) && tokens + [] == tokens;
    SkippedAtTop(skipped, tokens);
    DocReadBack(doc);
  }

  lemma ScanNothing(env: Env, ctx: Context)
    ensures Scan(env, ctx, []) == Scanned([], None)
  {
  }

  // ---- every tree has an encoding ----

  predicate Writable(tree: Tree)
    decreases tree, 1
  {
    tree.head.name != [] && |tree.head.attrs| < 0x1_0000 && WritableAll(tree.children)
  }

  predicate WritableAll(trees: seq<Tree>)
    decreases trees, 0
  {
    trees == [] || (Writable(trees[0]) && WritableAll(trees[1..]))
  }

  function DocOf(tree: Tree): (doc: Doc)
    ensures Denote(doc) == tree
    decreases tree, 1
  {
    assert [] + tree.text == tree.text + [];
    Doc(tree.head, Chars(tree.text, ContentOf(tree.children)))
  }

  function ContentOf(trees: seq<Tree>): (content: Content)
    ensures Children(content) == trees && TextOf(content) == []
    decreases trees, 0
  {
    if trees == [] then Nothing else Child(DocOf(trees[0]), ContentOf(trees[1..]))
  }

  function AttrStrings(attrs: seq<Attr>): StringPool.Pool {
    if attrs == [] then [] else [attrs[0].ns, attrs[0].name, attrs[0].value] + AttrStrings(attrs[1..])
  }

  /** Every string of a tree, in document order. */
  function Strings(tree: Tree): StringPool.Pool
    decreases tree, 1
  {
    [tree.head.name, tree.text] + AttrStrings(tree.head.attrs) + StringsAll(tree.children)
  }

  function StringsAll(trees: seq<Tree>): StringPool.Pool
    decreases trees, 0
  {
    if trees == [] then [] else Strings(trees[0]) + StringsAll(trees[1..])
  }

  const ALL_RAW: RawChoice := (_: Attr) => true

  lemma {:induction false} AttrsFit(env: Env, ctx: Context, attrs: seq<Attr>)
    requires forall s :: s in AttrStrings(attrs) ==> Holds(ctx, s)
    ensures forall a :: a in attrs ==> AttrFits(env, ctx, ALL_RAW, a)
  {
    hide Holds, TypedValue;
    if attrs != [] {
      var a := attrs[0];
      assert a.ns in AttrStrings(attrs) && a.name in AttrStrings(attrs) && a.value in AttrStrings(attrs) by {
        assert AttrStrings(attrs)[0] == a.ns && AttrStrings(attrs)[1] == a.name && AttrStrings(attrs)[2] == a.value;
      }
      AttrsFit(env, ctx, attrs[1..]);
    }
  }

  lemma {:induction false} TreeFits(env: Env, ctx: Context, tree: Tree)
    requires Writable(tree) && forall s :: s in Strings(tree) ==> Holds(ctx, s)
    ensures DocFits(env, ctx, ALL_RAW, DocOf(tree))
    decreases tree, 1
  {
    hide Holds, AttrFits;
    assert tree.head.name in Strings(tree) && tree.text in Strings(tree) by {
      assert Strings(tree)[0] == tree.head.name && Strings(tree)[1] == tree.text;
    }
    AttrsFit(env, ctx, tree.head.attrs);
    TreesFit(env, ctx, tree.children);
  }

  lemma {:induction false} TreesFit(env: Env, ctx: Context, trees: seq<Tree>)
    requires WritableAll(trees) && forall s :: s in StringsAll(trees) ==> Holds(ctx, s)
    ensures ContentFits(env, ctx, ALL_RAW, ContentOf(trees))
    decreases trees, 0
  {
    hide Holds;
    if trees != [] {
      TreeFits(env, ctx, trees[0]);
      TreesFit(env, ctx, trees[1..]);
    }
  }

  /** Every tree whose elements have names survives: encode it over a pool of its own strings, with any resource map,
      and parse. */
  lemma {:induction false} EveryTreeRoundTrips(env: Env, layout: StringPool.Layout, ids: seq<U32>, tree: Tree)
    requires Writable(tree) && StringPool.Encodable(layout, env.utf16, Strings(tree)) && MapFits(ids)
    ensures DocFits(env, Context(Some(Strings(tree)), ids), ALL_RAW, DocOf(tree))
    ensures Parse(env, Document(env, layout, Strings(tree), ids, ALL_RAW, DocOf(tree))) == Outcome(Some(tree), None)
  {
    TreeFits(env, Context(Some(Strings(tree)), ids), tree);
    ParseUndoesDocument(env, layout, Strings(tree), ids, ALL_RAW, DocOf(tree));
  }

  // ---- unhandled chunks ----

  function Strip(tokens: seq<Token>): (r: seq<Token>)
    ensures |r| <= |tokens|
  {
    if tokens == [] then []
    else if tokens[0].Other? then Strip(tokens[1..])
    else [tokens[0]] + Strip(tokens[1..])
  }

  lemma {:induction false} ContentStrip(tokens: seq<Token>)
    ensures var inside := Axml.Content(tokens);
            Axml.Content(Strip(tokens)) == inside.(rest := Strip(inside.rest))
    decreases |tokens|
  {
    if tokens != [] {
      ContentStrip(tokens[1..]);
      if tokens[0].Start? {
        ContentStrip(Axml.Content(tokens[1..]).rest);
        assert Strip(tokens)[1..] == Strip(tokens[1..]);
      } else if !tokens[0].Other? {
        assert Strip(tokens)[1..] == Strip(tokens[1..]);
      }
    }
  }

  lemma {:induction false} TopLevelStrip(tokens: seq<Token>)
    ensures TopLevel(Strip(tokens)) == TopLevel(tokens)
    decreases |tokens|
  {
    if tokens != [] {
      if tokens[0].Start? {
        ContentStrip(tokens[1..]);
        TopLevelStrip(Axml.Content(tokens[1..]).rest);
        assert Strip(tokens)[1..] == Strip(tokens[1..]);
      } else {
        TopLevelStrip(tokens[1..]);
        if !tokens[0].Other? {
          assert Strip(tokens)[1..] == Strip(tokens[1..]);
        }
      }
    }
  }

  /** A chunk of a kind the parser has no case for. */
  predicate Unhandled(chunk: seq<Byte>) {
    && WellFormed(chunk)
    && Le16(chunk, 0) !in {StringPool.POOL_CHUNK, CHUNK_RESOURCE_MAP, CHUNK_START_ELEMENT, CHUNK_CDATA,
        CHUNK_END_ELEMENT}
  }

  lemma {:induction false} ScanInsert(env: Env, ctx: Context, chunks: seq<seq<Byte>>, extra: seq<Byte>, rest: seq<Byte>)
    requires (forall c :: c in chunks ==> WellFormed(c)) && Unhandled(extra)
    ensures var with, without := Scan(env, ctx, Flatten(chunks) + (extra + rest)),
            Scan(env, ctx, Flatten(chunks) + rest);
            with.error == without.error && Strip(with.tokens) == Strip(without.tokens)
    decreases |chunks|
  {
    hide Scan;
    if chunks == [] {
      assert Flatten(chunks) + (extra + rest) == extra + rest && Flatten(chunks) + rest == rest;
      ScanCons(env, ctx, extra, rest);
      assert ([Other] + Scan(env, ctx, rest).tokens)[1..] == Scan(env, ctx, rest).tokens;
    } else {
      hide ScanChunk, Unhandled, WellFormed;
      var more := Flatten(chunks[1..]);
      assert Flatten(chunks) + (extra + rest) == chunks[0] + (more + (extra + rest));
      assert Flatten(chunks) + rest == chunks[0] + (more + rest);
      ScanCons(env, ctx, chunks[0], more + (extra + rest));
      ScanCons(env, ctx, chunks[0], more + rest);
      if ScanChunk(env, ctx, chunks[0]).Ok? {
        var (ctx', token) := ScanChunk(env, ctx, chunks[0]).value;
        ScanInsert(env, ctx', chunks[1..], extra, rest);
        StripCons(token, Scan(env, ctx', more + (extra + rest)).tokens);
        StripCons(token, Scan(env, ctx', more + rest).tokens);
      }
    }
  }

  lemma StripCons(token: Token, tokens: seq<Token>)
    ensures Strip([token] + tokens) == (if token.Other? then [] else [token]) + Strip(tokens)
  {
    assert ([token] + tokens)[1..] == tokens;
  }

  /** A well-formed chunk of an unhandled kind, between any two chunks of any file, changes neither tree nor error. */
  lemma UnhandledChunksAreSkipped(env: Env, header: seq<Byte>, chunks: seq<seq<Byte>>, extra: seq<Byte>,
      rest: seq<Byte>)
    requires |header| >= 8 && Le16(header, 2) == |header|
    requires (forall c :: c in chunks ==> WellFormed(c)) && Unhandled(extra)
    ensures Parse(env, header + (Flatten(chunks) + (extra + rest))) == Parse(env, header + (Flatten(chunks) + rest))
  {
    hide Scan, TopLevel, WellFormed, Unhandled;
    var a, b := Flatten(chunks) + (extra + rest), Flatten(chunks) + rest;
    ScanInsert(env, Context(None, []), chunks, extra, rest);
    TopLevelStrip(Scan(env, Context(None, []), a).tokens);
    TopLevelStrip(Scan(env, Context(None, []), b).tokens);
    assert (header + a)[|header|..] == a && (header + b)[|header|..] == b;
    assert Le16(header + a, 0) == Le16(header, 0) == Le16(header + b, 0);
    assert Le16(header + a, 2) == Le16(header, 2) == Le16(header + b, 2);
  }
}
