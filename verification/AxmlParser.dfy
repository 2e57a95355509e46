/** The binary XML parser: a walk over chunks that grows a tree of nodes in place.

    `TreeBuilder` holds the parser's root pointer and its stack of open nodes. Its invariant says
    that the stack is the rightmost spine of the tree hanging from the root. `ParseAXML` is proved
    to compute what module Axml reads by recursive descent, for every byte string.
 */
module AxmlParser {
  import opened Axml
  import opened Bytes
  import opened Chunks
  import StringPool

  // ---- the stack, on values ----

  /** An open element: what it has so far. */
  datatype Frame = Frame(head: Head, children: seq<Tree>, text: Str)

  /** Hands a finished tree to the innermost open element. */
  function Deliver(frames: seq<Frame>, tree: Tree): (r: seq<Frame>)
    ensures |r| == |frames|
  {
    if frames == [] then []
    else
      var top := frames[|frames| - 1];
      frames[..|frames| - 1] + [top.(children := top.children + [tree])]
  }

  /** The root that results when the open elements and then the remaining tokens are read. */
  function Resume(frames: seq<Frame>, last: Option<Tree>, tokens: seq<Token>): Option<Tree>
    decreases |frames|
  {
    if frames == [] then LastOr(TopLevel(tokens), last)
    else
      var n := |frames| - 1;
      var inside := Content(tokens);
      var tree := Elem(frames[n].head, frames[n].children + inside.children, frames[n].text + inside.text);
      Resume(Deliver(frames[..n], tree), if n == 0 then Some(tree) else last, inside.rest)
  }

  lemma ResumeStart(frames: seq<Frame>, last: Option<Tree>, head: Head, tokens: seq<Token>)
    ensures Resume(frames + [Frame(head, [], [])], last, tokens) == Resume(frames, last, [Start(head)] + tokens)
  {
    var pushed := frames + [Frame(head, [], [])];
    var first := Content(tokens);
    var tree := Elem(head, first.children, first.text);
    assert ([Start(head)] + tokens)[1..] == tokens;
    assert pushed[..|frames|] == frames;
    assert [] + first.children == first.children && [] + first.text == first.text;
    if frames != [] {
      var n := |frames| - 1;
      var more := Content(first.rest);
      assert Deliver(frames, tree)[..n] == frames[..n];
      assert frames[n].children + [tree] + more.children == frames[n].children + ([tree] + more.children);
    }
  }

  lemma ResumeText(frames: seq<Frame>, last: Option<Tree>, s: Str, tokens: seq<Token>)
    requires frames != []
    ensures var top := frames[|frames| - 1];
            Resume(frames[..|frames| - 1] + [top.(text := top.text + s)], last, tokens)
            == Resume(frames, last, [Text(s)] + tokens)
  {
    var n := |frames| - 1;
    var changed := frames[..n] + [frames[n].(text := frames[n].text + s)];
    assert ([Text(s)] + tokens)[1..] == tokens;
    assert changed[..n] == frames[..n];
    assert frames[n].text + s + Content(tokens).text == frames[n].text + (s + Content(tokens).text);
  }

  lemma ResumeEnd(frames: seq<Frame>, last: Option<Tree>, tokens: seq<Token>)
    requires frames != []
    ensures var n := |frames| - 1;
            var tree := Elem(frames[n].head, frames[n].children, frames[n].text);
            Resume(Deliver(frames[..n], tree), if n == 0 then Some(tree) else last, tokens)
            == Resume(frames, last, [End] + tokens)
  {
    var n := |frames| - 1;
    assert ([End] + tokens)[1..] == tokens;
    assert frames[n].children + [] == frames[n].children && frames[n].text + [] == frames[n].text;
  }

  /** Tokens that change nothing: unhandled chunks, and text or end tokens outside every element. */
  lemma ResumeSkip(frames: seq<Frame>, last: Option<Tree>, token: Token, tokens: seq<Token>)
    requires token.Other? || (frames == [] && !token.Start?)
    ensures Resume(frames, last, [token] + tokens) == Resume(frames, last, tokens)
  {
    assert ([token] + tokens)[1..] == tokens;
  }

  // ---- the stack, in the heap ----

  class Node {
    const head: Head
    var children: seq<Node>
    var text: Str
    /** The nodes of the finished subtree, and its value. */
    ghost var repr: set<Node>
    ghost var tree: Tree

    constructor (head: Head)
      ensures this.head == head && children == [] && text == []
    {
      this.head := head;
      children := [];
      text := [];
      repr := {this};
      tree := Elem(head, [], []);
    }

    /** The subtree under this node is finished and spells `tree`. */
    ghost predicate Closed()
      reads this, repr
      decreases repr
    {
      && this in repr
      && tree == Elem(head, tree.children, text)
      && |tree.children| == |children|
      && forall i :: 0 <= i < |children| ==>
           && children[i] in repr && children[i].repr <= repr && this !in children[i].repr
           && children[i].Closed() && children[i].tree == tree.children[i]
    }

    /** Declares the subtree finished; nothing but the ghost state changes. */
    ghost method Close(trees: seq<Tree>, below: set<Node>)
      requires |trees| == |children| && this !in below
      requires forall i :: 0 <= i < |children| ==>
                 && children[i] in below && children[i].repr <= below
                 && children[i].Closed() && children[i].tree == trees[i]
      modifies this`repr, this`tree
      ensures Closed() && tree == Elem(head, trees, text) && repr == {this} + below
    {
      repr := {this} + below;
      tree := Elem(head, trees, text);
    }
  }

  /** c is finished, and everything under it is among the finished nodes. */
  ghost predicate Finished(c: Node, t: Tree, finished: set<Node>)
    reads finished
  {
    c in finished && c.repr <= finished && c.Closed() && c.tree == t
  }

  /** An open node has its finished children and then, unless it is innermost, the next open node. */
  ghost predicate OnSpine(n: Node, f: Frame, next: Node?, finished: set<Node>)
    reads n, finished
  {
    && n !in finished
    && n.head == f.head && n.text == f.text
    && |n.children| == |f.children| + (if next == null then 0 else 1)
    && (next != null ==> n.children[|f.children|] == next)
    && forall j :: 0 <= j < |f.children| ==> Finished(n.children[j], f.children[j], finished)
  }

  /** The stack is a spine: each open node is the last child of the one before it. */
  ghost predicate Spine(stack: seq<Node>, frames: seq<Frame>, next: Node?, finished: set<Node>)
    reads stack, finished
    decreases |stack|
  {
    && |stack| == |frames|
    && (stack != [] ==>
          var n := |stack| - 1;
          && stack[n] !in stack[..n]
          && OnSpine(stack[n], frames[n], next, finished)
          && Spine(stack[..n], frames[..n], stack[n], finished))
  }

  /** One more finished node does not disturb the open ones. */
  lemma {:induction false} SpineWithOneMore(stack: seq<Node>, frames: seq<Frame>, next: Node?, finished: set<Node>,
      top: Node)
    requires Spine(stack, frames, next, finished) && top !in stack
    ensures Spine(stack, frames, next, finished + {top})
  {
    if stack != [] {
      var n := |stack| - 1;
      SpineWithOneMore(stack[..n], frames[..n], stack[n], finished, top);
    }
  }

  /** Once finished, the former innermost node is an ordinary child of its parent. */
  lemma SpineDelivered(stack: seq<Node>, frames: seq<Frame>, top: Node, finished: set<Node>)
    requires Spine(stack, frames, top, finished) && Finished(top, top.tree, finished)
    ensures Spine(stack, Deliver(frames, top.tree), null, finished)
  {
    if stack != [] {
      var n := |stack| - 1;
      assert Deliver(frames, top.tree)[..n] == frames[..n];
    }
  }

  lemma NoSpine(frames: seq<Frame>, next: Node?, next': Node?, finished: set<Node>)
    requires Spine([], frames, next, finished)
    ensures Spine([], frames, next', finished)
  {
  }

  lemma SpinePushed(stack: seq<Node>, frames: seq<Frame>, node: Node, finished: set<Node>)
    requires Spine(stack, frames, node, finished) && node !in stack && node !in finished
    requires node.children == [] && node.text == []
    ensures Spine(stack + [node], frames + [Frame(node.head, [], [])], null, finished)
  {
    var f := Frame(node.head, [], []);
    assert (stack + [node])[..|stack|] == stack && (frames + [f])[..|stack|] == frames;
    assert OnSpine(node, f, null, finished);
  }

  function TreeOf(f: Frame): Tree { Elem(f.head, f.children, f.text) }

  /** Declares the innermost node finished: an ordinary child of the node before it. */
  ghost method CloseInnermost(stack: seq<Node>, frames: seq<Frame>, finished: set<Node>)
    requires stack != [] && Spine(stack, frames, null, finished)
    modifies {stack[|stack| - 1]}
    ensures var n := |stack| - 1;
            && |frames| == |stack| && Finished(stack[n], TreeOf(frames[n]), finished + {stack[n]})
            && Spine(stack[..n], Deliver(frames[..n], TreeOf(frames[n])), null, finished + {stack[n]})
  {
    hide Node.Closed;
    var n := |stack| - 1;
    var top := stack[n];
    top.Close(frames[n].children, finished);
    assert Spine(stack[..n], frames[..n], top, finished);
    SpineWithOneMore(stack[..n], frames[..n], top, finished, top);
    assert top.tree == TreeOf(frames[n]);
    SpineDelivered(stack[..n], frames[..n], top, finished + {top});
  }

  /** Hangs a node below the innermost open one. */
  method AddChild(stack: seq<Node>, node: Node, ghost frames: seq<Frame>, ghost finished: set<Node>)
    requires stack != [] && Spine(stack, frames, null, finished)
    modifies {stack[|stack| - 1]}
    ensures Spine(stack, frames, node, finished)
  {
    hide Node.Closed;
    var parent := stack[|stack| - 1];
    parent.children := parent.children + [node];
    ghost var n := |stack| - 1;
    assert Spine(stack[..n], frames[..n], stack[n], finished);
    assert OnSpine(stack[n], frames[n], node, finished);
  }

  class TreeBuilder {
    var root: Node?
    var stack: seq<Node>
    ghost var frames: seq<Frame>
    ghost var last: Option<Tree>
    /** Nodes that will not change any more. */
    ghost var finished: set<Node>

    /** The stack is the rightmost spine of the tree hanging from root. */
    ghost predicate Valid()
      reads this, stack, finished
    {
      && Spine(stack, frames, null, finished)
      && (stack != [] ==> root == stack[0])
      && (stack == [] ==> if root == null then last == None else last.Some? && Finished(root, last.value, finished))
    }

    constructor ()
      ensures Valid() && root == null && stack == [] && last == None && finished == {}
    {
      root, stack, frames, last, finished := null, [], [], None, {};
    }

    method Open(head: Head)
      requires Valid()
      modifies this, stack
      ensures Valid() && finished == old(finished) && last == old(last)
      ensures frames == old(frames) + [Frame(head, [], [])]
      ensures |stack| == |old(stack)| + 1 && stack[..|old(stack)|] == old(stack) && fresh(stack[|old(stack)|])
    {
      hide Node.Closed, Spine, Finished;
      var node := new Node(head);
      assert node !in stack && node !in finished;
      if |stack| == 0 {
        root := node;
        NoSpine(frames, null, node, finished);
      } else {
        AddChild(stack, node, frames, finished);
      }
      SpinePushed(stack, frames, node, finished);
      stack := stack + [node];
      frames := frames + [Frame(head, [], [])];
    }

    method AddText(s: Str)
      requires Valid() && stack != []
      modifies this, stack
      ensures Valid() && finished == old(finished) && last == old(last) && stack == old(stack)
      ensures var top := old(frames)[|old(frames)| - 1];
              frames == old(frames)[..|old(frames)| - 1] + [top.(text := top.text + s)]
    {
      hide Node.Closed;
      var top := stack[|stack| - 1];
      top.text := top.text + s;
      ghost var n := |frames| - 1;
      frames := frames[..n] + [frames[n].(text := frames[n].text + s)];
      assert frames[..n] == old(frames)[..n];
    }

    method Pop()
      requires Valid() && stack != []
      modifies this, stack
      ensures Valid() && stack == old(stack)[..|old(stack)| - 1]
      ensures finished == old(finished) + {old(stack)[|old(stack)| - 1]}
      ensures var n := |old(frames)| - 1;
              var tree := TreeOf(old(frames)[n]);
              frames == Deliver(old(frames)[..n], tree) && last == if n == 0 then Some(tree) else old(last)
    {
      hide Spine, Node.Closed;
      ghost var n := |frames| - 1;
      CloseInnermost(stack, frames, finished);
      stack := stack[..|stack| - 1];
      finished := finished + {old(stack)[n]};
      frames := Deliver(frames[..n], TreeOf(frames[n]));
      if n == 0 {
        last := Some(TreeOf(old(frames)[n]));
      }
    }
  }

  /** Input may end inside open elements; their nodes already hang from the root as they are. */
  ghost method Seal(stack: seq<Node>, frames: seq<Frame>, last: Option<Tree>, finished: set<Node>)
    requires stack != [] && Spine(stack, frames, null, finished)
    modifies stack
    ensures stack[0].Closed() && Some(stack[0].tree) == Resume(frames, last, [])
    ensures forall o :: o in stack[0].repr ==> o in finished || o in stack
    decreases |stack|
  {
    hide Spine, Node.Closed;
    var n := |stack| - 1;
    CloseInnermost(stack, frames, finished);
    assert frames[n].children + [] == frames[n].children && frames[n].text + [] == frames[n].text;
    if n > 0 { Seal(stack[..n], Deliver(frames[..n], TreeOf(frames[n])), last, finished + {stack[n]}); }
  }

  // ---- the parser ----

  method ReadAttributes(env: Env, ctx: Context, body: seq<Byte>, start: nat, size: nat, count: nat)
    returns (attrs: seq<Attr>)
    ensures attrs == AttrsFrom(env, ctx, body, start, size, count, 0)
  {
    hide AttrOf;
    attrs := [];
    ghost var all := AttrsFrom(env, ctx, body, start, size, count, 0);
    var i := 0;
    while i < count
      invariant i <= count && attrs + AttrsFrom(env, ctx, body, start, size, count, i) == all
    {
      var off := start + i * size;
      if off + 20 > |body| { break; }
      attrs := attrs + [AttrOf(env, ctx, body[off..off + 20])];
      i := i + 1;
    }
    assert AttrsFrom(env, ctx, body, start, size, count, i) == [];
  }

  method DecodeAXMLElement(env: Env, ctx: Context, chunk: seq<Byte>) returns (r: Result<Head, Error>)
    ensures r == HeadOf(env, ctx, chunk)
  {
    hide AttrsFrom, NameAt, AttrStart, AttrSize;
    if |chunk| < 36 { return Err(ElementTooSmall); }
    var body := chunk[16..];
    var name := NameAt(env, ctx, Le32(body, 4));
    if name == [] { return Err(NamelessElement); }
    var attrs := ReadAttributes(env, ctx, body, AttrStart(body), AttrSize(body), Le16(body, 12));
    r := Ok(Head(name, Le32(chunk, 8), attrs));
  }

  method ReadResourceMap(chunk: seq<Byte>) returns (resMap: seq<U32>)
    requires |chunk| >= 8
    ensures resMap == WordsIn(chunk)
  {
    resMap := [];
    for i := 0 to (|chunk| - 8) / 4
      invariant resMap == WordsIn(chunk)[..i]
    {
      resMap := resMap + [Le32(chunk, 8 + i * 4)];
    }
  }

  /** What the chunk at pos contributes to the scan. */
  lemma ScanStep(env: Env, ctx: Context, data: seq<Byte>, pos: nat)
    requires pos + 8 <= |data|
    ensures var kind, header, size := Le16(data, pos), Le16(data, pos + 2), Le32(data, pos + 4);
            var scanned := Scan(env, ctx, data[pos..]);
            if header < 8 || size < header || pos + size > |data| then scanned == Scanned([], Some(InvalidChunk))
            else
              match ScanChunk(env, ctx, data[pos..pos + size])
              case Err(e) => scanned == Scanned([], Some(e))
              case Ok((ctx', token)) =>
                var tail := Scan(env, ctx', data[pos + size..]);
                scanned == Scanned([token] + tail.tokens, tail.error)
  {
    hide ScanChunk;
    var rest, size := data[pos..], Le32(data, pos + 4);
    HeaderAt(data, pos, |data|);
    assert data[pos..|data|] == rest;
    if Fits(rest) {
      assert rest[..size] == data[pos..pos + size] && rest[size..] == data[pos + size..];
    }
  }

  /** Handles one chunk: afterwards the open elements stand where the chunk's token leaves them. */
  method HandleChunk(env: Env, ctx: Context, chunk: seq<Byte>, b: TreeBuilder)
    returns (ctx': Context, error: Option<Error>)
    requires |chunk| >= 8 && b.Valid()
    modifies b, b.stack
    ensures b.Valid()
    ensures forall n :: n in b.stack || n in b.finished ==> n in old(b.stack) || n in old(b.finished) || fresh(n)
    ensures match ScanChunk(env, ctx, chunk)
            case Err(e) => error == Some(e) && b.frames == old(b.frames) && b.last == old(b.last)
            case Ok((c, token)) =>
              && error == None && ctx' == c
              && forall tokens: seq<Token> ::
                   Resume(b.frames, b.last, tokens) == Resume(old(b.frames), old(b.last), [token] + tokens)
  {
    hide HeadOf, StringPool.Parse, Resume, WordsIn, StringPool.At;
    ctx', error := ctx, None;
    var chunkType := Le16(chunk, 0);
    ghost var frames, last := b.frames, b.last;
    if chunkType == StringPool.POOL_CHUNK {
      var pool := StringPool.ParseStringPool(env.utf16, chunk);
      if pool.Err? { return ctx, Some(BadPool(pool.error)); }
      ctx' := ctx.(pool := Some(pool.value));
    } else if chunkType == CHUNK_RESOURCE_MAP {
      var resMap := ReadResourceMap(chunk);
      ctx' := ctx.(resMap := resMap);
    } else if chunkType == CHUNK_START_ELEMENT {
      var head := DecodeAXMLElement(env, ctx, chunk);
      if head.Err? { return ctx, Some(head.error); }
      b.Open(head.value);
      forall tokens { ResumeStart(frames, last, head.value, tokens); }
      return;
    } else if chunkType == CHUNK_CDATA {
      if |b.stack| > 0 && |chunk| >= 24 {
        var text := StringPool.At(ctx.pool, Le32(chunk, 20));
        if text != [] {
          b.AddText(text);
        } else {
          assert frames[|frames| - 1].text + text == frames[|frames| - 1].text;
          assert frames == frames[..|frames| - 1] + [frames[|frames| - 1].(text := frames[|frames| - 1].text + text)];
        }
        forall tokens { ResumeText(frames, last, text, tokens); }
        return;
      }
    } else if chunkType == CHUNK_END_ELEMENT {
      if |b.stack| > 0 {
        b.Pop();
        forall tokens { ResumeEnd(frames, last, tokens); }
        return;
      }
    }
    forall tokens { ResumeSkip(frames, last, ScanChunk(env, ctx, chunk).value.1, tokens); }
  }

  /** For every byte string, the tree of nodes and the error are those of the recursive-descent reading. */
  method ParseAXML(env: Env, data: seq<Byte>) returns (root: Node?, error: Option<Error>)
    ensures root != null ==> fresh(root.repr) && root.Closed()
    ensures Parse(env, data) == Outcome(if root == null then None else Some(root.tree), error)
  {
    hide Scan, TopLevel, Content, ScanChunk, Resume;
    root, error := null, None;
    if |data| < 8 || Le16(data, 0) != CHUNK_XML { return null, Some(NotBinaryXml); }
    var headerSize := Le16(data, 2);
    if headerSize < 8 || headerSize > |data| { return null, Some(BadHeaderSize); }

    var ctx := Context(None, []);
    var b := new TreeBuilder();
    var pos := headerSize;
    ghost var whole := Scan(env, ctx, data[headerSize..]);
    ResumeNothing(None, whole.tokens);
    while pos + 8 <= |data| && error == None
      invariant headerSize <= pos <= |data|
      invariant b.Valid() && fresh(b) && fresh(b.finished) && fresh(b.stack)
      invariant var here := if error == None then Scan(env, ctx, data[pos..]) else Scanned([], error);
                && here.error == whole.error
                && Resume(b.frames, b.last, here.tokens) == LastOr(TopLevel(whole.tokens), None)
      decreases |data| - pos, if error == None then 1 else 0
    {
      ScanStep(env, ctx, data, pos);
      var chunkHeader, chunkSize := Le16(data, pos + 2), Le32(data, pos + 4);
      if chunkHeader < 8 || chunkSize < chunkHeader || pos + chunkSize > |data| {
        error := Some(InvalidChunk);
      } else {
        ctx, error := HandleChunk(env, ctx, data[pos..pos + chunkSize], b);
        assert forall i :: 0 <= i < |b.stack| ==> b.stack[i] in b.stack && fresh(b.stack[i]);
        if error == None {
          pos := pos + chunkSize;
        }
      }
    }
    ScanShort(env, ctx, data[pos..]);
    root := b.root;
    if |b.stack| > 0 {
      Seal(b.stack, b.frames, b.last, b.finished);
    } else {
      ResumeNothing(b.last, []);
    }
    if error == None && root == null {
      error := Some(NoRoot);
    }
  }

  lemma ScanShort(env: Env, ctx: Context, rest: seq<Byte>)
    ensures |rest| < 8 ==> Scan(env, ctx, rest) == Scanned([], None)
  {
  }

  lemma ResumeNothing(last: Option<Tree>, tokens: seq<Token>)
    ensures Resume([], last, tokens) == LastOr(TopLevel(tokens), last)
    ensures tokens == [] ==> TopLevel(tokens) == []
  {
  }
}
