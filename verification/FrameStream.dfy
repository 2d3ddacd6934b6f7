/** Frames one after the other on a byte stream, and the receive procedure: 28 characters of
    header, decode, as many characters of content. */
module FrameStream {
  import opened Decimal
  import opened Framing

  datatype Option<+T> = None | Some(value: T)

  function Frame(content: Bytes): Bytes {
    Header(|content|) + content
  }

  function Frames(contents: seq<Bytes>): Bytes {
    if contents == [] then [] else Frame(contents[0]) + Frames(contents[1..])
  }

  predicate AllSmall(contents: seq<Bytes>) {
    forall i :: 0 <= i < |contents| ==> |contents[i]| < LIMIT
  }

  /** One message off the front of `bytes`, and what is left; None while bytes are missing. */
  function ReceiveOne(bytes: Bytes, uninitialised: nat): (r: Option<(Bytes, Bytes)>)
    ensures r.Some? ==> |r.value.1| < |bytes|
  {
    if |bytes| < HEADER_LENGTH then None
    else
      var end := HEADER_LENGTH + ContentLength(bytes[..HEADER_LENGTH], uninitialised);
      if |bytes| < end then None else Some((bytes[HEADER_LENGTH..end], bytes[end..]))
  }

  /** Messages until bytes are missing, and the unfinished rest. */
  function ReceiveAll(bytes: Bytes, uninitialised: nat): (seq<Bytes>, Bytes)
    decreases |bytes|
  {
    match ReceiveOne(bytes, uninitialised)
    case None => ([], bytes)
    case Some((content, rest)) =>
      var (contents, left) := ReceiveAll(rest, uninitialised);
      ([content] + contents, left)
  }

  lemma ConcatAssociates(a: Bytes, b: Bytes, c: Bytes)
    ensures a + (b + c) == (a + b) + c
  {}

  lemma {:induction false} FramesAppend(a: seq<Bytes>, b: seq<Bytes>)
    ensures Frames(a + b) == Frames(a) + Frames(b)
  {
    if a == [] {
      assert a + b == b;
    } else {
      FramesAppend(a[1..], b);
      assert (a + b)[1..] == a[1..] + b;
      ConcatAssociates(Frame(a[0]), Frames(a[1..]), Frames(b));
    }
  }

  lemma FramesOfOne(content: Bytes)
    ensures Frames([content]) == Frame(content)
  {}

  /** The first message is taken off in one piece, whatever follows it. */
  lemma ReceiveFrame(content: Bytes, more: Bytes, uninitialised: nat)
    requires |content| < LIMIT
    ensures ReceiveOne(Frame(content) + more, uninitialised) == Some((content, more))
  {
    LengthRoundTrip(|content|, uninitialised);
    var bytes := Frame(content) + more;
    assert bytes[..HEADER_LENGTH] == Header(|content|);
    var end := HEADER_LENGTH + |content|;
    assert bytes[HEADER_LENGTH..end] == content;
    assert bytes[end..] == more;
  }

  /** A proper prefix of a frame yields no message. */
  lemma ReceivePartial(content: Bytes, part: Bytes, uninitialised: nat)
    requires |content| < LIMIT
    requires part < Frame(content)
    ensures ReceiveOne(part, uninitialised) == None
  {
    LengthRoundTrip(|content|, uninitialised);
    if |part| >= HEADER_LENGTH {
      assert part[..HEADER_LENGTH] == Frame(content)[..HEADER_LENGTH] == Header(|content|);
    }
  }

  /** The first message of an oversized frame is not the content that was sent. */
  lemma OversizedFrame(content: Bytes, more: Bytes, uninitialised: nat)
    requires |content| >= LIMIT
    ensures var r := ReceiveOne(Frame(content) + more, uninitialised);
            r.Some? ==> r.value.0 != content
  {
    FirstHeaderReadBack(|content|);
    var bytes := Frame(content) + more;
    assert bytes[..HEADER_LENGTH] == Header(|content|)[..HEADER_LENGTH];
  }

  /** The receive procedure run on a list of frames returns that list, with nothing left over,
      exactly if every content is below the limit. */
  lemma {:induction false} StreamRoundTrip(contents: seq<Bytes>, uninitialised: nat)
    ensures ReceiveAll(Frames(contents), uninitialised) == (contents, []) <==> AllSmall(contents)
  {
    if contents != [] {
      var content, rest := contents[0], contents[1..];
      assert contents == [content] + rest;
      StreamRoundTrip(rest, uninitialised);
      if |content| < LIMIT {
        ReceiveFrame(content, Frames(rest), uninitialised);
        var (tail, left) := ReceiveAll(Frames(rest), uninitialised);
        assert ([content] + tail)[1..] == tail;
        assert AllSmall(contents) <==> AllSmall(rest);
      } else {
        OversizedFrame(content, Frames(rest), uninitialised);
        var r := ReceiveOne(Frames(contents), uninitialised);
        if r.Some? {
          assert ReceiveAll(Frames(contents), uninitialised).0[0] == r.value.0;
        }
      }
    }
  }

  lemma TakeOfConcat(a: Bytes, b: Bytes, n: nat)
    requires n <= |a| + |b|
    ensures (a + b)[..n] == if n < |a| then a[..n] else a + b[..n - |a|]
  {}

  /** `got` are the first of `contents`, and `left` is a proper prefix of the next frame. */
  ghost predicate Received(contents: seq<Bytes>, got: seq<Bytes>, left: Bytes) {
    && got <= contents
    && (if |got| < |contents| then left < Frame(contents[|got|]) else left == [])
  }

  lemma ReceivedMore(content: Bytes, contents: seq<Bytes>, got: seq<Bytes>, left: Bytes)
    requires Received(contents, got, left)
    ensures Received([content] + contents, [content] + got, left)
  {
    if |got| < |contents| {
      assert ([content] + contents)[|got| + 1] == contents[|got|];
    }
  }

  lemma FramesCons(content: Bytes, contents: seq<Bytes>)
    ensures Frames([content] + contents) == Frame(content) + Frames(contents)
  {
    assert ([content] + contents)[1..] == contents;
  }

  /** One more frame in front of a received stream. */
  lemma ReceiveAllMore(content: Bytes, more: Bytes, uninitialised: nat)
    requires |content| < LIMIT
    ensures var (got, left) := ReceiveAll(more, uninitialised);
            ReceiveAll(Frame(content) + more, uninitialised) == ([content] + got, left)
  {
    ReceiveFrame(content, more, uninitialised);
  }

  /** A stream cut at any byte yields the messages whose frames are complete, and the
      beginning of the next frame is left over: no message is truncated. */
  lemma {:induction false} CutStream(contents: seq<Bytes>, cut: nat, uninitialised: nat)
    requires AllSmall(contents) && cut <= |Frames(contents)|
    ensures var (got, left) := ReceiveAll(Frames(contents)[..cut], uninitialised);
            Received(contents, got, left) && Frames(contents)[..cut] == Frames(got) + left
  {
    if contents != [] {
      var content, rest := contents[0], contents[1..];
      assert contents == [content] + rest;
      TakeOfConcat(Frame(content), Frames(rest), cut);
      if cut < |Frame(content)| {
        CutWithin(content, rest, Frame(content)[..cut], uninitialised);
      } else {
        CutStream(rest, cut - |Frame(content)|, uninitialised);
        CutFurther(content, rest, Frames(rest)[..cut - |Frame(content)|], uninitialised);
      }
    }
  }

  lemma CutWithin(content: Bytes, rest: seq<Bytes>, part: Bytes, uninitialised: nat)
    requires |content| < LIMIT && part < Frame(content)
    ensures ReceiveAll(part, uninitialised) == ([], part)
    ensures Received([content] + rest, [], part) && part == Frames([]) + part
  {
    ReceivePartial(content, part, uninitialised);
  }

  lemma CutFurther(content: Bytes, rest: seq<Bytes>, more: Bytes, uninitialised: nat)
    requires |content| < LIMIT
    requires var (got, left) := ReceiveAll(more, uninitialised);
             Received(rest, got, left) && more == Frames(got) + left
    ensures var (got, left) := ReceiveAll(Frame(content) + more, uninitialised);
            Received([content] + rest, got, left) && Frame(content) + more == Frames(got) + left
  {
    var (got, left) := ReceiveAll(more, uninitialised);
    ReceiveAllMore(content, more, uninitialised);
    ReceivedMore(content, rest, got, left);
    FramesCons(content, got);
    ConcatAssociates(Frame(content), Frames(got), left);
  }

  /** Different lists have different encodings, and no frame begins with another one. */
  lemma FramesInjective(a: seq<Bytes>, b: seq<Bytes>)
    requires AllSmall(a) && AllSmall(b)
    ensures Frames(a) == Frames(b) ==> a == b
    ensures |a| == |b| == 1 && Frame(a[0]) <= Frame(b[0]) ==> a == b
  {
    StreamRoundTrip(a, 0);
    StreamRoundTrip(b, 0);
    if |a| == |b| == 1 && Frame(a[0]) < Frame(b[0]) {
      assert Frame(a[0]) + [] == Frame(a[0]);
      ReceiveFrame(a[0], [], 0);
      ReceivePartial(b[0], Frame(a[0]), 0);
    } else if |a| == |b| == 1 && Frame(a[0]) == Frame(b[0]) {
      FramesOfOne(a[0]);
      FramesOfOne(b[0]);
    }
  }
}
