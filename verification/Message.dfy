/** The two buffers of a message and the operations that prepare them for transfer. `Msg` is
    the value of the buffers; class `Message` updates them in place. */
module Messages {
  import opened Decimal
  import opened Framing

  datatype Msg = Msg(header: Bytes, content: Bytes)

  const CLEARED: Msg := Msg([], [])
  // A default-constructed message
  const FRESH: Msg := Msg(Zeros(HEADER_LENGTH), [])

  /** Value-initialised characters, as `resize` appends them to an empty vector. */
  function Zeros(count: nat): Bytes {
    seq(count, _ => '\0')
  }

  function HeaderWritePrepared(m: Msg): Msg {
    m.(header := Header(|m.content|))
  }

  function ContentWritePrepared(m: Msg, uninitialised: nat): Msg {
    if |m.content| != ContentLength(m.header, uninitialised) then HeaderWritePrepared(m) else m
  }

  function HeaderReadPrepared(m: Msg): Msg {
    m.(header := Zeros(HEADER_LENGTH))
  }

  // The largest size a vector of characters can be given
  const MAX_SIZE: nat := 0x7FFF_FFFF_FFFF_FFFF

  /** Sizing the content buffer by this header throws a length error. */
  predicate ResizeThrows(m: Msg, uninitialised: nat) {
    ContentLength(m.header, uninitialised) > MAX_SIZE
  }

  /** The content buffer has been cleared before it is given its size. */
  function ContentReadPrepared(m: Msg, uninitialised: nat): Msg {
    m.(content := if ResizeThrows(m, uninitialised) then [] else Zeros(ContentLength(m.header, uninitialised)))
  }

  function Framed(content: Bytes): Msg {
    Msg(Header(|content|), content)
  }

  /** A string stream under construction: its text and the width the next insertion is padded to. */
  datatype OutStream = OutStream(text: Bytes, width: nat)

  function Insert(out: OutStream, item: Bytes): OutStream {
    OutStream(out.text + Fill(out.width - |item|) + item, 0)
  }

  class Message {
    var headerBuffer: Bytes
    var contentBuffer: Bytes

    function Value(): Msg
      reads this
    {
      Msg(headerBuffer, contentBuffer)
    }

    constructor ()
      ensures Value() == FRESH
    {
      headerBuffer, contentBuffer := [], [];
      new;
      PrepareHeaderBufferRead();
    }

    constructor FromContent(content: Bytes)
      ensures Value() == Framed(content) && contentBuffer == content
      ensures exists k :: LaidOut(headerBuffer, |content|, k)
    {
      headerBuffer, contentBuffer := [], [];
      new;
      SetContentBuffer(content);
    }

    method PrepareHeaderBufferWrite()
      modifies this
      ensures Value() == old(HeaderWritePrepared(Value()))
      ensures contentBuffer == old(contentBuffer)
      ensures exists k :: LaidOut(headerBuffer, |contentBuffer|, k)
    {
      headerBuffer := MAGIC;
      var stream := Insert(OutStream([], CONTENT_LENGTH_DIGITS), Digits(|contentBuffer|));
      headerBuffer := CopyBack(stream.text, headerBuffer);
      HeaderLayout(headerBuffer, |contentBuffer|);
    }

    /** Copies `source` character by character to the back of `target`. */
    static method CopyBack(source: Bytes, target: Bytes) returns (result: Bytes)
      ensures result == target + source
    {
      result := target;
      var i := 0;
      while i < |source|
        invariant 0 <= i <= |source|
        invariant result == target + source[..i]
      {
        result := result + [source[i]];
        i := i + 1;
      }
      assert source[..i] == source;
    }

    method PrepareContentBufferWrite(uninitialised: nat)
      modifies this
      ensures Value() == old(ContentWritePrepared(Value(), uninitialised))
      ensures contentBuffer == old(contentBuffer)
      ensures |contentBuffer| == old(ContentLength(headerBuffer, uninitialised)) ==> headerBuffer == old(headerBuffer)
      ensures |contentBuffer| < LIMIT ==> ContentLength(headerBuffer, uninitialised) == |contentBuffer|
    {
      var length := GetHeaderBufferContentLength(uninitialised);
      if |contentBuffer| != length {
        PrepareHeaderBufferWrite();
        RepairKeepsHeader(Value(), uninitialised);
      }
    }

    method PrepareHeaderBufferRead()
      modifies this
      ensures Value() == old(HeaderReadPrepared(Value()))
      ensures |headerBuffer| == 28 && contentBuffer == old(contentBuffer)
      ensures forall i :: 0 <= i < |headerBuffer| ==> headerBuffer[i] == '\0'
    {
      ClearHeaderBuffer();
      headerBuffer := headerBuffer + Zeros(MAGIC_LENGTH + CONTENT_LENGTH_DIGITS);
    }

    method PrepareContentBufferRead(uninitialised: nat) returns (thrown: bool)
      modifies this
      ensures thrown <==> old(ResizeThrows(Value(), uninitialised))
      ensures Value() == old(ContentReadPrepared(Value(), uninitialised))
      ensures headerBuffer == old(headerBuffer)
      ensures |contentBuffer| == if thrown then 0 else ContentLength(headerBuffer, uninitialised)
      ensures forall i :: 0 <= i < |contentBuffer| ==> contentBuffer[i] == '\0'
    {
      ClearContentBuffer();
      var length := GetHeaderBufferContentLength(uninitialised);
      thrown := length > MAX_SIZE;
      if !thrown {
        contentBuffer := contentBuffer + Zeros(length);
      }
    }

    /** The header's length field goes through a string stream whose width setting pads the
        first character it receives, so nine blanks precede the field; they do not matter. */
    method GetHeaderBufferContentLength(uninitialised: nat) returns (length: nat)
      ensures length == ContentLength(headerBuffer, uninitialised)
      ensures |headerBuffer| != 28 ==> length == 0
      ensures |headerBuffer| == 28 && Blank(headerBuffer[18..]) ==> length == uninitialised
    {
      if |headerBuffer| != HEADER_LENGTH {
        return 0;
      }
      var field := headerBuffer[MAGIC_LENGTH..];
      var stream := OutStream([], CONTENT_LENGTH_DIGITS);
      var i := 0;
      while i < |field|
        invariant 0 <= i <= |field|
        invariant stream == if i == 0 then OutStream([], CONTENT_LENGTH_DIGITS)
                            else OutStream(Fill(CONTENT_LENGTH_DIGITS - 1) + field[..i], 0)
      {
        stream := Insert(stream, [field[i]]);
        i := i + 1;
        assert field[..i] == field[..i - 1] + [field[i - 1]];
      }
      assert field[..i] == field;
      BlanksAreSkipped(Fill(CONTENT_LENGTH_DIGITS - 1), field);
      SkipSpaceResult(field);
      length := uninitialised;
      match Extract(stream.text) {
        case Stored(value) => length := value;
        case NotStored =>
      }
    }

    method Clear()
      modifies this
      ensures Value() == CLEARED && headerBuffer == [] == contentBuffer
    {
      ClearHeaderBuffer();
      ClearContentBuffer();
    }

    method ClearHeaderBuffer()
      modifies this`headerBuffer
      ensures headerBuffer == []
    {
      headerBuffer := [];
    }

    method ClearContentBuffer()
      modifies this`contentBuffer
      ensures contentBuffer == []
    {
      contentBuffer := [];
    }

    method SetContentBuffer(content: Bytes)
      modifies this
      ensures Value() == Framed(content) && contentBuffer == content
      ensures exists k :: LaidOut(headerBuffer, |content|, k)
    {
      contentBuffer := content;
      PrepareHeaderBufferWrite();
    }

    /** `target = *this` */
    method AssignTo(target: Message)
      modifies target
      ensures target.Value() == old(Value())
    {
      target.headerBuffer, target.contentBuffer := headerBuffer, contentBuffer;
    }
  }

  // ---- Preparing a write ------------------------------------------------------------------

  /** Once the header is prepared for a content, preparing the content write leaves the message
      alone, whatever its size: below the limit because the getter reports that size, above it
      because the repair writes the same header again. */
  lemma RepairKeepsHeader(m: Msg, uninitialised: nat)
    ensures ContentWritePrepared(HeaderWritePrepared(m), uninitialised) == HeaderWritePrepared(m)
    ensures |m.content| < LIMIT ==>
              ContentLength(HeaderWritePrepared(m).header, uninitialised) == |m.content|
  {
    if |m.content| < LIMIT {
      LengthRoundTrip(|m.content|, uninitialised);
    }
  }
}
