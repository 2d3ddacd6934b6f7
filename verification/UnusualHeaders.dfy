/** What a server session makes of length fields that no session of this library writes. */
module UnusualHeaders {
  import opened Decimal
  import opened Framing
  import opened Messages
  import opened SessionModel
  import opened SessionInvariant
  import opened EmptyExchange

  /** A server session can receive any 28 characters as its first header. */
  lemma HeaderReceived(header: Bytes) returns (states: seq<Session>, events: seq<Event>)
    requires |header| == HEADER_LENGTH
    ensures IsRun(states, events) && states[0] == Started(Server)
    ensures states[|events|] ==
      Started(Server).(read := Msg(header, []), chain := [Op(ReadHeader, HEADER_LENGTH, HEADER_LENGTH, false)])
  {
    var s: Session;
    ServerShakes(Started(Server));
    states, events, s := Extended([Started(Server)], [], OpDone(0, Ok, NO_ENV));
    HeaderArrives(s, header);
    states, events, s := Extended(states, events, Receive(0, header));
  }

  const BLANK_HEADER: Bytes := MAGIC + Fill(CONTENT_LENGTH_DIGITS)
  const NEGATIVE_HEADER: Bytes := MAGIC + Fill(CONTENT_LENGTH_DIGITS - 2) + "-1"

  lemma BlankHeaderLength(uninitialised: nat)
    ensures |BLANK_HEADER| == HEADER_LENGTH && Decoded(BLANK_HEADER) == NotStored
    ensures ContentLength(BLANK_HEADER, uninitialised) == uninitialised
  {
    assert BLANK_HEADER[MAGIC_LENGTH..] == Fill(CONTENT_LENGTH_DIGITS);
    DecodedRange(BLANK_HEADER);
  }

  /** A blank length field: for every value the uninitialised variable can hold and a buffer can
      have, a server session comes to wait for a content of just that size. */
  lemma BlankHeaderRead(uninitialised: nat) returns (states: seq<Session>, events: seq<Event>)
    requires uninitialised <= MAX_SIZE
    ensures IsRun(states, events) && states[0] == Started(Server)
    ensures states[|events|].read.header == BLANK_HEADER
    ensures states[|events|].chain == [Op(ReadContent, uninitialised, 0, false)]
  {
    BlankHeaderLength(uninitialised);
    states, events := HeaderReceived(BLANK_HEADER);
    var s: Session;
    states, events, s := Extended(states, events, OpDone(0, Ok, Env(CLEARED, uninitialised)));
  }

  /** A field that reads -1: the length is the largest number there is, and the completion of the
      header read ends the program. */
  lemma NegativeHeaderRead() returns (states: seq<Session>, events: seq<Event>)
    ensures IsRun(states, events) && states[0] == Started(Server)
    ensures var s := states[|events|];
      && s.read.header == NEGATIVE_HEADER && |s.chain| == 1 && s.chain[0].moved == s.chain[0].size
      && forall u :: ContentLength(s.read.header, u) == 0xFFFF_FFFF_FFFF_FFFF
    ensures forall env :: Throws(states[|events|], 0, Ok, env)
  {
    var blanks := Fill(CONTENT_LENGTH_DIGITS - 2);
    assert NEGATIVE_HEADER[MAGIC_LENGTH..] == blanks + ("-" + ("1" + []));
    assert Value("1") == 1 by {
      ValueAppend([], '1');
      assert [] + ['1'] == "1";
    }
    ExtractedValue(blanks, "-", "1", []);
    states, events := HeaderReceived(NEGATIVE_HEADER);
  }
}
