/** Single events of an exchange of empty messages, for the runs built from them. */
module EmptyExchange {
  import opened Decimal
  import opened Framing
  import opened Messages
  import opened SessionModel

  const NO_ENV: Env := Env(CLEARED, 0)

  /** The handshake of a server session succeeds. */
  lemma ServerShakes(s: Session)
    requires s == Started(Server)
    ensures Enabled(s, OpDone(0, Ok, NO_ENV))
    ensures Apply(s, OpDone(0, Ok, NO_ENV)) == s.(chain := [Op(ReadHeader, HEADER_LENGTH, 0, false)])
  {}

  lemma EmptySend(s: Session)
    requires s == Started(Client).(chain := [])
    ensures Enabled(s, SendCall(CLEARED))
    ensures Apply(s, SendCall(CLEARED)) ==
      s.(write := Framed([]), sent := [[]], chain := [Op(WriteHeader, HEADER_LENGTH, 0, false)])
  {}

  /** A header arrives in one piece. */
  lemma HeaderArrives(s: Session, header: Bytes)
    requires s.role == Server && s.chain == [Op(ReadHeader, HEADER_LENGTH, 0, false)]
    requires |s.read.header| == HEADER_LENGTH == |header|
    ensures Enabled(s, Receive(0, header))
    ensures Apply(s, Receive(0, header)) ==
      s.(read := Msg(header, s.read.content), chain := [Op(ReadHeader, HEADER_LENGTH, HEADER_LENGTH, false)])
  {
    assert s.read.header[..0] + header + s.read.header[HEADER_LENGTH..] == header;
  }

  /** The header of an empty message has been read: nothing is left to wait for. */
  lemma EmptyContentNext(s: Session)
    requires s.chain == [Op(ReadHeader, HEADER_LENGTH, HEADER_LENGTH, false)]
    requires s.read.header == Header(0) && s.open && !s.stopped
    ensures Enabled(s, OpDone(0, Ok, NO_ENV))
    ensures Apply(s, OpDone(0, Ok, NO_ENV)) == s.(read := Framed([]), chain := [Op(ReadContent, 0, 0, false)])
  {
    LengthRoundTrip(0, 0);
  }

  /** The server reads the empty content and replies with an empty message. */
  lemma EmptyReplyNext(s: Session)
    requires s.role == Server && s.open && !s.stopped && s.chain == [Op(ReadContent, 0, 0, false)]
    ensures Enabled(s, OpDone(0, Ok, NO_ENV))
    ensures var t := Apply(s, OpDone(0, Ok, NO_ENV));
      t == s.(write := Framed([]), served := t.served, chain := [Op(WriteHeader, HEADER_LENGTH, 0, false)])
  {}

  /** The header of an empty message leaves in one piece. */
  lemma HeaderWritten(s: Session)
    requires s.chain == [Op(WriteHeader, HEADER_LENGTH, 0, false)] && s.write == Framed([])
    ensures Enabled(s, Transmit(0, HEADER_LENGTH))
    ensures Apply(s, Transmit(0, HEADER_LENGTH)) ==
      s.(chain := [Op(WriteHeader, HEADER_LENGTH, HEADER_LENGTH, false)])
  {
    LengthRoundTrip(0, 0);
  }
}
