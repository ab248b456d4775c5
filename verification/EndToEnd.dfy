/**
  The whole path: a publisher that keeps a window for re-requests, two lines that lose,
  repeat and reorder, the sequencer, and the book.  The book built from the wire is the
  book built from the file.
 */
module EndToEnd {
  import opened Common
  import opened SequencerModel
  import opened SequencerTheorems
  import RetransmitStore
  import Book = BookModel
  import BookTheorems
  import opened BookWalk

  /** What can happen between publisher and subscriber.  A copy that is lost does not
      happen; one that is repeated or late happens again or later. */
  datatype Happening =
    | Publish(sequence: nat)
    | Arrive(line: Line, sequence: nat, now: nat)
    | Reply(sequence: nat, now: nat)
    | PollAt(now: nat)
    | ResetTo(first: nat)

  /** The retransmission server: its window, and the widest payload it keeps. */
  datatype Server = Server(capacity: nat, width: nat)

  function Stored(server: Server, stream: Stream, log: seq<Message>, q: nat): seq<Message> {
    if |stream(q)| <= server.width then log + [Message(q, stream(q))] else log
  }

  /** What the sequencer is given: arrivals, and whatever the server still has. */
  function Wire(server: Server, stream: Stream, log: seq<Message>, hs: seq<Happening>): seq<Event>
    requires server.capacity > 0
    decreases |hs|
  {
    if hs == [] then []
    else
      match hs[0]
      case Publish(q) => Wire(server, stream, Stored(server, stream, log, q), hs[1..])
      case Arrive(line, q, now) => [OnMessage(line, q, stream(q), now)] + Wire(server, stream, log, hs[1..])
      case Reply(q, now) =>
        (match RetransmitStore.Answer(log, server.capacity, q)
         case None => []
         case Some(payload) => [OnRetransmit(q, payload, now)])
        + Wire(server, stream, log, hs[1..])
      case PollAt(now) => [OnPoll(now)] + Wire(server, stream, log, hs[1..])
      case ResetTo(first) => [OnReset(first)] + Wire(server, stream, log, hs[1..])
  }

  lemma {:induction false} WireIsGenuine(server: Server, stream: Stream, log: seq<Message>, hs: seq<Happening>)
    requires server.capacity > 0 && forall m :: m in log ==> m.payload == stream(m.sequence)
    ensures AllGenuine(Wire(server, stream, log, hs), stream)
    decreases |hs|
  {
    if hs != [] {
      var log' := if hs[0].Publish? then Stored(server, stream, log, hs[0].sequence) else log;
      WireIsGenuine(server, stream, log', hs[1..]);
      if hs[0].Reply? {
        RetransmitStore.AnswersAreGenuine(log, server.capacity, stream, hs[0].sequence);
      }
    }
  }

  // ----- the book ----------------------------------------------------------------------------

  type Decoder = Payload -> Book.Event

  ghost predicate Sane(decode: Decoder) {
    forall p :: decode(p).locate < Book.LOCATES
  }

  ghost function BookOf(capacity: nat, decode: Decoder, messages: seq<Message>): Book.Book
    requires Sane(decode)
  {
    BookTheorems.EmptyInv(capacity);
    var events := Decoded(decode, messages);
    assert BookTheorems.Placed(events) by {
      forall i | 0 <= i < |events| ensures events[i].locate < Book.LOCATES {
        assert events[i] == decode(messages[i].payload);
      }
    }
    BookTheorems.Replay(Book.EmptyBook(capacity), events)
  }

  function Decoded(decode: Decoder, messages: seq<Message>): seq<Book.Event> {
    seq(|messages|, i requires 0 <= i < |messages| => decode(messages[i].payload))
  }

  /**
    However the lines lose, repeat and reorder, and whatever the server has forgotten: while
    the feed is not Stale, the book from the wire is the book from the file, counter for
    counter and level for level, hence with the same digest.  The work is in WireIsGenuine,
    which says that nothing but published payloads reaches the sequencer, and in
    WireEqualsFile, which says that what leaves it is the published stream; after that the
    books are equal because they are replays of equal streams.
   */
  lemma WireBookIsFileBook(p: Params, server: Server, stream: Stream, hs: seq<Happening>, capacity: nat, decode: Decoder)
    requires p.Ok() && server.capacity > 0 && Sane(decode)
    ensures var s := Run(p, FRESH, Wire(server, stream, [], hs));
      s.history.first <= s.expected &&
      (s.state != Stale ==>
        var wire := BookOf(capacity, decode, s.history.output);
        var file := BookOf(capacity, decode, Published(stream, s.history.first, s.expected));
        wire == file && DigestWalk(wire) == DigestWalk(file))
  {
    WireIsGenuine(server, stream, [], hs);
    WireEqualsFile(p, Wire(server, stream, [], hs), stream);
  }
}
