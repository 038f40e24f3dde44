/** What the channel guarantees over whole sessions. */
module ChannelDelivery {
  import opened Common
  import opened SecureChannel

  // ------------------------------------------------------------------------------------
  // Against any network
  // ------------------------------------------------------------------------------------

  /** The sender seals a message, or the receiver makes one call -- on whatever bytes and with
      whatever timing the network chose for that call. */
  datatype Event = Sent(message: Message) | Received(socket: Socket, readable: bool)

  datatype Link = Link(log: seq<Entry>, recvNonce: nat, accepted: seq<Message>)

  function StepLink(seal: Seal, l: Link, e: Event): Link {
    match e
    case Sent(m) => l.(log := l.log + [Entry(Plaintext(m), seal(|l.log|, Plaintext(m)))])
    case Received(socket, readable) =>
      var (result, r) := Receive(Receiver(socket, l.recvNonce), l.log, readable);
      Link(l.log, r.recvNonce, if result.Ok? then l.accepted + [result.message] else l.accepted)
  }

  ghost predicate IsSession(seal: Seal, ls: seq<Link>, es: seq<Event>) {
    && IsAead(seal)
    && |ls| == |es| + 1
    && ls[0] == Link([], 0, [])
    && forall i {:trigger es[i]} | 0 <= i < |es| :: ls[i + 1] == StepLink(seal, ls[i], es[i])
  }

  /** The messages sent by the first `i` events, in order. */
  function SentBy(es: seq<Event>, i: nat): seq<Message>
    requires i <= |es|
  {
    if i == 0 then []
    else SentBy(es, i - 1) + if es[i - 1].Sent? then [es[i - 1].message] else []
  }

  ghost predicate LinkInv(seal: Seal, l: Link, sent: seq<Message>) {
    && ValidLog(seal, l.log)
    && |sent| == |l.log|
    && (forall n | 0 <= n < |sent| :: l.log[n].plain == Plaintext(sent[n]))
    && l.recvNonce <= |sent|
    && l.accepted == sent[..l.recvNonce]
  }

  /** A call that accepts a message accepts the one whose turn it is, and nothing else moves
      the receiver on. */
  lemma ReceiveTakesNext(seal: Seal, socket: Socket, nonce: nat, log: seq<Entry>, readable: bool)
    requires ValidLog(seal, log)
    ensures var (result, r) := Receive(Receiver(socket, nonce), log, readable);
            if result.Ok? then nonce < |log| && |log[nonce].ciphertext| <= MAX_FRAME_LEN
                               && r.recvNonce == nonce + 1
                               && Plaintext(result.message) == log[nonce].plain
            else r.recvNonce == nonce
  {
    hide ReadExact, ParseLength;
    var (result, r) := Receive(Receiver(socket, nonce), log, readable);
    if result.Ok? {
      assert log[nonce].plain == [log[nonce].plain[0]] + log[nonce].plain[1..];
    }
  }

  lemma SamePlaintext(m: Message, n: Message)
    requires Plaintext(m) == Plaintext(n)
    ensures m == n
  {
    assert Plaintext(m)[1..] == m.payload && Plaintext(n)[1..] == n.payload;
  }

  lemma SendKeepsInv(seal: Seal, l: Link, sent: seq<Message>, m: Message)
    requires LinkInv(seal, l, sent)
    ensures LinkInv(seal, StepLink(seal, l, Sent(m)), sent + [m])
  {
    hide Receive;
    assert (sent + [m])[..l.recvNonce] == sent[..l.recvNonce];
  }

  lemma ReceiveKeepsInv(seal: Seal, l: Link, sent: seq<Message>, socket: Socket, readable: bool)
    requires LinkInv(seal, l, sent)
    ensures LinkInv(seal, StepLink(seal, l, Received(socket, readable)), sent)
  {
    hide Receive, IsAead;
    ReceiveTakesNext(seal, socket, l.recvNonce, l.log, readable);
    var (result, r) := Receive(Receiver(socket, l.recvNonce), l.log, readable);
    if result.Ok? {
      SamePlaintext(result.message, sent[l.recvNonce]);
      assert sent[..l.recvNonce + 1] == sent[..l.recvNonce] + [sent[l.recvNonce]];
    }
  }

  lemma {:induction false} SessionInv(seal: Seal, ls: seq<Link>, es: seq<Event>, i: nat)
    requires IsSession(seal, ls, es) && i <= |es|
    ensures LinkInv(seal, ls[i], SentBy(es, i))
  {
    if i > 0 {
      SessionInv(seal, ls, es, i - 1);
      hide LinkInv, StepLink;
      assert ls[i] == StepLink(seal, ls[i - 1], es[i - 1]);
      match es[i - 1]
      case Sent(m) => SendKeepsInv(seal, ls[i - 1], SentBy(es, i - 1), m);
      case Received(socket, readable) =>
        ReceiveKeepsInv(seal, ls[i - 1], SentBy(es, i - 1), socket, readable);
        assert SentBy(es, i) == SentBy(es, i - 1);
    }
  }

  /** Prefix delivery: however the network chunks, delays, truncates, corrupts, replays or
      reorders the bytes, what has been accepted is always a prefix of what has been sent. */
  lemma AcceptedIsPrefix(seal: Seal, ls: seq<Link>, es: seq<Event>, i: nat)
    requires IsSession(seal, ls, es) && i <= |es|
    ensures ls[i].accepted <= SentBy(es, i)
  {
    SessionInv(seal, ls, es, i);
  }

  /** A message too long for the cap is never accepted, and neither is anything after it. */
  lemma {:induction false} OversizedBlocks(seal: Seal, ls: seq<Link>, es: seq<Event>, i: nat, k: nat)
    requires IsSession(seal, ls, es) && i <= |es|
    requires k < |SentBy(es, i)| && 1 + |SentBy(es, i)[k].payload| + 16 > 8 * 1024 * 1024
    ensures |ls[i].accepted| <= k
  {
    if i > 0 {
      SessionInv(seal, ls, es, i);
      SessionInv(seal, ls, es, i - 1);
      if k < |SentBy(es, i - 1)| {
        OversizedBlocks(seal, ls, es, i - 1, k);
        var l := ls[i - 1];
        if es[i - 1].Received? && |l.accepted| == k {
          hide Receive;
          ReceiveTakesNext(seal, es[i - 1].socket, l.recvNonce, l.log, es[i - 1].readable);
          assert |l.log[k].ciphertext| == |Plaintext(SentBy(es, i)[k])| + TAG_LEN;
        }
      }
    }
  }

  // ------------------------------------------------------------------------------------
  // How a call fails
  // ------------------------------------------------------------------------------------

  /** Of the turns that end a read, the peer hanging up comes first: before the deadline. */
  ghost predicate HangsUp(turns: seq<Turn>) {
    exists k: nat | k < |turns| :: turns[k].PeerClosed? && forall j | 0 <= j < k :: !turns[j].Expired?
  }

  lemma HangsUpNow(turns: seq<Turn>)
    ensures HangsUp(turns) <==> turns != [] && !turns[0].Expired? && (turns[0].PeerClosed? || HangsUp(turns[1..]))
  {
    if turns != [] {
      var rest := turns[1..];
      if HangsUp(turns) && !turns[0].PeerClosed? {
        var k: nat :| k < |turns| && turns[k].PeerClosed? && forall j | 0 <= j < k :: !turns[j].Expired?;
        assert rest[k - 1].PeerClosed? && forall j | 0 <= j < k - 1 :: rest[j] == turns[j + 1];
      }
      if !turns[0].Expired? && HangsUp(rest) {
        var k: nat :| k < |rest| && rest[k].PeerClosed? && forall j | 0 <= j < k :: !rest[j].Expired?;
        assert turns[k + 1].PeerClosed? && forall j | 0 < j < k + 1 :: turns[j] == rest[j - 1];
      }
    }
  }

  /** A read that does not get its bytes says that the peer is gone exactly if it hangs up; one that
      does leaves that for the next. */
  lemma {:induction false} ReadFails(s: Socket, len: nat)
    ensures var (result, after) := ReadExact(s, len);
            && (result.Closed? <==> !result.Done? && HangsUp(s.turns))
            && (result.Done? ==> (HangsUp(after.turns) <==> HangsUp(s.turns)))
    decreases |s.turns|
  {
    HangsUpNow(s.turns);
    if len > 0 && s.turns != [] {
      ReadExactTurn(s, len);
      hide ReadExact, HangsUp;
      var rest := s.(turns := s.turns[1..]);
      if s.turns[0].NothingYet? {
        ReadFails(rest, len);
      } else if s.turns[0].Chunk? {
        var n := Min(Min(1 + s.turns[0].extra, len), |s.incoming|);
        ReadFails(rest.(incoming := s.incoming[n..]), len - n);
      }
    }
  }

  /** What a call answers that was cut short in its header or in its body. */
  ghost function CutShort(turns: seq<Turn>): RecvResult { if HangsUp(turns) then ClosedByPeer else Error }

  /** The call gets the four bytes of a length within the cap, and as many bytes as that. */
  predicate GetsFrame(s: Socket) {
    var (header, s1) := ReadExact(s, 4);
    header.Done? && 0 < ParseLength(header.bytes) <= MAX_FRAME_LEN && ReadExact(s1, ParseLength(header.bytes)).0.Done?
  }

  /** It carries exactly what the sender sealed in the receiver's turn. */
  predicate GetsNext(r: Receiver, log: seq<Entry>) {
    && GetsFrame(r.socket) && r.recvNonce < |log|
    && var (header, s1) := ReadExact(r.socket, 4);
       ReadExact(s1, ParseLength(header.bytes)).0.bytes == log[r.recvNonce].ciphertext
  }

  predicate BadLength(s: Socket) {
    var header := ReadExact(s, 4).0;
    header.Done? && !(0 < ParseLength(header.bytes) <= MAX_FRAME_LEN)
  }

  /** On any stream: a call times out exactly if nothing is readable, and answers that the peer is gone
      exactly if it gets no frame, not for a bad length, and the peer hangs up. Whatever else goes
      wrong -- a stall in the middle of a frame, a bad length, a frame that does not open or is
      empty -- is an error. The turn passes on exactly if the frame opens. */
  lemma HowACallEnds(r: Receiver, log: seq<Entry>, readable: bool)
    ensures var (result, after) := Receive(r, log, readable);
            && (result.Timeout? <==> !readable)
            && after.recvNonce == r.recvNonce + (if readable && GetsNext(r, log) then 1 else 0)
            && (result.Ok? <==> readable && GetsNext(r, log) && log[r.recvNonce].plain != [])
            && (result.Ok? ==> Plaintext(result.message) == log[r.recvNonce].plain)
            && (result.ClosedByPeer? <==> readable && !GetsFrame(r.socket) && !BadLength(r.socket) && HangsUp(r.socket.turns))
  {
    ReadFails(r.socket, 4);
    var (header, s1) := ReadExact(r.socket, 4);
    if header.Done? { ReadFails(s1, ParseLength(header.bytes)); }
    hide ReadExact, HangsUp, ParseLength;
  }

  // ------------------------------------------------------------------------------------
  // Over an honest network
  // ------------------------------------------------------------------------------------

  /** The bytes that the turns can bring before the first that ends a read. */
  function Bytes(turns: seq<Turn>): nat {
    if turns == [] || turns[0].Expired? || turns[0].PeerClosed? then 0
    else (if turns[0].Chunk? then 1 + turns[0].extra else 0) + Bytes(turns[1..])
  }

  /** What is left of the turns after a read of `len` bytes that finds them all, if it is not cut
      short first. A chunk brings no more than the read still wants. */
  function TurnsAfter(turns: seq<Turn>, len: nat): Option<seq<Turn>> {
    if len == 0 then Some(turns)
    else if turns == [] || turns[0].Expired? || turns[0].PeerClosed? then None
    else TurnsAfter(turns[1..], if turns[0].Chunk? then len - Min(1 + turns[0].extra, len) else len)
  }

  /** A read is cut short exactly if the chunks before the deadline do not add up to it. */
  lemma {:induction false} EnoughBytes(turns: seq<Turn>, len: nat)
    ensures TurnsAfter(turns, len).Some? <==> Bytes(turns) >= len
  {
    if len > 0 && turns != [] && !turns[0].Expired? && !turns[0].PeerClosed? {
      EnoughBytes(turns[1..], if turns[0].Chunk? then len - Min(1 + turns[0].extra, len) else len);
    }
  }

  lemma SliceSplits(bytes: seq<byte>, n: nat, len: nat)
    requires n <= len <= |bytes|
    ensures bytes[..n] + bytes[n..][..len - n] == bytes[..len] && bytes[n..][len - n..] == bytes[len..]
  {
  }

  /** On a stream that holds them, a read gets exactly the next bytes, however they are chunked, or
      is cut short; which of the two, the script alone decides. */
  lemma {:induction false} ReadExactCompletes(s: Socket, len: nat)
    requires len <= |s.incoming|
    ensures var (result, after) := ReadExact(s, len);
            if TurnsAfter(s.turns, len).Some?
            then result == Done(s.incoming[..len]) && after == Socket(s.incoming[len..], TurnsAfter(s.turns, len).value)
            else !result.Done?
    decreases |s.turns|
  {
    if len > 0 && s.turns != [] {
      ReadExactTurn(s, len);
      hide ReadExact;
      var rest := s.(turns := s.turns[1..]);
      if s.turns[0].NothingYet? {
        ReadExactCompletes(rest, len);
      } else if s.turns[0].Chunk? {
        var n := Min(1 + s.turns[0].extra, len);
        assert n == Min(Min(1 + s.turns[0].extra, len), |s.incoming|);
        ReadExactCompletes(rest.(incoming := s.incoming[n..]), len - n);
        SliceSplits(s.incoming, n, len);
      }
    }
  }

  /** The script lets a whole frame through: its length, and then its ciphertext. */
  predicate Whole(turns: seq<Turn>, e: Entry) {
    var rest := TurnsAfter(turns, 4);
    rest.Some? && Bytes(rest.value) >= |e.ciphertext|
  }

  lemma SplitFrame(head: seq<byte>, body: seq<byte>, rest: seq<byte>)
    ensures (head + body + rest)[..|head|] == head
    ensures (head + body + rest)[|head|..] == body + rest
    ensures (body + rest)[..|body|] == body && (body + rest)[|body|..] == rest
  {
  }

  lemma FrameReads(s: Socket, e: Entry, rest: seq<byte>)
    requires s.incoming == Frame(e) + rest
    ensures var (header, s1) := ReadExact(s, 4);
            var (body, s2) := ReadExact(s1, |e.ciphertext|);
            && (header.Done? ==> header == Done(LengthPrefix(|e.ciphertext|)))
            && (header.Done? && body.Done? <==> Whole(s.turns, e))
            && (Whole(s.turns, e) ==> body == Done(e.ciphertext) && s2.incoming == rest)
  {
    var head := LengthPrefix(|e.ciphertext|);
    hide LengthPrefix, ReadExact, TurnsAfter, Bytes;
    SplitFrame(head, e.ciphertext, rest);
    ReadExactCompletes(s, 4);
    if TurnsAfter(s.turns, 4).Some? {
      ReadExactCompletes(ReadExact(s, 4).1, |e.ciphertext|);
      EnoughBytes(TurnsAfter(s.turns, 4).value, |e.ciphertext|);
    }
  }

  /** One call on an honest stream delivers the next message, when its frame is within the cap,
      exactly if the call is not cut short; it then leaves the stream at the next frame. */
  lemma NextDelivered(seal: Seal, r: Receiver, log: seq<Entry>)
    requires ValidLog(seal, log) && r.recvNonce < |log|
    requires r.socket.incoming == Frames(log, r.recvNonce)
    requires |log[r.recvNonce].ciphertext| <= 8 * 1024 * 1024
    ensures var (result, after) := Receive(r, log, true);
            if Whole(r.socket.turns, log[r.recvNonce])
            then && result == Ok(MessageOf(log[r.recvNonce])) && after.recvNonce == r.recvNonce + 1
                 && after.socket.incoming == Frames(log, r.recvNonce + 1)
            else result == CutShort(r.socket.turns)
  {
    var e := log[r.recvNonce];
    ReadFails(r.socket, 4);
    ReadFails(ReadExact(r.socket, 4).1, |e.ciphertext|);
    FrameReads(r.socket, e, Frames(log, r.recvNonce + 1));
    ParseInvertsPrefix(|e.ciphertext|);
    assert |e.ciphertext| == |e.plain| + TAG_LEN;
    hide ReadExact, LengthPrefix, ParseLength, Frames, Whole, Frame, HangsUp;
  }

  /** One call of `receive`: whether anything is readable in time, and what the socket then does. */
  datatype Call = Call(readable: bool, turns: seq<Turn>)

  /** A receiver called over the same byte stream throughout. */
  function ReceiveAll(r: Receiver, log: seq<Entry>, calls: seq<Call>): (rs: seq<RecvResult>)
    ensures |rs| == |calls|
    decreases |calls|
  {
    if calls == [] then []
    else
      var (result, after) := Receive(r.(socket := r.socket.(turns := calls[0].turns)), log, calls[0].readable);
      [result] + ReceiveAll(after, log, calls[1..])
  }

  lemma OneByOne(r: Receiver, log: seq<Entry>, calls: seq<Call>, k: nat)
    requires k < |calls|
    ensures var (result, after) := Receive(r.(socket := r.socket.(turns := calls[0].turns)), log, calls[0].readable);
            ReceiveAll(r, log, calls)[k] == if k == 0 then result else ReceiveAll(after, log, calls[1..])[k - 1]
  {
    hide Receive;
  }

  /** How many of the first `k` calls found something to read. */
  function Readable(calls: seq<Call>, k: nat): nat
    requires k <= |calls|
    decreases |calls|
  {
    if k == 0 then 0 else (if calls[0].readable then 1 else 0) + Readable(calls[1..], k - 1)
  }

  /** Message `n` has been sent, and the call lets it through whole. */
  predicate Delivers(log: seq<Entry>, n: nat, call: Call) { n < |log| && Whole(call.turns, log[n]) }

  /** What a call gets when message `n` is the next: a call that finds nothing readable times out, one
      that lets the message through gets it, and any other answers that the peer is gone if it hangs
      up in the call, and fails if not. */
  ghost predicate IsDue(seal: Seal, log: seq<Entry>, n: nat, call: Call, result: RecvResult)
    requires ValidLog(seal, log)
  {
    if !call.readable then result == Timeout
    else if Delivers(log, n, call) then result == Ok(MessageOf(log[n]))
    else result == CutShort(call.turns)
  }

  /** A call on a stream that holds nothing more gets nothing. */
  lemma NothingToRead(r: Receiver, log: seq<Entry>)
    requires r.socket.incoming == []
    ensures Receive(r, log, true).0 == CutShort(r.socket.turns)
  {
    ReadFails(r.socket, 4);
    assert !ReadExact(r.socket, 4).0.Done?;
    hide ReadExact, ParseLength, Open, HangsUp;
  }

  lemma TimesOut(r: Receiver, log: seq<Entry>)
    ensures Receive(r, log, false) == (Timeout, r)
  {
    hide ReadExact, ParseLength;
  }

  lemma OneCall(seal: Seal, r: Receiver, log: seq<Entry>, call: Call)
    requires ValidLog(seal, log) && r.recvNonce <= |log| && r.socket.incoming == Frames(log, r.recvNonce)
    requires forall e | e in log :: |e.ciphertext| <= 8 * 1024 * 1024
    ensures var (result, after) := Receive(r.(socket := r.socket.(turns := call.turns)), log, call.readable);
            && IsDue(seal, log, r.recvNonce, call, result)
            && ((call.readable ==> Delivers(log, r.recvNonce, call)) ==>
                  && after.recvNonce == r.recvNonce + Readable([call], 1) <= |log|
                  && after.socket.incoming == Frames(log, after.recvNonce))
  {
    hide Frames, Whole, Receive, ValidLog, Frame, HangsUp;
    var now := r.(socket := r.socket.(turns := call.turns));
    assert Readable([call][1..], 0) == 0;
    if !call.readable {
      TimesOut(now, log);
    } else if r.recvNonce < |log| {
      assert log[r.recvNonce] in log;
      NextDelivered(seal, now, log);
    } else {
      NoFramesLeft(log);
      NothingToRead(now, log);
    }
  }

  lemma NoFramesLeft(log: seq<Entry>)
    ensures Frames(log, |log|) == []
  {
  }

  /** None of the first `k` calls is cut short, and there is a message for each that reads. */
  ghost predicate DeliversUpTo(log: seq<Entry>, n: nat, calls: seq<Call>, k: nat)
    requires k <= |calls|
  {
    forall i: nat | i < k && calls[i].readable :: Delivers(log, n + Readable(calls, i), calls[i])
  }

  lemma DeliversFromSecond(log: seq<Entry>, n: nat, calls: seq<Call>, k: nat)
    requires 0 < k <= |calls| && DeliversUpTo(log, n, calls, k)
    ensures calls[0].readable ==> Delivers(log, n, calls[0])
    ensures DeliversUpTo(log, n + Readable([calls[0]], 1), calls[1..], k - 1)
    ensures Readable(calls, k) == Readable([calls[0]], 1) + Readable(calls[1..], k - 1)
  {
    hide Delivers;
    assert Readable(calls, 0) == 0 && Readable([calls[0]][1..], 0) == 0;
    assert calls[0].readable ==> Delivers(log, n + Readable(calls, 0), calls[0]);
    forall i: nat | i < k - 1 && calls[1..][i].readable
      ensures Delivers(log, n + Readable([calls[0]], 1) + Readable(calls[1..], i), calls[1..][i])
    {
      assert calls[1..][i] == calls[i + 1];
      assert Readable(calls, i + 1) == (if calls[0].readable then 1 else 0) + Readable(calls[1..], i);
    }
  }

  /** Exactly what arrives, call by call, over a stream of frames within the cap: a call that finds
      nothing readable times out and changes nothing; any other delivers the next message in order;
      and so on until, and unless, the messages are used up or a call is cut short -- which the sum
      of its chunks decides. */
  lemma {:induction false} AllArrive(seal: Seal, r: Receiver, log: seq<Entry>, calls: seq<Call>, k: nat)
    requires ValidLog(seal, log) && r.recvNonce <= |log| && r.socket.incoming == Frames(log, r.recvNonce)
    requires forall e | e in log :: |e.ciphertext| <= 8 * 1024 * 1024
    requires k < |calls| && DeliversUpTo(log, r.recvNonce, calls, k)
    ensures IsDue(seal, log, r.recvNonce + Readable(calls, k), calls[k], ReceiveAll(r, log, calls)[k])
    decreases |calls|
  {
    OneCall(seal, r, log, calls[0]);
    OneByOne(r, log, calls, k);
    hide Receive, ReceiveAll, Frames, Delivers, ValidLog, DeliversUpTo, IsDue;
    if k == 0 {
      assert Readable(calls, 0) == 0;
    } else {
      hide Readable;
      var after := Receive(r.(socket := r.socket.(turns := calls[0].turns)), log, calls[0].readable).1;
      DeliversFromSecond(log, r.recvNonce, calls, k);
      AllArrive(seal, after, log, calls[1..], k - 1);
    }
  }

  // ------------------------------------------------------------------------------------
  // Many senders, one mutex
  // ------------------------------------------------------------------------------------

  /** Threads share the channel: each takes the mutex, seals one message, writes its frame in as
      many pieces as the socket likes, and lets go. A write may fail at any point; `send` then
      returns false and its thread lets go, the rest of the frame never written. A step its thread
      may not take does nothing. */
  datatype ThreadStep =
    | Lock(thread: nat)
    | SealMessage(thread: nat, m: Message)
    | Write(thread: nat, n: nat)
    | WriteFails(thread: nat)
    | Unlock(thread: nat)

  /** Two facts of history: `out`, how many bytes of each frame have been written, and `cut`, the frames
      of which a failed write left some unwritten. */
  datatype Shared = Shared(holder: Option<nat>, unwritten: Option<seq<byte>>, written: seq<byte>, log: seq<Entry>,
                           out: seq<nat>, cut: set<nat>)

  /** `n` more bytes of the frame being written are out. */
  function More(out: seq<nat>, n: nat): seq<nat> {
    if out == [] then [] else out[|out| - 1 := out[|out| - 1] + n]
  }

  function StepShared(seal: Seal, s: Shared, step: ThreadStep): Shared {
    match step
    case Lock(t) => if s.holder == None then s.(holder := Some(t), unwritten := None) else s
    case SealMessage(t, m) =>
      if s.holder == Some(t) && s.unwritten == None then
        var e := Entry(Plaintext(m), seal(|s.log|, Plaintext(m)));
        s.(log := s.log + [e], unwritten := Some(Frame(e)), out := s.out + [0])
      else s
    case Write(t, n) =>
      if s.holder == Some(t) && s.unwritten.Some? && n <= |s.unwritten.value| then
        s.(written := s.written + s.unwritten.value[..n], unwritten := Some(s.unwritten.value[n..]), out := More(s.out, n))
      else s
    case WriteFails(t) =>
      if s.holder == Some(t) && s.unwritten.Some? then
        s.(unwritten := Some([]), cut := if s.unwritten.value != [] && s.log != [] then s.cut + {|s.log| - 1} else s.cut)
      else s
    case Unlock(t) =>
      if s.holder == Some(t) && s.unwritten in {None, Some([])} then s.(holder := None, unwritten := None) else s
  }

  function StepAll(seal: Seal, s: Shared, steps: seq<ThreadStep>): Shared {
    if steps == [] then s else StepShared(seal, StepAll(seal, s, steps[..|steps| - 1]), steps[|steps| - 1])
  }

  const IDLE := Shared(None, None, [], [], [], {})

  lemma {:induction false} FramesAppend(log: seq<Entry>, e: Entry, n: nat)
    requires n <= |log|
    ensures Frames(log + [e], n) == Frames(log, n) + Frame(e)
    decreases |log| - n
  {
    hide Frame;
    if n == |log| {
      assert Frames(log + [e], n + 1) == [];
      assert Frames(log, n) == [];
    } else {
      FramesAppend(log, e, n + 1);
      assert (log + [e])[n] == log[n];
      assert Frame(log[n]) + (Frames(log, n + 1) + Frame(e)) == (Frame(log[n]) + Frames(log, n + 1)) + Frame(e);
    }
  }

  /** The first `out[i]` bytes of each frame `i`, one after the other. */
  predicate Fits(log: seq<Entry>, out: seq<nat>) { |out| == |log| && forall i | 0 <= i < |log| :: out[i] <= |Frame(log[i])| }

  function Heads(log: seq<Entry>, out: seq<nat>): seq<byte>
    requires Fits(log, out)
  {
    if log == [] then [] else
      var k := |log| - 1;
      Heads(log[..k], out[..k]) + Frame(log[k])[..out[k]]
  }

  /** They are the stream of frames exactly if each of them is all of its frame; otherwise they are
      shorter. */
  lemma {:induction false} HeadsAreFrames(log: seq<Entry>, out: seq<nat>)
    requires Fits(log, out)
    ensures |Heads(log, out)| <= |Frames(log, 0)|
    ensures Heads(log, out) == Frames(log, 0) <==> forall i | 0 <= i < |log| :: out[i] == |Frame(log[i])|
    ensures |Heads(log, out)| == |Frames(log, 0)| <==> Heads(log, out) == Frames(log, 0)
  {
    hide Frame;
    if log != [] {
      var k := |log| - 1;
      HeadsAreFrames(log[..k], out[..k]);
      FramesAppend(log[..k], log[k], 0);
      assert log[..k] + [log[k]] == log;
      assert forall i | 0 <= i < k :: log[..k][i] == log[i] && out[..k][i] == out[i];
    }
  }

  /** While a thread writes, the rest of the last frame is what it has yet to write; every other frame is
      whole, or was cut by a failed write. */
  ghost predicate InTurn(seal: Seal, s: Shared) {
    && ValidLog(seal, s.log) && Fits(s.log, s.out) && s.written == Heads(s.log, s.out)
    && (s.holder == None ==> s.unwritten == None)
    && (s.unwritten.Some? ==> s.log != [])
    && (forall i | i in s.cut :: 0 <= i < |s.log|)
    && CutsAreShort(s.log, s.out, s.cut, if s.unwritten.None? || s.log == [] then |s.log| else |s.log| - 1)
    && (s.unwritten.Some? ==> LastFrame(s.log, s.out, s.unwritten.value, |s.log| - 1 in s.cut))
  }

  /** Of the first `n` frames, those cut are those not written completely. */
  predicate CutsAreShort(log: seq<Entry>, out: seq<nat>, cut: set<nat>, n: nat)
    requires Fits(log, out) && n <= |log|
  {
    forall i | 0 <= i < n :: i in cut <==> out[i] < |Frame(log[i])|
  }

  predicate LastFrame(log: seq<Entry>, out: seq<nat>, rest: seq<byte>, cut: bool)
    requires log != [] && Fits(log, out)
  {
    var k := |log| - 1;
    if cut then rest == [] && out[k] < |Frame(log[k])| else rest == Frame(log[k])[out[k]..]
  }

  lemma LogGrows(seal: Seal, log: seq<Entry>, e: Entry)
    requires ValidLog(seal, log) && |e.plain| >= 1 && e.ciphertext == seal(|log|, e.plain)
    ensures ValidLog(seal, log + [e])
  {
  }

  lemma HeadsBegin(log: seq<Entry>, out: seq<nat>, e: Entry)
    requires Fits(log, out)
    ensures Fits(log + [e], out + [0]) && Heads(log + [e], out + [0]) == Heads(log, out)
    ensures LastFrame(log + [e], out + [0], Frame(e), false)
  {
    hide Frame;
    assert (log + [e])[..|log|] == log && (out + [0])[..|log|] == out;
    assert Heads(log, out) + Frame(e)[..0] == Heads(log, out) && Frame(e)[0..] == Frame(e);
  }

  lemma CutsStay(log: seq<Entry>, out: seq<nat>, e: Entry, cut: set<nat>)
    requires Fits(log, out) && CutsAreShort(log, out, cut, |log|)
    ensures Fits(log + [e], out + [0]) && CutsAreShort(log + [e], out + [0], cut, |log|)
  {
    hide Frame;
  }

  lemma SealKeepsTurn(seal: Seal, s: Shared, t: nat, m: Message)
    requires InTurn(seal, s)
    ensures InTurn(seal, StepShared(seal, s, SealMessage(t, m)))
  {
    hide Frame, ValidLog, Heads, Fits, LastFrame, CutsAreShort;
    if s.holder == Some(t) && s.unwritten == None {
      var e := Entry(Plaintext(m), seal(|s.log|, Plaintext(m)));
      assert |e.plain| >= 1;
      hide Plaintext;
      LogGrows(seal, s.log, e);
      HeadsBegin(s.log, s.out, e);
      CutsStay(s.log, s.out, e, s.cut);
    }
  }

  lemma MoreHeads(log: seq<Entry>, out: seq<nat>, n: nat)
    requires Fits(log, out) && log != [] && out[|log| - 1] + n <= |Frame(log[|log| - 1])|
    ensures Fits(log, More(out, n))
    ensures var k := |log| - 1;
            && Heads(log, More(out, n)) == Heads(log, out) + Frame(log[k])[out[k]..][..n]
            && Frame(log[k])[out[k]..][n..] == Frame(log[k])[out[k] + n..]
  {
    hide Frame;
    var k := |log| - 1;
    var all := Frame(log[k]);
    assert More(out, n)[..k] == out[..k];
    assert all[..out[k] + n] == all[..out[k]] + all[out[k]..][..n];
    var front := Heads(log[..k], out[..k]);
    assert front + (all[..out[k]] + all[out[k]..][..n]) == (front + all[..out[k]]) + all[out[k]..][..n];
  }

  lemma WriteKeepsTurn(seal: Seal, s: Shared, t: nat, n: nat)
    requires InTurn(seal, s)
    ensures InTurn(seal, StepShared(seal, s, Write(t, n)))
  {
    hide Frame, Heads, ValidLog;
    if s.holder == Some(t) && s.unwritten.Some? && n <= |s.unwritten.value| {
      MoreHeads(s.log, s.out, n);
    }
  }

  lemma StepKeepsTurn(seal: Seal, s: Shared, step: ThreadStep)
    requires InTurn(seal, s)
    ensures InTurn(seal, StepShared(seal, s, step))
  {
    match step
    case SealMessage(t, m) => hide InTurn, StepShared; SealKeepsTurn(seal, s, t, m);
    case Write(t, n) => hide InTurn, StepShared; WriteKeepsTurn(seal, s, t, n);
    case _ => hide Frame, Heads, ValidLog;
  }

  /** However the threads interleave, no two messages are sealed at one nonce, and what is on the wire
      is, in the order they were sealed, the beginning of each frame. Between two sends the frames
      that are not whole are exactly those of which a failed write left some bytes unwritten; so the
      wire is the stream of whole frames exactly if none did. */
  lemma {:induction false} SendersNeverInterleave(seal: Seal, steps: seq<ThreadStep>)
    requires IsAead(seal)
    ensures var s := StepAll(seal, IDLE, steps);
            && ValidLog(seal, s.log) && Fits(s.log, s.out) && s.written == Heads(s.log, s.out)
            && (s.holder == None ==>
                  && (forall i | 0 <= i < |s.log| :: i in s.cut <==> s.out[i] < |Frame(s.log[i])|)
                  && (s.written == Frames(s.log, 0) <==> s.cut == {}))
  {
    TurnsKept(seal, steps);
    hide ValidLog, Frames, Frame, Heads, StepAll;
    var s := StepAll(seal, IDLE, steps);
    HeadsAreFrames(s.log, s.out);
  }

  lemma {:induction false} TurnsKept(seal: Seal, steps: seq<ThreadStep>)
    requires IsAead(seal)
    ensures InTurn(seal, StepAll(seal, IDLE, steps))
  {
    if steps != [] {
      TurnsKept(seal, steps[..|steps| - 1]);
      hide InTurn, StepShared;
      StepKeepsTurn(seal, StepAll(seal, IDLE, steps[..|steps| - 1]), steps[|steps| - 1]);
    }
  }

  /** One thread's write fails after `n` bytes of its frame; the next thread's send goes well. */
  function HalfAndWhole(m: Message, n: nat, m2: Message, all: nat): seq<ThreadStep> {
    [Lock(1), SealMessage(1, m), Write(1, n), WriteFails(1), Unlock(1), Lock(2), SealMessage(2, m2), Write(2, all), Unlock(2)]
  }

  /** Then a whole frame follows the half one, and the wire is no stream of frames. */
  lemma WholeFollowsHalf(seal: Seal, m: Message, n: nat, m2: Message)
    requires IsAead(seal)
    requires 0 < n < |Frame(Entry(Plaintext(m), seal(0, Plaintext(m))))|
    ensures var e, e2 := Entry(Plaintext(m), seal(0, Plaintext(m))), Entry(Plaintext(m2), seal(1, Plaintext(m2)));
            var s := StepAll(seal, IDLE, HalfAndWhole(m, n, m2, |Frame(e2)|));
            && s.holder == None && s.log == [e, e2] && s.cut == {0}
            && s.written == Frame(e)[..n] + Frame(e2) && s.written != Frames(s.log, 0)
  {
    var e, e2 := Entry(Plaintext(m), seal(0, Plaintext(m))), Entry(Plaintext(m2), seal(1, Plaintext(m2)));
    var steps := HalfAndWhole(m, n, m2, |Frame(e2)|);
    hide Frame, Frames, Plaintext, Heads, IsAead, ValidLog, StepAll, StepShared;
    HalfSent(seal, steps, e, n);
    WholeSent(seal, steps, Shared(None, None, Frame(e)[..n], [e], [n], {0}), e2);
    var s := StepAll(seal, IDLE, steps);
    assert s.log == [e, e2] && 0 in s.cut;
    assert s.written != Frames(s.log, 0) by { SendersNeverInterleave(seal, steps); }
  }

  lemma OneStep(seal: Seal, steps: seq<ThreadStep>, k: nat)
    requires k < |steps|
    ensures StepAll(seal, IDLE, steps[..k + 1]) == StepShared(seal, StepAll(seal, IDLE, steps[..k]), steps[k])
  {
    assert steps[..k + 1][..k] == steps[..k];
  }

  lemma HalfSent(seal: Seal, steps: seq<ThreadStep>, e: Entry, n: nat)
    requires |steps| >= 5 && steps[0] == Lock(1) && steps[1].SealMessage? && steps[1].thread == 1
    requires e == Entry(Plaintext(steps[1].m), seal(0, Plaintext(steps[1].m)))
    requires steps[2] == Write(1, n) && steps[3] == WriteFails(1) && steps[4] == Unlock(1) && n < |Frame(e)|
    ensures StepAll(seal, IDLE, steps[..5]) == Shared(None, None, Frame(e)[..n], [e], [n], {0})
  {
    assert StepAll(seal, IDLE, steps[..0]) == IDLE;
    hide Frame, Plaintext, StepAll;
    OneStep(seal, steps, 0);
    OneStep(seal, steps, 1);
    assert [] + [e] == [e] && [] + [0] == [0];
    assert StepAll(seal, IDLE, steps[..2]) == Shared(Some(1), Some(Frame(e)), [], [e], [0], {});
    OneStep(seal, steps, 2);
    assert [] + Frame(e)[..n] == Frame(e)[..n] && More([0], n) == [n];
    assert StepAll(seal, IDLE, steps[..3]) == Shared(Some(1), Some(Frame(e)[n..]), Frame(e)[..n], [e], [n], {});
    hide More;
    OneStep(seal, steps, 3);
    OneStep(seal, steps, 4);
  }

  lemma WholeSent(seal: Seal, steps: seq<ThreadStep>, s: Shared, e: Entry)
    requires |steps| == 9 && steps[5] == Lock(2) && steps[6].SealMessage? && steps[6].thread == 2
    requires e == Entry(Plaintext(steps[6].m), seal(|s.log|, Plaintext(steps[6].m)))
    requires steps[7] == Write(2, |Frame(e)|) && steps[8] == Unlock(2)
    requires StepAll(seal, IDLE, steps[..5]) == s && s.holder == None
    ensures var t := StepAll(seal, IDLE, steps);
            t.holder == None && t.log == s.log + [e] && t.cut == s.cut && t.written == s.written + Frame(e)
  {
    hide Frame, Plaintext, StepAll;
    OneStep(seal, steps, 5);
    OneStep(seal, steps, 6);
    OneStep(seal, steps, 7);
    OneStep(seal, steps, 8);
    assert steps[..9] == steps;
    assert Frame(e)[..|Frame(e)|] == Frame(e) && Frame(e)[|Frame(e)|..] == [];
  }
}
