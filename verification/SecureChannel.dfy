/** The encrypted framed channel (src/discovery/secure_channel.cpp), byte by byte.

    Encryption is ideal: opening a ciphertext at nonce `n` succeeds exactly when the sender's
    n-th sealed message produced those very bytes. So the sender's log of what it sealed is the
    key, and everything the network may do to the bytes is left open. What the socket does on
    each turn of a read -- how many bytes it hands over, a receive timeout, the deadline, the
    peer closing -- is a script. */
module SecureChannel {
  import opened Common

  const MAX_FRAME_LEN: nat := 8 * 1024 * 1024
  const TAG_LEN: nat := 16

  datatype Message = Message(msgType: byte, payload: seq<byte>)

  /** One sealed message: the plaintext and the ciphertext it became. */
  datatype Entry = Entry(plain: seq<byte>, ciphertext: seq<byte>)

  /** How one direction's key seals a plaintext at a nonce. */
  type Seal = (nat, seq<byte>) -> seq<byte>

  ghost predicate IsAead(seal: Seal) {
    forall n: nat, plain: seq<byte> :: |seal(n, plain)| == |plain| + TAG_LEN
  }

  function Plaintext(m: Message): seq<byte> { [m.msgType] + m.payload }

  /** What a log of sealed messages must look like: entry `n` is sealed at nonce `n`. */
  ghost predicate ValidLog(seal: Seal, log: seq<Entry>) {
    && IsAead(seal)
    && forall n | 0 <= n < |log| :: |log[n].plain| >= 1 && log[n].ciphertext == seal(n, log[n].plain)
  }

  /** The most significant byte goes first. */
  lemma PrefixIsBigEndian(a: byte, b: byte, c: byte, d: byte)
    ensures var len := a as nat * 0x100_0000 + b as nat * 0x1_0000 + c as nat * 0x100 + d as nat;
            LengthPrefix(len) == [a, b, c, d] && ParseLength([a, b, c, d]) == len
  {
    hide LengthPrefix;
    DigitsOf(a as nat, b as nat, c as nat, d as nat);
    var len := a as nat * 0x100_0000 + b as nat * 0x1_0000 + c as nat * 0x100 + d as nat;
    PrefixDigits(len);
  }

  lemma PrefixDigits(len: nat)
    requires len < 0x1_0000_0000
    ensures var p := LengthPrefix(len);
            && p[0] as nat == len / 0x100_0000 && p[1] as nat == len / 0x1_0000 % 0x100
            && p[2] as nat == len / 0x100 % 0x100 && p[3] as nat == len % 0x100
  {
  }

  lemma DigitsOf(a: nat, b: nat, c: nat, d: nat)
    requires a < 0x100 && b < 0x100 && c < 0x100 && d < 0x100
    ensures var len := a * 0x100_0000 + b * 0x1_0000 + c * 0x100 + d;
            && len < 0x1_0000_0000 && len / 0x100_0000 == a && len / 0x1_0000 % 0x100 == b
            && len / 0x100 % 0x100 == c && len % 0x100 == d
  {
    var len := a * 0x100_0000 + b * 0x1_0000 + c * 0x100 + d;
    assert len / 0x1_0000 == a * 0x100 + b && len / 0x100 == a * 0x1_0000 + b * 0x100 + c;
  }

  function MessageOf(e: Entry): Message
    requires |e.plain| >= 1
  {
    Message(e.plain[0], e.plain[1..])
  }

  /** Big-endian length prefix of a `uint32_t`; longer lengths wrap. */
  function LengthPrefix(len: nat): (r: seq<byte>)
    ensures |r| == 4
  {
    var v := len % 0x1_0000_0000;
    [(v / 0x100_0000) as byte, (v / 0x1_0000 % 0x100) as byte, (v / 0x100 % 0x100) as byte, (v % 0x100) as byte]
  }

  function ParseLength(b: seq<byte>): nat
    requires |b| == 4
  {
    b[0] as nat * 0x100_0000 + b[1] as nat * 0x1_0000 + b[2] as nat * 0x100 + b[3] as nat
  }

  lemma ParseInvertsPrefix(len: nat)
    ensures ParseLength(LengthPrefix(len)) == len % 0x1_0000_0000
  {
    var v := len % 0x1_0000_0000;
    assert v / 0x100 == v / 0x1_0000 * 0x100 + v / 0x100 % 0x100;
    assert v / 0x1_0000 == v / 0x100_0000 * 0x100 + v / 0x1_0000 % 0x100;
  }

  function Frame(e: Entry): seq<byte> { LengthPrefix(|e.ciphertext|) + e.ciphertext }

  /** The byte stream of every message from number `n` on. */
  function Frames(log: seq<Entry>, n: nat): seq<byte>
    requires n <= |log|
    decreases |log| - n
  {
    if n == |log| then [] else Frame(log[n]) + Frames(log, n + 1)
  }

  /** Ideal decryption at nonce `n`. */
  function Open(log: seq<Entry>, n: nat, ciphertext: seq<byte>): Option<seq<byte>> {
    if n < |log| && log[n].ciphertext == ciphertext then Some(log[n].plain) else None
  }

  // ------------------------------------------------------------------------------------
  // The socket
  // ------------------------------------------------------------------------------------

  /** One turn of `read_exact`: the deadline has passed, or `recv` brings `1 + extra` bytes (as
      far as there are any and they are wanted), times out, or reports the peer gone. */
  datatype Turn = Expired | Chunk(extra: nat) | NothingYet | PeerClosed

  datatype Socket = Socket(incoming: seq<byte>, turns: seq<Turn>)

  datatype ReadResult = Done(bytes: seq<byte>) | Stalled | Closed

  function ReadExact(s: Socket, len: nat): (r: (ReadResult, Socket))
    ensures r.0.Done? ==> |r.0.bytes| == len && s.incoming == r.0.bytes + r.1.incoming
    decreases |s.turns|
  {
    if len == 0 then (Done([]), s)
    else if s.turns == [] then (Stalled, s)
    else
      var rest := s.turns[1..];
      match s.turns[0]
      case Expired => (Stalled, s.(turns := rest))
      case PeerClosed => (Closed, s.(turns := rest))
      case NothingYet => ReadExact(s.(turns := rest), len)
      case Chunk(extra) =>
        var n := Min(Min(1 + extra, len), |s.incoming|);
        var (result, s') := ReadExact(Socket(s.incoming[n..], rest), len - n);
        (if result.Done? then Done(s.incoming[..n] + result.bytes) else result, s')
  }

  /** A read that had already collected `bytes` before the one that gave `r`. */
  function Prepend(bytes: seq<byte>, r: (ReadResult, Socket)): (ReadResult, Socket) {
    (if r.0.Done? then Done(bytes + r.0.bytes) else r.0, r.1)
  }

  lemma PrependTwice(a: seq<byte>, b: seq<byte>, r: (ReadResult, Socket))
    ensures Prepend(a, Prepend(b, r)) == Prepend(a + b, r)
  {
    if r.0.Done? { assert a + (b + r.0.bytes) == (a + b) + r.0.bytes; }
  }

  lemma ReadExactTurn(s: Socket, len: nat)
    requires len > 0 && s.turns != []
    ensures var rest := s.(turns := s.turns[1..]);
            ReadExact(s, len) ==
            match s.turns[0]
            case Expired => (Stalled, rest)
            case PeerClosed => (Closed, rest)
            case NothingYet => ReadExact(rest, len)
            case Chunk(extra) =>
              var n := Min(Min(1 + extra, len), |s.incoming|);
              Prepend(s.incoming[..n], ReadExact(rest.(incoming := s.incoming[n..]), len - n))
  {
  }

  // ------------------------------------------------------------------------------------
  // Receiving
  // ------------------------------------------------------------------------------------

  datatype RecvResult = Timeout | ClosedByPeer | Error | Ok(message: Message)

  datatype Receiver = Receiver(socket: Socket, recvNonce: nat)

  function Failure(r: ReadResult): RecvResult
    requires !r.Done?
  {
    if r.Closed? then ClosedByPeer else Error
  }

  function Receive(r: Receiver, log: seq<Entry>, readable: bool): (RecvResult, Receiver) {
    if !readable then (Timeout, r)
    else
      var (header, s1) := ReadExact(r.socket, 4);
      if !header.Done? then (Failure(header), r.(socket := s1))
      else
        var len := ParseLength(header.bytes);
        if len == 0 || len > MAX_FRAME_LEN then (Error, r.(socket := s1))
        else
          var (body, s2) := ReadExact(s1, len);
          if !body.Done? then (Failure(body), r.(socket := s2))
          else
            match Open(log, r.recvNonce, body.bytes)
            case None => (Error, r.(socket := s2))
            case Some(plain) =>
              (if plain == [] then Error else Ok(Message(plain[0], plain[1..])),
               Receiver(s2, r.recvNonce + 1))
  }

  // ------------------------------------------------------------------------------------
  // The channel, updated in place
  // ------------------------------------------------------------------------------------

  class SecureChannel {
    const seal: Seal
    var sendNonce: nat
    var recvNonce: nat
    var written: seq<byte>       // everything this end has put on its socket
    var socket: Socket           // what the other direction will deliver, and how
    ghost var log: seq<Entry>    // everything this end has sealed

    ghost predicate Valid()
      reads this
    {
      ValidLog(seal, log) && sendNonce == |log|
    }

    constructor (seal: Seal, socket: Socket)
      requires IsAead(seal)
      ensures Valid() && this.seal == seal && log == [] && recvNonce == 0
      ensures written == [] && this.socket == socket
    {
      this.seal := seal;
      this.socket := socket;
      sendNonce, recvNonce, written, log := 0, 0, [], [];
    }

    /** Sends one message; `accepts` is how many bytes the socket takes before failing. */
    method Send(m: Message, accepts: nat) returns (ok: bool)
      requires Valid()
      modifies this`sendNonce, this`written, this`log
      ensures Valid()
      ensures |log| == old(|log|) + 1 && log[..|log| - 1] == old(log)
      ensures log[|log| - 1].plain == Plaintext(m)
      ensures var frame := Frame(log[|log| - 1]);
              && ok == (accepts >= |frame|)
              && written == old(written) + frame[..Min(accepts, |frame|)]
    {
      var plaintext := [m.msgType] + m.payload;
      var ciphertext := seal(sendNonce, plaintext);
      log := log + [Entry(plaintext, ciphertext)];
      sendNonce := sendNonce + 1;
      var lenBuf := LengthPrefix(|ciphertext|);
      var head := Min(accepts, |lenBuf|);
      ghost var frame := lenBuf + ciphertext;
      written := written + lenBuf[..head];
      assert lenBuf[..head] == frame[..head];
      if head < |lenBuf| {
        return false;
      }
      var body := Min(accepts - head, |ciphertext|);
      assert lenBuf[..head] + ciphertext[..body] == frame[..head + body];
      written := written + ciphertext[..body];
      ok := body == |ciphertext|;
    }

    /** One `recv`: takes what is there, at most `1 + extra` bytes and at most what is wanted. */
    method Recv(buf: array<byte>, received: nat, extra: nat) returns (n: nat)
      requires received < buf.Length
      modifies this`socket, buf
      ensures n == Min(Min(1 + extra, buf.Length - received), |old(socket.incoming)|)
      ensures received + n <= buf.Length && n <= |old(socket.incoming)|
      ensures socket == old(socket).(incoming := old(socket.incoming)[n..])
      ensures buf[..received + n] == old(buf[..received]) + old(socket.incoming)[..n]
    {
      n := Min(Min(1 + extra, buf.Length - received), |socket.incoming|);
      forall i | 0 <= i < n {
        buf[received + i] := socket.incoming[i];
      }
      socket := socket.(incoming := socket.incoming[n..]);
    }

    /** `read_exact`: fills `buf`, one `recv` a turn. */
    method ReadInto(buf: array<byte>) returns (ok: bool, closed: bool)
      modifies this`socket, buf
      ensures var (result, s) := ReadExact(old(socket), buf.Length);
              && socket == s
              && ok == result.Done? && closed == result.Closed?
              && (ok ==> buf[..] == result.bytes)
    {
      ghost var whole := ReadExact(socket, buf.Length);
      assert whole == Prepend([], whole) by { assert whole.0.Done? ==> [] + whole.0.bytes == whole.0.bytes; }
      var received := 0;
      ok, closed := false, false;
      while received < buf.Length
        invariant received <= buf.Length && !closed
        invariant whole == Prepend(buf[..received], ReadExact(socket, buf.Length - received))
        decreases |socket.turns|
      {
        if socket.turns == [] {
          return false, false;
        }
        var turn := socket.turns[0];
        ghost var before, soFar := socket, buf[..received];
        ReadExactTurn(before, buf.Length - received);
        socket := socket.(turns := socket.turns[1..]);
        if turn.Expired? || turn.PeerClosed? {
          return false, turn.PeerClosed?;
        }
        if turn.Chunk? {
          var n := Recv(buf, received, turn.extra);
          PrependTwice(soFar, before.incoming[..n], ReadExact(socket, buf.Length - received - n));
          received := received + n;
        }
      }
      ok := true;
    }

    /** Receives one frame sent by a peer that has sealed `peerLog` so far. */
    method ReceiveFrame(readable: bool, peerLog: seq<Entry>) returns (result: RecvResult)
      modifies this`socket, this`recvNonce
      ensures var (r, after) := Receive(Receiver(old(socket), old(recvNonce)), peerLog, readable);
              result == r && socket == after.socket && recvNonce == after.recvNonce
    {
      if !readable {
        return Timeout;
      }
      var lenBuf := new byte[4];
      var ok, closed := ReadInto(lenBuf);
      if !ok {
        return if closed then ClosedByPeer else Error;
      }
      var len := ParseLength(lenBuf[..]);
      if len == 0 || len > MAX_FRAME_LEN {
        return Error;
      }
      var ciphertext := new byte[len];
      ok, closed := ReadInto(ciphertext);
      if !ok {
        return if closed then ClosedByPeer else Error;
      }
      var plaintext := Open(peerLog, recvNonce, ciphertext[..]);
      if plaintext == None {
        return Error;
      }
      recvNonce := recvNonce + 1;
      if plaintext.value == [] {
        return Error;
      }
      return Ok(Message(plaintext.value[0], plaintext.value[1..]));
    }
  }
}
