/** One end of an adb stream: a local socket bound to a file descriptor, together with the
    remote socket it is linked to.  A remote socket has no state of its own that matters here:
    it turns the calls of its peer into WRTE, OKAY and CLSE messages.

    Everything is a value, so that the same operations serve as the specification of the
    imperative node in Node.dfy and as the steps of the two-ended system in Streams.dfy.
 */
module Endpoint {
  import opened Bytes

  const MAX_PAYLOAD: nat := 4096

  /** Live: on the list of local sockets.  Closing: on the closing list, unlinked, with bytes
      still to be written.  Gone: destroyed. */
  datatype Phase = Live | Closing | Gone

  /** History: why the socket left the Live phase.  `CutShort` is a socket that closed because its peer did,
      and was destroyed by an end of file or an error before it had written its backlog. */
  datatype Cause = Alive | ByPeer | ByEof | ByError | CutShort

  datatype Msg = Wrte(data: seq<byte>) | Okay | Clse

  /** How a loop of non-blocking writes ended. */
  datatype WriteEnd = Done | Blocked | Broken

  /** `rd` and `wr` are the READ and WRITE interest bits.  `sent`, `written` and `clses` are
      histories: bytes handed to the transport, bytes written to the descriptor, number of CLSE
      messages emitted. */
  datatype End = End(phase: Phase, linked: bool, queue: seq<seq<byte>>, rd: bool, wr: bool,
                     sent: seq<byte>, written: seq<byte>, clses: nat, cause: Cause)

  datatype Move = Move(e: End, out: seq<Msg>)

  const FRESH := End(Live, false, [], false, false, [], [], 0, Alive)

  function Flat(q: seq<seq<byte>>): (s: seq<byte>)
  {
    if q == [] then [] else q[0] + Flat(q[1..])
  }

  /** The packet queue after `k` bytes of it have been written: whole packets are popped, the
      first packet left loses its written prefix. */
  function DropBytes(q: seq<seq<byte>>, k: nat): (r: seq<seq<byte>>)
    ensures |r| <= |q|
    ensures k <= |Flat(q)| ==> Flat(q) == Flat(q)[..k] + Flat(r)
    ensures k < |Flat(q)| ==> r != [] && r[0] != []
    ensures k >= |Flat(q)| ==> r == []
  {
    if q == [] then []
    else if k >= |q[0]| then DropBytes(q[1..], k - |q[0]|)
    else [q[0][k..]] + q[1..]
  }

  function Why(e: End, cause: Cause): Cause
  {
    if e.phase == Closing && e.cause == ByPeer && cause != ByPeer then CutShort else cause
  }

  /** local_socket_close_locked, with remote_socket_close for the linked peer. */
  function Close(e: End, cause: Cause): (m: Move)
    requires e.phase != Gone
  {
    var clses := if e.linked then e.clses + 1 else e.clses;
    var out := if e.linked then [Clse] else [];
    if e.phase == Closing || e.queue == [] then
      Move(e.(phase := Gone, linked := false, queue := [], rd := false, wr := false,
              clses := clses, cause := Why(e, cause)), out)
    else
      Move(e.(phase := Closing, linked := false, rd := false, clses := clses, cause := cause), out)
  }

  /** A write loop over `total` bytes may stop after `k` bytes with this outcome. */
  predicate WriteOutcome(total: nat, k: nat, st: WriteEnd)
  {
    k <= total && (st == Done <==> k == total)
  }

  /** local_socket_enqueue: the flag says whether the socket is ready for more data. */
  function Enqueue(e: End, data: seq<byte>, k: nat, st: WriteEnd): (r: (Move, bool))
    requires e.phase == Live
    requires WriteOutcome(|data|, k, st)
  {
    if e.queue != [] then
      (Move(e.(queue := e.queue + [data], wr := true), []), false)
    else
      var e1 := e.(written := e.written + data[..k]);
      match st
      case Done => (Move(e1, []), true)
      case Broken => (Close(e1, ByError), false)
      case Blocked => (Move(e1.(queue := [data[k..]], wr := true), []), false)
  }

  /** handle_packet on a message addressed to this socket.  A socket that is no longer on the
      local list is not found, and the message is dropped. */
  function Receive(e: End, m: Msg, k: nat, st: WriteEnd): (r: Move)
    requires m.Wrte? ==> WriteOutcome(|m.data|, k, st)
  {
    if e.phase != Live then Move(e, [])
    else
      match m
      case Okay => Move(e.(linked := true, rd := true), [])
      case Clse => Close(e, ByPeer)
      case Wrte(data) =>
        var (mv, ready) := Enqueue(e, data, k, st);
        if ready then Move(mv.e, mv.out + [Okay]) else mv
  }

  /** The FDE_WRITE half of local_socket_event_func, which writes `k` bytes of the queue. */
  function OnWritable(e: End, k: nat, st: WriteEnd): (r: Move)
    requires e.phase != Gone
    requires WriteOutcome(|Flat(e.queue)|, k, st)
  {
    var e1 := e.(queue := DropBytes(e.queue, k), written := e.written + Flat(e.queue)[..k]);
    match st
    case Blocked => Move(e1, [])
    case Broken => Close(e1, ByError)
    case Done =>
      if e.phase == Closing then Close(e1, e.cause)
      else Move(e1.(wr := false), [Okay])
  }

  /** The FDE_READ half: `data` was read before the loop stopped, and `eof` tells whether it
      stopped at an end of file or an error. */
  function OnReadable(e: End, data: seq<byte>, eof: bool): (r: Move)
    requires e.phase != Gone
  {
    var sends := data != [] && e.linked;
    var e1 := if sends then e.(sent := e.sent + data, rd := false) else e;
    var out := if sends then [Wrte(data)] else [];
    if eof then
      var c := Close(e1, ByEof);
      Move(c.e, out + c.out)
    else Move(e1, out)
  }
}
