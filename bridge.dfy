/**
 * Command dispatch (TCPHandle) and the CONNECT step sequence
 * (handleTCPConnect) of internal/socks/tcp_handle.go.
 *
 * The local connection, the transport that opens remote streams, the UDP
 * path and the shutdown signal form an environment object. Its answers are
 * fixed when it is made (a Script); it records, in order, every effect the
 * handler has on it. The two relay goroutines and the select on their
 * result channel and on the handler's context are one step whose outcome is
 * the Script's `first`.
 */
module Bridge {
  import opened Wrappers
  import opened NetIP
  import opened Reply
  import GoErrors

  type Error = GoErrors.Error

  /** SOCKS5 CMD values (section 4 of RFC 1928). */
  const CmdConnect: Byte := 0x01
  const CmdUDP: Byte := 0x03

  /** A parsed request: CMD and the destination as r.Address() renders it. */
  datatype Request = Request(cmd: Byte, address: string)

  /** What the select saw first: a relay goroutine's result (nil for a clean close), or shutdown. */
  datatype Completion = RelayDone(err: Option<Error>) | Shutdown

  /** The environment's answers: conn.Write's error, h.client.TCP's error,
      the select's first event and handleUDPAssociate's result. */
  datatype Script = Script(write: Option<Error>, open: Option<Error>, first: Completion, udp: Option<Error>)

  /** One effect of the handler on its environment. */
  datatype Event =
    | UdpAssociate(result: Option<Error>)                   // handleUDPAssociate ran
    | WriteReply(frame: seq<Byte>, result: Option<Error>)   // conn.Write(buf)
    | OpenStream(address: string, result: Option<Error>)    // h.client.TCP(r.Address())
    | Relay(first: Completion)                              // both copy loops started; the select returned
    | CloseStream                                           // strm.Close()

  class Env {
    var events: seq<Event>
    const local: TCPAddr   // conn.LocalAddr()
    const script: Script

    constructor (local: TCPAddr, script: Script)
      ensures this.local == local && this.script == script && events == []
    {
      this.local := local;
      this.script := script;
      events := [];
    }

    method Write(frame: seq<Byte>) returns (err: Option<Error>)
      modifies this
      ensures err == script.write
      ensures events == old(events) + [WriteReply(frame, script.write)]
    {
      err := script.write;
      events := events + [WriteReply(frame, err)];
    }

    method Open(address: string) returns (err: Option<Error>)
      modifies this
      ensures err == script.open
      ensures events == old(events) + [OpenStream(address, script.open)]
    {
      err := script.open;
      events := events + [OpenStream(address, err)];
    }

    method AwaitFirst() returns (c: Completion)
      modifies this
      ensures c == script.first
      ensures events == old(events) + [Relay(script.first)]
    {
      c := script.first;
      events := events + [Relay(c)];
    }

    method Close()
      modifies this
      ensures events == old(events) + [CloseStream]
    {
      events := events + [CloseStream];
    }

    method HandleUdpAssociate() returns (err: Option<Error>)
      modifies this
      ensures err == script.udp
      ensures events == old(events) + [UdpAssociate(script.udp)]
    {
      err := script.udp;
      events := events + [UdpAssociate(err)];
    }
  }

  // ---- handleTCPConnect ----

  /** The effects of handleTCPConnect, in order: write the reply; on success
      open the stream; on success relay until the first completion and close
      the stream (the deferred Close). */
  function ConnectTrace(frame: seq<Byte>, address: string, s: Script): seq<Event> {
    if s.write.Some? then [WriteReply(frame, s.write)]
    else if s.open.Some? then [WriteReply(frame, None), OpenStream(address, s.open)]
    else [WriteReply(frame, None), OpenStream(address, None), Relay(s.first), CloseStream]
  }

  /** What handleTCPConnect returns: the write error, else the open error, else nil. */
  function ConnectResult(s: Script): Option<Error> {
    if s.write.Some? then s.write else s.open
  }

  method HandleTCPConnect(env: Env, r: Request) returns (err: Option<Error>)
    modifies env
    ensures env.events == old(env.events) + ConnectTrace(ReplyFrame(env.local), r.address, env.script)
    ensures err == ConnectResult(env.script)
  {
    var buf := EncodeReply(env.local);
    var werr := env.Write(buf);
    if werr.Some? {
      return werr;
    }
    var serr := env.Open(r.address);
    if serr.Some? {
      return serr;
    }
    // From here on the deferred strm.Close() runs on the single return path.
    var first := env.AwaitFirst();
    env.Close();
    return None;
  }

  // ---- TCPHandle ----

  /** Where TCPHandle sends a request. */
  datatype Route = UdpPath | ConnectPath | Unsupported

  function Dispatch(cmd: Byte): (route: Route)
    ensures route == UdpPath <==> cmd == CmdUDP
    ensures route == ConnectPath <==> cmd == CmdConnect
    ensures route == Unsupported <==> cmd != CmdUDP && cmd != CmdConnect
  {
    if cmd == CmdUDP then UdpPath
    else if cmd == CmdConnect then ConnectPath
    else Unsupported
  }

  function HandleTrace(local: TCPAddr, r: Request, s: Script): seq<Event> {
    match Dispatch(r.cmd)
    case UdpPath => [UdpAssociate(s.udp)]
    case ConnectPath => ConnectTrace(ReplyFrame(local), r.address, s)
    case Unsupported => []
  }

  function HandleResult(r: Request, s: Script): Option<Error> {
    match Dispatch(r.cmd)
    case UdpPath => s.udp
    case ConnectPath => ConnectResult(s)
    case Unsupported => None
  }

  method TCPHandle(env: Env, r: Request) returns (err: Option<Error>)
    modifies env
    ensures env.events == old(env.events) + HandleTrace(env.local, r, env.script)
    ensures err == HandleResult(r, env.script)
  {
    if r.cmd == CmdUDP {
      err := env.HandleUdpAssociate();
      return;
    }
    if r.cmd == CmdConnect {
      err := HandleTCPConnect(env, r);
      return;
    }
    return None;
  }

  // ---- properties of the traces ----

  /** How many times e occurs in t. */
  function Count(t: seq<Event>, e: Event): (n: nat)
    ensures n <= |t|
    ensures n == 0 <==> e !in t
  {
    if t == [] then 0 else (if t[0] == e then 1 else 0) + Count(t[1..], e)
  }

  lemma {:induction false} CountConcat(a: seq<Event>, b: seq<Event>, e: Event)
    ensures Count(a + b, e) == Count(a, e) + Count(b, e)
  {
    if a != [] {
      assert (a + b)[1..] == a[1..] + b;
      CountConcat(a[1..], b, e);
    } else {
      assert a + b == b;
    }
  }

  /** Some stream was opened successfully. */
  ghost predicate Opened(t: seq<Event>) {
    exists i :: 0 <= i < |t| && t[i].OpenStream? && t[i].result.None?
  }

  /** The position of an effect in the CONNECT sequence. */
  function Step(e: Event): nat {
    match e
    case UdpAssociate(_) => 0
    case WriteReply(_, _) => 1
    case OpenStream(_, _) => 2
    case Relay(_) => 3
    case CloseStream => 4
  }

  /**
   * The resource discipline of a connection: a stream is opened only right
   * after the reply was written successfully; relaying starts only right
   * after a stream was opened; a stream is closed exactly once if it was
   * opened and never otherwise, and closing is the last effect.
   */
  ghost predicate Disciplined(t: seq<Event>) {
    && (forall i :: 0 <= i < |t| && t[i].OpenStream? ==> 0 < i && t[i - 1].WriteReply? && t[i - 1].result.None?)
    && (forall i :: 0 <= i < |t| && t[i].Relay? ==> 0 < i && t[i - 1].OpenStream? && t[i - 1].result.None?)
    && Count(t, CloseStream) == (if Opened(t) then 1 else 0)
    && (CloseStream in t ==> t[|t| - 1] == CloseStream)
  }

  /** Every CONNECT run keeps the discipline and takes its steps in order. */
  lemma ConnectDisciplined(frame: seq<Byte>, address: string, s: Script)
    ensures Disciplined(ConnectTrace(frame, address, s))
    ensures var t := ConnectTrace(frame, address, s);
      forall i, j :: 0 <= i < j < |t| ==> Step(t[i]) < Step(t[j])
  {
    var t := ConnectTrace(frame, address, s);
    if s.write.None? && s.open.None? {
      assert t[1].OpenStream? && t[1].result.None?;
      OpenedStreamClosedOnce(frame, address, s);
    } else if s.write.None? {
      assert !Opened(t) by {
        forall i | 0 <= i < |t| ensures !(t[i].OpenStream? && t[i].result.None?) {
        }
      }
    }
  }

  /** A failed reply write is returned as is and no stream is ever opened. */
  lemma WriteFailureEndsEarly(frame: seq<Byte>, address: string, s: Script)
    requires s.write.Some?
    ensures ConnectResult(s) == s.write
    ensures forall e | e in ConnectTrace(frame, address, s) :: e.WriteReply?
  {
  }

  /** A failed stream open is returned as is; no relay starts and nothing is closed. */
  lemma OpenFailureEndsEarly(frame: seq<Byte>, address: string, s: Script)
    requires s.write.None? && s.open.Some?
    ensures ConnectResult(s) == s.open
    ensures forall e | e in ConnectTrace(frame, address, s) :: !e.Relay? && e != CloseStream
  {
  }

  /** Once a stream is open it is closed exactly once, last, and nil is
      returned, whether a relay result or shutdown came first. */
  lemma OpenedStreamClosedOnce(frame: seq<Byte>, address: string, s: Script)
    requires s.write.None? && s.open.None?
    ensures ConnectResult(s) == None
    ensures var t := ConnectTrace(frame, address, s);
      Count(t, CloseStream) == 1 && t[|t| - 1] == CloseStream && Relay(s.first) in t
  {
    var t := ConnectTrace(frame, address, s);
    var before := [WriteReply(frame, None), OpenStream(address, None), Relay(s.first)];
    assert t == before + [CloseStream];
    CountConcat(before, [CloseStream], CloseStream);
  }

  /** UDP ASSOCIATE runs only the UDP path and returns its result. */
  lemma UdpNeverConnects(local: TCPAddr, r: Request, s: Script)
    requires r.cmd == CmdUDP
    ensures HandleTrace(local, r, s) == [UdpAssociate(s.udp)]
    ensures HandleResult(r, s) == s.udp
  {
  }

  /** CONNECT runs only the connect path, with the reply for the local address. */
  lemma ConnectOnlyConnects(local: TCPAddr, r: Request, s: Script)
    requires r.cmd == CmdConnect
    ensures forall e | e in HandleTrace(local, r, s) :: !e.UdpAssociate?
    ensures HandleTrace(local, r, s)[0] == WriteReply(ReplyFrame(local), s.write)
    ensures HandleResult(r, s) == ConnectResult(s)
  {
  }

  /** Any other command, BIND (0x02) among them, has no effect and reports no error. */
  lemma UnsupportedIsNoop(local: TCPAddr, r: Request, s: Script)
    requires r.cmd != CmdUDP && r.cmd != CmdConnect
    ensures HandleTrace(local, r, s) == [] && HandleResult(r, s) == None
  {
  }
}
