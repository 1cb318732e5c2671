# SOCKS5 CONNECT bridge and retryable-error classifier, in Dafny

This project models two pieces of a SOCKS5-over-multiplexed-transport proxy:

* **`internal/socks/tcp_handle.go`**: the command dispatcher `TCPHandle` and
  the CONNECT handler `handleTCPConnect`. The handler builds the success
  reply of section 6 of RFC 1928 by appending to a pooled byte buffer:
  VER, REP, RSV, ATYP, BND.ADDR and BND.PORT, taken from the connection's
  local address. It then writes the reply, opens a remote stream through
  the transport client, relays until the first relay result or shutdown,
  and closes the stream in a deferred call.
* **`internal/pkg/errors/errors.go`**: the unexported predicate `_`. It is an
  ordered decision list that says whether a failed network operation is
  worth retrying, judged from the error and its wrap chain.

Modules:

| file | module | contents |
|---|---|---|
| `wrappers.dfy` | `Wrappers` | `Option`, used for Go's nil-able values |
| `errors.dfy` | `GoErrors` | errors as wrap chains; `errors.Is`/`errors.As` as recursive walks; the classifier `Retryable`; an order-free reference `RetryableSpec`; one lemma per branch |
| `netip.dfy` | `NetIP` | the `net.IP` rules the encoder relies on: `To4`, `To16`, and `String` for invalid lengths |
| `reply.dfy` | `Reply` | the frame as a function (`ReplyFrame`), the appending encoder (`EncodeReply`), an RFC 1928 reply parser as its partner, and the round trip |
| `bridge.dfy` | `Bridge` | an environment object that records effects; `TCPHandle` and `HandleTCPConnect` as methods proved against trace functions; lemmas on the traces |

Modelling choices:

* **Errors.** A Go error is `None` (nil) or an `Error` link. Each link has a
  `Kind`: the `io.EOF`, `context.Canceled` or `context.DeadlineExceeded`
  sentinel, an `*os.SyscallError` with its errno, or something else. Each
  link also has an abstract `netError` flag ("satisfies `net.Error`") and
  the value its `Unwrap` returns.
* **The EOF test.** `err == io.EOF` is identity, so only the outermost link
  is compared.
* **Errnos.** Errnos are naturals. The seven transient errnos carry their
  Linux numbers.
* **IP addresses.** An IP is a byte sequence. `To4` and `To16` follow Go's
  rules: 4 bytes, 16 bytes, and the IPv4-mapped prefix `::ffff:0:0/96`.
* **The domain fallback.** It is reached only by slices that are neither 4
  nor 16 bytes long. For those, `String` is `"<nil>"` (empty slice) or `"?"`
  followed by lower-case hex. Its length byte is `len(host)` truncated to 8
  bits, exactly as `byte(len(host))` does.
* **The port.** The port is a Go `int`, which is a 64-bit integer on a 64-bit target.
  `byte(port>>8)` and `byte(port&0xff)` become `(port / 256) % 256` and
  `port % 256`. For a positive divisor, Dafny's Euclidean operators agree
  with Go's arithmetic shift and with byte truncation.
* **The environment.** The local connection, the transport client, the UDP
  path and the shutdown context form one environment object, `Bridge.Env`.
  A `Script` fixes its answers in advance: the write error, the open
  error, what the `select` sees first, and the UDP path's result. The
  object records every effect in order in `events`.
* **The relay phase.** The two copy goroutines, the result channel and the
  `select` are one step, `Relay(first)`, whose outcome comes from the
  script.

Two behaviours of the code a reader might not expect:

* **Wrapped EOF.** Only an error *identical* to `io.EOF` is "not
  retryable". A wrapped EOF falls through to the later tests, and without
  other evidence it is retryable (`WrappedEofIsRetryable`).
* **The domain length byte.** The length byte keeps only the low 8 bits of
  the name's length. It does not have to equal the number of name bytes
  that follow (`OversizedNameUnparseable`).

## Model

| member | source | states |
|---|---|---|
| `GoErrors.IsFindsLink` | internal/pkg/errors/errors.go:18 | the `errors.Is` walk is true exactly when some link of the wrap chain is the sentinel |
| `GoErrors.AsNetErrorFindsLink` | internal/pkg/errors/errors.go:23-24 | `errors.As` into a `net.Error` succeeds exactly when some link of the chain satisfies `net.Error` |
| `GoErrors.AsSyscallErrorFindsFirst` | internal/pkg/errors/errors.go:28-29 | `errors.As` into `*os.SyscallError` finds nothing exactly when the chain has no syscall error; otherwise it yields the errno of the FIRST syscall error on the chain |
| `GoErrors.RetryableMatchesSpec` | internal/pkg/errors/errors.go:12-41 | the ordered decision list equals, on every input, the order-free policy: non-nil, not `io.EOF` itself, no context error anywhere on the chain, and then either some `net.Error` link or a first syscall error (if there is one) with a transient errno |
| `GoErrors.NilAndEofNotRetryable` | internal/pkg/errors/errors.go:13-15 | nil and `io.EOF` itself are not retryable |
| `GoErrors.WrappedEofIsRetryable` | internal/pkg/errors/errors.go:13-15 | the EOF test is identity: every error that wraps `io.EOF` (EOF on the chain but not outermost) and holds no context error, no `net.Error` link and no syscall error is retryable |
| `GoErrors.ContextErrorNotRetryable` | internal/pkg/errors/errors.go:17-20 | `context.Canceled` or `context.DeadlineExceeded` anywhere on the chain makes the error non-retryable, whatever else the chain holds |
| `GoErrors.NetErrorRetryable` | internal/pkg/errors/errors.go:22-26 | with no context error and no outer `io.EOF`, any `net.Error` link makes the error retryable, whatever syscall error the chain also holds |
| `GoErrors.TransientSyscallRetryable` | internal/pkg/errors/errors.go:28-37 | with no context error and no outer `io.EOF`, a first syscall error carrying ECONNRESET, EPIPE, ECONNABORTED, ETIMEDOUT, ECONNREFUSED, EHOSTUNREACH or ENETUNREACH makes the error retryable |
| `GoErrors.OtherSyscallNotRetryable` | internal/pkg/errors/errors.go:28-37 | with no `net.Error` link, a first syscall error carrying any other errno makes the error NOT retryable; the default is not reached |
| `GoErrors.UnclassifiedRetryable` | internal/pkg/errors/errors.go:40 | an error in none of the categories is retryable (fail-open default) |
| `GoErrors.SyscallOverNetErrnoRetryable` | internal/pkg/errors/errors.go:22-37 | with no context error and no outer `io.EOF`, when the link directly under the first syscall error satisfies `net.Error` (in Go that link is the wrapped `Err`), the `net.Error` test answers first, and the error is retryable for every errno |
| `NetIP.To4` | internal/socks/tcp_handle.go:36 | the 4-byte form exists exactly for a 4-byte slice or an IPv4-mapped 16-byte slice, and it is the last four bytes |
| `NetIP.To16` | internal/socks/tcp_handle.go:39 | the 16-byte form exists exactly for 4- and 16-byte slices; it has 16 bytes and the same 4-byte form as the input |
| `NetIP.HexString` | internal/socks/tcp_handle.go:43 | two lower-case hex digits per byte, high nibble first, all ASCII |
| `NetIP.String` | internal/socks/tcp_handle.go:43 | for a slice that is neither 4 nor 16 bytes long: 5 bytes (`<nil>`) when empty, else 1 + 2·len bytes, all ASCII |
| `Reply.PortBytes` | internal/socks/tcp_handle.go:48 | two bytes, high byte first, with `hi*256 + lo == port mod 65536` (so `== port` for 0 ≤ port < 65536) |
| `Reply.ReplyLayout` | internal/socks/tcp_handle.go:33-48 | the frame starts VER=5, REP=0, RSV=0. IPv4 form: ATYP 1, those 4 octets, length 10. Otherwise IPv6 form: ATYP 4, the 16 address bytes, length 22. Otherwise ATYP 3, length byte `len(host) mod 256`, the host bytes, length 7 + len(host). The last two bytes encode the port |
| `Reply.EncodeReply` | internal/socks/tcp_handle.go:30-48 | building the reply by successive appends to the empty pooled buffer yields exactly `ReplyFrame` of the local address, with the layout above |
| `Reply.ReplyRoundTrip` | internal/socks/tcp_handle.go:33-48 | a client parsing the reply by section 6 of RFC 1928 reads success, the address in the form the encoder chose, and the port mod 65536, whenever the fallback name fits its length byte |
| `Reply.OversizedNameUnparseable` | internal/socks/tcp_handle.go:42-47 | when the fallback name is 256 bytes or longer, the truncated length byte disagrees with it and the reply does not parse |
| `Bridge.Env.Write` | internal/socks/tcp_handle.go:49 | writing the reply records it with the connection's answer and returns that answer |
| `Bridge.Env.Open` | internal/socks/tcp_handle.go:53 | opening a stream to the request address records the attempt with the transport's answer and returns that answer |
| `Bridge.Env.AwaitFirst` | internal/socks/tcp_handle.go:61-78 | starting both relays and waiting on the select records one relay step and returns whichever came first (a relay result or shutdown) |
| `Bridge.Env.Close` | internal/socks/tcp_handle.go:58 | closing the stream records one close |
| `Bridge.Env.HandleUdpAssociate` | internal/socks/tcp_handle.go:14 | the UDP path records that it ran and returns its result |
| `Bridge.HandleTCPConnect` | internal/socks/tcp_handle.go:26-82 | the effects are exactly `ConnectTrace`: write the reply; only on success open the stream; only on success relay and then close; the result is the write error, else the open error, else nil |
| `Bridge.Dispatch` | internal/socks/tcp_handle.go:11-24 | UDP ASSOCIATE routes to the UDP path exactly when CMD is 3, CONNECT to the connect path exactly when CMD is 1, and every other command to neither |
| `Bridge.TCPHandle` | internal/socks/tcp_handle.go:11-24 | the effects and result are those of the route `Dispatch` picks: the UDP path's, the connect path's, or none and nil |
| `Bridge.ConnectDisciplined` | internal/socks/tcp_handle.go:49-81 | for every combination of answers, a stream is opened only right after a successful reply write, and relaying starts only right after a successful open. A stream is closed exactly once if it was opened and never otherwise, and the close is the last effect. The steps come in strictly increasing order: write, open, relay, close |
| `Bridge.WriteFailureEndsEarly` | internal/socks/tcp_handle.go:49-51 | a failed reply write is returned as is, and the only effect is the write: no stream is opened |
| `Bridge.OpenFailureEndsEarly` | internal/socks/tcp_handle.go:53-57 | a failed open is returned as is; no relay starts and no close is issued |
| `Bridge.OpenedStreamClosedOnce` | internal/socks/tcp_handle.go:58-81 | once the stream is open, the result is nil and the close happens exactly once, as the last effect, after the relay step, whether a relay result or shutdown came first |
| `Bridge.UdpNeverConnects` | internal/socks/tcp_handle.go:12-15 | CMD UDP ASSOCIATE runs only the UDP path and returns its result: no reply write, no stream |
| `Bridge.ConnectOnlyConnects` | internal/socks/tcp_handle.go:17-20 | CMD CONNECT never runs the UDP path; its first effect is writing the reply for the local address, and its result is the connect path's |
| `Bridge.UnsupportedIsNoop` | internal/socks/tcp_handle.go:22-23 | any other command (BIND included) has no effect and returns nil |

The classifier `GoErrors.Retryable` is a function with no precondition and
no state. It is therefore total and deterministic, and its result depends
only on the error value and its chain.

## Left out

- The relay goroutines, the `errCh` channel and the `select` on the handler's context (tcp_handle.go:61-78) are concurrency. They are one step whose outcome comes from the environment's script. The peer goroutine that keeps running after the handler returns is not modelled.
- `buffer.Copy` and the bytes moved during relaying are byte-stream I/O in a package that is not part of this model.
- The pooled reply buffer's `Get`/`Put` (tcp_handle.go:30-31). The buffer is taken to start empty, and its release on every return path is not recorded.
- The bodies of `handleUDPAssociate`, `h.client.TCP`, `conn.Write` and `strm.Close` are external collaborators. They appear only through the answers the environment gives. Partial writes and the ignored error of `Close` are not modelled.
- `strm.SID()`, `conn.RemoteAddr()` and every `flog` call are logging only. This includes the branch that logs a relay error as opposed to a clean close.
- Request parsing and the SOCKS5 constants of the protocol library. The constant values are taken from RFC 1928 instead.
- The type assertion `conn.LocalAddr().(*net.TCPAddr)`, which cannot fail for a TCP connection.
- On errors Go can actually build, the errno list is never consulted for a `syscall.Errno`. `(*os.SyscallError).Unwrap` always returns its `Err`, and `syscall.Errno` has `Timeout` and `Temporary` methods, so it satisfies `net.Error`; the `net.Error` test answers first, and the syscall branch can only answer (false) for an `Err` that is not an `Errno`. The model does not enforce either fact: a syscall link may have any successor, or none.
- Go's rules for which types satisfy `net.Error`. They are an abstract flag per link, so the model does not force `context.DeadlineExceeded` or a `syscall.Errno` link to carry the flag, as Go's method sets would. The context test runs first, so this does not change the result for `DeadlineExceeded`. For errnos, see `SyscallOverNetErrnoRetryable`.
- `errors.Is`/`errors.As` also consult an error's own `Is`/`As` methods and follow multi-error trees (`Unwrap() []error`). The model follows a single `Unwrap` chain only.
- `NetIP.String`: the dotted and colon-hex renderings of 4- and 16-byte addresses are not modelled, because the reply encoder calls `String` only on other lengths.
