/**
 * The retryable-error predicate of internal/pkg/errors/errors.go.
 *
 * A Go error value is modelled by its wrap chain. Each link records which
 * well-known error it is, whether it satisfies the net.Error interface (an
 * abstract flag: Go's method-set rules are not modelled), and what its
 * Unwrap method returns. A nil error is None.
 */
module GoErrors {
  import opened Wrappers

  /** A syscall.Errno value; the named constants carry their Linux numbers. */
  type Errno = nat

  const EPIPE: Errno := 32
  const ENETUNREACH: Errno := 101
  const ECONNABORTED: Errno := 103
  const ECONNRESET: Errno := 104
  const ETIMEDOUT: Errno := 110
  const ECONNREFUSED: Errno := 111
  const EHOSTUNREACH: Errno := 113

  /** What one link of a wrap chain is. */
  datatype Kind =
    | EOF                         // the io.EOF sentinel
    | Canceled                    // the context.Canceled sentinel
    | DeadlineExceeded            // the context.DeadlineExceeded sentinel
    | SyscallError(errno: Errno)  // an *os.SyscallError whose Err is errno
    | Other                       // any other error value

  /** A non-nil error: its own link, and what its Unwrap returns (None: no further link). */
  datatype Error = Error(kind: Kind, netError: bool, wrapped: Option<Error>)

  /** The links of the wrap chain, outermost first. */
  function Chain(e: Error): (c: seq<Error>)
    ensures |c| >= 1 && c[0] == e
    decreases e
  {
    match e.wrapped
    case None => [e]
    case Some(inner) => [e] + Chain(inner)
  }

  /** The chain holds a link of kind k. */
  ghost predicate InChain(e: Error, k: Kind) {
    exists i :: 0 <= i < |Chain(e)| && Chain(e)[i].kind == k
  }

  /** The chain holds a link that satisfies net.Error. */
  ghost predicate HasNetLink(e: Error) {
    exists i :: 0 <= i < |Chain(e)| && Chain(e)[i].netError
  }

  /** Link i is the first *os.SyscallError of the chain. */
  ghost predicate FirstSyscallAt(e: Error, i: int) {
    0 <= i < |Chain(e)| && Chain(e)[i].kind.SyscallError?
    && forall j :: 0 <= j < i ==> !Chain(e)[j].kind.SyscallError?
  }

  /** The chain holds no *os.SyscallError at all. */
  ghost predicate NoSyscallLink(e: Error) {
    forall i :: 0 <= i < |Chain(e)| ==> !Chain(e)[i].kind.SyscallError?
  }

  /** errors.Is(e, target) for a sentinel target: walk Unwrap until a link is target. */
  function Is(e: Error, target: Kind): bool
    decreases e
  {
    e.kind == target || (e.wrapped.Some? && Is(e.wrapped.value, target))
  }

  /** errors.As(e, &netErr) where netErr has interface type net.Error. */
  function AsNetError(e: Error): bool
    decreases e
  {
    e.netError || (e.wrapped.Some? && AsNetError(e.wrapped.value))
  }

  /** errors.As(e, &syscallErr): the Err of the first *os.SyscallError on the chain, if any. */
  function AsSyscallError(e: Error): Option<Errno>
    decreases e
  {
    if e.kind.SyscallError? then Some(e.kind.errno)
    else if e.wrapped.Some? then AsSyscallError(e.wrapped.value)
    else None
  }

  /** The seven errnos the classifier treats as transient. */
  predicate TransientErrno(n: Errno) {
    n == ECONNRESET || n == EPIPE || n == ECONNABORTED || n == ETIMEDOUT
    || n == ECONNREFUSED || n == EHOSTUNREACH || n == ENETUNREACH
  }

  /**
   * The classifier (the unexported function `_`): an ordered decision list.
   * The EOF test is identity with the sentinel, so it looks at the outermost
   * link only; every later test walks the whole chain.
   */
  function Retryable(err: Option<Error>): bool {
    if err.None? || err.value.kind == EOF then false
    else if Is(err.value, Canceled) || Is(err.value, DeadlineExceeded) then false
    else if AsNetError(err.value) then true
    else
      match AsSyscallError(err.value)
      case Some(errno) => TransientErrno(errno)
      case None => true
  }

  /**
   * A reference statement of the same policy over the flattened chain, with
   * no evaluation order: not nil, not io.EOF itself, no context error
   * anywhere, and then either some net.Error link or, failing that, the first
   * syscall error (if any) carries a transient errno.
   */
  ghost predicate RetryableSpec(err: Option<Error>) {
    && err.Some?
    && err.value.kind != EOF
    && !InChain(err.value, Canceled)
    && !InChain(err.value, DeadlineExceeded)
    && (|| HasNetLink(err.value)
        || forall i :: FirstSyscallAt(err.value, i) ==> TransientErrno(Chain(err.value)[i].kind.errno))
  }

  // ---- the Unwrap walks agree with the flattened chain ----

  lemma {:induction false} IsFindsLink(e: Error, target: Kind)
    ensures Is(e, target) <==> InChain(e, target)
    decreases e
  {
    match e.wrapped
    case None =>
      assert Chain(e) == [e];
    case Some(inner) =>
      IsFindsLink(inner, target);
      assert Chain(e) == [e] + Chain(inner);
      if InChain(inner, target) {
        var i :| 0 <= i < |Chain(inner)| && Chain(inner)[i].kind == target;
        assert Chain(e)[i + 1] == Chain(inner)[i];
      }
      if InChain(e, target) && e.kind != target {
        var i :| 0 <= i < |Chain(e)| && Chain(e)[i].kind == target;
        assert i > 0 && Chain(inner)[i - 1] == Chain(e)[i];
      }
  }

  lemma {:induction false} AsNetErrorFindsLink(e: Error)
    ensures AsNetError(e) <==> HasNetLink(e)
    decreases e
  {
    match e.wrapped
    case None =>
      assert Chain(e) == [e];
    case Some(inner) =>
      AsNetErrorFindsLink(inner);
      assert Chain(e) == [e] + Chain(inner);
      if HasNetLink(inner) {
        var i :| 0 <= i < |Chain(inner)| && Chain(inner)[i].netError;
        assert Chain(e)[i + 1] == Chain(inner)[i];
      }
      if HasNetLink(e) && !e.netError {
        var i :| 0 <= i < |Chain(e)| && Chain(e)[i].netError;
        assert i > 0 && Chain(inner)[i - 1] == Chain(e)[i];
      }
  }

  lemma {:induction false} AsSyscallErrorFindsFirst(e: Error)
    ensures AsSyscallError(e).None? <==> NoSyscallLink(e)
    ensures forall i :: FirstSyscallAt(e, i) ==> AsSyscallError(e) == Some(Chain(e)[i].kind.errno)
    decreases e
  {
    match e.wrapped
    case None =>
    case Some(inner) =>
      AsSyscallErrorFindsFirst(inner);
      assert Chain(e) == [e] + Chain(inner);
      if !e.kind.SyscallError? {
        forall i | FirstSyscallAt(e, i)
          ensures AsSyscallError(e) == Some(Chain(e)[i].kind.errno)
        {
          assert i > 0;
          assert FirstSyscallAt(inner, i - 1) by {
            forall j | 0 <= j < i - 1 ensures !Chain(inner)[j].kind.SyscallError? {
              assert Chain(inner)[j] == Chain(e)[j + 1];
            }
          }
        }
        if NoSyscallLink(inner) {
          forall i | 0 <= i < |Chain(e)| ensures !Chain(e)[i].kind.SyscallError? {
            if i > 0 { assert Chain(e)[i] == Chain(inner)[i - 1]; }
          }
        }
        if NoSyscallLink(e) {
          forall i | 0 <= i < |Chain(inner)| ensures !Chain(inner)[i].kind.SyscallError? {
            assert Chain(inner)[i] == Chain(e)[i + 1];
          }
        }
      } else {
        assert !NoSyscallLink(e) by { assert Chain(e)[0].kind.SyscallError?; }
      }
  }

  /** The decision list and the order-free reference agree on every input. */
  lemma RetryableMatchesSpec(err: Option<Error>)
    ensures Retryable(err) <==> RetryableSpec(err)
  {
    if err.Some? {
      var e := err.value;
      IsFindsLink(e, Canceled);
      IsFindsLink(e, DeadlineExceeded);
      AsNetErrorFindsLink(e);
      AsSyscallErrorFindsFirst(e);
      if AsSyscallError(e).Some? && !HasNetLink(e) {
        var i := FirstSyscallIndex(e);
        assert FirstSyscallAt(e, i);
      }
    }
  }

  /** The index of the first syscall link, when there is one. */
  ghost function FirstSyscallIndex(e: Error): (i: nat)
    requires !NoSyscallLink(e)
    ensures FirstSyscallAt(e, i)
  {
    var c := Chain(e);
    var k :| 0 <= k < |c| && c[k].kind.SyscallError?;
    FirstSyscallBefore(c, k)
  }

  /** The first syscall link at or before k, given that link k is one. */
  ghost function FirstSyscallBefore(c: seq<Error>, k: nat): (i: nat)
    requires k < |c| && c[k].kind.SyscallError?
    ensures i <= k && c[i].kind.SyscallError?
    ensures forall j :: 0 <= j < i ==> !c[j].kind.SyscallError?
    decreases k
  {
    if exists j :: 0 <= j < k && c[j].kind.SyscallError? then
      var j :| 0 <= j < k && c[j].kind.SyscallError?;
      FirstSyscallBefore(c, j)
    else k
  }

  // ---- the properties of the decision list, one branch at a time ----

  /** A nil error and io.EOF itself are not retryable. */
  lemma NilAndEofNotRetryable(e: Error)
    requires e.kind == EOF
    ensures !Retryable(None) && !Retryable(Some(e))
  {
  }

  /** An io.EOF that is wrapped is not caught by the identity test: with no
      other evidence on the chain, the fail-open default decides. */
  lemma {:induction false} WrappedEofIsRetryable(e: Error)
    requires e.kind != EOF && InChain(e, EOF)
    requires !InChain(e, Canceled) && !InChain(e, DeadlineExceeded)
    requires !HasNetLink(e) && NoSyscallLink(e)
    ensures Retryable(Some(e))
  {
    UnclassifiedRetryable(e);
  }

  /** A context error anywhere on the chain wins over every later test. */
  lemma {:induction false} ContextErrorNotRetryable(e: Error, i: nat)
    requires i < |Chain(e)|
    requires Chain(e)[i].kind == Canceled || Chain(e)[i].kind == DeadlineExceeded
    ensures !Retryable(Some(e))
  {
    IsFindsLink(e, Chain(e)[i].kind);
  }

  /** Without a context error, any net.Error link makes the error retryable,
      whatever syscall error the chain also holds. */
  lemma {:induction false} NetErrorRetryable(e: Error, i: nat)
    requires e.kind != EOF && !InChain(e, Canceled) && !InChain(e, DeadlineExceeded)
    requires i < |Chain(e)| && Chain(e)[i].netError
    ensures Retryable(Some(e))
  {
    IsFindsLink(e, Canceled);
    IsFindsLink(e, DeadlineExceeded);
    AsNetErrorFindsLink(e);
  }

  /** The first syscall error of the chain carrying a listed errno makes it retryable. */
  lemma {:induction false} TransientSyscallRetryable(e: Error, i: nat)
    requires e.kind != EOF && !InChain(e, Canceled) && !InChain(e, DeadlineExceeded)
    requires FirstSyscallAt(e, i) && TransientErrno(Chain(e)[i].kind.errno)
    ensures Retryable(Some(e))
  {
    IsFindsLink(e, Canceled);
    IsFindsLink(e, DeadlineExceeded);
    AsSyscallErrorFindsFirst(e);
  }

  /** Reached without a net.Error, a syscall error with an unlisted errno is NOT
      retryable: this branch does not fall through to the default. */
  lemma {:induction false} OtherSyscallNotRetryable(e: Error, i: nat)
    requires !HasNetLink(e)
    requires FirstSyscallAt(e, i) && !TransientErrno(Chain(e)[i].kind.errno)
    ensures !Retryable(Some(e))
  {
    AsNetErrorFindsLink(e);
    AsSyscallErrorFindsFirst(e);
  }

  /** An error in none of the categories is retryable: the fail-open default. */
  lemma {:induction false} UnclassifiedRetryable(e: Error)
    requires e.kind != EOF && !InChain(e, Canceled) && !InChain(e, DeadlineExceeded)
    requires !HasNetLink(e) && NoSyscallLink(e)
    ensures Retryable(Some(e))
  {
    IsFindsLink(e, Canceled);
    IsFindsLink(e, DeadlineExceeded);
    AsNetErrorFindsLink(e);
    AsSyscallErrorFindsFirst(e);
  }

  /**
   * With no context error and no outer io.EOF: an *os.SyscallError unwraps
   * to its Err, and when that errno link itself satisfies net.Error (as
   * syscall.Errno values do in Go, having Timeout and Temporary methods), the
   * net.Error test answers first and the errno list is never consulted: the
   * result is true for every errno.
   */
  lemma {:induction false} SyscallOverNetErrnoRetryable(e: Error, i: nat)
    requires e.kind != EOF && !InChain(e, Canceled) && !InChain(e, DeadlineExceeded)
    requires FirstSyscallAt(e, i) && i + 1 < |Chain(e)| && Chain(e)[i + 1].netError
    ensures Retryable(Some(e))
  {
    NetErrorRetryable(e, i + 1);
  }
}
