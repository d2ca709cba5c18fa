/** The cancellation function a stream hands its caller. It closes the
    stream's cancellation signal at most once: the first call closes it and
    reports success, every later call reports "already closed" and leaves
    the signal as it is. */
module Canceler {
  import opened Wrappers

  /** The cancellation signal: a channel that is open until closed. */
  datatype Signal = Open | Closed

  datatype CancelError = AlreadyClosed

  /** One call of the cancellation function: the signal after the call and
      the error it returns (`None` for Go's nil). */
  function Cancel(s: Signal): (r: (Signal, Option<CancelError>))
    ensures r.0 == Closed
    ensures r.1 == None <==> s == Open
    ensures r.1 != None ==> r.1 == Some(AlreadyClosed)
  {
    match s
    case Open => (Closed, None)
    case Closed => (Closed, Some(AlreadyClosed))
  }

  /** The errors returned by `n` successive calls starting from `s`. */
  function CancelRepeatedly(s: Signal, n: nat): (rs: seq<Option<CancelError>>)
    ensures |rs| == n
    decreases n
  {
    if n == 0 then []
    else
      var (s', e) := Cancel(s);
      [e] + CancelRepeatedly(s', n - 1)
  }

  /** How many of the results are nil. */
  function NilCount(rs: seq<Option<CancelError>>): (c: nat)
    ensures c <= |rs|
  {
    if |rs| == 0 then 0
    else (if rs[0] == None then 1 else 0) + NilCount(rs[1..])
  }

  /** A second call after the first finds the signal closed, reports
      "already closed", and changes nothing. */
  lemma CancelIdempotent(s: Signal)
    ensures Cancel(Cancel(s).0) == (Closed, Some(AlreadyClosed))
    ensures Cancel(Cancel(s).0).0 == Cancel(s).0
  {
  }

  /** Any number of calls on a closed signal all report "already closed". */
  lemma {:induction false} ClosedStaysClosed(n: nat)
    ensures forall i :: 0 <= i < n ==> CancelRepeatedly(Closed, n)[i] == Some(AlreadyClosed)
    ensures NilCount(CancelRepeatedly(Closed, n)) == 0
  {
    if n > 0 {
      ClosedStaysClosed(n - 1);
      var rs := CancelRepeatedly(Closed, n);
      assert rs == [Some(AlreadyClosed)] + CancelRepeatedly(Closed, n - 1);
      assert rs[1..] == CancelRepeatedly(Closed, n - 1);
    }
  }

  /** Exactly-once: of `n >= 1` calls on a fresh canceler, the first returns
      nil and every later one returns "already closed". */
  lemma CancelExactlyOnce(n: nat)
    requires n >= 1
    ensures CancelRepeatedly(Open, n)[0] == None
    ensures forall i :: 1 <= i < n ==> CancelRepeatedly(Open, n)[i] == Some(AlreadyClosed)
    ensures NilCount(CancelRepeatedly(Open, n)) == 1
  {
    var rs := CancelRepeatedly(Open, n);
    ClosedStaysClosed(n - 1);
    assert rs == [None] + CancelRepeatedly(Closed, n - 1);
    assert rs[1..] == CancelRepeatedly(Closed, n - 1);
  }
}
