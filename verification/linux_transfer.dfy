// What a run of the write loop of linux/serial_port.c looks like from outside, said of the
// sequence of system calls it makes, with the consequences every such run has.
module LinuxTransfer {
  import opened Errno
  import opened LinuxOs

  /** The bytes the device has taken. */
  function Accepted(calls: seq<Call>): seq<Byte> {
    if calls == [] then [] else
    var front, last := calls[..|calls| - 1], calls[|calls| - 1];
    if last.Write? && last.wrote.Moved? && last.wrote.count <= |last.offered|
    then Accepted(front) + last.offered[..last.wrote.count]
    else Accepted(front)
  }

  /** The most recent clock reading. */
  function LastClock(calls: seq<Call>): int {
    if calls == [] then 0 else
    var last := calls[|calls| - 1];
    if last.Clock? then last.now else LastClock(calls[..|calls| - 1])
  }

  function Readings(calls: seq<Call>): nat {
    if calls == [] then 0 else
    Readings(calls[..|calls| - 1]) + if calls[|calls| - 1].Clock? then 1 else 0
  }

  function PollCode(answer: PollAnswer): int {
    match answer
    case Ready => 0
    case Broken => -EIO
    case Elapsed => -ETIMEDOUT
    case PollFailed(e) => if e == EINTR then 0 else -(e as int)
  }

  /** The error a call's answer ends the write with, or 0 when the write carries on. */
  function Verdict(call: Call, deadline: int, timeout: int): int {
    match call
    case Clock(now) => if timeout > 0 && now >= deadline then -ETIMEDOUT else 0
    case Poll(_, answer) => PollCode(answer)
    case Write(_, Moved(n)) => if n == 0 then -EIO else 0
    case Write(_, WriteFailed(e)) => if e == EINTR || e == EAGAIN then 0 else -(e as int)
    case _ => 0
  }

  /** The waits that fail, each with its error. An interrupted poll is none of them. */
  predicate FailsWait(answer: PollAnswer, error: int) {
    || (answer == Broken && error == -EIO)
    || (answer == Elapsed && error == -ETIMEDOUT)
    || (answer.PollFailed? && answer.errno != EINTR && error == -(answer.errno as int))
  }

  /** The calls that end a write early, each with its error: a deadline reached, a wait that fails, a
      device that takes nothing, or a write that fails for any reason but EINTR and EAGAIN. */
  predicate FailsWrite(call: Call, deadline: int, timeout: int, error: int) {
    || (call.Clock? && timeout > 0 && call.now >= deadline && error == -ETIMEDOUT)
    || (call.Poll? && FailsWait(call.polled, error))
    || (call.Write? && call.wrote == Moved(0) && error == -EIO)
    || (call.Write? && call.wrote.WriteFailed? && call.wrote.errno != EINTR && call.wrote.errno != EAGAIN
        && error == -(call.wrote.errno as int))
  }

  /** The run `calls` ended with such a call. */
  ghost predicate EndedBy(calls: seq<Call>, timeout: int, error: int) {
    calls != [] && calls[0].Clock? && FailsWrite(calls[|calls| - 1], calls[0].now + timeout, timeout, error)
  }

  /** A write is ended by those calls and no others: a retry never ends it. */
  lemma {:induction false} OnlyFailuresEnd(calls: seq<Call>, data: seq<Byte>, timeout: int, k: nat, error: int)
    requires WriteRun(calls, data, timeout) && k < |calls|
    requires FailsWrite(calls[k], calls[0].now + timeout, timeout, error)
    ensures k == |calls| - 1
  {
    if k < |calls| - 1 {
      var front := calls[..|calls| - 1];
      if k < |front| - 1 {
        OnlyFailuresEnd(front, data, timeout, k, error);
      }
    }
  }

  /** May `call` come after `before` when `data` is written under `timeout`? */
  ghost predicate Allowed(before: seq<Call>, call: Call, data: seq<Byte>, timeout: int) {
    match call
    case Clock(now) => before == [] || (timeout > 0 && now >= LastClock(before) && |Accepted(before)| < |data|)
    case Poll(wait, _) =>
      && before != [] && before[0].Clock?
      && |Accepted(before)| < |data|
      && (if timeout > 0 then 0 < wait <= timeout && LastClock(before) + wait == before[0].now + timeout
          else wait == timeout)
    case Write(offered, answer) =>
      && before != []
      && before[|before| - 1].Poll? && before[|before| - 1].polled == Ready
      && offered != [] && Accepted(before) + offered == data
      && (answer.Moved? ==> answer.count <= |offered|)
    case _ => false
  }

  /** `calls` is a run of the write loop so far: it began with a clock reading, each call was
      allowed where it stands, and none but the last ended the write. */
  ghost predicate WriteRun(calls: seq<Call>, data: seq<Byte>, timeout: int) {
    calls != [] && calls[0].Clock? &&
    (|calls| == 1 ||
     var front, last := calls[..|calls| - 1], calls[|calls| - 1];
     && WriteRun(front, data, timeout)
     && Verdict(front[|front| - 1], calls[0].now + timeout, timeout) == 0
     && Allowed(front, last, data, timeout))
  }

  /** What the device took is a prefix of the buffer, in order, at every moment of the run. */
  lemma {:induction false} AcceptedIsPrefix(calls: seq<Call>, data: seq<Byte>, timeout: int)
    requires WriteRun(calls, data, timeout)
    ensures Accepted(calls) <= data
  {
    if |calls| > 1 {
      AcceptedIsPrefix(calls[..|calls| - 1], data, timeout);
    }
  }

  /** Once a reading reaches the deadline nothing follows it: no poll, no write, no reading. */
  lemma {:induction false} LateReadingIsLast(calls: seq<Call>, data: seq<Byte>, timeout: int, k: nat)
    requires WriteRun(calls, data, timeout) && timeout > 0
    requires k < |calls| && calls[k].Clock? && calls[k].now >= calls[0].now + timeout
    ensures k == |calls| - 1
  {
    if k < |calls| - 1 {
      var front := calls[..|calls| - 1];
      LateReadingIsLast(front, data, timeout, k);
      assert false;
    }
  }

  /** With a positive timeout every wait handed to poll is positive, no longer than the timeout (so the
      narrowing to 32 bits loses nothing) and ends at the deadline; without, it is the timeout itself.
      Every write follows a ready poll and offers exactly the bytes not yet taken; the clock is read again
      only under a positive timeout, while bytes are left. */
  lemma {:induction false} CallsAreWellTimed(calls: seq<Call>, data: seq<Byte>, timeout: int, k: nat)
    requires WriteRun(calls, data, timeout) && k < |calls|
    ensures calls[k].Poll? && timeout > 0 ==>
      0 < calls[k].timeout <= timeout && LastClock(calls[..k]) + calls[k].timeout == calls[0].now + timeout
    ensures calls[k].Write? ==>
      k > 0 && calls[k - 1].Poll? && calls[k - 1].polled == Ready && Accepted(calls[..k]) + calls[k].offered == data
    ensures calls[k].Poll? && timeout <= 0 ==> calls[k].timeout == timeout
    ensures calls[k].Clock? && k > 0 ==> timeout > 0 && |Accepted(calls[..k])| < |data|
  {
    if |calls| > 1 {
      var front := calls[..|calls| - 1];
      if k < |front| {
        CallsAreWellTimed(front, data, timeout, k);
        assert front[..k] == calls[..k];
      }
    }
  }

  /** Readings of two passes with no byte taken between them differ: every retry advances the clock.
      The reading that sets the deadline is not in a pass; the first pass may read the same time. */
  ghost predicate RetriesAdvance(calls: seq<Call>) {
    forall i, j :: 1 <= i < j < |calls| && calls[i].Clock? && calls[j].Clock?
                   && Accepted(calls[..i]) == Accepted(calls[..j])
                   ==> calls[i].now < calls[j].now
  }

  /** Where the most recent clock reading stands. */
  ghost function LastReading(calls: seq<Call>): (k: nat)
    requires calls != [] && calls[0].Clock?
    ensures k < |calls| && calls[k].Clock? && calls[k].now == LastClock(calls)
  {
    if |calls| == 1 || calls[|calls| - 1].Clock? then |calls| - 1
    else LastReading(calls[..|calls| - 1])
  }

  lemma {:induction false} AcceptedGrows(calls: seq<Call>, i: nat, j: nat)
    requires i <= j <= |calls|
    ensures Accepted(calls[..i]) <= Accepted(calls[..j])
  {
    if i < j {
      AcceptedGrows(calls, i, j - 1);
      assert calls[..j][..j - 1] == calls[..j - 1];
    }
  }

  /** Passes that stalled: they began at the same clock as the pass before, which got no byte taken. */
  ghost function Stalls(calls: seq<Call>): nat
    requires calls != [] && calls[0].Clock?
  {
    if |calls| == 1 then 0 else
    var front, last := calls[..|calls| - 1], calls[|calls| - 1];
    var p := LastReading(front);
    Stalls(front) + if last.Clock? && p > 0 && calls[p].now == last.now && Accepted(calls[..p]) == Accepted(front)
                    then 1 else 0
  }

  lemma {:induction false} AdvancingNeverStalls(calls: seq<Call>)
    requires calls != [] && calls[0].Clock? && RetriesAdvance(calls)
    ensures Stalls(calls) == 0
  {
    if |calls| > 1 {
      var front := calls[..|calls| - 1];
      assert forall k :: 0 <= k < |front| ==> front[..k] == calls[..k];
      AdvancingNeverStalls(front);
    }
  }

  /** Each pass after the first is paid for by a byte taken, a millisecond passed, or a stall. */
  lemma {:induction false} ReadingsArePaidFor(calls: seq<Call>, data: seq<Byte>, timeout: int)
    requires WriteRun(calls, data, timeout)
    ensures Readings(calls) - 2 <=
              |Accepted(calls[..LastReading(calls)])| + LastClock(calls) - calls[0].now + Stalls(calls)
    ensures LastClock(calls) >= calls[0].now
    ensures LastReading(calls) == 0 ==> Readings(calls) == 1
  {
    var n := |calls| - 1;
    if n == 0 {
      assert calls[..0] == [];
    } else {
      var front := calls[..n];
      assert forall k :: 0 <= k < n ==> front[..k] == calls[..k];
      ReadingsArePaidFor(front, data, timeout);
      var p := LastReading(front);
      if calls[n].Clock? {
        AcceptedGrows(calls, p, n);
        if |Accepted(calls[..p])| == |Accepted(calls[..n])| {
          assert Accepted(calls[..p]) == Accepted(calls[..n]);
        }
      }
    }
  }

  /** So with a positive timeout the loop ends but for stalls: one reading sets the deadline and each
      pass begins with another, so whatever the device does there are at most |data| + timeout passes
      besides the stalled ones, and none stalls when each retry advances the clock. It bounds passes and
      not polls: one wait polls again for as long as it is interrupted. */
  lemma {:induction false} WriteTerminates(calls: seq<Call>, data: seq<Byte>, timeout: int)
    requires WriteRun(calls, data, timeout) && timeout > 0
    ensures Readings(calls) <= |data| + timeout + 1 + Stalls(calls)
    ensures RetriesAdvance(calls) ==> Readings(calls) <= |data| + timeout + 1
  {
    var n := |calls| - 1;
    if n > 0 {
      var front := calls[..n];
      var p := LastReading(front);
      if front[p].now >= calls[0].now + timeout {
        LateReadingIsLast(calls, data, timeout, p);
      }
      ReadingsArePaidFor(front, data, timeout);
      CallsAreWellTimed(front, data, timeout, p);
    }
    if RetriesAdvance(calls) {
      AdvancingNeverStalls(calls);
    }
  }
}
