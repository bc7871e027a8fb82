// One opened port of linux/serial_port.c: configuration, reads and writes over the scripted kernel.
module LinuxPort {
  import opened Errno
  import opened LinuxOs
  import opened LinuxTermios
  import opened LinuxTransfer
  import opened Optional

  predicate Int32(x: int) { -0x8000_0000 <= x < 0x8000_0000 }

  /** `(int32_t)x`. */
  function ToInt32(x: int): int {
    (x + 0x8000_0000) % 0x1_0000_0000 - 0x8000_0000
  }

  /** The error number a call failed with, if it is one of opening and configuring that failed. */
  function Failure(call: Call): Option<Errno> {
    match call
    case OpenPath(_, result, errno) => if result.None? then Some(errno) else None
    case GetAttr(_, failure) => failure
    case SetSpeed(failure) => failure
    case SetAttr(_, _, failure) => failure
    case _ => None
  }

  predicate Failed(call: Call) { Failure(call).Some? }

  /** A call that failed decides the error. */
  predicate FailuresDecide(calls: seq<Call>, error: int) {
    forall c <- calls :: Failed(c) ==> error == -(Failure(c).value as int)
  }

  predicate NoneFailed(calls: seq<Call>) {
    forall c <- calls :: !Failed(c)
  }

  lemma AppendFailures(first: Call, more: seq<Call>)
    ensures NoneFailed([first] + more) <==> !Failed(first) && NoneFailed(more)
  {
    var all := [first] + more;
    if NoneFailed(all) {
      assert all[0] == first;
      forall c | c in more ensures !Failed(c) {
        assert c in all;
      }
    }
  }

  lemma AppendClose(calls: seq<Call>, fd: nat)
    ensures NoneFailed(calls + [CloseFd(fd)]) <==> NoneFailed(calls)
  {
    if NoneFailed(calls + [CloseFd(fd)]) {
      forall c | c in calls ensures !Failed(c) {
        assert c in calls + [CloseFd(fd)];
      }
    }
  }

  /** Reads interrupted by a signal, as the read loop sees them. */
  ghost predicate AllInterrupted(calls: seq<Call>, length: nat) {
    forall c <- calls :: c == Read(length, ReadFailed(EINTR))
  }

  /** One `serial_wait_for_fd`: polls interrupted by signals, then the poll that counts. Each one is
      given the whole timeout again. */
  ghost predicate WaitRun(polls: seq<Call>, timeout: int) {
    && polls != [] && polls[|polls| - 1].Poll?
    && polls[|polls| - 1].polled != PollFailed(EINTR)
    && (forall c <- polls :: c.Poll? && c.timeout == timeout)
    && (forall k :: 0 <= k < |polls| - 1 ==> polls[k] == Poll(timeout, PollFailed(EINTR)))
  }

  /** May a wait of length `wait` start here? */
  ghost predicate MayWait(calls: seq<Call>, data: seq<Byte>, timeout: int, wait: int) {
    && WriteRun(calls, data, timeout)
    && Verdict(calls[|calls| - 1], calls[0].now + timeout, timeout) == 0
    && |Accepted(calls)| < |data|
    && if timeout > 0 then 0 < wait <= timeout && LastClock(calls) + wait == calls[0].now + timeout
       else wait == timeout
  }

  lemma PollExtendsRun(calls: seq<Call>, data: seq<Byte>, timeout: int, wait: int, answer: PollAnswer)
    requires MayWait(calls, data, timeout, wait)
    ensures var more := calls + [Poll(wait, answer)];
      && WriteRun(more, data, timeout) && Accepted(more) == Accepted(calls) && LastClock(more) == LastClock(calls)
      && (PollCode(answer) == 0 ==> MayWait(more, data, timeout, wait))
  {
    assert (calls + [Poll(wait, answer)])[..|calls|] == calls;
  }

  /** The polls of one wait extend a write run together. */
  lemma {:induction false} WaitExtendsRun(calls: seq<Call>, polls: seq<Call>, data: seq<Byte>, timeout: int, wait: int)
    requires MayWait(calls, data, timeout, wait) && WaitRun(polls, wait)
    ensures WriteRun(calls + polls, data, timeout)
    ensures Accepted(calls + polls) == Accepted(calls) && LastClock(calls + polls) == LastClock(calls)
    ensures calls < calls + polls && (calls + polls)[0] == calls[0]
    ensures (calls + polls)[|calls + polls| - 1] == polls[|polls| - 1]
    decreases |polls|
  {
    PollExtendsRun(calls, data, timeout, wait, polls[0].polled);
    if |polls| == 1 {
      assert polls == [Poll(wait, polls[0].polled)];
    } else {
      assert polls[0] == Poll(wait, PollFailed(EINTR));
      WaitExtendsRun(calls + [polls[0]], polls[1..], data, timeout, wait);
      assert calls + [polls[0]] + polls[1..] == calls + polls;
    }
  }

  lemma ReadingExtendsRun(calls: seq<Call>, data: seq<Byte>, timeout: int, now: int)
    requires MayRead(calls, data, timeout) && timeout > 0 && now >= LastClock(calls)
    ensures var more := calls + [Clock(now)];
      && WriteRun(more, data, timeout) && Accepted(more) == Accepted(calls) && LastClock(more) == now
  {
    assert (calls + [Clock(now)])[..|calls|] == calls;
  }

  lemma {:induction false} ClockNeverBackwards(calls: seq<Call>, data: seq<Byte>, timeout: int)
    requires WriteRun(calls, data, timeout)
    ensures LastClock(calls) >= calls[0].now
  {
    if |calls| > 1 {
      ClockNeverBackwards(calls[..|calls| - 1], data, timeout);
    }
  }

  /** Is the loop between two passes, with bytes left to write? */
  ghost predicate MayRead(calls: seq<Call>, data: seq<Byte>, timeout: int) {
    && WriteRun(calls, data, timeout)
    && Verdict(calls[|calls| - 1], calls[0].now + timeout, timeout) == 0
    && |Accepted(calls)| < |data|
  }

  lemma WriteExtendsRun(calls: seq<Call>, data: seq<Byte>, timeout: int, offered: seq<Byte>, answer: WriteAnswer)
    requires WriteRun(calls, data, timeout) && calls[|calls| - 1].Poll? && calls[|calls| - 1].polled == Ready
    requires offered != [] && Accepted(calls) + offered == data
    requires answer.Moved? ==> answer.count <= |offered|
    ensures var more := calls + [Write(offered, answer)];
      && WriteRun(more, data, timeout) && LastClock(more) == LastClock(calls)
      && Accepted(more) == Accepted(calls) + if answer.Moved? then offered[..answer.count] else []
  {
    assert (calls + [Write(offered, answer)])[..|calls|] == calls;
  }

  class SerialPort {
    const path: string
    var fd: int
    var config: Config
    var lastError: int

    /** `serial_port_create`; null and empty paths are turned away before this point. */
    constructor (path: string)
      ensures this.path == path && fd == -1 && lastError == 0
      ensures config == Config(9600, 8, STOP_ONE, PARITY_NONE, FLOW_NONE, 5000, 5000)
    {
      this.path := path;
      fd := -1;
      config := Config(9600, 8, STOP_ONE, PARITY_NONE, FLOW_NONE, 5000, 5000);
      lastError := 0;
    }

    method StoreError(code: int) returns (error: int)
      modifies this`lastError
      ensures error == code && lastError == code
    {
      lastError := code;
      return code;
    }

    /** `serial_apply_configuration`, with the calls it made and the attributes `raw` that
        `tcgetattr` and `cfmakeraw` left: it succeeds exactly when the configuration is one it
        accepts and no call fails, and a rejected configuration never reaches `tcsetattr`. */
    method ApplyConfiguration(os: Os, m: Masks, wanted: Config)
      returns (error: int, ghost calls: seq<Call>, ghost raw: Attr)
      requires m.CodesFit() && m.FieldsDisjoint() && m.SpeedsFit() && fd >= 0 && wanted.baudRate > 0
      modifies this`config, this`lastError, os`script, os`trace
      ensures lastError == error && os.trace == old(os.trace) + calls
      ensures calls != [] && forall c <- calls :: c.GetAttr? || c.SetSpeed? || c.SetAttr?
      ensures NoneFailed(calls) ==> error == ConfigError(m, wanted)
      ensures !NoneFailed(calls) ==> error != 0
      ensures FailuresDecide(calls, error)
      ensures ConfigError(m, wanted) != 0 ==> error != 0 && forall c <- calls :: !c.SetAttr?
      ensures error == 0 ==>
        var last := calls[|calls| - 1];
        last.SetAttr? && last.fd == fd && Encodes(m, raw, last.attr, wanted)
      ensures config == if error == 0 then wanted else old(config)
    {
      var attr, failure := os.DoGetAttr(fd);
      raw, calls := attr, [GetAttr(fd, failure)];
      if failure.Some? {
        assert Failed(calls[|calls| - 1]);
        error := StoreError(-(failure.value as int));
        return;
      }
      var options := new Options(attr);
      options.cflag := options.cflag + m.LineMask();
      options.vmin, options.vtime := 0, 0;

      if wanted.baudRate !in m.speeds {
        error := StoreError(-EINVAL);
        return;
      }
      ghost var speeds;
      error, speeds := SetSpeeds(os);
      AppendFailures(GetAttr(fd, None), speeds);
      calls := calls + speeds;
      if error != 0 {
        return;
      }
      error := ConfigureLine(m, options, wanted, raw);
      if error != 0 {
        return;
      }
      failure := os.DoSetAttr(fd, options.Value());
      calls := calls + [SetAttr(fd, options.Value(), failure)];
      if failure.Some? {
        assert Failed(calls[|calls| - 1]);
        error := StoreError(-(failure.value as int));
        return;
      }
      config := wanted;
      lastError := 0;
      error := 0;
    }

    /** `cfsetispeed`, then `cfsetospeed` unless the first failed. */
    method SetSpeeds(os: Os) returns (error: int, ghost calls: seq<Call>)
      modifies this`lastError, os`script, os`trace
      ensures os.trace == old(os.trace) + calls && calls != [] && forall c <- calls :: c.SetSpeed?
      ensures (error == 0 <==> NoneFailed(calls)) && FailuresDecide(calls, error)
      ensures lastError == if error == 0 then old(lastError) else error
    {
      var failure := os.DoSetSpeed();
      calls := [SetSpeed(failure)];
      if failure.None? {
        failure := os.DoSetSpeed();
        calls := calls + [SetSpeed(failure)];
      }
      error := 0;
      if failure.Some? {
        assert Failed(calls[|calls| - 1]);
        error := StoreError(-(failure.value as int));
      }
    }

    /** The speed and the four setters, in the order of the code. */
    method ConfigureLine(m: Masks, options: Options, wanted: Config, ghost raw: Attr) returns (error: int)
      requires m.CodesFit() && m.FieldsDisjoint() && m.SpeedsFit()
      requires wanted.baudRate > 0 && wanted.baudRate in m.speeds
      requires options.Value() == Attr(raw.cflag + m.LineMask(), raw.iflag, 0, 0)
      modifies options, this`lastError
      ensures error == ConfigError(m, wanted)
      ensures error == 0 ==> Encodes(m, raw, options.Value(), wanted) && lastError == old(lastError)
      ensures error != 0 ==> lastError == error
    {
      ghost var c0 := options.cflag;
      options.SetSpeed(m, m.speeds[wanted.baudRate]);
      ghost var c1 := options.cflag;
      error := options.ConfigureDataBits(m, wanted.dataBits);
      if error != 0 {
        error := StoreError(error);
        return;
      }
      ghost var c2 := options.cflag;
      error := options.ConfigureStopBits(m, wanted);
      if error != 0 {
        error := StoreError(error);
        return;
      }
      ghost var c3 := options.cflag;
      error := options.ConfigureParity(m, wanted.parity);
      if error != 0 {
        error := StoreError(error);
        return;
      }
      ghost var c4, i1 := options.cflag, options.iflag;
      error := options.ConfigureFlowControl(m, wanted.flowControl);
      if error != 0 {
        error := StoreError(error);
        return;
      }
      StepsEncode(m, raw, c0, c1, c2, c3, c4, i1, options.Value(), wanted);
    }

    /** `serial_port_open`. A null configuration is None. The port ends up open exactly when the
        error is 0 or it was open before, and a descriptor that is not kept has been closed. */
    method Open(os: Os, m: Masks, wanted: Option<Config>)
      returns (error: int, ghost calls: seq<Call>, ghost raw: Attr)
      requires m.CodesFit() && m.FieldsDisjoint() && m.SpeedsFit()
      modifies this`fd, this`config, this`lastError, os`script, os`trace
      ensures lastError == error && os.trace == old(os.trace) + calls
      ensures wanted.None? || ConfigInvalid(wanted.value) ==> error == -EINVAL && calls == [] && fd == old(fd)
      ensures wanted.Some? && !ConfigInvalid(wanted.value) && old(fd) >= 0 ==>
        error == -EALREADY && calls == [] && fd == old(fd)
      ensures wanted.Some? && !ConfigInvalid(wanted.value) && old(fd) < 0 ==>
        && calls != [] && calls[0].OpenPath? && calls[0].path == path
        && (NoneFailed(calls) ==> error == ConfigError(m, wanted.value))
        && (!NoneFailed(calls) ==> error != 0) && FailuresDecide(calls, error)
      ensures error == 0 ==>
        && calls[0].result == Some(fd) && fd >= 0 && config == wanted.value
        && calls[|calls| - 1].SetAttr? && calls[|calls| - 1].fd == fd
        && Encodes(m, raw, calls[|calls| - 1].attr, wanted.value)
        && forall c <- calls :: !c.CloseFd?
      ensures error != 0 ==> (fd < 0 <==> old(fd) < 0) && config == old(config)
      ensures error != 0 && calls != [] && calls[0].result.Some? ==>
        calls[|calls| - 1] == CloseFd(calls[0].result.value) && forall c <- calls[..|calls| - 1] :: !c.CloseFd?
      ensures wanted.Some? && ConfigError(m, wanted.value) != 0 ==> error != 0 && forall c <- calls :: !c.SetAttr?
    {
      calls, raw := [], Attr({}, {}, 0, 0);
      if wanted.None? || ConfigInvalid(wanted.value) {
        error := StoreError(-EINVAL);
        return;
      }
      if fd >= 0 {
        error := StoreError(-EALREADY);
        return;
      }
      error, calls, raw := OpenDevice(os, m, wanted.value);
    }

    /** The part of `serial_port_open` after its checks. */
    method OpenDevice(os: Os, m: Masks, wanted: Config) returns (error: int, ghost calls: seq<Call>, ghost raw: Attr)
      requires m.CodesFit() && m.FieldsDisjoint() && m.SpeedsFit() && !ConfigInvalid(wanted) && fd < 0
      modifies this`fd, this`config, this`lastError, os`script, os`trace
      ensures lastError == error && os.trace == old(os.trace) + calls
      ensures calls != [] && calls[0].OpenPath? && calls[0].path == path
      ensures NoneFailed(calls) ==> error == ConfigError(m, wanted)
      ensures !NoneFailed(calls) ==> error != 0
      ensures FailuresDecide(calls, error)
      ensures error == 0 ==>
        && calls[0].result == Some(fd) && fd >= 0 && config == wanted
        && calls[|calls| - 1].SetAttr? && calls[|calls| - 1].fd == fd
        && Encodes(m, raw, calls[|calls| - 1].attr, wanted)
        && forall c <- calls :: !c.CloseFd?
      ensures error != 0 ==> fd < 0 && config == old(config)
      ensures error != 0 && calls[0].result.Some? ==>
        calls[|calls| - 1] == CloseFd(calls[0].result.value) && forall c <- calls[..|calls| - 1] :: !c.CloseFd?
      ensures ConfigError(m, wanted) != 0 ==> error != 0 && forall c <- calls :: !c.SetAttr?
    {
      raw := Attr({}, {}, 0, 0);
      var answer, errno := os.DoOpen(path);
      calls := [OpenPath(path, answer, errno)];
      if answer.None? {
        error := StoreError(-(errno as int));
        assert Failed(calls[0]);
        return;
      }
      fd := answer.value;
      ghost var more;
      error, more, raw := ApplyConfiguration(os, m, wanted);
      calls := calls + more;
      AppendFailures(OpenPath(path, answer, errno), more);
      if error != 0 {
        os.DoClose(fd);
        assert calls[|calls| - 1] == more[|more| - 1];
        ghost var done := calls;
        calls := calls + [CloseFd(fd)];
        assert calls[..|calls| - 1] == done;
        AppendClose(done, fd);
        fd := -1;
      }
    }

    /** `serial_port_close`, for a `close(2)` that succeeds. */
    method Close(os: Os) returns (error: int)
      modifies this`fd, this`lastError, os`trace
      ensures error == (if old(fd) < 0 then -EBADF else 0) && lastError == error && fd < 0
      ensures os.trace == old(os.trace) + if old(fd) < 0 then [] else [CloseFd(old(fd))]
    {
      if fd < 0 {
        error := StoreError(-EBADF);
        return;
      }
      os.DoClose(fd);
      fd := -1;
      lastError := 0;
      return 0;
    }

    /** `serial_port_destroy`: after a successful close it closes nothing more. */
    method Destroy(os: Os)
      modifies os`trace
      ensures os.trace == old(os.trace) + if fd < 0 then [] else [CloseFd(fd)]
    {
      if fd >= 0 {
        os.DoClose(fd);
      }
    }

    /** What `serial_port_manager_close` does with a detached port: one close on every path. */
    method CloseAndDestroy(os: Os) returns (error: int)
      modifies this`fd, this`lastError, os`trace
      ensures error == 0 && fd < 0
      ensures os.trace == old(os.trace) + if old(fd) < 0 then [] else [CloseFd(old(fd))]
    {
      error := Close(os);
      Destroy(os);
      if error == -EBADF {
        error := 0;
      }
    }

    /** `serial_wait_for_fd`. */
    method WaitForFd(os: Os, timeout: int) returns (error: int, ghost polls: seq<Call>)
      modifies os`script, os`trace
      ensures os.trace == old(os.trace) + polls && WaitRun(polls, timeout)
      ensures error == PollCode(polls[|polls| - 1].polled)
      ensures if polls[|polls| - 1].polled == Ready then error == 0 else FailsWait(polls[|polls| - 1].polled, error)
      ensures if old(os.script) == [] then os.script == [] && error != 0 else |os.script| < |old(os.script)|
    {
      polls := [];
      while true
        invariant os.trace == old(os.trace) + polls
        invariant forall c <- polls :: c == Poll(timeout, PollFailed(EINTR))
        invariant polls != [] ==> |os.script| < |old(os.script)|
        invariant polls == [] ==> os.script == old(os.script)
        decreases |os.script|
      {
        var answer := os.DoPoll(timeout);
        ghost var earlier := polls;
        polls := polls + [Poll(timeout, answer)];
        assert forall k :: 0 <= k < |earlier| ==> polls[k] == earlier[k] && earlier[k] in earlier;
        if answer != PollFailed(EINTR) {
          return PollCode(answer), polls;
        }
      }
    }

    /** The first half of a pass of the write loop: reads the clock when there is a deadline and
        waits for room. `calls` are the calls of this write, `base` those before it. */
    method AwaitRoom(os: Os, ghost base: seq<Call>, ghost calls: seq<Call>, ghost data: seq<Byte>,
                     timeout: int, deadline: int)
      returns (error: int, ghost after: seq<Call>)
      requires Int32(timeout) && MayRead(calls, data, timeout) && os.trace == base + calls
      requires (timeout > 0 ==> deadline == calls[0].now + timeout) && LastClock(calls) == os.clock
      modifies os
      ensures os.trace == base + after && |os.script| <= |old(os.script)|
      ensures calls < after && after[0] == calls[0]
      ensures WriteRun(after, data, timeout) && Accepted(after) == Accepted(calls) && LastClock(after) == os.clock
      ensures error == Verdict(after[|after| - 1], calls[0].now + timeout, timeout)
      ensures error != 0 ==> EndedBy(after, timeout, error)
      ensures error == 0 ==> |os.script| < |old(os.script)| && after[|after| - 1].Poll?
                             && after[|after| - 1].polled == Ready
    {
      after := calls;
      var wait := timeout;
      if timeout > 0 {
        error, wait, after := ReadRemaining(os, calls, data, timeout, deadline);
        if error != 0 {
          return;
        }
      }
      error, after := WaitInRun(os, base, after, data, timeout, wait);
    }

    /** A wait as part of a write: its polls extend the run. */
    method WaitInRun(os: Os, ghost base: seq<Call>, ghost calls: seq<Call>, ghost data: seq<Byte>,
                     ghost timeout: int, wait: int)
      returns (error: int, ghost after: seq<Call>)
      requires MayWait(calls, data, timeout, wait) && os.trace == base + calls
      modifies os`script, os`trace
      ensures os.trace == base + after && calls < after && after[0] == calls[0] && after[|after| - 1].Poll?
      ensures WriteRun(after, data, timeout)
      ensures Accepted(after) == Accepted(calls) && LastClock(after) == LastClock(calls)
      ensures error == PollCode(after[|after| - 1].polled)
      ensures error == 0 ==> after[|after| - 1].polled == Ready && |os.script| < |old(os.script)|
      ensures |os.script| <= |old(os.script)|
    {
      ghost var polls;
      error, polls := WaitForFd(os, wait);
      WaitExtendsRun(calls, polls, data, timeout, wait);
      after := calls + polls;
    }

    /** The time left until the deadline, narrowed to 32 bits, or a timeout. */
    method ReadRemaining(os: Os, ghost calls: seq<Call>, ghost data: seq<Byte>, timeout: int, deadline: int)
      returns (error: int, wait: int, ghost after: seq<Call>)
      requires Int32(timeout) && timeout > 0 && MayRead(calls, data, timeout)
      requires deadline == calls[0].now + timeout && LastClock(calls) == os.clock
      modifies os
      ensures after == calls + [Clock(os.clock)] && os.trace == old(os.trace) + [Clock(os.clock)]
      ensures |os.script| <= |old(os.script)|
      ensures WriteRun(after, data, timeout) && Accepted(after) == Accepted(calls) && LastClock(after) == os.clock
      ensures error == Verdict(Clock(os.clock), deadline, timeout)
      ensures error == 0 ==> 0 < wait <= timeout && os.clock + wait == deadline
    {
      var now := os.MonotonicMillis();
      ReadingExtendsRun(calls, data, timeout, now);
      ClockNeverBackwards(calls, data, timeout);
      after := calls + [Clock(now)];
      var remaining := deadline - now;
      error := if remaining <= 0 then -ETIMEDOUT else 0;
      wait := ToInt32(remaining);
    }

    /** The second half: offers all that is left and takes stock of the answer. */
    method OfferRest(os: Os, ghost base: seq<Call>, ghost calls: seq<Call>, data: seq<Byte>, done: nat,
                     ghost timeout: int)
      returns (error: int, written: nat, ghost after: seq<Call>)
      requires done < |data| && os.trace == base + calls
      requires WriteRun(calls, data, timeout) && Accepted(calls) == data[..done]
      requires calls[|calls| - 1].Poll? && calls[|calls| - 1].polled == Ready
      modifies os`script, os`trace
      ensures os.trace == base + after && |os.script| <= |old(os.script)|
      ensures calls < after && after[0] == calls[0]
      ensures WriteRun(after, data, timeout) && LastClock(after) == LastClock(calls)
      ensures error == Verdict(after[|after| - 1], calls[0].now + timeout, timeout)
      ensures done <= written <= |data| && Accepted(after) == data[..written]
      ensures error != 0 ==> written < |data| && EndedBy(after, timeout, error)
    {
      written := done;
      var rest := data[done..];
      var answer := os.DoWrite(rest);
      assert data[..done] + rest == data;
      WriteExtendsRun(calls, data, timeout, rest, answer);
      after := calls + [Write(rest, answer)];
      match answer {
        case Moved(n) =>
          assert data[..done] + rest[..n] == data[..done + n];
          written := done + n;
          error := if n == 0 then -EIO else 0;
        case WriteFailed(e) =>
          error := if e == EINTR || e == EAGAIN then 0 else -(e as int);
      }
    }

    /** One pass of the write loop. */
    method WritePass(os: Os, ghost base: seq<Call>, ghost calls: seq<Call>, data: seq<Byte>, done: nat,
                     timeout: int, deadline: int)
      returns (error: int, written: nat, ghost after: seq<Call>)
      requires Int32(timeout) && MayRead(calls, data, timeout) && os.trace == base + calls
      requires done < |data| && Accepted(calls) == data[..done]
      requires (timeout > 0 ==> deadline == calls[0].now + timeout) && LastClock(calls) == os.clock
      modifies os
      ensures os.trace == base + after
      ensures after != [] && after[0] == calls[0]
      ensures WriteRun(after, data, timeout) && LastClock(after) == os.clock
      ensures error == Verdict(after[|after| - 1], calls[0].now + timeout, timeout)
      ensures error != 0 ==> EndedBy(after, timeout, error)
      ensures written <= |data| && Accepted(after) == data[..written]
      ensures if error == 0 then |os.script| < |old(os.script)| else written < |data|
    {
      written := done;
      error, after := AwaitRoom(os, base, calls, data, timeout, deadline);
      if error != 0 {
        return;
      }
      error, written, after := OfferRest(os, base, after, data, done, timeout);
    }

    /** The loop itself, over the bytes of the caller's buffer, which it only reads. */
    method WriteLoop(os: Os, data: seq<Byte>, timeout: int)
      returns (error: int, written: nat, ghost calls: seq<Call>)
      requires Int32(timeout)
      modifies os
      ensures os.trace == old(os.trace) + calls && WriteRun(calls, data, timeout)
      ensures written <= |data| && Accepted(calls) == data[..written]
      ensures error == 0 <==> written == |data|
      ensures error != 0 ==> EndedBy(calls, timeout, error)
    {
      var start := os.MonotonicMillis();
      var deadline := if timeout == 0 then start else start + timeout;
      written, calls := 0, [Clock(start)];
      assert calls[..0] == [];
      while written < |data|
        invariant written <= |data| && os.trace == old(os.trace) + calls
        invariant WriteRun(calls, data, timeout) && calls[0].now == start
        invariant Accepted(calls) == data[..written]
        invariant LastClock(calls) == os.clock
        invariant Verdict(calls[|calls| - 1], start + timeout, timeout) == 0
        decreases |os.script|
      {
        error, written, calls := WritePass(os, old(os.trace), calls, data, written, timeout, deadline);
        if error != 0 {
          return;
        }
      }
      error := 0;
    }

    /** `serial_port_write_with_timeout`. A null buffer is null here too. */
    method WriteWithTimeout(os: Os, buffer: array?<Byte>, length: nat, timeoutMs: int)
      returns (error: int, written: nat, ghost calls: seq<Call>)
      requires buffer != null ==> length <= buffer.Length
      requires Int32(timeoutMs) && Int32(config.writeTimeoutMs)
      modifies this`lastError, os
      ensures lastError == error && os.trace == old(os.trace) + calls
      ensures buffer == null ==> error == -EINVAL && written == 0 && calls == []
      ensures buffer != null && fd < 0 ==> error == -EBADF && written == 0 && calls == []
      ensures buffer != null && fd >= 0 ==>
        var timeout := if timeoutMs < 0 then config.writeTimeoutMs else timeoutMs;
        && WriteRun(calls, buffer[..length], timeout)
        && written <= length && Accepted(calls) == buffer[..written]
        && (error == 0 <==> written == length)
        && (error != 0 ==> EndedBy(calls, timeout, error))
    {
      if buffer == null {
        error := StoreError(-EINVAL);
        return error, 0, [];
      }
      if fd < 0 {
        error := StoreError(-EBADF);
        return error, 0, [];
      }
      error, written, calls :=
        WriteLoop(os, buffer[..length], if timeoutMs < 0 then config.writeTimeoutMs else timeoutMs);
      assert buffer[..length][..written] == buffer[..written];
      error := StoreError(error);
    }

    /** `serial_port_read_with_timeout`. `tries` are the interrupted tries before the last. A timeout
        of 0 probes: no data is then a success of no bytes. */
    method ReadWithTimeout(os: Os, buffer: array?<Byte>, length: nat, timeoutMs: int)
      returns (error: int, count: nat, ghost polls: seq<Call>, ghost tries: seq<Call>)
      requires buffer != null ==> length <= buffer.Length
      requires Int32(timeoutMs) && Int32(config.readTimeoutMs)
      modifies this`lastError, os`script, os`trace, buffer
      ensures lastError == error && os.trace == old(os.trace) + polls + tries
      ensures buffer == null ==> error == -EINVAL && count == 0 && polls + tries == []
      ensures buffer != null && fd < 0 ==> error == -EBADF && count == 0 && polls + tries == []
      ensures buffer != null && fd >= 0 && length == 0 ==> error == 0 && count == 0 && polls + tries == []
      ensures buffer != null && fd >= 0 && length > 0 ==>
        var timeout := if timeoutMs < 0 then config.readTimeoutMs else timeoutMs;
        && WaitRun(polls, timeout)
        && var answer := polls[|polls| - 1].polled;
        && (answer != Ready ==>
              && tries == [] && count == 0
              && if timeout == 0 && (answer == Elapsed || answer == PollFailed(ETIMEDOUT)) then error == 0
                 else FailsWait(answer, error))
        && (answer == Ready ==>
              && tries != [] && AllInterrupted(tries[..|tries| - 1], length)
              && tries[|tries| - 1].Read? && tries[|tries| - 1].asked == length
              && match tries[|tries| - 1].got {
                   case Received(data) => error == 0 && count == |data| <= length && buffer[..count] == data
                   case ReadFailed(e) => e != EINTR && count == 0 && error == if e == EAGAIN then 0 else -(e as int)
                 })
      ensures buffer != null ==> count <= buffer.Length && buffer[count..] == old(buffer[..])[count..]
    {
      count, polls, tries := 0, [], [];
      if buffer == null {
        error := StoreError(-EINVAL);
        return;
      }
      if fd < 0 {
        error := StoreError(-EBADF);
        return;
      }
      if length == 0 {
        lastError := 0;
        error := 0;
        return;
      }
      var timeout := if timeoutMs < 0 then config.readTimeoutMs else timeoutMs;
      error, polls := WaitForFd(os, timeout);
      if error != 0 {
        if error == -ETIMEDOUT && timeout == 0 {
          lastError := 0;
          error := 0;
          return;
        }
        error := StoreError(error);
        return;
      }
      while true
        invariant os.trace == old(os.trace) + polls + tries && AllInterrupted(tries, length)
        invariant buffer[..] == old(buffer[..]) && count == 0
        decreases |os.script|
      {
        var answer := os.DoRead(length);
        ghost var earlier := tries;
        tries := tries + [Read(length, answer)];
        assert tries[..|tries| - 1] == earlier;
        match answer {
          case Received(data) =>
            CopyInto(buffer, data);
            count := |data|;
            lastError := 0;
            error := 0;
            return;
          case ReadFailed(e) =>
            if e == EAGAIN {
              lastError := 0;
              error := 0;
              return;
            }
            if e != EINTR {
              error := StoreError(-(e as int));
              return;
            }
        }
      }
    }
  }

  /** The bytes a `read` puts at the front of the caller's buffer. */
  method CopyInto(buffer: array<Byte>, data: seq<Byte>)
    requires |data| <= buffer.Length
    modifies buffer
    ensures buffer[..|data|] == data && buffer[|data|..] == old(buffer[|data|..])
  {
    for i := 0 to |data|
      invariant buffer[..i] == data[..i] && buffer[|data|..] == old(buffer[|data|..])
    {
      buffer[i] := data[i];
    }
  }
}
