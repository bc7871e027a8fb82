// The kernel as linux/serial_port.c sees it: an adversary that answers each system call as it
// likes. `script` holds answers still to come and `trace` every call made. A script is finite;
// once it is used up, blocking calls fail with EIO. Every call of the modelled functions that
// returns uses finitely many answers, and of one that does not return each prefix is covered.
module LinuxOs {
  import opened Errno
  import opened Optional

  type Byte = x: int | 0 <= x < 256

  /** `poll` on one descriptor: ready, ready with POLLERR/POLLHUP/POLLNVAL, timed out, or -1. */
  datatype PollAnswer = Ready | Broken | Elapsed | PollFailed(errno: Errno)

  /** `write` moved some bytes, possibly none, or returned -1. */
  datatype WriteAnswer = Moved(count: nat) | WriteFailed(errno: Errno)

  datatype ReadAnswer = Received(data: seq<Byte>) | ReadFailed(errno: Errno)

  /** A 32-bit flag word as the set of its one bits: `&` is `*`, `|` is `+`, `& ~` is `-`. */
  type Bit = b: int | 0 <= b < 32
  type Flags = set<Bit>

  /** The terminal attributes the port code touches; speeds live in `cflag`. */
  datatype Attr = Attr(cflag: Flags, iflag: Flags, vmin: int, vtime: int)

  /** One answer, with a part for each kind of call. `advance` is time passing before a clock
      reading, so the clock is monotone. Error parts are 0 or an error number. */
  datatype Answer = Answer(advance: nat, poll: PollAnswer, write: WriteAnswer, read: ReadAnswer,
                           fd: Option<nat>, attr: Attr, errno: Errno, fails: bool)

  const exhausted :=
    Answer(0, PollFailed(EIO), WriteFailed(EIO), ReadFailed(EIO), None, Attr({}, {}, 0, 0), EIO, true)

  datatype Call =
    | Clock(now: int)
    | Poll(timeout: int, polled: PollAnswer)
    | Write(offered: seq<Byte>, wrote: WriteAnswer)
    | Read(asked: nat, got: ReadAnswer)
    | OpenPath(path: string, result: Option<nat>, errno: Errno)
    | GetAttr(fd: nat, failure: Option<Errno>)
    | SetSpeed(failure: Option<Errno>)
    | SetAttr(fd: nat, attr: Attr, failure: Option<Errno>)
    | CloseFd(fd: nat)

  class Os {
    var script: seq<Answer>
    var clock: int
    ghost var trace: seq<Call>

    constructor (script: seq<Answer>, clock: int)
      ensures this.script == script && this.clock == clock && trace == []
    {
      this.script, this.clock, this.trace := script, clock, [];
    }

    /** The next answer leaves the script. */
    method Take() returns (a: Answer)
      modifies this`script
      ensures a == if old(script) == [] then exhausted else old(script)[0]
      ensures script == if old(script) == [] then [] else old(script)[1..]
    {
      if script == [] {
        a := exhausted;
      } else {
        a, script := script[0], script[1..];
      }
    }

    method MonotonicMillis() returns (now: int)
      modifies this
      ensures now == clock && now >= old(clock)
      ensures trace == old(trace) + [Clock(now)]
      ensures |script| <= |old(script)|
    {
      var a := Take();
      clock := clock + a.advance;
      now := clock;
      trace := trace + [Clock(now)];
    }

    method DoPoll(timeout: int) returns (answer: PollAnswer)
      modifies this`script, this`trace
      ensures trace == old(trace) + [Poll(timeout, answer)]
      ensures if old(script) == [] then script == [] && answer == PollFailed(EIO)
              else |script| < |old(script)|
    {
      var a := Take();
      answer := a.poll;
      trace := trace + [Poll(timeout, answer)];
    }

    /** `write(fd, data, |data|)`: the device takes a prefix no longer than what is offered. */
    method DoWrite(data: seq<Byte>) returns (answer: WriteAnswer)
      modifies this`script, this`trace
      ensures trace == old(trace) + [Write(data, answer)]
      ensures answer.Moved? ==> answer.count <= |data|
      ensures |script| <= |old(script)|
    {
      var a := Take();
      answer := if a.write.Moved? && a.write.count > |data| then Moved(|data|) else a.write;
      trace := trace + [Write(data, answer)];
    }

    method DoRead(asked: nat) returns (answer: ReadAnswer)
      modifies this`script, this`trace
      ensures trace == old(trace) + [Read(asked, answer)]
      ensures answer.Received? ==> |answer.data| <= asked
      ensures if old(script) == [] then script == [] && answer == ReadFailed(EIO)
              else |script| < |old(script)|
    {
      var a := Take();
      answer := if a.read.Received? && |a.read.data| > asked
                then Received(a.read.data[..asked]) else a.read;
      trace := trace + [Read(asked, answer)];
    }

    method DoOpen(path: string) returns (fd: Option<nat>, errno: Errno)
      modifies this`script, this`trace
      ensures trace == old(trace) + [OpenPath(path, fd, errno)]
    {
      var a := Take();
      fd, errno := a.fd, a.errno;
      trace := trace + [OpenPath(path, fd, errno)];
    }

    /** `tcgetattr` followed by `cfmakeraw`: whatever attributes the device had, made raw. */
    method DoGetAttr(fd: nat) returns (attr: Attr, failure: Option<Errno>)
      modifies this`script, this`trace
      ensures trace == old(trace) + [GetAttr(fd, failure)]
    {
      var a := Take();
      attr, failure := a.attr, if a.fails then Some(a.errno) else None;
      trace := trace + [GetAttr(fd, failure)];
    }

    method DoSetSpeed() returns (failure: Option<Errno>)
      modifies this`script, this`trace
      ensures trace == old(trace) + [SetSpeed(failure)]
    {
      var a := Take();
      failure := if a.fails then Some(a.errno) else None;
      trace := trace + [SetSpeed(failure)];
    }

    method DoSetAttr(fd: nat, attr: Attr) returns (failure: Option<Errno>)
      modifies this`script, this`trace
      ensures trace == old(trace) + [SetAttr(fd, attr, failure)]
    {
      var a := Take();
      failure := if a.fails then Some(a.errno) else None;
      trace := trace + [SetAttr(fd, attr, failure)];
    }

    method DoClose(fd: nat)
      modifies this`trace
      ensures trace == old(trace) + [CloseFd(fd)]
    {
      trace := trace + [CloseFd(fd)];
    }
  }
}
