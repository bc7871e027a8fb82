// `readUntil` of lib/src/serial_port.dart: bytes are requested one at a time and collected until the
// text ends in the terminator.
module ReadUntil {
  import opened ByteLog
  import opened Optional
  import opened Utf8

  /** What one `readData` call gives: bytes, each a character code, or an exception. */
  datatype Answer = Bytes(data: seq<Byte>) | Broken

  /** One round of the loop: the clock reading at its head and the answer to its request. */
  datatype Turn = Turn(now: int, answer: Answer)

  /** `Waiting` is a call that has not ended when the turns are used up. */
  datatype Result = Text(text: seq<Unit>) | PortClosed | TimedOut | IoError | Waiting

  predicate EndsWith(s: seq<Unit>, end: seq<Unit>) {
    |end| <= |s| && s[|s| - |end|..] == end
  }

  function DataOf(turn: Turn): seq<Byte> { if turn.answer.Bytes? then turn.answer.data else [] }

  /** All bytes of the turns, in order. */
  function Given(turns: seq<Turn>): (input: seq<Byte>) {
    if turns == [] then [] else Given(turns[..|turns| - 1]) + DataOf(turns[|turns| - 1])
  }

  /** Each platform answers a request of one byte with at most one byte. */
  ghost predicate Capped(turns: seq<Turn>) {
    forall i :: 0 <= i < |turns| ==> |DataOf(turns[i])| <= 1
  }

  lemma GivenSnoc(turns: seq<Turn>, k: nat)
    requires k < |turns|
    ensures Given(turns[..k + 1]) == Given(turns[..k]) + DataOf(turns[k])
  {
    assert turns[..k + 1][..k] == turns[..k];
  }

  predicate Expired(turn: Turn, start: int, limit: int) { turn.now - start > limit }

  /** The text as it stands after turn `k` is due to be returned. */
  predicate Complete(turns: seq<Turn>, end: seq<Unit>, k: nat)
    requires k < |turns|
  {
    DataOf(turns[k]) != [] && EndsWith(Given(turns[..k + 1]), end)
  }

  /** Turn `k` does not end the call. */
  predicate Goes(turns: seq<Turn>, start: int, limit: int, end: seq<Unit>, k: nat)
    requires k < |turns|
  {
    !Expired(turns[k], start, limit) && turns[k].answer.Bytes? && !Complete(turns, end, k)
  }

  /** The turn at which a call ends after `used` requests: an expired turn makes no request. */
  function EndOf(used: nat, r: Result): int {
    if r.Text? || r.IoError? then used - 1 else used
  }

  /** The result is that of the first turn that ends the call. */
  ghost predicate Ran(turns: seq<Turn>, start: int, limit: int, end: seq<Unit>, used: nat, r: Result) {
    var at := EndOf(used, r);
    && 0 <= at <= |turns|
    && (forall k :: 0 <= k < at ==> Goes(turns, start, limit, end, k))
    && match r
       case Text(text) =>
         at < |turns| && !Expired(turns[at], start, limit) && Complete(turns, end, at) && text == Given(turns[..used])
       case IoError => at < |turns| && !Expired(turns[at], start, limit) && turns[at].answer.Broken?
       case TimedOut => at < |turns| && Expired(turns[at], start, limit)
       case Waiting => at == |turns|
       case PortClosed => false
  }

  /** The clock and the failures: each of the `used` requests was made no later than `limit` after the
      start, a timeout means the clock had passed that, and an error that the last request failed. */
  predicate InTime(turns: seq<Turn>, start: int, limit: int, used: nat, r: Result) {
    && used <= |turns|
    && (forall j :: 0 <= j < used ==> turns[j].now <= start + limit)
    && (r.TimedOut? ==> used < |turns| && turns[used].now > start + limit)
    && (r.IoError? <==> used > 0 && turns[used - 1].answer == Broken)
  }

  /** The platform side, as the turns it still has to take. */
  class Platform {
    var turns: seq<Turn>

    constructor (turns: seq<Turn>)
      ensures this.turns == turns
    {
      this.turns := turns;
    }

    method ReadData() returns (answer: Answer)
      requires turns != []
      modifies this
      ensures turns == old(turns)[1..] && answer == old(turns)[0].answer
    {
      answer := turns[0].answer;
      turns := turns[1..];
    }
  }

  datatype Config = Config(portName: string, readTimeout: int)

  class SerialPort {
    const platform: Platform
    var isOpen: bool
    var config: Option<Config>

    constructor (platform: Platform)
      ensures this.platform == platform && !isOpen && config == None
    {
      this.platform, isOpen, config := platform, false, None;
    }

    /** `start` is the clock when the call begins. */
    method ReadUntil(terminator: seq<Unit>, timeout: Option<int>, start: int) returns (r: Result)
      modifies platform
      ensures !isOpen || config == None ==> r == PortClosed && platform.turns == old(platform.turns)
      ensures isOpen && config.Some? ==>
                var limit := if timeout.Some? then timeout.value else config.value.readTimeout;
                var used := |old(platform.turns)| - |platform.turns|;
                && 0 <= used && platform.turns == old(platform.turns)[used..]
                && Ran(old(platform.turns), start, limit, terminator, used, r)
                && InTime(old(platform.turns), start, limit, used, r)
    {
      if !isOpen || config == None {
        return PortClosed;
      }
      ghost var used;
      r, used := Collect(terminator, if timeout.Some? then timeout.value else config.value.readTimeout, start);
    }

    /** The loop of `readUntil`; `used` counts the requests it makes. */
    method Collect(terminator: seq<Unit>, limit: int, start: int) returns (r: Result, ghost used: nat)
      modifies platform
      ensures used <= |old(platform.turns)| && platform.turns == old(platform.turns)[used..]
      ensures Ran(old(platform.turns), start, limit, terminator, used, r)
      ensures InTime(old(platform.turns), start, limit, used, r)
    {
      var buffer: seq<Unit> := [];
      ghost var all := platform.turns;
      used := 0;
      while platform.turns != []
        invariant used <= |all| && platform.turns == all[used..] && buffer == Given(all[..used])
        invariant forall j :: 0 <= j < used ==> Goes(all, start, limit, terminator, j)
        invariant forall j :: 0 <= j < used ==> all[j].now - start <= limit && all[j].answer.Bytes?
        decreases |platform.turns|
      {
        if platform.turns[0].now - start > limit {
          return TimedOut, used;
        }
        var answer := platform.ReadData();
        GivenSnoc(all, used);
        used := used + 1;
        match answer {
          case Broken =>
            return IoError, used;
          case Bytes(data) =>
            if data != [] {
              buffer := buffer + data;
              if EndsWith(buffer, terminator) {
                return Text(buffer), used;
              }
            }
        }
      }
      return Waiting, used;
    }
  }

  lemma EndsThere(turns: seq<Turn>, start: int, limit: int, end: seq<Unit>, used: nat, r: Result)
    requires Ran(turns, start, limit, end, used, r)
    ensures EndOf(used, r) < |turns| ==> !Goes(turns, start, limit, end, EndOf(used, r))
  {
  }

  /** The turns decide the result. */
  lemma RanIsDetermined(turns: seq<Turn>, start: int, limit: int, end: seq<Unit>, u: nat, r: Result, v: nat, q: Result)
    requires Ran(turns, start, limit, end, u, r) && Ran(turns, start, limit, end, v, q)
    ensures u == v && r == q
  {
    EndsThere(turns, start, limit, end, u, r);
    EndsThere(turns, start, limit, end, v, q);
  }

  lemma {:induction false} GivenIsPrefix(turns: seq<Turn>, k: nat)
    requires k <= |turns|
    ensures Given(turns[..k]) <= Given(turns)
  {
    if k == |turns| {
      assert turns[..k] == turns;
    } else {
      var front := turns[..|turns| - 1];
      assert front[..k] == turns[..k];
      GivenIsPrefix(front, k);
    }
  }

  /** When every request yields at most one byte, each length is reached by a turn that gave a byte. */
  lemma {:induction false} LengthReached(turns: seq<Turn>, n: nat) returns (k: nat)
    requires 0 < n <= |Given(turns)| && Capped(turns)
    ensures k < |turns| && |Given(turns[..k + 1])| == n && DataOf(turns[k]) != []
  {
    var last := |turns| - 1;
    var front := turns[..last];
    if n <= |Given(front)| {
      k := LengthReached(front, n);
      assert front[..k + 1] == turns[..k + 1];
    } else {
      k := last;
      assert turns[..last + 1] == turns;
    }
  }

  /** With answers of at most one byte, each prefix of the input is the text at the turn that gave its
      last byte. */
  lemma PrefixAt(turns: seq<Turn>, m: nat, n: nat) returns (k: nat)
    requires m <= |turns| && Capped(turns[..m]) && 0 < n <= |Given(turns[..m])|
    ensures k < m && DataOf(turns[k]) != [] && Given(turns[..m])[..n] == Given(turns[..k + 1])
  {
    var front := turns[..m];
    k := LengthReached(front, n);
    assert front[..k + 1] == turns[..k + 1];
    GivenIsPrefix(front, k + 1);
  }

  /** No shorter prefix of what was consumed ends in the terminator. */
  lemma NoShorter(turns: seq<Turn>, start: int, limit: int, end: seq<Unit>, used: nat, text: seq<Unit>, n: nat)
    requires Ran(turns, start, limit, end, used, Text(text)) && 0 < n < |text| && Capped(turns[..used])
    ensures text == Given(turns[..used]) && !EndsWith(text[..n], end)
  {
    var k := PrefixAt(turns, used, n);
    assert k < used - 1 ==> Goes(turns, start, limit, end, k);
  }

  /** On success the text is exactly what was consumed. If each request yields at most one byte, it is
      the shortest non-empty prefix of the input that ends in the terminator. */
  lemma ReturnsTheShortestPrefix(turns: seq<Turn>, start: int, limit: int, end: seq<Unit>, used: nat, text: seq<Unit>)
    requires Ran(turns, start, limit, end, used, Text(text))
    ensures text == Given(turns[..used]) && text != [] && text <= Given(turns) && EndsWith(text, end)
    ensures Capped(turns[..used]) ==>
              forall n :: 0 < n < |text| ==> !EndsWith(text[..n], end)
  {
    GivenIsPrefix(turns, used);
    if Capped(turns[..used]) {
      forall n | 0 < n < |text| ensures !EndsWith(text[..n], end) {
        NoShorter(turns, start, limit, end, used, text, n);
      }
    }
  }

  /** Nothing expired or failed up to and including turn `k`. */
  ghost predicate Healthy(turns: seq<Turn>, start: int, limit: int, k: nat)
    requires k < |turns|
  {
    forall j :: 0 <= j <= k ==> !Expired(turns[j], start, limit) && turns[j].answer.Bytes?
  }

  /** The call succeeds if and only if some answer completes the text before anything expires or fails. */
  lemma SucceedsIffCompleted(turns: seq<Turn>, start: int, limit: int, end: seq<Unit>, used: nat, r: Result)
    requires Ran(turns, start, limit, end, used, r)
    ensures r.Text? <==> exists k: nat :: k < |turns| && Complete(turns, end, k) && Healthy(turns, start, limit, k)
  {
    if r.Text? {
      var at := used - 1;
      forall j | 0 <= j <= at ensures !Expired(turns[j], start, limit) && turns[j].answer.Bytes? {
        assert j < at ==> Goes(turns, start, limit, end, j);
      }
      assert Complete(turns, end, at) && Healthy(turns, start, limit, at);
    } else if k: nat :| k < |turns| && Complete(turns, end, k) && Healthy(turns, start, limit, k) {
      EndsThere(turns, start, limit, end, used, r);
      assert !Goes(turns, start, limit, end, k);
    }
  }

  /** The first `n` bytes of `input`, not none, end in the terminator. */
  predicate EndsAt(input: seq<Byte>, end: seq<Unit>, n: nat) {
    0 < n <= |input| && EndsWith(input[..n], end)
  }

  /** By turn `m` the input has a non-empty prefix that ends in the terminator. */
  ghost predicate IsThere(turns: seq<Turn>, end: seq<Unit>, m: nat)
    requires m < |turns|
  {
    HasEnd(Given(turns[..m + 1]), end)
  }

  ghost predicate HasEnd(input: seq<Byte>, end: seq<Unit>) {
    exists n: nat :: EndsAt(input, end, n)
  }

  lemma CompleteMeansThere(turns: seq<Turn>, end: seq<Unit>, k: nat)
    requires k < |turns| && Complete(turns, end, k)
    ensures IsThere(turns, end, k)
  {
    GivenSnoc(turns, k);
    var input := Given(turns[..k + 1]);
    assert input[..|input|] == input;
    assert EndsAt(input, end, |input|);
  }

  lemma PrefixCompletes(turns: seq<Turn>, end: seq<Unit>, m: nat, n: nat) returns (k: nat)
    requires Capped(turns) && m < |turns| && EndsAt(Given(turns[..m + 1]), end, n)
    ensures k <= m && Complete(turns, end, k)
  {
    k := PrefixAt(turns, m + 1, n);
  }

  /** In terms of the bytes: a call succeeds if and only if the input has a non-empty prefix that ends in
      the terminator before anything expires or fails. */
  lemma FindsItIffItIsThere(turns: seq<Turn>, start: int, limit: int, end: seq<Unit>, used: nat, r: Result)
    requires Ran(turns, start, limit, end, used, r) && Capped(turns)
    ensures r.Text? <==> exists m: nat :: m < |turns| && IsThere(turns, end, m) && Healthy(turns, start, limit, m)
  {
    SucceedsIffCompleted(turns, start, limit, end, used, r);
    if r.Text? {
      var k: nat :| k < |turns| && Complete(turns, end, k) && Healthy(turns, start, limit, k);
      CompleteMeansThere(turns, end, k);
    } else if m: nat :| m < |turns| && IsThere(turns, end, m) && Healthy(turns, start, limit, m) {
      var n: nat :| EndsAt(Given(turns[..m + 1]), end, n);
      var k := PrefixCompletes(turns, end, m, n);
      assert Healthy(turns, start, limit, k);
    }
  }

  /** The code itself does not look inside an answer: a longer one than was asked for, which no
      platform gives, would hide a terminator in its middle. */
  lemma LongAnswerHidesTerminator()
    ensures var turns := [Turn(0, Bytes([0x61, 0x3B, 0x62]))];
      && Ran(turns, 0, 1000, [0x3B], 1, Waiting) && EndsWith(Given(turns)[..2], [0x3B])
  {
    var turns := [Turn(0, Bytes([0x61, 0x3B, 0x62]))];
    assert turns[..0] == [];
    assert turns[..1] == turns;
    assert Given(turns) == [0x61, 0x3B, 0x62];
    assert Given(turns)[..2] == [0x61, 0x3B];
  }
}
