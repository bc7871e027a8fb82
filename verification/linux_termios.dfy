// The termios bit fields of linux/serial_port.c over abstract masks: any platform whose masks are
// disjoint. A mask that is zero stands for a constant the platform does not define (CMSPAR, CRTSCTS).
module LinuxTermios {
  import opened Errno
  import opened LinuxOs

  datatype Config = Config(baudRate: int, dataBits: int, stopBits: int, parity: int, flowControl: int,
                           readTimeoutMs: int, writeTimeoutMs: int)

  const STOP_ONE := 0
  const STOP_ONE_POINT_FIVE := 1
  const STOP_TWO := 2

  const PARITY_NONE := 0
  const PARITY_EVEN := 1
  const PARITY_ODD := 2
  const PARITY_MARK := 3
  const PARITY_SPACE := 4

  const FLOW_NONE := 0
  const FLOW_RTSCTS := 1
  const FLOW_XONXOFF := 2

  /** Rates every platform has, and rates the code uses where the platform defines them. */
  predicate CommonRate(b: int) {
    b in {50, 75, 110, 134, 150, 200, 300, 600, 1200, 1800, 2400, 4800, 9600, 19200, 38400, 57600, 115200, 230400}
  }

  predicate OptionalRate(b: int) {
    b in {460800, 500000, 576000, 921600, 1000000, 1152000, 1500000, 2000000, 2500000, 3000000, 3500000, 4000000}
  }

  datatype Masks = Masks(
    csize: Flags, cs5: Flags, cs6: Flags, cs7: Flags, cs8: Flags, cstopb: Flags,
    parenb: Flags, parodd: Flags, cmspar: Flags, crtscts: Flags, clocal: Flags, cread: Flags, cbaud: Flags,
    inpck: Flags, istrip: Flags, ixon: Flags, ixoff: Flags, ixany: Flags,
    speeds: map<int, Flags>)
  {
    /** The cases of the baud table. */
    ghost predicate RatesKnown() {
      && (forall b :: CommonRate(b) ==> b in speeds)
      && (forall b :: b in speeds ==> CommonRate(b) || OptionalRate(b))
    }

    predicate CodesFit() {
      cs5 <= csize && cs6 <= csize && cs7 <= csize && cs8 <= csize
    }

    predicate CodesDiffer() {
      && cs5 != cs6 && cs5 != cs7 && cs5 != cs8 && cs6 != cs7 && cs6 != cs8 && cs7 != cs8
      && cstopb != {} && parenb != {} && parodd != {} && parenb !! parodd !! cmspar
      && SoftFlowMask() != {}
    }

    predicate FieldsDisjoint() {
      && cbaud !! csize !! cstopb !! ParityMask() !! crtscts !! LineMask()
      && InputCheckMask() !! SoftFlowMask()
    }

    ghost predicate SpeedsFit() {
      && (forall b :: b in speeds ==> speeds[b] != {} && speeds[b] <= cbaud)
      && (forall b, c :: b in speeds && c in speeds && speeds[b] == speeds[c] ==> b == c)
    }

    function ParityMask(): Flags { parenb + parodd + cmspar }
    function InputCheckMask(): Flags { inpck + istrip }
    function SoftFlowMask(): Flags { ixon + ixoff + ixany }
    function LineMask(): Flags { clocal + cread }

    /** All bits the configuration code may change. */
    function ManagedC(): Flags { cbaud + csize + cstopb + ParityMask() + crtscts + LineMask() }
    function ManagedI(): Flags { InputCheckMask() + SoftFlowMask() }

    function DataCode(bits: int): Flags {
      if bits == 5 then cs5 else if bits == 6 then cs6 else if bits == 7 then cs7 else cs8
    }

    function StopCode(stopBits: int): Flags {
      if stopBits == STOP_ONE then {} else cstopb
    }

    function ParityCode(parity: int): Flags {
      if parity == PARITY_EVEN then parenb
      else if parity == PARITY_ODD then parenb + parodd
      else if parity == PARITY_MARK then parenb + parodd + cmspar
      else if parity == PARITY_SPACE then parenb + cmspar
      else {}
    }

    function CheckCode(parity: int): Flags {
      if parity == PARITY_NONE then {} else inpck
    }

    function HardFlowCode(flow: int): Flags {
      if flow == FLOW_RTSCTS then crtscts else {}
    }

    function SoftFlowCode(flow: int): Flags {
      if flow == FLOW_XONXOFF then SoftFlowMask() else {}
    }
  }

  /** What `serial_validate_config` and then the five steps of `serial_apply_configuration` reject,
      in that order; 0 is acceptance. */
  function ConfigError(m: Masks, config: Config): int {
    if ConfigInvalid(config) || config.baudRate !in m.speeds then -EINVAL
    else if StopError(config) != 0 then StopError(config)
    else if ParityError(m, config.parity) != 0 then ParityError(m, config.parity)
    else FlowError(m, config.flowControl)
  }

  /** `serial_validate_config` of a configuration that is not null. */
  predicate ConfigInvalid(config: Config) {
    config.dataBits < 5 || config.dataBits > 8 || config.baudRate <= 0
  }

  function StopError(config: Config): int {
    if config.stopBits == STOP_ONE || config.stopBits == STOP_TWO
       || (config.stopBits == STOP_ONE_POINT_FIVE && config.dataBits == 5) then 0 else -ENOTSUP
  }

  function ParityError(m: Masks, parity: int): int {
    if !(PARITY_NONE <= parity <= PARITY_SPACE) then -EINVAL
    else if m.cmspar == {} && (parity == PARITY_MARK || parity == PARITY_SPACE) then -ENOTSUP
    else 0
  }

  function FlowError(m: Masks, flow: int): int {
    if !(FLOW_NONE <= flow <= FLOW_XONXOFF) then -EINVAL
    else if m.crtscts == {} && flow == FLOW_RTSCTS then -ENOTSUP
    else 0
  }

  /** What is acceptable besides the rate, in the numbers the caller passes: 5 to 8 data bits; one stop
      bit (0), two (2), or one and a half (1) at five data bits; no, even, odd, mark or space parity (0 to
      4), the last two where the platform has CMSPAR; no, RTS/CTS or XON/XOFF flow control (0 to 2), the
      second where it has CRTSCTS. */
  predicate SettingsOk(m: Masks, config: Config) {
    && 5 <= config.dataBits <= 8
    && (config.stopBits == 0 || config.stopBits == 2 || (config.stopBits == 1 && config.dataBits == 5))
    && 0 <= config.parity <= 4 && (config.parity >= 3 ==> m.cmspar != {})
    && 0 <= config.flowControl <= 2 && (config.flowControl == 1 ==> m.crtscts != {})
  }

  /** The rates: each common one is accepted on every platform, each optional one exactly where the
      platform defines it, and no other anywhere, whatever the rest of the configuration says. */
  lemma RatesAccepted(m: Masks, config: Config)
    requires m.RatesKnown()
    ensures ConfigError(m, config) == 0 <==> config.baudRate in m.speeds && SettingsOk(m, config)
    ensures CommonRate(config.baudRate) ==> (ConfigError(m, config) == 0 <==> SettingsOk(m, config))
    ensures !CommonRate(config.baudRate) && !OptionalRate(config.baudRate) ==> ConfigError(m, config) == -EINVAL
  {
    if config.baudRate in m.speeds {
      RatesArePositive(config.baudRate);
    }
  }

  /** A rejected configuration gets EINVAL or ENOTSUP: ENOTSUP if its stop bits are not to be had, or its
      stop bits are and the platform lacks its parity, or both are and the platform lacks its flow control. */
  lemma RejectionsNamed(m: Masks, config: Config)
    requires config.baudRate in m.speeds && config.baudRate > 0 && 5 <= config.dataBits <= 8
    ensures var stop := config.stopBits == 0 || config.stopBits == 2 || (config.stopBits == 1 && config.dataBits == 5);
      var parity := 0 <= config.parity <= 2 || (3 <= config.parity <= 4 && m.cmspar != {});
      ConfigError(m, config) ==
        if !stop then -ENOTSUP
        else if !parity then (if 3 <= config.parity <= 4 then -ENOTSUP else -EINVAL)
        else if config.flowControl == 1 && m.crtscts == {} then -ENOTSUP
        else if 0 <= config.flowControl <= 2 then 0 else -EINVAL
  {
  }

  lemma RatesArePositive(b: int)
    requires CommonRate(b) || OptionalRate(b)
    ensures b > 0
  {
  }

  /** The field `mask` now holds `code` and no other bit moved. */
  predicate FieldSet(was: Flags, now: Flags, mask: Flags, code: Flags) {
    now * mask == code && now - mask == was - mask
  }

  /** `attr` is `raw` with every field the code manages set for `config`, and nothing else moved. */
  ghost predicate Encodes(m: Masks, raw: Attr, attr: Attr, config: Config) {
    && config.baudRate in m.speeds
    && attr.cflag * m.cbaud == m.speeds[config.baudRate]
    && attr.cflag * m.csize == m.DataCode(config.dataBits)
    && attr.cflag * m.cstopb == m.StopCode(config.stopBits)
    && attr.cflag * m.ParityMask() == m.ParityCode(config.parity)
    && attr.cflag * m.crtscts == m.HardFlowCode(config.flowControl)
    && attr.cflag * m.LineMask() == m.LineMask()
    && attr.iflag * m.InputCheckMask() == m.CheckCode(config.parity)
    && attr.iflag * m.SoftFlowMask() == m.SoftFlowCode(config.flowControl)
    && attr.cflag - m.ManagedC() == raw.cflag - m.ManagedC()
    && attr.iflag - m.ManagedI() == raw.iflag - m.ManagedI()
    && attr.vmin == 0 && attr.vtime == 0
  }

  lemma OtherFieldKept(was: Flags, now: Flags, mask: Flags, code: Flags, other: Flags)
    requires FieldSet(was, now, mask, code) && mask !! other
    ensures now * other == was * other
  {
    forall x: Bit ensures x in now * other <==> x in was * other {
      assert x in now - mask <==> x in was - mask;
    }
  }

  lemma OutsideKept(was: Flags, now: Flags, mask: Flags, code: Flags, managed: Flags)
    requires FieldSet(was, now, mask, code) && mask <= managed
    ensures now - managed == was - managed
  {
    forall x: Bit ensures x in now - managed <==> x in was - managed {
      assert x in now - mask <==> x in was - mask;
    }
  }

  /** The setters run in sequence, each leaving the earlier fields alone, encode the configuration. */
  lemma StepsEncode(m: Masks, raw: Attr, c0: Flags, c1: Flags, c2: Flags, c3: Flags, c4: Flags, i1: Flags,
                    attr: Attr, config: Config)
    requires m.FieldsDisjoint() && config.baudRate in m.speeds
    requires c0 == raw.cflag + m.LineMask()
    requires FieldSet(c0, c1, m.cbaud, m.speeds[config.baudRate])
    requires FieldSet(c1, c2, m.csize, m.DataCode(config.dataBits))
    requires FieldSet(c2, c3, m.cstopb, m.StopCode(config.stopBits))
    requires FieldSet(c3, c4, m.ParityMask(), m.ParityCode(config.parity))
    requires FieldSet(c4, attr.cflag, m.crtscts, m.HardFlowCode(config.flowControl))
    requires FieldSet(raw.iflag, i1, m.InputCheckMask(), m.CheckCode(config.parity))
    requires FieldSet(i1, attr.iflag, m.SoftFlowMask(), m.SoftFlowCode(config.flowControl))
    requires attr.vmin == 0 && attr.vtime == 0
    ensures Encodes(m, raw, attr, config)
  {
    KeptByFlow(m, c4, attr.cflag, config);
    KeptByParity(m, c3, c4, config);
    KeptByStop(m, c2, c3, config);
    OtherFieldKept(c1, c2, m.csize, m.DataCode(config.dataBits), m.cbaud);
    OtherFieldKept(c1, c2, m.csize, m.DataCode(config.dataBits), m.LineMask());
    OtherFieldKept(c0, c1, m.cbaud, m.speeds[config.baudRate], m.LineMask());
    assert c0 * m.LineMask() == m.LineMask();
    OtherFieldKept(i1, attr.iflag, m.SoftFlowMask(), m.SoftFlowCode(config.flowControl), m.InputCheckMask());
    OutsideKept(c0, c1, m.cbaud, m.speeds[config.baudRate], m.ManagedC());
    OutsideKept(c1, c2, m.csize, m.DataCode(config.dataBits), m.ManagedC());
    OutsideKept(c2, c3, m.cstopb, m.StopCode(config.stopBits), m.ManagedC());
    OutsideKept(c3, c4, m.ParityMask(), m.ParityCode(config.parity), m.ManagedC());
    OutsideKept(c4, attr.cflag, m.crtscts, m.HardFlowCode(config.flowControl), m.ManagedC());
    assert c0 - m.ManagedC() == raw.cflag - m.ManagedC();
    OutsideKept(raw.iflag, i1, m.InputCheckMask(), m.CheckCode(config.parity), m.ManagedI());
    OutsideKept(i1, attr.iflag, m.SoftFlowMask(), m.SoftFlowCode(config.flowControl), m.ManagedI());
  }

  lemma KeptByFlow(m: Masks, was: Flags, now: Flags, config: Config)
    requires m.FieldsDisjoint() && FieldSet(was, now, m.crtscts, m.HardFlowCode(config.flowControl))
    ensures now * m.cbaud == was * m.cbaud && now * m.csize == was * m.csize
    ensures now * m.cstopb == was * m.cstopb && now * m.ParityMask() == was * m.ParityMask()
    ensures now * m.LineMask() == was * m.LineMask()
  {
    var code := m.HardFlowCode(config.flowControl);
    OtherFieldKept(was, now, m.crtscts, code, m.cbaud);
    OtherFieldKept(was, now, m.crtscts, code, m.csize);
    OtherFieldKept(was, now, m.crtscts, code, m.cstopb);
    OtherFieldKept(was, now, m.crtscts, code, m.ParityMask());
    OtherFieldKept(was, now, m.crtscts, code, m.LineMask());
  }

  lemma KeptByParity(m: Masks, was: Flags, now: Flags, config: Config)
    requires m.FieldsDisjoint() && FieldSet(was, now, m.ParityMask(), m.ParityCode(config.parity))
    ensures now * m.cbaud == was * m.cbaud && now * m.csize == was * m.csize
    ensures now * m.cstopb == was * m.cstopb && now * m.LineMask() == was * m.LineMask()
  {
    var code := m.ParityCode(config.parity);
    OtherFieldKept(was, now, m.ParityMask(), code, m.cbaud);
    OtherFieldKept(was, now, m.ParityMask(), code, m.csize);
    OtherFieldKept(was, now, m.ParityMask(), code, m.cstopb);
    OtherFieldKept(was, now, m.ParityMask(), code, m.LineMask());
  }

  lemma KeptByStop(m: Masks, was: Flags, now: Flags, config: Config)
    requires m.FieldsDisjoint() && FieldSet(was, now, m.cstopb, m.StopCode(config.stopBits))
    ensures now * m.cbaud == was * m.cbaud && now * m.csize == was * m.csize
    ensures now * m.LineMask() == was * m.LineMask()
  {
    var code := m.StopCode(config.stopBits);
    OtherFieldKept(was, now, m.cstopb, code, m.cbaud);
    OtherFieldKept(was, now, m.cstopb, code, m.csize);
    OtherFieldKept(was, now, m.cstopb, code, m.LineMask());
  }

  /** The line settings flags can tell apart: stop bits only say one, or more than one. */
  datatype Line = Line(baudRate: int, dataBits: int, longStop: bool, parity: int, flowControl: int)

  function LineOf(config: Config): Line {
    Line(config.baudRate, config.dataBits, config.stopBits != STOP_ONE, config.parity, config.flowControl)
  }

  /** Reads the line settings back out of the flags. */
  ghost function Decode(m: Masks, attr: Attr): Line {
    Line(DecodeBaud(m, attr.cflag * m.cbaud), DecodeData(m, attr.cflag * m.csize),
         attr.cflag * m.cstopb != {}, DecodeParity(m, attr.cflag * m.ParityMask()),
         DecodeFlow(attr.cflag * m.crtscts, attr.iflag * m.SoftFlowMask()))
  }

  ghost function DecodeBaud(m: Masks, code: Flags): int {
    if exists b :: b in m.speeds && m.speeds[b] == code
    then var b :| b in m.speeds && m.speeds[b] == code; b else 0
  }

  function DecodeData(m: Masks, code: Flags): int {
    if code == m.cs5 then 5 else if code == m.cs6 then 6 else if code == m.cs7 then 7 else 8
  }

  /** Where CMSPAR exists it tells mark and space from odd and even. */
  function DecodeParity(m: Masks, code: Flags): int {
    if code * m.parenb == {} then PARITY_NONE
    else if code * m.cmspar != {} then (if code * m.parodd != {} then PARITY_MARK else PARITY_SPACE)
    else if code * m.parodd != {} then PARITY_ODD else PARITY_EVEN
  }

  function DecodeFlow(hard: Flags, soft: Flags): int {
    if soft != {} then FLOW_XONXOFF else if hard != {} then FLOW_RTSCTS else FLOW_NONE
  }

  lemma ParityRoundTrip(m: Masks, parity: int)
    requires m.CodesDiffer() && ParityError(m, parity) == 0
    ensures DecodeParity(m, m.ParityCode(parity)) == parity
  {
    var code := m.ParityCode(parity);
    assert code * m.parenb == if parity == PARITY_NONE then {} else m.parenb;
    assert code * m.parodd == if parity == PARITY_ODD || parity == PARITY_MARK then m.parodd else {};
    assert code * m.cmspar == if parity == PARITY_MARK || parity == PARITY_SPACE then m.cmspar else {};
  }

  lemma BaudRoundTrip(m: Masks, baud: int)
    requires m.SpeedsFit() && baud in m.speeds
    ensures DecodeBaud(m, m.speeds[baud]) == baud
  {
  }

  /** Whatever the attributes were before, an accepted configuration is read back from the flags. */
  lemma DecodeUndoesEncode(m: Masks, raw: Attr, attr: Attr, config: Config)
    requires m.CodesDiffer() && m.SpeedsFit() && ConfigError(m, config) == 0
    requires Encodes(m, raw, attr, config)
    ensures Decode(m, attr) == LineOf(config)
  {
    ParityRoundTrip(m, config.parity);
    BaudRoundTrip(m, config.baudRate);
  }

  /** Single bits are their own: each is one the others do not contain. */
  predicate BitsDiffer(m: Masks) {
    && m.clocal !! m.cread && m.inpck !! m.istrip && m.ixon !! m.ixoff !! m.ixany
    && m.clocal != {} && m.cread != {} && m.inpck != {} && m.istrip != {} && m.ixon != {} && m.ixoff != {}
    && m.ixany != {}
  }

  /** The encoding bit by bit: the receiver is enabled and modem lines ignored; the size code is that of
      the data bits; CSTOPB says more than one stop bit; PARENB any parity, PARODD odd or mark, CMSPAR mark
      or space; input parity is checked exactly under parity and never stripped; flow control is CRTSCTS
      for RTS/CTS, and IXON, IXOFF and IXANY for XON/XOFF; a read never waits. */
  lemma EncodedBits(m: Masks, raw: Attr, attr: Attr, config: Config)
    requires m.CodesDiffer() && BitsDiffer(m) && SettingsOk(m, config) && Encodes(m, raw, attr, config)
    ensures m.clocal <= attr.cflag && m.cread <= attr.cflag
    ensures attr.cflag * m.csize ==
            match config.dataBits { case 5 => m.cs5 case 6 => m.cs6 case 7 => m.cs7 case _ => m.cs8 }
    ensures m.cstopb <= attr.cflag <==> config.stopBits != 0
    ensures m.parenb <= attr.cflag <==> config.parity != 0
    ensures m.parodd <= attr.cflag <==> config.parity in {2, 3}
    ensures m.cmspar != {} ==> (m.cmspar <= attr.cflag <==> config.parity in {3, 4})
    ensures (m.inpck <= attr.iflag <==> config.parity != 0) && attr.iflag !! m.istrip
    ensures m.crtscts != {} ==> (m.crtscts <= attr.cflag <==> config.flowControl == 1)
    ensures m.ixon <= attr.iflag <==> config.flowControl == 2
    ensures m.ixoff <= attr.iflag <==> config.flowControl == 2
    ensures m.ixany <= attr.iflag <==> config.flowControl == 2
    ensures attr.vmin == 0 && attr.vtime == 0
  {
    PartOf(attr.cflag, m.LineMask(), m.clocal);
    PartOf(attr.cflag, m.LineMask(), m.cread);
    PartOf(attr.cflag, m.cstopb, m.cstopb);
    PartOf(attr.cflag, m.ParityMask(), m.parenb);
    PartOf(attr.cflag, m.ParityMask(), m.parodd);
    PartOf(attr.cflag, m.ParityMask(), m.cmspar);
    PartOf(attr.cflag, m.crtscts, m.crtscts);
    PartOf(attr.iflag, m.InputCheckMask(), m.inpck);
    PartOf(attr.iflag, m.InputCheckMask(), m.istrip);
    PartOf(attr.iflag, m.SoftFlowMask(), m.ixon);
    PartOf(attr.iflag, m.SoftFlowMask(), m.ixoff);
    PartOf(attr.iflag, m.SoftFlowMask(), m.ixany);
  }

  /** Whether some bits of a field are set can be told from the field. */
  lemma PartOf(word: Flags, mask: Flags, part: Flags)
    requires part <= mask
    ensures part <= word <==> part <= word * mask
    ensures word !! part <==> word * mask !! part
  {
    assert (word * mask) * part == word * part;
  }

  /** The prior attributes and the configuration determine the encoded attributes. */
  lemma EncodingIsDetermined(m: Masks, raw: Attr, a: Attr, b: Attr, c: Config, d: Config)
    requires Encodes(m, raw, a, c) && Encodes(m, raw, b, d)
    requires LineOf(c) == LineOf(d)
    ensures a == b
  {
    forall x: Bit ensures x in a.cflag <==> x in b.cflag {
      if x in m.ManagedC() {
        SameField(a.cflag, b.cflag, m.cbaud, x);
        SameField(a.cflag, b.cflag, m.csize, x);
        SameField(a.cflag, b.cflag, m.cstopb, x);
        SameField(a.cflag, b.cflag, m.ParityMask(), x);
        SameField(a.cflag, b.cflag, m.crtscts, x);
        SameField(a.cflag, b.cflag, m.LineMask(), x);
      } else {
        assert x in a.cflag - m.ManagedC() <==> x in b.cflag - m.ManagedC();
      }
    }
    forall x: Bit ensures x in a.iflag <==> x in b.iflag {
      if x in m.ManagedI() {
        SameField(a.iflag, b.iflag, m.InputCheckMask(), x);
        SameField(a.iflag, b.iflag, m.SoftFlowMask(), x);
      } else {
        assert x in a.iflag - m.ManagedI() <==> x in b.iflag - m.ManagedI();
      }
    }
    assert a.cflag == b.cflag && a.iflag == b.iflag;
  }

  lemma SameField(a: Flags, b: Flags, mask: Flags, x: Bit)
    ensures a * mask == b * mask && x in mask ==> (x in a <==> x in b)
  {
    assert x in mask ==> (x in a <==> x in a * mask) && (x in b <==> x in b * mask);
  }

  lemma AlikeIffSameLine(m: Masks, raw: Attr, a: Attr, b: Attr, c: Config, d: Config)
    requires m.CodesDiffer() && m.SpeedsFit() && ConfigError(m, c) == 0 && ConfigError(m, d) == 0
    requires Encodes(m, raw, a, c) && Encodes(m, raw, b, d)
    ensures a == b <==> LineOf(c) == LineOf(d)
  {
    if a == b {
      DecodeUndoesEncode(m, raw, a, c);
      DecodeUndoesEncode(m, raw, b, d);
    } else if LineOf(c) == LineOf(d) {
      EncodingIsDetermined(m, raw, a, b, c, d);
    }
  }

  /** Two accepted configurations encode alike exactly when they differ at most in the timeouts and
      in 1.5 against 2 stop bits at five data bits. */
  lemma EncodeAlikeIffEqualUpToCollapse(m: Masks, raw: Attr, a: Attr, b: Attr, c: Config, d: Config)
    requires m.CodesDiffer() && m.SpeedsFit() && ConfigError(m, c) == 0 && ConfigError(m, d) == 0
    requires Encodes(m, raw, a, c) && Encodes(m, raw, b, d)
    ensures a == b <==>
      && c.baudRate == d.baudRate && c.dataBits == d.dataBits
      && c.parity == d.parity && c.flowControl == d.flowControl
      && (c.stopBits == d.stopBits ||
          (c.dataBits == 5 && c.stopBits in [STOP_ONE_POINT_FIVE, STOP_TWO]
                           && d.stopBits in [STOP_ONE_POINT_FIVE, STOP_TWO]))
  {
    AlikeIffSameLine(m, raw, a, b, c, d);
  }

  /** The attributes on the C stack that the four setters change in place. */
  class Options {
    var cflag: Flags
    var iflag: Flags
    var vmin: int
    var vtime: int

    constructor (attr: Attr)
      ensures Value() == attr
    {
      cflag, iflag, vmin, vtime := attr.cflag, attr.iflag, attr.vmin, attr.vtime;
    }

    function Value(): Attr
      reads this
    {
      Attr(cflag, iflag, vmin, vtime)
    }

    /** `cfsetispeed` and `cfsetospeed`: the speed code goes into its field of `cflag`. */
    method SetSpeed(m: Masks, speed: Flags)
      requires speed <= m.cbaud
      modifies this`cflag
      ensures FieldSet(old(cflag), cflag, m.cbaud, speed)
    {
      cflag := (cflag - m.cbaud) + speed;
    }

    method ConfigureDataBits(m: Masks, dataBits: int) returns (error: int)
      requires m.CodesFit()
      modifies this`cflag
      ensures error == if 5 <= dataBits <= 8 then 0 else -EINVAL
      ensures error == 0 ==> FieldSet(old(cflag), cflag, m.csize, m.DataCode(dataBits))
    {
      cflag := cflag - m.csize;
      match dataBits {
        case 5 => cflag := cflag + m.cs5;
        case 6 => cflag := cflag + m.cs6;
        case 7 => cflag := cflag + m.cs7;
        case 8 => cflag := cflag + m.cs8;
        case _ => return -EINVAL;
      }
      return 0;
    }

    method ConfigureStopBits(m: Masks, config: Config) returns (error: int)
      modifies this`cflag
      ensures error == StopError(config)
      ensures error == 0 ==> FieldSet(old(cflag), cflag, m.cstopb, m.StopCode(config.stopBits))
    {
      cflag := cflag - m.cstopb;
      if config.stopBits == STOP_ONE {
        return 0;
      }
      if config.stopBits == STOP_TWO {
        cflag := cflag + m.cstopb;
        return 0;
      }
      if config.stopBits == STOP_ONE_POINT_FIVE && config.dataBits == 5 {
        cflag := cflag + m.cstopb;
        return 0;
      }
      return -ENOTSUP;
    }

    method ConfigureParity(m: Masks, parity: int) returns (error: int)
      modifies this`cflag, this`iflag
      ensures error == ParityError(m, parity)
      ensures error == 0 ==> FieldSet(old(cflag), cflag, m.ParityMask(), m.ParityCode(parity))
      ensures error == 0 ==> FieldSet(old(iflag), iflag, m.InputCheckMask(), m.CheckCode(parity))
    {
      cflag := cflag - (m.parenb + m.parodd);
      cflag := cflag - m.cmspar;
      iflag := iflag - (m.inpck + m.istrip);
      match parity {
        case 0 => return 0;
        case 1 =>
          cflag := cflag + m.parenb;
        case 2 =>
          cflag := cflag + (m.parenb + m.parodd);
        case 3 =>
          if m.cmspar == {} {
            return -ENOTSUP;
          }
          cflag := cflag + (m.parenb + m.parodd + m.cmspar);
        case 4 =>
          if m.cmspar == {} {
            return -ENOTSUP;
          }
          cflag := cflag + (m.parenb + m.cmspar);
        case _ =>
          return -EINVAL;
      }
      iflag := iflag + m.inpck;
      return 0;
    }

    method ConfigureFlowControl(m: Masks, flow: int) returns (error: int)
      modifies this`cflag, this`iflag
      ensures error == FlowError(m, flow)
      ensures error == 0 ==> FieldSet(old(cflag), cflag, m.crtscts, m.HardFlowCode(flow))
      ensures error == 0 ==> FieldSet(old(iflag), iflag, m.SoftFlowMask(), m.SoftFlowCode(flow))
    {
      cflag := cflag - m.crtscts;
      iflag := iflag - (m.ixon + m.ixoff + m.ixany);
      match flow {
        case 0 => return 0;
        case 1 =>
          if m.crtscts == {} {
            return -ENOTSUP;
          }
          cflag := cflag + m.crtscts;
          return 0;
        case 2 =>
          iflag := iflag + (m.ixon + m.ixoff + m.ixany);
          return 0;
        case _ =>
          return -EINVAL;
      }
    }
  }
}
