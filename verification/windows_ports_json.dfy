// `SerializePortsJson` of windows/platform_serial_plugin.cpp and what the Dart side reads back from
// it (lib/src/platform/windows_impl.dart).
module WindowsPortsJson {
  import opened JsonText
  import opened Optional
  import opened Utf8

  datatype WinPort = WinPort(portName: seq<Unit>, description: seq<Unit>, vendorId: seq<Unit>,
                             productId: seq<Unit>, serialNumber: seq<Unit>, isOpen: bool)

  /** A field that is null when empty. */
  function OrNull(s: seq<Unit>): Json { if s == [] then Null else Str(s) }

  const KEY_NAME := Ascii("portName")
  const KEY_DESCRIPTION := Ascii("description")
  const KEY_VENDOR := Ascii("vendorId")
  const KEY_PRODUCT := Ascii("productId")
  const KEY_SERIAL := Ascii("serialNumber")
  const KEY_OPEN := Ascii("isOpen")
  const KEY_PLATFORM := Ascii("platform")
  const WINDOWS := Ascii("windows")

  function PortMembers(p: WinPort): seq<Member> {
    [Member(KEY_NAME, Str(p.portName)), Member(KEY_DESCRIPTION, Str(p.description)),
     Member(KEY_VENDOR, OrNull(p.vendorId)), Member(KEY_PRODUCT, OrNull(p.productId)),
     Member(KEY_SERIAL, OrNull(p.serialNumber)), Member(KEY_OPEN, Bool(p.isOpen)),
     Member(KEY_PLATFORM, Str(WINDOWS))]
  }

  function PortJson(p: WinPort): Json { Obj(PortMembers(p)) }

  function PortJsons(ports: seq<WinPort>): seq<Json> {
    seq(|ports|, i requires 0 <= i < |ports| => PortJson(ports[i]))
  }

  lemma {:induction false} EscapeSnoc(s: seq<Unit>, u: Unit)
    ensures Escape(s + [u], true) == Escape(s, true) + EscapeUnit(u, true)
  {
    if s == [] {
      assert [u][1..] == [];
      assert [] + [u] == [u];
    } else {
      assert (s + [u])[1..] == s[1..] + [u];
      EscapeSnoc(s[1..], u);
    }
  }

  /** `hex`, `uppercase`, `setw(4)` and `setfill('0')`. */
  function Hex4(c: Unit): seq<Unit> {
    [HexDigit(c / 4096), HexDigit(c / 256 % 16), HexDigit(c / 16 % 16), HexDigit(c % 16)]
  }

  /** The `switch` on one character. */
  method EscapeCharacter(character: Unit) returns (piece: seq<nat>)
    ensures piece == EscapeUnit(character, true)
  {
    match character {
      case 0x5C => piece := Ascii("\\\\");
      case 0x22 => piece := Ascii("\\\"");
      case 8 => piece := Ascii("\\b");
      case 12 => piece := Ascii("\\f");
      case 10 => piece := Ascii("\\n");
      case 13 => piece := Ascii("\\r");
      case 9 => piece := Ascii("\\t");
      case _ =>
        if character < 0x20 {
          piece := Ascii("\\u") + Hex4(character);
        } else {
          piece := Encode(character);
        }
    }
  }

  method EscapeJsonString(value: seq<Unit>) returns (text: seq<nat>)
    ensures text == Escape(value, true)
  {
    text := [];
    for i := 0 to |value|
      invariant text == Escape(value[..i], true)
    {
      var piece := EscapeCharacter(value[i]);
      assert value[..i + 1] == value[..i] + [value[i]];
      EscapeSnoc(value[..i], value[i]);
      text := text + piece;
    }
    assert value[..|value|] == value;
  }

  // ----- the list of ports

  lemma CommaLast(a: seq<nat>, x: seq<nat>, y: seq<nat>)
    ensures a + ([COMMA] + (x + [COMMA] + y)) == a + ([COMMA] + x) + [COMMA] + y
  {
  }

  lemma {:induction false} MembersSnoc(ms: seq<Member>, m: Member)
    requires ms != []
    ensures PrintMembers(ms + [m], true) == PrintMembers(ms, true) + [COMMA] + PrintMember(m, true)
  {
    assert (ms + [m])[1..] == ms[1..] + [m];
    if |ms| == 1 {
      assert ms[1..] + [m] == [m];
    } else {
      MembersSnoc(ms[1..], m);
      CommaLast(PrintMember(ms[0], true), PrintMembers(ms[1..], true), PrintMember(m, true));
    }
  }

  lemma {:induction false} ItemsSnoc(items: seq<Json>, j: Json)
    requires items != []
    ensures PrintItems(items + [j], true) == PrintItems(items, true) + [COMMA] + Print(j, true)
  {
    assert (items + [j])[1..] == items[1..] + [j];
    if |items| == 1 {
      assert items[1..] + [j] == [j];
    } else {
      ItemsSnoc(items[1..], j);
      CommaLast(Print(items[0], true), PrintItems(items[1..], true), Print(j, true));
    }
  }

  /** Characters that stand for themselves in a JSON string. */
  predicate Plain(s: seq<Unit>) {
    forall i :: 0 <= i < |s| ==> 0x20 <= s[i] < 0x7F && s[i] != QUOTE && s[i] != BACKSLASH
  }

  lemma {:induction false} PlainEscape(s: seq<Unit>, bytes: bool)
    requires Plain(s)
    ensures Escape(s, bytes) == s
  {
    if s != [] {
      PlainEscape(s[1..], bytes);
      assert EscapeUnit(s[0], bytes) == [s[0]];
      assert [s[0]] + s[1..] == s;
    }
  }

  lemma KeysPlain()
    ensures Plain(KEY_NAME) && Plain(KEY_DESCRIPTION) && Plain(KEY_VENDOR) && Plain(KEY_PRODUCT)
    ensures Plain(KEY_SERIAL) && Plain(KEY_OPEN) && Plain(KEY_PLATFORM) && Plain(WINDOWS)
  {
  }

  /** `"key":` as the code writes it, without escaping. */
  function Label(key: seq<Unit>): seq<nat> {
    [QUOTE] + key + [QUOTE, COLON]
  }

  lemma LabelStarts(m: Member)
    requires Plain(m.key)
    ensures PrintMember(m, true) == Label(m.key) + Print(m.value, true)
  {
    PlainEscape(m.key, true);
    assert [QUOTE] + m.key + [QUOTE] + [COLON] == Label(m.key);
  }

  /** `"key":"` with the escaped value, or `"key":null` when a field that may be null is empty. */
  method WriteField(key: seq<Unit>, value: seq<Unit>, nullable: bool) returns (text: seq<nat>)
    requires Plain(key)
    ensures text == PrintMember(Member(key, if nullable then OrNull(value) else Str(value)), true)
  {
    LabelStarts(Member(key, if nullable then OrNull(value) else Str(value)));
    if nullable && value == [] {
      text := Label(key) + Ascii("null");
    } else {
      var escaped := EscapeJsonString(value);
      text := Label(key) + ([QUOTE] + escaped + [QUOTE]);
    }
  }

  method WriteOpen(isOpen: bool) returns (text: seq<nat>)
    ensures text == PrintMember(Member(KEY_OPEN, Bool(isOpen)), true)
  {
    KeysPlain();
    LabelStarts(Member(KEY_OPEN, Bool(isOpen)));
    text := Label(KEY_OPEN) + if isOpen then Ascii("true") else Ascii("false");
  }

  method WritePlatform() returns (text: seq<nat>)
    ensures text == PrintMember(Member(KEY_PLATFORM, Str(WINDOWS)), true)
  {
    KeysPlain();
    LabelStarts(Member(KEY_PLATFORM, Str(WINDOWS)));
    PlainEscape(WINDOWS, true);
    text := Label(KEY_PLATFORM) + ([QUOTE] + WINDOWS + [QUOTE]);
  }

  /** The text of the first `k` members, after the opening brace. */
  function Begun(members: seq<Member>, k: nat): seq<nat>
    requires k <= |members|
  {
    [0x7B] + PrintMembers(members[..k], true)
  }

  lemma NextMember(members: seq<Member>, k: nat)
    requires 0 < k < |members|
    ensures Begun(members, k) + [COMMA] + PrintMember(members[k], true) == Begun(members, k + 1)
  {
    assert members[..k + 1] == members[..k] + [members[k]];
    MembersSnoc(members[..k], members[k]);
  }

  function Braced(a: seq<nat>, b: seq<nat>, c: seq<nat>, d: seq<nat>, e: seq<nat>, f: seq<nat>, g: seq<nat>): seq<nat> {
    [0x7B] + a + [COMMA] + b + [COMMA] + c + [COMMA] + d + [COMMA] + e + [COMMA] + f + [COMMA] + g + [0x7D]
  }

  /** Seven members written one after the other with commas between make the object. */
  lemma SevenMembers(ms: seq<Member>, a: seq<nat>, b: seq<nat>, c: seq<nat>, d: seq<nat>, e: seq<nat>, f: seq<nat>,
                     g: seq<nat>)
    requires |ms| == 7
    requires a == PrintMember(ms[0], true) && b == PrintMember(ms[1], true) && c == PrintMember(ms[2], true)
    requires d == PrintMember(ms[3], true) && e == PrintMember(ms[4], true) && f == PrintMember(ms[5], true)
    requires g == PrintMember(ms[6], true)
    ensures Print(Obj(ms), true) == Braced(a, b, c, d, e, f, g)
  {
    assert ms[..1] == [ms[0]];
    assert Begun(ms, 1) == [0x7B] + a;
    NextMember(ms, 1);
    NextMember(ms, 2);
    NextMember(ms, 3);
    NextMember(ms, 4);
    NextMember(ms, 5);
    NextMember(ms, 6);
    assert ms[..7] == ms;
  }

  lemma SevenListed(ms: seq<Member>, a: Member, b: Member, c: Member, d: Member, e: Member, f: Member, g: Member)
    requires ms == [a, b, c, d, e, f, g]
    ensures Print(Obj(ms), true) ==
      Braced(PrintMember(a, true), PrintMember(b, true), PrintMember(c, true), PrintMember(d, true),
             PrintMember(e, true), PrintMember(f, true), PrintMember(g, true))
  {
    SevenMembers(ms, PrintMember(a, true), PrintMember(b, true), PrintMember(c, true), PrintMember(d, true),
                 PrintMember(e, true), PrintMember(f, true), PrintMember(g, true));
  }

  /** The names of the members, as the text spells them. */
  lemma KeysSpelled()
    ensures KEY_NAME == Ascii("portName") && KEY_DESCRIPTION == Ascii("description") && KEY_VENDOR == Ascii("vendorId")
    ensures KEY_PRODUCT == Ascii("productId") && KEY_SERIAL == Ascii("serialNumber") && KEY_OPEN == Ascii("isOpen")
    ensures KEY_PLATFORM == Ascii("platform") && WINDOWS == Ascii("windows")
  {
  }

  /** The value of a field that is null when empty. */
  function NullableText(value: seq<Unit>): seq<nat> {
    if value == [] then [0x6E, 0x75, 0x6C, 0x6C] else PrintString(value, true)
  }

  /** The object printed for a port, spelled out: which text stands behind which name, in which order. */
  lemma PortIsSpelled(p: WinPort)
    ensures Print(PortJson(p), true) == Braced(
              Label(KEY_NAME) + PrintString(p.portName, true),
              Label(KEY_DESCRIPTION) + PrintString(p.description, true),
              Label(KEY_VENDOR) + NullableText(p.vendorId),
              Label(KEY_PRODUCT) + NullableText(p.productId),
              Label(KEY_SERIAL) + NullableText(p.serialNumber),
              Label(KEY_OPEN) + (if p.isOpen then [0x74, 0x72, 0x75, 0x65] else [0x66, 0x61, 0x6C, 0x73, 0x65]),
              Label(KEY_PLATFORM) + ([QUOTE] + WINDOWS + [QUOTE]))
  {
    KeysPlain();
    SevenListed(PortMembers(p), Member(KEY_NAME, Str(p.portName)), Member(KEY_DESCRIPTION, Str(p.description)),
                Member(KEY_VENDOR, OrNull(p.vendorId)), Member(KEY_PRODUCT, OrNull(p.productId)),
                Member(KEY_SERIAL, OrNull(p.serialNumber)), Member(KEY_OPEN, Bool(p.isOpen)),
                Member(KEY_PLATFORM, Str(WINDOWS)));
    LabelStarts(Member(KEY_NAME, Str(p.portName)));
    LabelStarts(Member(KEY_DESCRIPTION, Str(p.description)));
    LabelStarts(Member(KEY_VENDOR, OrNull(p.vendorId)));
    LabelStarts(Member(KEY_PRODUCT, OrNull(p.productId)));
    LabelStarts(Member(KEY_SERIAL, OrNull(p.serialNumber)));
    LabelStarts(Member(KEY_OPEN, Bool(p.isOpen)));
    LabelStarts(Member(KEY_PLATFORM, Str(WINDOWS)));
    PlainEscape(WINDOWS, true);
  }

  /** The body of the loop for one port. */
  method SerializePort(p: WinPort) returns (text: seq<nat>)
    ensures text == Print(PortJson(p), true)
  {
    KeysPlain();
    var name := WriteField(KEY_NAME, p.portName, false);
    var description := WriteField(KEY_DESCRIPTION, p.description, false);
    var vendor := WriteField(KEY_VENDOR, p.vendorId, true);
    var product := WriteField(KEY_PRODUCT, p.productId, true);
    var serial := WriteField(KEY_SERIAL, p.serialNumber, true);
    var open := WriteOpen(p.isOpen);
    var platform := WritePlatform();
    SevenListed(PortMembers(p), Member(KEY_NAME, Str(p.portName)), Member(KEY_DESCRIPTION, Str(p.description)),
                Member(KEY_VENDOR, OrNull(p.vendorId)), Member(KEY_PRODUCT, OrNull(p.productId)),
                Member(KEY_SERIAL, OrNull(p.serialNumber)), Member(KEY_OPEN, Bool(p.isOpen)),
                Member(KEY_PLATFORM, Str(WINDOWS)));
    text := Braced(name, description, vendor, product, serial, open, platform);
  }

  /** `SerializePortsJson`. */
  method SerializePortsJson(ports: seq<WinPort>) returns (text: seq<nat>)
    ensures text == Print(Arr(PortJsons(ports)), true)
  {
    text := [0x5B];
    for index := 0 to |ports|
      invariant text == [0x5B] + PrintItems(PortJsons(ports)[..index], true)
    {
      if index > 0 {
        text := text + [COMMA];
      }
      var piece := SerializePort(ports[index]);
      ghost var js := PortJsons(ports);
      assert js[..index + 1] == js[..index] + [js[index]];
      if index > 0 {
        ItemsSnoc(js[..index], js[index]);
      }
      text := text + piece;
    }
    assert PortJsons(ports)[..|ports|] == PortJsons(ports);
    text := text + [0x5D];
  }

  // ----- the Dart side

  /** `SerialPortInfo` as Dart builds it from a decoded map. */
  datatype PortInfo = PortInfo(portName: seq<nat>, description: seq<nat>, vendorId: Option<seq<nat>>,
                               productId: Option<seq<nat>>, serialNumber: Option<seq<nat>>,
                               isOpen: bool, platform: seq<nat>)

  /** A map built from an object: the last of equal keys wins. */
  function Lookup(members: seq<Pair>, key: seq<nat>): Value {
    if members == [] then VNull
    else
      var last := members[|members| - 1];
      if last.key == key then last.value else Lookup(members[..|members| - 1], key)
  }

  /** `value as String?`: fails on other types. */
  function AsString(v: Value): Option<Option<seq<nat>>> {
    match v
    case VStr(s) => Some(Some(s))
    case VNull => Some(None)
    case _ => None
  }

  function AsBool(v: Value): Option<Option<bool>> {
    match v
    case VBool(b) => Some(Some(b))
    case VNull => Some(None)
    case _ => None
  }

  function OrElse<T>(o: Option<T>, default: T): T {
    match o
    case None => default
    case Some(v) => v
  }

  function ReadPort(v: Value): Option<PortInfo> {
    if !v.VObj? then None
    else
      var name, description := AsString(Lookup(v.members, KEY_NAME)), AsString(Lookup(v.members, KEY_DESCRIPTION));
      var vendor, product := AsString(Lookup(v.members, KEY_VENDOR)), AsString(Lookup(v.members, KEY_PRODUCT));
      var serial, open := AsString(Lookup(v.members, KEY_SERIAL)), AsBool(Lookup(v.members, KEY_OPEN));
      var platform := AsString(Lookup(v.members, KEY_PLATFORM));
      if name.None? || description.None? || vendor.None? || product.None? || serial.None? || open.None?
         || platform.None?
      then None
      else Some(PortInfo(OrElse(name.value, Ascii("Unknown")), OrElse(description.value, []), vendor.value,
                         product.value, serial.value, OrElse(open.value, false), OrElse(platform.value, WINDOWS)))
  }

  function ReadPorts(items: seq<Value>): Option<seq<PortInfo>> {
    if items == [] then Some([])
    else
      match ReadPort(items[0])
      case None => None
      case Some(p) =>
        match ReadPorts(items[1..])
        case None => None
        case Some(ps) => Some([p] + ps)
  }

  /** An object without members reads as the defaults. */
  lemma DefaultsRead()
    ensures ReadPort(VObj([])) == Some(PortInfo(Ascii("Unknown"), [], None, None, None, false, Ascii("windows")))
  {
  }

  /** Decode the bytes, parse the text, read the list. */
  function ReadDocument(bytes: seq<nat>): Option<seq<PortInfo>> {
    match Decode(bytes)
    case None => None
    case Some(text) =>
      match ParseText(text)
      case Some(VArr(items)) => ReadPorts(items)
      case _ => None
  }

  // ----- the round trip

  function NullIfEmpty(s: seq<Unit>): Option<seq<nat>> {
    if s == [] then None else Some(CleanString(s))
  }

  /** What Dart sees of a port: empty ids are null, every surrogate is replaced. */
  function Seen(p: WinPort): PortInfo {
    PortInfo(CleanString(p.portName), CleanString(p.description), NullIfEmpty(p.vendorId), NullIfEmpty(p.productId),
             NullIfEmpty(p.serialNumber), p.isOpen, WINDOWS)
  }

  function AllSeen(ports: seq<WinPort>): seq<PortInfo> {
    if ports == [] then [] else [Seen(ports[0])] + AllSeen(ports[1..])
  }

  lemma PlainClean(s: seq<Unit>)
    requires Plain(s)
    ensures CleanString(s) == s
  {
  }

  lemma {:induction false} LookupAt(members: seq<Pair>, i: nat)
    requires i < |members|
    requires forall j :: i < j < |members| ==> members[j].key != members[i].key
    ensures Lookup(members, members[i].key) == members[i].value
  {
    if i < |members| - 1 {
      LookupAt(members[..|members| - 1], i);
    }
  }

  lemma KeysDiffer()
    ensures KEY_NAME != KEY_VENDOR && KEY_NAME != KEY_PLATFORM && KEY_VENDOR != KEY_PLATFORM
    ensures |KEY_NAME| == |KEY_VENDOR| == |KEY_PLATFORM| == 8
    ensures |KEY_DESCRIPTION| == 11 && |KEY_PRODUCT| == 9 && |KEY_SERIAL| == 12 && |KEY_OPEN| == 6
  {
    assert KEY_NAME[0] == 'p' as int && KEY_VENDOR[0] == 'v' as int && KEY_PLATFORM[0] == 'p' as int;
    assert KEY_NAME[1] == 'o' as int && KEY_PLATFORM[1] == 'l' as int;
  }

  /** The pairs of a printed port. */
  function PortPairs(p: WinPort): seq<Pair> {
    [Pair(KEY_NAME, VStr(CleanString(p.portName))), Pair(KEY_DESCRIPTION, VStr(CleanString(p.description))),
     Pair(KEY_VENDOR, Meaning(OrNull(p.vendorId))), Pair(KEY_PRODUCT, Meaning(OrNull(p.productId))),
     Pair(KEY_SERIAL, Meaning(OrNull(p.serialNumber))), Pair(KEY_OPEN, VBool(p.isOpen)),
     Pair(KEY_PLATFORM, VStr(WINDOWS))]
  }

  lemma {:induction false} PairsAt(members: seq<Member>)
    ensures |MemberMeanings(members)| == |members|
    ensures forall i :: 0 <= i < |members| ==> MemberMeanings(members)[i] == PairOf(members[i])
  {
    if members != [] {
      PairsAt(members[1..]);
    }
  }

  lemma PortMeaning(p: WinPort)
    ensures Meaning(PortJson(p)) == VObj(PortPairs(p))
  {
    KeysPlain();
    PlainClean(KEY_NAME);
    PlainClean(KEY_DESCRIPTION);
    PlainClean(KEY_VENDOR);
    PlainClean(KEY_PRODUCT);
    PlainClean(KEY_SERIAL);
    PlainClean(KEY_OPEN);
    PlainClean(KEY_PLATFORM);
    PlainClean(WINDOWS);
    PairsAt(PortMembers(p));
    assert MemberMeanings(PortMembers(p)) == PortPairs(p);
  }

  lemma PairsDiffer(p: WinPort)
    ensures var pairs := PortPairs(p);
      forall i, j :: 0 <= i < j < |pairs| ==> pairs[i].key != pairs[j].key
  {
    KeysDiffer();
  }

  lemma PortReads(p: WinPort)
    ensures ReadPort(Meaning(PortJson(p))) == Some(Seen(p))
  {
    PortMeaning(p);
    PairsDiffer(p);
    var pairs := PortPairs(p);
    LookupAt(pairs, 0);
    LookupAt(pairs, 1);
    LookupAt(pairs, 2);
    LookupAt(pairs, 3);
    LookupAt(pairs, 4);
    LookupAt(pairs, 5);
    LookupAt(pairs, 6);
  }

  lemma {:induction false} PortsRead(ports: seq<WinPort>)
    ensures ReadPorts(Meanings(PortJsons(ports))) == Some(AllSeen(ports))
  {
    if ports != [] {
      PortReads(ports[0]);
      PortsRead(ports[1..]);
      assert PortJsons(ports)[1..] == PortJsons(ports[1..]);
    }
  }

  /** For every list of ports, what Dart reads from the bytes is the list, with empty ids null and
      every surrogate replaced. */
  lemma DocumentRoundTrip(ports: seq<WinPort>)
    ensures ReadDocument(Print(Arr(PortJsons(ports)), true)) == Some(AllSeen(ports))
  {
    TextRoundTrip(Arr(PortJsons(ports)));
    PortsRead(ports);
  }

  /** The bytes are non-zero, so the C string handed over is the whole document. */
  lemma DocumentIsOneCString(ports: seq<WinPort>)
    ensures forall b <- Print(Arr(PortJsons(ports)), true) :: 0 < b < 256
  {
    PrintNeverZero(Arr(PortJsons(ports)));
  }

  predicate NoSurrogates(s: seq<Unit>) {
    forall i :: 0 <= i < |s| ==> !Surrogate(s[i])
  }

  predicate PortFree(p: WinPort) {
    NoSurrogates(p.portName) && NoSurrogates(p.description) && NoSurrogates(p.vendorId)
    && NoSurrogates(p.productId) && NoSurrogates(p.serialNumber)
  }

  /** The same port, unchanged, on the Dart side. */
  function Intended(p: WinPort): PortInfo {
    PortInfo(p.portName, p.description, if p.vendorId == [] then None else Some(p.vendorId),
             if p.productId == [] then None else Some(p.productId),
             if p.serialNumber == [] then None else Some(p.serialNumber), p.isOpen, WINDOWS)
  }

  lemma CleanIffFree(s: seq<Unit>)
    ensures CleanString(s) == s <==> NoSurrogates(s)
  {
    if CleanString(s) == s {
      forall i | 0 <= i < |s| ensures !Surrogate(s[i]) {
        assert CleanString(s)[i] == Clean(s[i]);
      }
    }
  }

  lemma SeenIffFree(p: WinPort)
    ensures Seen(p) == Intended(p) <==> PortFree(p)
  {
    CleanIffFree(p.portName);
    CleanIffFree(p.description);
    CleanIffFree(p.vendorId);
    CleanIffFree(p.productId);
    CleanIffFree(p.serialNumber);
  }

  function AllIntended(ports: seq<WinPort>): seq<PortInfo> {
    if ports == [] then [] else [Intended(ports[0])] + AllIntended(ports[1..])
  }

  /** The list survives unchanged exactly when no field holds a surrogate: the code converts each
      16-bit unit on its own, so it splits the pairs that stand for characters past 0xFFFF. */
  lemma {:induction false} ExactIffNoSurrogates(ports: seq<WinPort>)
    ensures ReadDocument(Print(Arr(PortJsons(ports)), true)) == Some(AllIntended(ports)) <==>
            forall i :: 0 <= i < |ports| ==> PortFree(ports[i])
  {
    DocumentRoundTrip(ports);
    AllSeenIffFree(ports);
  }

  lemma {:induction false} AllSeenIffFree(ports: seq<WinPort>)
    ensures AllSeen(ports) == AllIntended(ports) <==> forall i :: 0 <= i < |ports| ==> PortFree(ports[i])
  {
    if ports != [] {
      SeenIffFree(ports[0]);
      AllSeenIffFree(ports[1..]);
      assert AllSeen(ports) == AllIntended(ports) <==>
        AllSeen(ports)[0] == AllIntended(ports)[0] && AllSeen(ports)[1..] == AllIntended(ports)[1..];
      assert (forall i :: 0 <= i < |ports| ==> PortFree(ports[i])) <==>
        PortFree(ports[0]) && forall i :: 0 <= i < |ports[1..]| ==> PortFree(ports[1..][i]);
    }
  }

  /** A port described with the pair for U+1F50C: Dart reads two replacement characters from the printed
      bytes, and not the port. */
  lemma PairIsLost()
    ensures var p := WinPort(Ascii("COM3"), [0xD83D, 0xDD0C], [], [], [], true);
      var read := ReadDocument(Print(Arr(PortJsons([p])), true));
      && read == Some([Seen(p)]) && Seen(p).description == [0xFFFD, 0xFFFD]
      && read != Some(AllIntended([p]))
  {
    var p := WinPort(Ascii("COM3"), [0xD83D, 0xDD0C], [], [], [], true);
    DocumentRoundTrip([p]);
    assert AllSeen([p]) == [Seen(p)] && AllIntended([p]) == [Intended(p)];
    assert Intended(p).description == [0xD83D, 0xDD0C];
  }
}
