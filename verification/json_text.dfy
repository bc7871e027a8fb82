// JSON text: how windows/platform_serial_plugin.cpp writes values, and a parser for the grammar of
// RFC 8259 (without numbers, which it never writes), such as the Dart side applies to what it reads.
module JsonText {
  import opened Optional
  import opened Utf8

  datatype Json =
    | Null
    | Bool(b: bool)
    | Str(s: seq<Unit>)
    | Arr(items: seq<Json>)
    | Obj(members: seq<Member>)

  datatype Member = Member(key: seq<Unit>, value: Json)

  /** The characters of an ASCII literal. */
  function Ascii(s: string): (codes: seq<Unit>)
    requires forall i :: 0 <= i < |s| ==> s[i] < 128 as char
    ensures |codes| == |s| && forall i :: 0 <= i < |s| ==> codes[i] == s[i] as int && codes[i] < 128
  {
    seq(|s|, i requires 0 <= i < |s| => s[i] as int)
  }

  const QUOTE: Unit := 0x22
  const BACKSLASH: Unit := 0x5C
  const COMMA: Unit := 0x2C
  const COLON: Unit := 0x3A

  function HexDigit(d: nat): Unit
    requires d < 16
  {
    if d < 10 then 0x30 + d else 0x41 + (d - 10)
  }

  /** `EscapeJsonString` of one unit, in bytes, or as the units those bytes decode to. */
  function EscapeUnit(u: Unit, bytes: bool): seq<nat> {
    if u == BACKSLASH then [BACKSLASH, BACKSLASH]
    else if u == QUOTE then [BACKSLASH, QUOTE]
    else if u == 8 then [BACKSLASH, 0x62]
    else if u == 12 then [BACKSLASH, 0x66]
    else if u == 10 then [BACKSLASH, 0x6E]
    else if u == 13 then [BACKSLASH, 0x72]
    else if u == 9 then [BACKSLASH, 0x74]
    else if u < 0x20 then [BACKSLASH, 0x75, 0x30, 0x30, HexDigit(u / 16), HexDigit(u % 16)]
    else if bytes then Encode(u)
    else [Clean(u)]
  }

  function Escape(s: seq<Unit>, bytes: bool): seq<nat> {
    if s == [] then [] else EscapeUnit(s[0], bytes) + Escape(s[1..], bytes)
  }

  function PrintString(s: seq<Unit>, bytes: bool): seq<nat> {
    [QUOTE] + Escape(s, bytes) + [QUOTE]
  }

  function Print(j: Json, bytes: bool): seq<nat>
    decreases j, 1
  {
    match j
    case Null => [0x6E, 0x75, 0x6C, 0x6C]
    case Bool(b) => if b then [0x74, 0x72, 0x75, 0x65] else [0x66, 0x61, 0x6C, 0x73, 0x65]
    case Str(s) => PrintString(s, bytes)
    case Arr(items) => [0x5B] + PrintItems(items, bytes) + [0x5D]
    case Obj(members) => [0x7B] + PrintMembers(members, bytes) + [0x7D]
  }

  function PrintItems(items: seq<Json>, bytes: bool): seq<nat>
    decreases items, 0
  {
    if items == [] then []
    else if |items| == 1 then Print(items[0], bytes)
    else Print(items[0], bytes) + ([COMMA] + PrintItems(items[1..], bytes))
  }

  function PrintMember(m: Member, bytes: bool): seq<nat>
    decreases m, 0
  {
    PrintString(m.key, bytes) + [COLON] + Print(m.value, bytes)
  }

  function PrintMembers(members: seq<Member>, bytes: bool): seq<nat>
    decreases members, 0
  {
    if members == [] then []
    else if |members| == 1 then PrintMember(members[0], bytes)
    else PrintMember(members[0], bytes) + ([COMMA] + PrintMembers(members[1..], bytes))
  }

  // ----- the parser: a value and what follows it

  datatype Parsed<T> = Fail | Ok(value: T, rest: seq<nat>)

  predicate White(c: nat) { c == 0x20 || c == 9 || c == 10 || c == 13 }

  function SkipWhite(t: seq<nat>): (r: seq<nat>)
    ensures |r| <= |t|
  {
    if t != [] && White(t[0]) then SkipWhite(t[1..]) else t
  }

  predicate Starts(t: seq<nat>, c: nat) { t != [] && t[0] == c }

  function HexValue(c: nat): Option<nat> {
    if 0x30 <= c < 0x3A then Some(c - 0x30)
    else if 0x41 <= c < 0x47 then Some(c - 0x41 + 10)
    else if 0x61 <= c < 0x67 then Some(c - 0x61 + 10)
    else None
  }

  /** The character after a backslash (section 7). */
  function ParseEscape(t: seq<nat>): (p: Parsed<nat>)
    ensures p.Ok? ==> |p.rest| < |t|
  {
    if t == [] then Fail
    else if t[0] == QUOTE || t[0] == BACKSLASH || t[0] == 0x2F then Ok(t[0], t[1..])
    else if t[0] == 0x62 then Ok(8, t[1..])
    else if t[0] == 0x66 then Ok(12, t[1..])
    else if t[0] == 0x6E then Ok(10, t[1..])
    else if t[0] == 0x72 then Ok(13, t[1..])
    else if t[0] == 0x74 then Ok(9, t[1..])
    else if t[0] == 0x75 && |t| >= 5 && HexValue(t[1]).Some? && HexValue(t[2]).Some?
            && HexValue(t[3]).Some? && HexValue(t[4]).Some? then
      Ok(HexValue(t[1]).value * 4096 + HexValue(t[2]).value * 256 + HexValue(t[3]).value * 16 + HexValue(t[4]).value,
         t[5..])
    else Fail
  }

  /** The escapes of section 7 of RFC 8259: quotation mark, reverse solidus, solidus, backspace, form feed,
      line feed, carriage return, tab, and four hexadecimal digits. */
  lemma StandardEscapes(rest: seq<nat>)
    ensures ParseEscape([0x22] + rest) == Ok(0x22, rest) && ParseEscape([0x5C] + rest) == Ok(0x5C, rest)
    ensures ParseEscape([0x2F] + rest) == Ok(0x2F, rest) && ParseEscape([0x62] + rest) == Ok(0x08, rest)
    ensures ParseEscape([0x66] + rest) == Ok(0x0C, rest) && ParseEscape([0x6E] + rest) == Ok(0x0A, rest)
    ensures ParseEscape([0x72] + rest) == Ok(0x0D, rest) && ParseEscape([0x74] + rest) == Ok(0x09, rest)
    ensures ParseEscape([0x75, 0x30, 0x30, 0x31, 0x46] + rest) == Ok(0x1F, rest)
    ensures ParseEscape([0x75, 0x32, 0x36, 0x33, 0x61] + rest) == Ok(0x263A, rest)
  {
    assert forall c :: ([c] + rest)[1..] == rest;
    assert ([0x75, 0x30, 0x30, 0x31, 0x46] + rest)[5..] == rest;
    assert ([0x75, 0x32, 0x36, 0x33, 0x61] + rest)[5..] == rest;
  }

  /** The rest of a string, after its opening quote. */
  function ParseString(t: seq<nat>): (p: Parsed<seq<nat>>)
    ensures p.Ok? ==> |p.rest| < |t|
    decreases |t|
  {
    if t == [] || t[0] < 0x20 then Fail
    else if t[0] == QUOTE then Ok([], t[1..])
    else
      match if t[0] == BACKSLASH then ParseEscape(t[1..]) else Ok(t[0], t[1..])
      case Fail => Fail
      case Ok(c, rest) =>
        match ParseString(rest)
        case Fail => Fail
        case Ok(more, after) => Ok([c] + more, after)
  }

  datatype Value =
    | VNull
    | VBool(b: bool)
    | VStr(s: seq<nat>)
    | VArr(items: seq<Value>)
    | VObj(members: seq<Pair>)

  datatype Pair = Pair(key: seq<nat>, value: Value)

  function ParseValue(text: seq<nat>): (p: Parsed<Value>)
    ensures p.Ok? ==> |p.rest| < |text|
    decreases |text|, 0
  {
    var t := SkipWhite(text);
    if Starts(t, QUOTE) then
      match ParseString(t[1..])
      case Fail => Fail
      case Ok(s, rest) => Ok(VStr(s), rest)
    else if Starts(t, 0x5B) then
      var inside := SkipWhite(t[1..]);
      if Starts(inside, 0x5D) then Ok(VArr([]), inside[1..])
      else
        match ParseItems(inside)
        case Fail => Fail
        case Ok(items, rest) => Ok(VArr(items), rest)
    else if Starts(t, 0x7B) then
      var inside := SkipWhite(t[1..]);
      if Starts(inside, 0x7D) then Ok(VObj([]), inside[1..])
      else
        match ParseMembers(inside)
        case Fail => Fail
        case Ok(members, rest) => Ok(VObj(members), rest)
    else if [0x6E, 0x75, 0x6C, 0x6C] <= t then Ok(VNull, t[4..])
    else if [0x74, 0x72, 0x75, 0x65] <= t then Ok(VBool(true), t[4..])
    else if [0x66, 0x61, 0x6C, 0x73, 0x65] <= t then Ok(VBool(false), t[5..])
    else Fail
  }

  /** One or more values with commas between, and the closing bracket. */
  function ParseItems(t: seq<nat>): (p: Parsed<seq<Value>>)
    ensures p.Ok? ==> |p.rest| < |t|
    decreases |t|, 1
  {
    match ParseValue(t)
    case Fail => Fail
    case Ok(v, rest) =>
      var after := SkipWhite(rest);
      if Starts(after, 0x5D) then Ok([v], after[1..])
      else if Starts(after, COMMA) then
        match ParseItems(after[1..])
        case Fail => Fail
        case Ok(vs, end) => Ok([v] + vs, end)
      else Fail
  }

  function ParseMember(t: seq<nat>): (p: Parsed<Pair>)
    ensures p.Ok? ==> |p.rest| < |t|
    decreases |t|, 1
  {
    var start := SkipWhite(t);
    if !Starts(start, QUOTE) then Fail
    else
      match ParseString(start[1..])
      case Fail => Fail
      case Ok(key, rest) =>
        var after := SkipWhite(rest);
        if !Starts(after, COLON) then Fail
        else
          match ParseValue(after[1..])
          case Fail => Fail
          case Ok(v, end) => Ok(Pair(key, v), end)
  }

  function ParseMembers(t: seq<nat>): (p: Parsed<seq<Pair>>)
    ensures p.Ok? ==> |p.rest| < |t|
    decreases |t|, 2
  {
    match ParseMember(t)
    case Fail => Fail
    case Ok(m, rest) =>
      var after := SkipWhite(rest);
      if Starts(after, 0x7D) then Ok([m], after[1..])
      else if Starts(after, COMMA) then
        match ParseMembers(after[1..])
        case Fail => Fail
        case Ok(ms, end) => Ok([m] + ms, end)
      else Fail
  }

  /** A whole document: one value with nothing but white space around it. */
  function ParseText(t: seq<nat>): Option<Value> {
    match ParseValue(t)
    case Fail => None
    case Ok(v, rest) => if SkipWhite(rest) == [] then Some(v) else None
  }

  // ----- the value a text stands for, every surrogate having been replaced

  function CleanString(s: seq<Unit>): seq<Unit> {
    seq(|s|, i requires 0 <= i < |s| => Clean(s[i]))
  }

  function Meaning(j: Json): Value
    decreases j, 1
  {
    match j
    case Null => VNull
    case Bool(b) => VBool(b)
    case Str(s) => VStr(CleanString(s))
    case Arr(items) => VArr(Meanings(items))
    case Obj(members) => VObj(MemberMeanings(members))
  }

  function Meanings(items: seq<Json>): seq<Value>
    decreases items, 0
  {
    if items == [] then [] else [Meaning(items[0])] + Meanings(items[1..])
  }

  function MemberMeanings(members: seq<Member>): seq<Pair>
    decreases members, 0
  {
    if members == [] then []
    else [Pair(CleanString(members[0].key), Meaning(members[0].value))] + MemberMeanings(members[1..])
  }

  // ----- the bytes decode to the units

  lemma EscapeUnitDecodes(u: Unit)
    ensures Decode(EscapeUnit(u, true)).Some? && Decode(EscapeUnit(u, true)).value == EscapeUnit(u, false)
  {
    if EscapeUnit(u, true) == Encode(u) {
      DecodeEncode(u);
    } else {
      DecodeAscii(EscapeUnit(u, true));
    }
  }

  /** Does `bytes` decode to `units`? */
  ghost predicate Decodes(bytes: seq<nat>, units: seq<nat>) {
    Decode(bytes).Some? && Decode(bytes).value == units
  }

  lemma Both(a: seq<nat>, x: seq<nat>, b: seq<nat>, y: seq<nat>)
    requires Decodes(a, x) && Decodes(b, y)
    ensures Decodes(a + b, x + y)
  {
    DecodeConcat(a, b);
  }

  lemma OneChar(c: Unit)
    requires c < 0x80
    ensures Decodes([c], [c])
  {
    DecodeAscii([c]);
  }

  lemma {:induction false} EscapeDecodes(s: seq<Unit>)
    ensures Decodes(Escape(s, true), Escape(s, false))
  {
    if s != [] {
      EscapeUnitDecodes(s[0]);
      EscapeDecodes(s[1..]);
      Both(EscapeUnit(s[0], true), EscapeUnit(s[0], false), Escape(s[1..], true), Escape(s[1..], false));
    }
  }

  lemma Wrapped(open: Unit, a: seq<nat>, x: seq<nat>, close: Unit)
    requires open < 0x80 && close < 0x80 && Decodes(a, x)
    ensures Decodes([open] + a + [close], [open] + x + [close])
  {
    OneChar(open);
    OneChar(close);
    Both([open], [open], a, x);
    Both([open] + a, [open] + x, [close], [close]);
  }

  lemma StringDecodes(s: seq<Unit>)
    ensures Decodes(PrintString(s, true), PrintString(s, false))
  {
    EscapeDecodes(s);
    Wrapped(QUOTE, Escape(s, true), Escape(s, false), QUOTE);
  }

  lemma Separated(a: seq<nat>, x: seq<nat>, c: Unit, b: seq<nat>, y: seq<nat>)
    requires Decodes(a, x) && Decodes(b, y) && c < 0x80
    ensures Decodes(a + ([c] + b), x + ([c] + y)) && Decodes(a + [c] + b, x + [c] + y)
  {
    OneChar(c);
    Both([c], [c], b, y);
    Both(a, x, [c] + b, [c] + y);
    assert a + [c] + b == a + ([c] + b) && x + [c] + y == x + ([c] + y);
  }

  lemma LiteralDecodes(j: Json)
    requires j.Null? || j.Bool?
    ensures Decodes(Print(j, true), Print(j, false))
  {
    assert Print(j, true) == Print(j, false);
    DecodeAscii(Print(j, true));
  }

  /** UTF-8 decoding the bytes of any value gives its units. */
  lemma {:induction false} PrintDecodes(j: Json)
    ensures Decodes(Print(j, true), Print(j, false))
    decreases j, 1
  {
    match j
    case Null => LiteralDecodes(j);
    case Bool(_) => LiteralDecodes(j);
    case Str(s) => StringDecodes(s);
    case Arr(items) =>
      ItemsDecode(items);
      Wrapped(0x5B, PrintItems(items, true), PrintItems(items, false), 0x5D);
    case Obj(members) =>
      MembersDecode(members);
      Wrapped(0x7B, PrintMembers(members, true), PrintMembers(members, false), 0x7D);
  }

  lemma {:induction false} ItemsDecode(items: seq<Json>)
    ensures Decodes(PrintItems(items, true), PrintItems(items, false))
    decreases items, 0
  {
    if items != [] {
      PrintDecodes(items[0]);
      if |items| > 1 {
        ItemsDecode(items[1..]);
        Separated(Print(items[0], true), Print(items[0], false), COMMA,
                  PrintItems(items[1..], true), PrintItems(items[1..], false));
      }
    }
  }

  lemma {:induction false} MemberDecodes(m: Member)
    ensures Decodes(PrintMember(m, true), PrintMember(m, false))
    decreases m, 0
  {
    StringDecodes(m.key);
    PrintDecodes(m.value);
    Separated(PrintString(m.key, true), PrintString(m.key, false), COLON,
              Print(m.value, true), Print(m.value, false));
  }

  lemma {:induction false} MembersDecode(members: seq<Member>)
    ensures Decodes(PrintMembers(members, true), PrintMembers(members, false))
    decreases members, 0
  {
    if members != [] {
      MemberDecodes(members[0]);
      if |members| > 1 {
        MembersDecode(members[1..]);
        Separated(PrintMember(members[0], true), PrintMember(members[0], false), COMMA,
                  PrintMembers(members[1..], true), PrintMembers(members[1..], false));
      }
    }
  }

  // ----- the parser undoes the printer

  lemma EscapeUnitParses(u: Unit, rest: seq<nat>)
    requires ParseString(rest).Ok?
    ensures var p := ParseString(rest);
      ParseString(EscapeUnit(u, false) + rest) == Ok([Clean(u) as nat] + p.value, p.rest)
  {
    var text := EscapeUnit(u, false) + rest;
    if text[0] == BACKSLASH {
      var tail := text[1..];
      if tail[0] == 0x75 {
        assert tail[5..] == rest;
        assert HexValue(HexDigit(u / 16)) == Some(u / 16) && HexValue(HexDigit(u % 16)) == Some(u % 16);
        assert ParseEscape(tail) == Ok(u, rest);
      } else {
        assert tail[1..] == rest;
        assert ParseEscape(tail) == Ok(u, rest);
      }
    } else {
      assert text[1..] == rest;
    }
  }

  lemma Append3(a: seq<nat>, b: seq<nat>, c: seq<nat>, d: seq<nat>)
    ensures (a + b) + c + d == a + (b + c + d)
  {
  }

  lemma CleanFirst(s: seq<Unit>)
    requires s != []
    ensures [Clean(s[0]) as nat] + CleanString(s[1..]) == CleanString(s)
  {
  }

  lemma {:induction false} StringParses(s: seq<Unit>, rest: seq<nat>)
    ensures ParseString(Escape(s, false) + [QUOTE] + rest) == Ok(CleanString(s), rest)
  {
    var text := Escape(s, false) + [QUOTE] + rest;
    if s == [] {
      assert text == [QUOTE] + rest && text[1..] == rest;
      assert CleanString(s) == [];
    } else {
      StringParses(s[1..], rest);
      var tail := Escape(s[1..], false) + [QUOTE] + rest;
      Append3(EscapeUnit(s[0], false), Escape(s[1..], false), [QUOTE], rest);
      EscapeUnitParses(s[0], tail);
      CleanFirst(s);
    }
  }

  lemma QuotedParses(s: seq<Unit>, rest: seq<nat>)
    ensures var text := PrintString(s, false) + rest;
      Starts(text, QUOTE) && ParseString(text[1..]) == Ok(CleanString(s), rest)
  {
    StringParses(s, rest);
    assert (PrintString(s, false) + rest)[1..] == Escape(s, false) + [QUOTE] + rest;
  }

  /** A printed value starts with a character that is neither white space nor a closing bracket. */
  lemma PrintStarts(j: Json, rest: seq<nat>)
    ensures var t := Print(j, false) + rest;
      t != [] && !White(t[0]) && t[0] != 0x5D && t[0] != 0x7D && t[0] != COMMA
  {
  }

  /** Parsing what was printed gives the value back, whatever follows it. */
  lemma {:induction false} ValueParses(j: Json, rest: seq<nat>)
    ensures ParseValue(Print(j, false) + rest) == Ok(Meaning(j), rest)
    decreases j, 1
  {
    var t := Print(j, false) + rest;
    PrintStarts(j, rest);
    match j
    case Null => assert t[4..] == rest;
    case Bool(b) => assert if b then t[4..] == rest else t[5..] == rest;
    case Str(s) => QuotedParses(s, rest);
    case Arr(items) => ArrayParses(items, rest);
    case Obj(members) => ObjectParses(members, rest);
  }

  /** What `ParseValue` makes of a bracketed list. */
  lemma ArrayText(inside: seq<nat>, items: seq<Value>, rest: seq<nat>)
    requires inside != [] && !White(inside[0])
    requires if inside[0] == 0x5D then items == [] && rest == inside[1..] else ParseItems(inside) == Ok(items, rest)
    ensures ParseValue([0x5B] + inside) == Ok(VArr(items), rest)
  {
    assert ([0x5B] + inside)[1..] == inside;
  }

  lemma Regroup(open: nat, body: seq<nat>, close: nat, rest: seq<nat>)
    ensures [open] + body + [close] + rest == [open] + (body + [close] + rest)
    ensures body + [close] + rest == body + ([close] + rest)
  {
  }

  lemma {:induction false} ArrayParses(items: seq<Json>, rest: seq<nat>)
    ensures ParseValue(Print(Arr(items), false) + rest) == Ok(Meaning(Arr(items)), rest)
    decreases items, 1
  {
    var body := PrintItems(items, false);
    var inside := body + [0x5D] + rest;
    Regroup(0x5B, body, 0x5D, rest);
    if items == [] {
      assert inside[0] == 0x5D && inside[1..] == rest;
    } else {
      ItemsParse(items, rest);
      ItemsStart(items, [0x5D] + rest);
    }
    ArrayText(inside, Meanings(items), rest);
  }

  lemma ItemsStart(items: seq<Json>, rest: seq<nat>)
    requires items != []
    ensures var t := PrintItems(items, false) + rest; t != [] && !White(t[0]) && t[0] != 0x5D
  {
    PrintStarts(items[0], rest);
    if |items| > 1 {
      var more := [COMMA] + PrintItems(items[1..], false);
      PrintStarts(items[0], more + rest);
      assert PrintItems(items, false) + rest == Print(items[0], false) + (more + rest);
    }
  }

  lemma LastItem(t: seq<nat>, v: Value, rest: seq<nat>)
    requires ParseValue(t) == Ok(v, [0x5D] + rest)
    ensures ParseItems(t) == Ok([v], rest)
  {
    assert ([0x5D] + rest)[1..] == rest;
  }

  lemma MoreItems(t: seq<nat>, v: Value, tail: seq<nat>, vs: seq<Value>, end: seq<nat>)
    requires ParseValue(t) == Ok(v, [COMMA] + tail) && ParseItems(tail) == Ok(vs, end)
    ensures ParseItems(t) == Ok([v] + vs, end)
  {
    assert ([COMMA] + tail)[1..] == tail;
  }

  lemma Reassociate(a: seq<nat>, b: seq<nat>, c: seq<nat>, d: seq<nat>, e: seq<nat>)
    ensures (a + (b + c)) + d + e == a + (b + (c + d + e))
  {
  }

  lemma ItemsText(items: seq<Json>, rest: seq<nat>)
    requires items != []
    ensures PrintItems(items, false) + [0x5D] + rest == Print(items[0], false)
            + if |items| == 1 then [0x5D] + rest
              else [COMMA] + (PrintItems(items[1..], false) + [0x5D] + rest)
  {
    var first := Print(items[0], false);
    if |items| == 1 {
      assert first + [0x5D] + rest == first + ([0x5D] + rest);
    } else {
      Reassociate(first, [COMMA], PrintItems(items[1..], false), [0x5D], rest);
    }
  }

  lemma {:induction false} ItemsParse(items: seq<Json>, rest: seq<nat>)
    requires items != []
    ensures ParseItems(PrintItems(items, false) + [0x5D] + rest) == Ok(Meanings(items), rest)
    decreases items, 0
  {
    var t := PrintItems(items, false) + [0x5D] + rest;
    ItemsText(items, rest);
    if |items| == 1 {
      ValueParses(items[0], [0x5D] + rest);
      LastItem(t, Meaning(items[0]), rest);
      assert Meanings(items) == [Meaning(items[0])];
    } else {
      var tail := PrintItems(items[1..], false) + [0x5D] + rest;
      ValueParses(items[0], [COMMA] + tail);
      ItemsParse(items[1..], rest);
      MoreItems(t, Meaning(items[0]), tail, Meanings(items[1..]), rest);
    }
  }

  lemma {:induction false} ObjectParses(members: seq<Member>, rest: seq<nat>)
    ensures ParseValue(Print(Obj(members), false) + rest) == Ok(Meaning(Obj(members)), rest)
    decreases members, 1
  {
    var t := Print(Obj(members), false) + rest;
    var inside := PrintMembers(members, false) + [0x7D] + rest;
    assert t[1..] == inside;
    if members == [] {
      assert inside == [0x7D] + rest && inside[1..] == rest;
    } else {
      MembersParse(members, rest);
      assert inside[0] == QUOTE;
    }
  }

  lemma Nest(a: seq<nat>, b: seq<nat>, c: seq<nat>, d: seq<nat>)
    ensures a + b + c + d == a + (b + (c + d))
  {
  }

  lemma {:induction false} MemberParses(m: Member, rest: seq<nat>)
    ensures ParseMember(PrintMember(m, false) + rest) == Ok(Pair(CleanString(m.key), Meaning(m.value)), rest)
    decreases m, 0
  {
    var tail := [COLON] + (Print(m.value, false) + rest);
    QuotedParses(m.key, tail);
    Nest(PrintString(m.key, false), [COLON], Print(m.value, false), rest);
    assert tail[1..] == Print(m.value, false) + rest;
    ValueParses(m.value, rest);
  }

  lemma LastMember(t: seq<nat>, m: Pair, rest: seq<nat>)
    requires ParseMember(t) == Ok(m, [0x7D] + rest)
    ensures ParseMembers(t) == Ok([m], rest)
  {
    assert ([0x7D] + rest)[1..] == rest;
  }

  lemma MoreMembers(t: seq<nat>, m: Pair, tail: seq<nat>, ms: seq<Pair>, end: seq<nat>)
    requires ParseMember(t) == Ok(m, [COMMA] + tail) && ParseMembers(tail) == Ok(ms, end)
    ensures ParseMembers(t) == Ok([m] + ms, end)
  {
    assert ([COMMA] + tail)[1..] == tail;
  }

  function PairOf(m: Member): Pair {
    Pair(CleanString(m.key), Meaning(m.value))
  }

  lemma MembersText(members: seq<Member>, rest: seq<nat>)
    requires members != []
    ensures PrintMembers(members, false) + [0x7D] + rest == PrintMember(members[0], false)
            + if |members| == 1 then [0x7D] + rest
              else [COMMA] + (PrintMembers(members[1..], false) + [0x7D] + rest)
  {
    var first := PrintMember(members[0], false);
    if |members| == 1 {
      assert first + [0x7D] + rest == first + ([0x7D] + rest);
    } else {
      Reassociate(first, [COMMA], PrintMembers(members[1..], false), [0x7D], rest);
    }
  }

  lemma {:induction false} MembersParse(members: seq<Member>, rest: seq<nat>)
    requires members != []
    ensures ParseMembers(PrintMembers(members, false) + [0x7D] + rest) == Ok(MemberMeanings(members), rest)
    decreases members, 0
  {
    var t := PrintMembers(members, false) + [0x7D] + rest;
    MembersText(members, rest);
    if |members| == 1 {
      MemberParses(members[0], [0x7D] + rest);
      LastMember(t, PairOf(members[0]), rest);
      assert MemberMeanings(members) == [PairOf(members[0])];
    } else {
      var tail := PrintMembers(members[1..], false) + [0x7D] + rest;
      MemberParses(members[0], [COMMA] + tail);
      MembersParse(members[1..], rest);
      MoreMembers(t, PairOf(members[0]), tail, MemberMeanings(members[1..]), rest);
    }
  }

  /** UTF-8 decoding and parsing undo printing, for every value. */
  lemma TextRoundTrip(j: Json)
    ensures Decode(Print(j, true)).Some? && ParseText(Decode(Print(j, true)).value) == Some(Meaning(j))
  {
    PrintDecodes(j);
    ValueParses(j, []);
    assert Print(j, false) + [] == Print(j, false);
  }

  /** The bytes are bytes, and none is zero, so a C string holds the whole text. */
  lemma {:induction false} EscapeNeverZero(s: seq<Unit>)
    ensures forall b <- Escape(s, true) :: 0 < b < 256
  {
    if s != [] {
      EscapeNeverZero(s[1..]);
      assert forall b <- EscapeUnit(s[0], true) :: 0 < b < 256;
    }
  }

  lemma {:induction false} PrintNeverZero(j: Json)
    ensures forall b <- Print(j, true) :: 0 < b < 256
    decreases j, 1
  {
    match j
    case Null =>
    case Bool(b) =>
    case Str(s) => EscapeNeverZero(s);
    case Arr(items) => ItemsNeverZero(items);
    case Obj(members) => MembersNeverZero(members);
  }

  lemma {:induction false} ItemsNeverZero(items: seq<Json>)
    ensures forall b <- PrintItems(items, true) :: 0 < b < 256
    decreases items, 0
  {
    if items != [] {
      PrintNeverZero(items[0]);
      ItemsNeverZero(items[1..]);
    }
  }

  lemma {:induction false} MembersNeverZero(members: seq<Member>)
    ensures forall b <- PrintMembers(members, true) :: 0 < b < 256
    decreases members, 0
  {
    if members != [] {
      EscapeNeverZero(members[0].key);
      PrintNeverZero(members[0].value);
      assert forall b <- PrintMember(members[0], true) :: 0 < b < 256;
      MembersNeverZero(members[1..]);
    }
  }
}
