// UTF-8 (section 3 of RFC 3629) between bytes and 16-bit units, as Windows writes and Dart reads it.
module Utf8 {
  import opened Optional

  /** A UTF-16 code unit. */
  type Unit = u: int | 0 <= u < 0x10000

  predicate Surrogate(u: int) { 0xD800 <= u < 0xE000 }

  /** One unit as `WideCharToMultiByte(CP_UTF8, 0, ...)` converts it on its own: a surrogate
      becomes the replacement character, even one that was half of a pair. */
  function Encode(u: Unit): (bytes: seq<nat>)
    ensures forall b :: b in bytes ==> b < 256 && (b == 0 ==> u == 0)
  {
    if u < 0x80 then [u]
    else if u < 0x800 then [0xC0 + u / 64, 0x80 + u % 64]
    else if Surrogate(u) then [0xEF, 0xBF, 0xBD]
    else [0xE0 + u / 4096, 0x80 + u / 64 % 64, 0x80 + u % 64]
  }

  predicate Continues(b: nat) { 0x80 <= b < 0xC0 }

  /** The first character: its units and how many bytes it took. Overlong forms, encoded surrogates
      and values past 0x10FFFF are malformed. */
  function DecodeOne(b: seq<nat>): Option<(seq<Unit>, nat)> {
    if b == [] then None
    else if b[0] < 0x80 then Some(([b[0]], 1))
    else if 0xC2 <= b[0] < 0xE0 && |b| >= 2 && Continues(b[1]) then
      Some(([(b[0] - 0xC0) * 64 + (b[1] - 0x80)], 2))
    else if 0xE0 <= b[0] < 0xF0 && |b| >= 3 && Continues(b[1]) && Continues(b[2]) then
      var u := (b[0] - 0xE0) * 4096 + (b[1] - 0x80) * 64 + (b[2] - 0x80);
      if u < 0x800 || Surrogate(u) then None else Some(([u], 3))
    else if 0xF0 <= b[0] < 0xF5 && |b| >= 4 && Continues(b[1]) && Continues(b[2]) && Continues(b[3]) then
      var c := (b[0] - 0xF0) * 262144 + (b[1] - 0x80) * 4096 + (b[2] - 0x80) * 64 + (b[3] - 0x80);
      if c < 0x10000 || c > 0x10FFFF then None
      else Some(([0xD800 + (c - 0x10000) / 1024, 0xDC00 + (c - 0x10000) % 1024], 4))
    else None
  }

  function Decode(b: seq<nat>): Option<seq<Unit>> {
    if b == [] then Some([])
    else match DecodeOne(b)
      case None => None
      case Some((units, n)) =>
        assert 1 <= n <= |b|;
        match Decode(b[n..])
        case None => None
        case Some(more) => Some(units + more)
  }

  /** A unit, or the replacement character if it is a surrogate. */
  function Clean(u: Unit): Unit { if Surrogate(u) then 0xFFFD else u }

  lemma DecodeEncode(u: Unit)
    ensures Decode(Encode(u)) == Some([Clean(u)])
  {
    var b := Encode(u);
    assert b[|b|..] == [];
    assert Decode([]) == Some([]);
    if 0x800 <= u && !Surrogate(u) {
      assert u == u / 4096 * 4096 + u / 64 % 64 * 64 + u % 64;
    }
    assert DecodeOne(b) == Some(([Clean(u)], |b|));
    assert [Clean(u)] + [] == [Clean(u)];
  }

  lemma DecodeOneExtends(a: seq<nat>, b: seq<nat>)
    requires DecodeOne(a).Some?
    ensures DecodeOne(a + b) == DecodeOne(a)
  {
    assert forall i :: 0 <= i < |a| ==> (a + b)[i] == a[i];
  }

  lemma Prepend(units: seq<Unit>, x: seq<Unit>, y: seq<Unit>)
    ensures units + (x + y) == (units + x) + y
  {
  }

  /** Well-formed pieces decode piece by piece. */
  lemma {:induction false} DecodeConcat(a: seq<nat>, b: seq<nat>)
    requires Decode(a).Some? && Decode(b).Some?
    ensures Decode(a + b) == Some(Decode(a).value + Decode(b).value)
  {
    var y := Decode(b).value;
    if a == [] {
      assert a + b == b;
      assert [] + y == y;
    } else {
      var (units, n) := DecodeOne(a).value;
      DecodeOneExtends(a, b);
      assert (a + b)[n..] == a[n..] + b;
      DecodeConcat(a[n..], b);
      Prepend(units, Decode(a[n..]).value, y);
      assert Decode(a + b) == Some(units + (Decode(a[n..]).value + y));
    }
  }

  /** Bytes below 0x80 stand for themselves. */
  lemma {:induction false} DecodeAscii(b: seq<Unit>)
    requires forall i :: 0 <= i < |b| ==> b[i] < 0x80
    ensures Decode(b).Some? && Decode(b).value == b
  {
    if b != [] {
      DecodeAscii(b[1..]);
      assert DecodeOne(b) == Some(([b[0]], 1));
      assert [b[0]] + b[1..] == b;
    }
  }

  lemma DecodeStep(b: seq<nat>, units: seq<Unit>, n: nat, more: seq<Unit>)
    requires DecodeOne(b) == Some((units, n)) && n <= |b| && Decode(b[n..]) == Some(more)
    ensures Decode(b) == Some(units + more)
  {
  }

  /** Examples of section 7 of RFC 3629. */
  lemma StandardExamples()
    ensures Decode([0x41, 0xE2, 0x89, 0xA2, 0xCE, 0x91]) == Some([0x41, 0x2262, 0x391])
    ensures Decode([0xF0, 0xA3, 0x8E, 0xB4]) == Some([0xD84C, 0xDFB4])
    ensures Encode(0x2262) == [0xE2, 0x89, 0xA2] && Encode(0x391) == [0xCE, 0x91] && Encode(0x41) == [0x41]
  {
    var last: seq<Unit>, both: seq<Unit>, all: seq<Unit> := [0x391], [0x2262, 0x391], [0x41, 0x2262, 0x391];
    assert [0xCE, 0x91][2..] == [] && [0xF0, 0xA3, 0x8E, 0xB4][4..] == [];
    DecodeStep([0xCE, 0x91], [0x391], 2, []);
    assert [0x391] + [] == last;
    assert [0xE2, 0x89, 0xA2, 0xCE, 0x91][3..] == [0xCE, 0x91];
    DecodeStep([0xE2, 0x89, 0xA2, 0xCE, 0x91], [0x2262], 3, last);
    assert [0x2262] + last == both;
    assert [0x41, 0xE2, 0x89, 0xA2, 0xCE, 0x91][1..] == [0xE2, 0x89, 0xA2, 0xCE, 0x91];
    DecodeStep([0x41, 0xE2, 0x89, 0xA2, 0xCE, 0x91], [0x41], 1, both);
    assert [0x41] + both == all;
    DecodeStep([0xF0, 0xA3, 0x8E, 0xB4], [0xD84C, 0xDFB4], 4, []);
    assert [0xD84C, 0xDFB4] + [] == [0xD84C, 0xDFB4];
  }
}
