/** What became of bytes that went through a buffer, in the order it happened under its lock. */
module ByteLog {
  type Byte = x: int | 0 <= x < 256

  datatype Removal =
    | Taken(reader: nat, bytes: seq<Byte>)
    | Discarded(bytes: seq<Byte>)

  /** The bytes of all removals, one after the other. */
  function Flat(log: seq<Removal>): seq<Byte> {
    if log == [] then [] else Flat(log[..|log| - 1]) + log[|log| - 1].bytes
  }

  lemma FlatSnoc(log: seq<Removal>, r: Removal)
    ensures Flat(log + [r]) == Flat(log) + r.bytes
  {
    assert (log + [r])[..|log|] == log;
  }

  /** No reader is answered twice. */
  predicate AnsweredOnce(log: seq<Removal>) {
    forall i, j :: 0 <= i < j < |log| && log[i].Taken? && log[j].Taken? ==> log[i].reader != log[j].reader
  }

  function Min(a: nat, b: nat): nat { if a < b then a else b }

  /** Taking the front of what is pending keeps the account. */
  lemma TakeKeepsFlow(log: seq<Removal>, pending: seq<Byte>, reader: nat, n: nat)
    requires n <= |pending|
    ensures Flat(log + [Taken(reader, pending[..n])]) + pending[n..] == Flat(log) + pending
  {
    FlatSnoc(log, Taken(reader, pending[..n]));
    assert pending == pending[..n] + pending[n..];
  }

  /** A reader not answered yet may be answered. */
  lemma NewAnswer(log: seq<Removal>, reader: nat, data: seq<Byte>)
    requires AnsweredOnce(log) && forall e :: e in log && e.Taken? ==> e.reader != reader
    ensures AnsweredOnce(log + [Taken(reader, data)])
  {
    forall i | 0 <= i < |log| && log[i].Taken? ensures log[i].reader != reader {
      assert log[i] in log;
    }
  }

  lemma InSnoc(log: seq<Removal>, r: Removal, e: Removal)
    ensures e in log + [r] <==> e in log || e == r
  {
  }
}
