// The table of opened ports as a value: what the linked list of
// linux/serial_port_manager.c stands for, and what its searches and detaches mean.
module PortTable {

  /** One opened port. `P` is what the entry's `port` pointer stands for. */
  datatype Row<+P> = Row(handle: int, name: string, port: P)

  /** The two ways the manager looks an entry up. */
  datatype Key = ByHandle(handle: int) | ByName(name: string)

  predicate Matches<P>(row: Row<P>, key: Key) {
    match key
    case ByHandle(h) => row.handle == h
    case ByName(n) => row.name == n
  }

  predicate Present<P>(rows: seq<Row<P>>, key: Key) {
    exists i :: 0 <= i < |rows| && Matches(rows[i], key)
  }

  /** Handles and names are unique and every handle was issued by a counter now at `next`. */
  ghost predicate WellFormed<P>(rows: seq<Row<P>>, next: int) {
    && 1 <= next
    && (forall i :: 0 <= i < |rows| ==> 1 <= rows[i].handle < next)
    && (forall i, j :: 0 <= i < j < |rows| ==> rows[i].handle != rows[j].handle)
    && (forall i, j :: 0 <= i < j < |rows| ==> rows[i].name != rows[j].name)
  }

  /** Position of the first match, or the length when there is none. */
  function IndexOf<P>(rows: seq<Row<P>>, key: Key): (i: nat)
    ensures i <= |rows|
    ensures i < |rows| ==> Matches(rows[i], key)
    ensures forall j :: 0 <= j < i ==> !Matches(rows[j], key)
  {
    if rows == [] || Matches(rows[0], key) then 0 else 1 + IndexOf(rows[1..], key)
  }

  /** The rows that are left once position `i` is unlinked. */
  function Without<P>(rows: seq<Row<P>>, i: nat): seq<Row<P>>
    requires i < |rows|
  {
    rows[..i] + rows[i + 1..]
  }

  /** The rows that are left once the first match, if any, is unlinked. */
  function Detach<P>(rows: seq<Row<P>>, key: Key): seq<Row<P>> {
    var i := IndexOf(rows, key);
    if i < |rows| then Without(rows, i) else rows
  }

  /** Unlinking keeps the invariant: positions shift, nothing else changes. */
  lemma WithoutKeepsTable<P>(rows: seq<Row<P>>, next: int, i: nat)
    requires WellFormed(rows, next) && i < |rows|
    ensures WellFormed(Without(rows, i), next)
  {
    var left := Without(rows, i);
    assert forall k :: 0 <= k < |left| ==> left[k] == rows[if k < i then k else k + 1];
  }

  /** Membership after unlinking position `i` of a table with unique handles. */
  lemma WithoutMembers<P>(rows: seq<Row<P>>, next: int, i: nat, r: Row<P>)
    requires WellFormed(rows, next) && i < |rows|
    ensures r in Without(rows, i) <==> r in rows && r != rows[i]
  {
    var left := Without(rows, i);
    if r in rows && r != rows[i] {
      var k :| 0 <= k < |rows| && rows[k] == r;
      assert r == left[if k < i then k else k - 1];
    }
  }

  /** In a well-formed table a detach removes every row that matches and keeps all others. */
  lemma DetachRemovesExactlyTheMatch<P>(rows: seq<Row<P>>, next: int, key: Key)
    requires WellFormed(rows, next)
    ensures WellFormed(Detach(rows, key), next)
    ensures forall r :: r in Detach(rows, key) <==> r in rows && !Matches(r, key)
  {
    var i := IndexOf(rows, key);
    if i < |rows| {
      WithoutKeepsTable(rows, next, i);
      forall r ensures r in Detach(rows, key) <==> r in rows && !Matches(r, key) {
        WithoutMembers(rows, next, i, r);
      }
    }
  }

  /** Publishing at the head under a fresh handle keeps the table well formed exactly when the name is new. */
  lemma PublishKeepsTable<P>(rows: seq<Row<P>>, next: int, name: string, port: P)
    requires WellFormed(rows, next)
    ensures WellFormed([Row(next, name, port)] + rows, next + 1) <==> !Present(rows, ByName(name))
  {
    var more := [Row(next, name, port)] + rows;
    if i :| 0 <= i < |rows| && Matches(rows[i], ByName(name)) {
      assert more[0].name == more[i + 1].name;
    }
  }
}
