// The singly linked list of linux/serial_port_manager.c, on the heap. Every method below is one
// walk or one critical section of that file; `spine` is the list as the pointers lay it out.
module PortList {
  import opened Errno
  import opened LinuxPort
  import opened PortTable

  class Entry {
    var handle: int
    var port: SerialPort
    var next: Entry?

    /** The entry `open` allocates before it takes the lock again. */
    constructor (port: SerialPort)
      ensures this.port == port && next == null
    {
      this.port := port;
      handle, next := 0, null;
    }

    ghost function AsRow(): Row<SerialPort>
      reads this
    {
      Row(handle, port.path, port)
    }
  }

  class PortManager {
    var ports: Entry?
    var nextHandle: int
    ghost var spine: seq<Entry>

    /** The pointers form exactly `spine`: acyclic, ended by null, each entry once. */
    ghost predicate Linked()
      reads this, spine
    {
      && ports == (if spine == [] then null else spine[0])
      && (forall i {:trigger spine[i].next} :: 0 <= i < |spine| ==>
            spine[i].next == if i + 1 < |spine| then spine[i + 1] else null)
      && (forall i, j :: 0 <= i < j < |spine| ==> spine[i] != spine[j])
    }

    ghost function Rows(): (rows: seq<Row<SerialPort>>)
      reads this, spine
      ensures |rows| == |spine|
    {
      seq(|spine|, i requires 0 <= i < |spine| reads this, spine => spine[i].AsRow())
    }

    ghost predicate Valid()
      reads this, spine
    {
      Linked() && WellFormed(Rows(), nextHandle)
    }

    constructor ()
      ensures Valid() && Rows() == [] && nextHandle == 1
    {
      ports, nextHandle := null, 1;
      spine := [];
    }

    /** The entry at the first matching position, or null: one walk down the list. */
    method FindByHandleLocked(handle: int) returns (found: Entry?)
      requires Valid()
      ensures found == null <==> !Present(Rows(), ByHandle(handle))
      ensures found != null ==>
        exists i :: 0 <= i < |spine| && found == spine[i] && found.handle == handle
    {
      ghost var i := 0;
      var current := ports;
      while current != null
        invariant 0 <= i <= |spine|
        invariant current == if i < |spine| then spine[i] else null
        invariant forall k :: 0 <= k < i ==> !Matches(Rows()[k], ByHandle(handle))
        decreases |spine| - i
      {
        assert Rows()[i] == spine[i].AsRow();
        if current.handle == handle {
          return current;
        }
        current := current.next;
        i := i + 1;
      }
      return null;
    }

    method FindByNameLocked(portName: string) returns (found: Entry?)
      requires Valid()
      ensures found == null <==> !Present(Rows(), ByName(portName))
      ensures found != null ==>
        exists i :: 0 <= i < |spine| && found == spine[i] && found.port.path == portName
    {
      ghost var i := 0;
      var current := ports;
      while current != null
        invariant 0 <= i <= |spine|
        invariant current == if i < |spine| then spine[i] else null
        invariant forall k :: 0 <= k < i ==> !Matches(Rows()[k], ByName(portName))
        decreases |spine| - i
      {
        assert Rows()[i] == spine[i].AsRow();
        if current.port.path == portName {
          return current;
        }
        current := current.next;
        i := i + 1;
      }
      return null;
    }

    /** What both detach routines do to the chain `was` at the position where their walk stopped. */
    twostate predicate Unlinked(was: seq<Entry>, k: nat, new entry: Entry)
      reads this, was
    {
      && k < |was| && entry == was[k] && entry.next == null
      && spine == was[..k] + was[k + 1..]
      && (forall e <- was :: e.handle == old(e.handle) && e.port == old(e.port))
    }

    /** The pointer surgery both detach routines perform on the entry their walk stopped at. */
    method Unlink(previous: Entry?, current: Entry, ghost i: nat)
      requires Valid() && i < |spine| && current == spine[i]
      requires previous == if i > 0 then spine[i - 1] else null
      modifies this`ports, this`spine, spine`next
      ensures Valid() && Unlinked(old(spine), i, current)
      ensures Rows() == Without(old(Rows()), i)
    {
      WithoutKeepsTable(Rows(), nextHandle, i);
      if previous == null {
        ports := current.next;
      } else {
        previous.next := current.next;
      }
      current.next := null;
      spine := spine[..i] + spine[i + 1..];
      assert Rows() == Without(old(Rows()), i);
    }

    method DetachLocked(handle: int) returns (entry: Entry?)
      requires Valid()
      modifies this`ports, this`spine, spine`next
      ensures Valid()
      ensures Rows() == Detach(old(Rows()), ByHandle(handle))
      ensures entry == null <==> !Present(old(Rows()), ByHandle(handle))
      ensures entry == null ==> ports == old(ports) && spine == old(spine)
                                && forall e <- spine :: e.next == old(e.next)
      ensures entry != null ==>
        Unlinked(old(spine), IndexOf(old(Rows()), ByHandle(handle)), entry) && entry.handle == handle
    {
      ghost var i := 0;
      var previous: Entry? := null;
      var current := ports;
      while current != null
        invariant 0 <= i <= |spine|
        invariant current == if i < |spine| then spine[i] else null
        invariant previous == if i > 0 then spine[i - 1] else null
        invariant forall k :: 0 <= k < i ==> !Matches(Rows()[k], ByHandle(handle))
        decreases |spine| - i
      {
        assert Rows()[i] == spine[i].AsRow();
        if current.handle == handle {
          assert i == IndexOf(Rows(), ByHandle(handle));
          Unlink(previous, current, i);
          return current;
        }
        previous := current;
        current := current.next;
        i := i + 1;
      }
      return null;
    }

    method DetachByNameLocked(portName: string) returns (entry: Entry?)
      requires Valid()
      modifies this`ports, this`spine, spine`next
      ensures Valid()
      ensures Rows() == Detach(old(Rows()), ByName(portName))
      ensures entry == null <==> !Present(old(Rows()), ByName(portName))
      ensures entry == null ==> ports == old(ports) && spine == old(spine)
                                && forall e <- spine :: e.next == old(e.next)
      ensures entry != null ==>
        Unlinked(old(spine), IndexOf(old(Rows()), ByName(portName)), entry) && entry.port.path == portName
    {
      ghost var i := 0;
      var previous: Entry? := null;
      var current := ports;
      while current != null
        invariant 0 <= i <= |spine|
        invariant current == if i < |spine| then spine[i] else null
        invariant previous == if i > 0 then spine[i - 1] else null
        invariant forall k :: 0 <= k < i ==> !Matches(Rows()[k], ByName(portName))
        decreases |spine| - i
      {
        assert Rows()[i] == spine[i].AsRow();
        if current.port.path == portName {
          assert i == IndexOf(Rows(), ByName(portName));
          Unlink(previous, current, i);
          return current;
        }
        previous := current;
        current := current.next;
        i := i + 1;
      }
      return null;
    }

    /** The second critical section of `open`: recheck the name, then publish the finished port.
        The counter is a C `int32_t`, whose increment past its maximum is undefined. */
    method PublishLocked(entry: Entry, portName: string) returns (error: int, handle: int)
      requires Valid() && entry !in spine && entry.port.path == portName
      requires nextHandle < 0x7fff_ffff
      modifies this, entry
      ensures Valid()
      ensures error == (if Present(old(Rows()), ByName(portName)) then -EALREADY else 0)
      ensures error != 0 ==> Rows() == old(Rows()) && nextHandle == old(nextHandle)
      ensures error == 0 ==>
        && handle == old(nextHandle) && nextHandle == handle + 1
        && spine == [entry] + old(spine) && entry.port == old(entry.port)
        && Rows() == [Row(handle, portName, entry.port)] + old(Rows())
    {
      var found := FindByNameLocked(portName);
      if found != null {
        return -EALREADY, 0;
      }
      PublishKeepsTable(Rows(), nextHandle, portName, entry.port);
      ghost var before := Rows();
      entry.handle := nextHandle;
      nextHandle := nextHandle + 1;
      entry.next := ports;
      ports := entry;
      spine := [entry] + spine;
      assert Rows() == [Row(entry.handle, portName, entry.port)] + before;
      return 0, entry.handle;
    }
  }
}
