/**
 What the operating system knows of the transport: the descriptor table, and for each accepted
 connection what was read from it, what was written to it, and how often it was closed. A number
 whose file was closed may be given to a later connection.
 */
module Kernel {
  datatype File = Listening | Client(connection: nat)

  datatype Connection = Connection(received: string, sent: string, closes: nat)

  datatype Os = Os(
    table: map<int, File>,
    connections: seq<Connection>,
    listenerCloses: nat,
    unlinks: nat,
    strayCloses: nat,
    strayWrites: nat)

  predicate WellFormed(os: Os) {
    forall fd :: fd in os.table && os.table[fd].Client? ==> os.table[fd].connection < |os.connections|
  }

  /** close(2): a number that names no open file is counted as a stray close. */
  function Close(os: Os, fd: int): (os': Os)
    requires WellFormed(os)
    ensures WellFormed(os') && |os'.connections| == |os.connections| && os'.table == os.table - {fd}
  {
    if fd !in os.table then os.(strayCloses := os.strayCloses + 1)
    else match os.table[fd]
      case Listening => os.(table := os.table - {fd}, listenerCloses := os.listenerCloses + 1)
      case Client(c) =>
        os.(table := os.table - {fd},
            connections := os.connections[c := os.connections[c].(closes := os.connections[c].closes + 1)])
  }

  /** accept(2) that succeeds: the new connection gets a number that is not in use. */
  function Accept(os: Os, fd: int): (os': Os)
    requires WellFormed(os) && fd !in os.table
    ensures WellFormed(os')
  {
    os.(table := os.table[fd := Client(|os.connections|)],
        connections := os.connections + [Connection("", "", 0)])
  }

  /** send(2): the bytes go to whatever connection the number names now. */
  function Write(os: Os, fd: int, bytes: string): (os': Os)
    requires WellFormed(os)
    ensures WellFormed(os') && |os'.connections| == |os.connections| && os'.table == os.table
  {
    if fd in os.table && os.table[fd].Client? then
      var c := os.table[fd].connection;
      os.(connections := os.connections[c := os.connections[c].(sent := os.connections[c].sent + bytes)])
    else os.(strayWrites := os.strayWrites + |bytes|)
  }

  /** recv(2) that succeeds; a number that names no open connection yields bytes of someone else. */
  function Receive(os: Os, fd: int, bytes: string): (os': Os)
    requires WellFormed(os)
    ensures WellFormed(os') && |os'.connections| == |os.connections| && os'.table == os.table
  {
    if fd in os.table && os.table[fd].Client? then
      var c := os.table[fd].connection;
      os.(connections := os.connections[c := os.connections[c].(received := os.connections[c].received + bytes)])
    else os
  }

  lemma WriteTwice(os: Os, fd: int, a: string, b: string)
    requires WellFormed(os)
    ensures Write(Write(os, fd, a), fd, b) == Write(os, fd, a + b)
  {
    if fd in os.table && os.table[fd].Client? {
      var c := os.table[fd].connection;
      assert os.connections[c].sent + a + b == os.connections[c].sent + (a + b);
      assert Write(Write(os, fd, a), fd, b).connections == Write(os, fd, a + b).connections;
    }
  }

  lemma WriteNothing(os: Os, fd: int)
    requires WellFormed(os)
    ensures Write(os, fd, "") == os
  {
    if fd in os.table && os.table[fd].Client? {
      var c := os.table[fd].connection;
      assert os.connections[c].sent + "" == os.connections[c].sent;
      assert Write(os, fd, "").connections == os.connections;
    }
  }
}
