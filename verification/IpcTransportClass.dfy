/** The IPC transport as the object the program keeps, proved to move as IpcTransport says. */
module IpcTransportClass {
  import opened Kernel
  import opened IpcTransport

  class MCPIPCTransport {
    var stopping: bool
    var activeClientGeneration: nat
    var listenerFd: int
    var activeClientFd: int
    var boundSocketPath: bool
    /** The operating system, whose descriptor numbers are all that the program sees of it. */
    var os: Os

    ghost function State(): Shared
      reads this
    {
      Shared(stopping, activeClientGeneration, listenerFd, activeClientFd, boundSocketPath, os)
    }

    constructor (os: Os)
      ensures State() == Shared(false, 0, -1, -1, false, os)
    {
      stopping, activeClientGeneration := false, 0;
      listenerFd, activeClientFd, boundSocketPath := -1, -1, false;
      this.os := os;
    }

    /** The socket is bound and listening, and the transport records it. */
    method RecordListener(listenerFd: int)
      requires listenerFd >= 0 && listenerFd !in os.table
      modifies this`listenerFd, this`boundSocketPath, this`os
      ensures State() == old(State()).(listenerFd := listenerFd, bound := true,
                                       os := old(os).(table := old(os).table[listenerFd := Listening]))
    {
      os := os.(table := os.table[listenerFd := Listening]);
      this.listenerFd := listenerFd;
      boundSocketPath := true;
    }

    method CloseActiveClient()
      requires WellFormed(os)
      modifies this`activeClientFd, this`os
      ensures State() == CloseActive(old(State()))
    {
      if activeClientFd >= 0 {
        os := Close(os, activeClientFd);
        activeClientFd := -1;
      }
    }

    method CloseListeningSocket()
      requires WellFormed(os)
      modifies this`listenerFd, this`os
      ensures State() == CloseListener(old(State()))
    {
      if listenerFd >= 0 {
        os := Close(os, listenerFd);
        listenerFd := -1;
      }
    }

    method RequestStopLocked()
      requires WellFormed(os)
      modifies this`activeClientFd, this`listenerFd, this`boundSocketPath, this`os
      ensures State() == IpcTransport.RequestStopLocked(old(State()))
    {
      CloseActiveClient();
      CloseListeningSocket();
      if boundSocketPath {
        os := os.(unlinks := os.unlinks + 1);
        boundSocketPath := false;
      }
    }

    /** The locked part of the destructor. */
    method Destroy()
      requires WellFormed(os)
      modifies this`stopping, this`activeClientFd, this`listenerFd, this`boundSocketPath, this`os
      ensures State() == Stop(old(State()))
    {
      stopping := true;
      RequestStopLocked();
    }

    method InstallAccepted(acceptedFd: int) returns (closeExtraClient: bool)
      modifies this`activeClientFd, this`activeClientGeneration
      ensures State() == Install(old(State()), acceptedFd)
      ensures closeExtraClient <==> old(activeClientFd) >= 0
    {
      closeExtraClient := false;
      if activeClientFd >= 0 {
        closeExtraClient := true;
      } else {
        activeClientFd := acceptedFd;
        activeClientGeneration := activeClientGeneration + 1;
      }
    }

    method CloseAfterFailedRead(clientSnapshot: int)
      requires WellFormed(os)
      modifies this`activeClientFd, this`os
      ensures State() == DropFailed(old(State()), clientSnapshot)
    {
      if activeClientFd == clientSnapshot {
        CloseActiveClient();
      }
    }

    /** Sends under the lock, piece by piece; a failed piece closes the client. */
    method SendSerializedResponse(clientGeneration: nat, serialized: string, outcomes: seq<SendReturn>)
      requires WellFormed(os) && Decides(|serialized|, outcomes)
      modifies this`activeClientFd, this`os
      ensures State() == IpcTransport.SendSerializedResponse(old(State()), clientGeneration, serialized, outcomes)
    {
      if activeClientFd < 0 || activeClientGeneration != clientGeneration {
        return;
      }
      ghost var os0 := os;
      WriteNothing(os0, activeClientFd);
      var remaining := serialized;
      var i := 0;
      while remaining != ""
        invariant i <= |outcomes| && Decides(|remaining|, outcomes[i..])
        invariant |remaining| <= |serialized|
        invariant remaining == serialized[|serialized| - |remaining|..]
        invariant activeClientFd == old(activeClientFd)
        invariant os == Write(os0, activeClientFd, serialized[..|serialized| - |remaining|])
        invariant Transmitted(|serialized|, outcomes) ==
                    |serialized| - |remaining| + Transmitted(|remaining|, outcomes[i..])
        decreases |outcomes| - i
      {
        assert outcomes[i..][0] == outcomes[i] && outcomes[i..][1..] == outcomes[i + 1..];
        match outcomes[i]
        case Fails =>
          CloseActiveClient();
          return;
        case Interrupted => i := i + 1;
        case Accepts(n) =>
          ghost var sent := |serialized| - |remaining|;
          WriteTwice(os0, activeClientFd, serialized[..sent], serialized[sent..sent + n]);
          assert serialized[..sent] + serialized[sent..sent + n] == serialized[..sent + n];
          assert remaining[..n] == serialized[sent..sent + n];
          os := Write(os, activeClientFd, remaining[..n]);
          remaining := remaining[n..];
          i := i + 1;
      }
      assert serialized[..|serialized|] == serialized;
    }
  }
}
