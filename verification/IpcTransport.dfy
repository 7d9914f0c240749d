/** The lock-protected state of the IPC transport, and what each critical section does to it. */
module IpcTransport {
  import opened Kernel

  datatype Shared = Shared(
    stopping: bool,
    generation: nat,
    listenerFd: int,
    activeFd: int,
    bound: bool,
    os: Os)

  function CloseActive(s: Shared): (s': Shared)
    requires WellFormed(s.os)
    ensures WellFormed(s'.os)
  {
    if s.activeFd >= 0 then s.(os := Close(s.os, s.activeFd), activeFd := -1) else s
  }

  function CloseListener(s: Shared): (s': Shared)
    requires WellFormed(s.os)
    ensures WellFormed(s'.os)
  {
    if s.listenerFd >= 0 then s.(os := Close(s.os, s.listenerFd), listenerFd := -1) else s
  }

  function Unbind(s: Shared): Shared {
    if s.bound then s.(bound := false, os := s.os.(unlinks := s.os.unlinks + 1)) else s
  }

  function RequestStopLocked(s: Shared): (s': Shared)
    requires WellFormed(s.os)
    ensures WellFormed(s'.os)
  {
    Unbind(CloseListener(CloseActive(s)))
  }

  /** The destructor's critical section. */
  function Stop(s: Shared): (s': Shared)
    requires WellFormed(s.os)
    ensures WellFormed(s'.os)
  {
    RequestStopLocked(s.(stopping := true))
  }

  /** An accepted descriptor becomes the active client of a new generation, if the slot is free. */
  function Install(s: Shared, fd: int): Shared {
    if s.activeFd >= 0 then s else s.(activeFd := fd, generation := s.generation + 1)
  }

  /** After a failed read, the descriptor read from is closed if it is still the active one. */
  function DropFailed(s: Shared, fd: int): (s': Shared)
    requires WellFormed(s.os)
    ensures WellFormed(s'.os)
  {
    if s.activeFd == fd then CloseActive(s) else s
  }

  // ---------- Sending ----------

  /** One return of send(2). */
  datatype SendReturn = Accepts(n: nat) | Interrupted | Fails

  /**
   A sequence of returns that decides the fate of `remaining` bytes: each accepts some of them, is
   an interruption, or fails. Interruptions happen finitely often.
   */
  predicate Decides(remaining: nat, outcomes: seq<SendReturn>)
    decreases |outcomes|
  {
    remaining == 0 ||
    (outcomes != [] &&
     match outcomes[0]
     case Accepts(n) => 1 <= n <= remaining && Decides(remaining - n, outcomes[1..])
     case Interrupted => Decides(remaining, outcomes[1..])
     case Fails => true)
  }

  /** How many bytes get out before the message is complete or a send fails. */
  function Transmitted(remaining: nat, outcomes: seq<SendReturn>): (n: nat)
    requires Decides(remaining, outcomes)
    ensures n <= remaining
    decreases |outcomes|
  {
    if remaining == 0 then 0
    else match outcomes[0]
      case Accepts(n) => n + Transmitted(remaining - n, outcomes[1..])
      case Interrupted => Transmitted(remaining, outcomes[1..])
      case Fails => 0
  }

  /** Short counts and interruptions lose nothing: only a failing send leaves bytes unsent. */
  lemma {:induction false} OnlyFailureTruncates(remaining: nat, outcomes: seq<SendReturn>)
    requires Decides(remaining, outcomes)
    ensures Fails !in outcomes ==> Transmitted(remaining, outcomes) == remaining
    ensures Transmitted(remaining, outcomes) < remaining ==> Fails in outcomes
    decreases |outcomes|
  {
    if remaining > 0 && outcomes[0] != Fails {
      var left := if outcomes[0].Accepts? then remaining - outcomes[0].n else remaining;
      OnlyFailureTruncates(left, outcomes[1..]);
      assert outcomes == [outcomes[0]] + outcomes[1..];
    }
  }

  /** The bytes that a sequence of returns accepts in all. */
  function AcceptedBy(outcomes: seq<SendReturn>): nat {
    if outcomes == [] then 0
    else (if outcomes[0].Accepts? then outcomes[0].n else 0) + AcceptedBy(outcomes[1..])
  }

  /** What gets out is what the returns before the first failure accept: the whole message, or less if there is one. */
  lemma {:induction false} SentUntilFailure(remaining: nat, outcomes: seq<SendReturn>) returns (k: nat)
    requires Decides(remaining, outcomes)
    ensures k <= |outcomes| && Fails !in outcomes[..k] && Transmitted(remaining, outcomes) == AcceptedBy(outcomes[..k])
    ensures Transmitted(remaining, outcomes) == remaining || (k < |outcomes| && outcomes[k] == Fails)
    decreases |outcomes|
  {
    if remaining == 0 || outcomes[0].Fails? {
      k := 0;
    } else {
      var left := if outcomes[0].Accepts? then remaining - outcomes[0].n else remaining;
      var m := SentUntilFailure(left, outcomes[1..]);
      k := m + 1;
      assert outcomes[..k] == [outcomes[0]] + outcomes[1..][..m];
      assert outcomes[..k][1..] == outcomes[1..][..m];
    }
  }

  function SendSerializedResponse(s: Shared, clientGeneration: nat, serialized: string, outcomes: seq<SendReturn>)
    : (s': Shared)
    requires WellFormed(s.os) && Decides(|serialized|, outcomes)
    ensures WellFormed(s'.os)
  {
    if s.activeFd < 0 || s.generation != clientGeneration then s
    else
      var n := Transmitted(|serialized|, outcomes);
      var written := s.(os := Write(s.os, s.activeFd, serialized[..n]));
      if n == |serialized| then written else CloseActive(written)
  }
}
