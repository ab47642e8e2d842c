/** The map-change handshake of one session: NONE -> WAITING_ACK -> SWITCHING -> NONE. */
module MapChange {

  datatype Phase = None | WaitingAck | Switching

  /** target is the channel, map and instance; spawn the position, as the session stores them. */
  datatype Target = Target(channelId: int, mapId: int, instanceId: int, spawn: int)

  const NO_TARGET := Target(0, 0, 0, 0)

  datatype Handshake = Handshake(phase: Phase, token: nat, pending: Target)

  const IDLE := Handshake(None, 0, NO_TARGET)

  /** Each runs under `_mapChangeLock`, so calls from any threads form one sequence. */
  datatype Call = Begin(token: nat, target: Target) | Ack(token: nat) | End | Cancel

  datatype Answer = No | Yes | Acked(target: Target)

  function After(h: Handshake, c: Call): Handshake {
    match c
    case Begin(token, target) => if h.phase.None? then Handshake(WaitingAck, token, target) else h
    case Ack(token) => if h.phase.WaitingAck? && h.token == token then h.(phase := Switching) else h
    case End => IDLE
    case Cancel => IDLE
  }

  function AnswerOf(h: Handshake, c: Call): Answer {
    match c
    case Begin(_, _) => if h.phase.None? then Yes else No
    case Ack(token) => if h.phase.WaitingAck? && h.token == token then Acked(h.pending) else No
    case End => Yes
    case Cancel => Yes
  }

  class PlayerSession {
    var mapChangeState: Phase
    var mapChangeToken: nat
    var pendingTarget: Target

    function View(): Handshake
      reads this
    {
      Handshake(mapChangeState, mapChangeToken, pendingTarget)
    }

    constructor ()
      ensures View() == IDLE
    {
      mapChangeState, mapChangeToken, pendingTarget := None, 0, NO_TARGET;
    }

    method TryBeginMapChange(token: nat, target: Target) returns (ok: bool)
      modifies this
      ensures View() == After(old(View()), Begin(token, target))
      ensures ok <==> AnswerOf(old(View()), Begin(token, target)).Yes?
    {
      if !mapChangeState.None? {
        return false;
      }
      mapChangeToken, pendingTarget := token, target;
      mapChangeState := WaitingAck;
      ok := true;
    }

    method TryConsumeMapChangeAck(token: nat) returns (ok: bool, outTarget: Target)
      modifies `mapChangeState
      ensures View() == After(old(View()), Ack(token))
      ensures ok <==> AnswerOf(old(View()), Ack(token)).Acked?
      ensures ok ==> AnswerOf(old(View()), Ack(token)) == Acked(outTarget)
    {
      ok, outTarget := false, NO_TARGET;
      if !mapChangeState.WaitingAck? || mapChangeToken != token {
        return;
      }
      outTarget := pendingTarget;
      mapChangeState := Switching;
      ok := true;
    }

    /** EndMapChange and CancelMapChange alike. */
    method ResetMapChangeState()
      modifies this
      ensures View() == After(old(View()), End) == After(old(View()), Cancel)
    {
      mapChangeToken, pendingTarget := 0, NO_TARGET;
      mapChangeState := None;
    }
  }

  // ---------------------------------------------------------------- histories

  /** The state before call number i of a history that starts idle. */
  function Before(calls: seq<Call>, i: nat): Handshake
    requires i <= |calls|
  {
    if i == 0 then IDLE else After(Before(calls, i - 1), calls[i - 1])
  }

  function AnswerAt(calls: seq<Call>, i: nat): Answer
    requires i < |calls|
  {
    AnswerOf(Before(calls, i), calls[i])
  }

  predicate Resets(c: Call) {
    c.End? || c.Cancel?
  }

  /** Call j began the change that is still in hand before call i: it was granted and nothing has reset it since. */
  predicate InHand(calls: seq<Call>, j: nat, i: nat) {
    && j < i <= |calls| && calls[j].Begin? && AnswerAt(calls, j).Yes?
    && forall k :: j < k < i ==> !Resets(calls[k])
  }

  /** The token of begin j has been presented since. */
  predicate AckedBetween(calls: seq<Call>, j: nat, i: nat)
    requires j < i <= |calls| && calls[j].Begin?
  {
    exists k :: j < k < i && calls[k] == Ack(calls[j].token)
  }

  /** The state remembers exactly the change in hand: its token, its target, and whether it has been acknowledged. */
  lemma {:induction false} StateRemembersBegin(calls: seq<Call>, j: nat, i: nat)
    requires InHand(calls, j, i)
    ensures Before(calls, i) ==
            Handshake(if AckedBetween(calls, j, i) then Switching else WaitingAck, calls[j].token, calls[j].target)
    decreases i
  {
    if j + 1 < i {
      StateRemembersBegin(calls, j, i - 1);
      var last := calls[i - 1];
      assert AckedBetween(calls, j, i) <==>
             AckedBetween(calls, j, i - 1) || last == Ack(calls[j].token);
    }
  }

  lemma {:induction false} BusyHasBegin(calls: seq<Call>, i: nat) returns (j: nat)
    requires i <= |calls| && !Before(calls, i).phase.None?
    ensures InHand(calls, j, i)
    decreases i
  {
    if Before(calls, i - 1).phase.None? {
      j := i - 1;
    } else {
      j := BusyHasBegin(calls, i - 1);
    }
  }

  /** No second begin is granted until the first has ended or been cancelled. */
  lemma BeginGrantedIff(calls: seq<Call>, i: nat)
    requires i < |calls| && calls[i].Begin?
    ensures AnswerAt(calls, i).Yes? <==> !exists j: nat :: InHand(calls, j, i)
  {
    if j: nat :| InHand(calls, j, i) {
      StateRemembersBegin(calls, j, i);
    }
    if !Before(calls, i).phase.None? {
      var j := BusyHasBegin(calls, i);
    }
  }

  /**
   An acknowledgement is accepted exactly when a begin with the same token is in hand and has not been
   acknowledged before; it then answers that begin's target.
   */
  lemma AckAcceptedIff(calls: seq<Call>, i: nat)
    requires i < |calls| && calls[i].Ack?
    ensures AnswerAt(calls, i).Acked? <==>
            exists j: nat :: InHand(calls, j, i) && calls[j].token == calls[i].token && !AckedBetween(calls, j, i)
    ensures forall j: nat :: InHand(calls, j, i) && AnswerAt(calls, i).Acked? ==>
              AnswerAt(calls, i) == Acked(calls[j].target)
  {
    forall j: nat | InHand(calls, j, i)
      ensures AnswerAt(calls, i).Acked? <==> calls[j].token == calls[i].token && !AckedBetween(calls, j, i)
      ensures AnswerAt(calls, i).Acked? ==> AnswerAt(calls, i) == Acked(calls[j].target)
    {
      StateRemembersBegin(calls, j, i);
    }
    if AnswerAt(calls, i).Acked? {
      var j := BusyHasBegin(calls, i);
      assert InHand(calls, j, i);
    }
  }

  /** One begin is acknowledged at most once. */
  lemma AckedAtMostOnce(calls: seq<Call>, j: nat, a: nat, b: nat)
    requires InHand(calls, j, b) && j < a < b < |calls| && calls[a].Ack? && calls[b].Ack?
    requires AnswerAt(calls, a).Acked?
    ensures !AnswerAt(calls, b).Acked?
  {
    StateRemembersBegin(calls, j, b);
    StateRemembersBegin(calls, j, a);
    assert AckedBetween(calls, j, b);
  }
}
