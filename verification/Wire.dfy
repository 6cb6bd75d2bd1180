/**
 * The wire as the object it is: handlers assigning fields and writing two arrays in place. Each
 * handler is proved to do what WireEnd says, and nothing else.
 */
module Wire {
  import opened Options
  import opened WireEnd

  class SCLOrkWire {
    const id: int
    const bufferSize: nat
    const maxRetries: nat
    var selfId: Option<int>
    var connectionState: Connection
    var sendSerial: nat
    var sendBuffer: array<Option<Message>>
    var sendAckSerial: nat
    var receiveSerial: nat
    var receiveBuffer: array<Option<Payload>>
    /** The retry jobs SystemClock holds. */
    var timers: seq<Retry>
    /** What netAddr.sendMsg put on the network. */
    var outbox: seq<Message>
    /** What onMessageReceived was called with, and sendMsg accepted, since the last reset. */
    var received: seq<Payload>
    ghost var sent: seq<Payload>

    ghost predicate Valid()
      reads this
    {
      0 < bufferSize && sendBuffer.Length == bufferSize && receiveBuffer.Length == bufferSize
    }

    ghost function State(): (e: End)
      requires Valid()
      reads this, sendBuffer, receiveBuffer
      ensures e.Valid()
    {
      End(id, bufferSize, maxRetries, selfId, connectionState, sendSerial, sendAckSerial, sendBuffer[..],
          receiveSerial, receiveBuffer[..], timers, sent, received)
    }

    constructor (id: int, maxRetries: nat, bufferSize: nat)
      requires 0 < bufferSize
      ensures Valid() && fresh(sendBuffer) && fresh(receiveBuffer)
      ensures State() == New(id, maxRetries, bufferSize) && outbox == []
      ensures this.id == id && this.maxRetries == maxRetries && this.bufferSize == bufferSize
    {
      this.id, this.bufferSize, this.maxRetries := id, bufferSize, maxRetries;
      selfId, connectionState, timers, outbox, received, sent := None, NeverConnected, [], [], [], [];
      sendSerial, sendAckSerial, receiveSerial := 0, 0, 0;
      sendBuffer := new Option<Message>[bufferSize](i => None);
      receiveBuffer := new Option<Payload>[bufferSize](i => None);
      new;
      assert sendBuffer[..] == Empty(bufferSize) && receiveBuffer[..] == Empty(bufferSize);
    }

    method ClearBuffers()
      requires Valid()
      modifies this`sendBuffer, this`receiveBuffer
      ensures Valid() && fresh(sendBuffer) && fresh(receiveBuffer)
      ensures sendBuffer[..] == Empty(bufferSize) && receiveBuffer[..] == Empty(bufferSize)
    {
      sendBuffer := new Option<Message>[bufferSize](i => None);
      receiveBuffer := new Option<Payload>[bufferSize](i => None);
    }

    method ChangeConnectionState(newState: Connection)
      requires Valid()
      modifies this
      ensures Valid() && outbox == old(outbox)
      ensures sendBuffer == old(sendBuffer) || fresh(sendBuffer)
      ensures receiveBuffer == old(receiveBuffer) || fresh(receiveBuffer)
      ensures State() == ChangeState(old(State()), newState)
    {
      if newState == Connected {
        ClearBuffers();
        sendSerial := 0;
        sendAckSerial := 0;
        receiveSerial := 0;
        sent, received := [], [];
      }
      if connectionState != newState {
        connectionState := newState;
      }
    }

    method NewSendRetry(message: Message, keepGoing: KeepGoing)
      requires Valid()
      modifies this`timers, this`outbox
      ensures State() == StartRetry(old(State()), message, keepGoing).end
      ensures outbox == old(outbox) + [message]
    {
      outbox := outbox + [message];
      timers := timers + [Retry(message, keepGoing, 0)];
    }

    method Connect()
      requires Valid()
      modifies this
      ensures Valid() && State() == WireEnd.Connect(old(State())).end
      ensures outbox == old(outbox) + WireEnd.Connect(old(State())).out
      ensures sendBuffer == old(sendBuffer) || fresh(sendBuffer)
      ensures receiveBuffer == old(receiveBuffer) || fresh(receiveBuffer)
    {
      if connectionState == NeverConnected || connectionState == Disconnected || connectionState == FailureTimeout {
        ChangeConnectionState(ConnectionRequested);
        NewSendRetry(Request(id), WhileState(ConnectionRequested));
      }
    }

    method SendMsg(payload: Payload)
      requires Valid()
      modifies this, sendBuffer
      ensures Valid() && State() == WireEnd.SendMsg(old(State()), payload).end
      ensures outbox == old(outbox) + WireEnd.SendMsg(old(State()), payload).out
      ensures sendBuffer == old(sendBuffer) && receiveBuffer == old(receiveBuffer)
    {
      if connectionState == Connected {
        sendSerial := sendSerial + 1;
        var serial := sendSerial;
        var message := Data(selfId, serial, payload);
        sent := sent + [payload];
        NewSendRetry(message, WhileUnacked(serial));
        sendBuffer[serial % bufferSize] := Some(message);
      }
    }

    method IsIdle() returns (idle: bool)
      requires Valid()
      ensures idle == State().IsIdle()
    {
      idle := (connectionState == Connected || connectionState == Disconnected) && sendSerial == sendAckSerial;
      if idle {
        for i := 0 to bufferSize
          invariant idle == forall j | 0 <= j < i :: receiveBuffer[j].None?
        {
          if receiveBuffer[i].Some? {
            idle := false;
          }
        }
      }
    }

    method HangUp()
      requires Valid()
      modifies this
      ensures Valid() && State() == WireEnd.HangUp(old(State())).end
      ensures outbox == old(outbox) + WireEnd.HangUp(old(State())).out
      ensures sendBuffer == old(sendBuffer) || fresh(sendBuffer)
      ensures receiveBuffer == old(receiveBuffer) || fresh(receiveBuffer)
    {
      if connectionState == Connected {
        var message := Disconnect(selfId);
        ChangeConnectionState(DisconnectRequested);
        NewSendRetry(message, WhileState(DisconnectRequested));
      }
    }

    method RetryFunction(i: nat)
      requires Valid() && i < |timers|
      modifies this
      ensures Valid() && State() == Fire(old(State()), i).end
      ensures outbox == old(outbox) + Fire(old(State()), i).out
      ensures sendBuffer == old(sendBuffer) || fresh(sendBuffer)
      ensures receiveBuffer == old(receiveBuffer) || fresh(receiveBuffer)
    {
      var job := timers[i];
      if job.retries < maxRetries {
        var go := match job.keepGoing
          case WhileState(s) => connectionState == s
          case WhileUnacked(serial) => sendAckSerial < serial;
        if go {
          outbox := outbox + [job.message];
          timers := timers[i := job.(retries := job.retries + 1)];
        } else {
          timers := timers[..i] + timers[i + 1..];
        }
      } else {
        timers := timers[..i] + timers[i + 1..];
        ChangeConnectionState(FailureTimeout);
      }
    }

    method OnConnectRequest(responderId: int)
      requires Valid()
      modifies this
      ensures Valid() && State() == OnRequest(old(State()), responderId).end
      ensures outbox == old(outbox) + OnRequest(old(State()), responderId).out
      ensures sendBuffer == old(sendBuffer) || fresh(sendBuffer)
      ensures receiveBuffer == old(receiveBuffer) || fresh(receiveBuffer)
    {
      if connectionState == NeverConnected || connectionState == Knocking || connectionState == Disconnected {
        ChangeConnectionState(ConnectionAccepted);
        selfId := Some(responderId);
        NewSendRetry(Accept(selfId, id), WhileState(ConnectionAccepted));
      }
    }

    method OnConnectAccept(responderId: Option<int>, initiatorId: int)
      requires Valid()
      modifies this
      ensures Valid() && State() == OnAccept(old(State()), responderId, initiatorId).end
      ensures outbox == old(outbox) + OnAccept(old(State()), responderId, initiatorId).out
      ensures sendBuffer == old(sendBuffer) || fresh(sendBuffer)
      ensures receiveBuffer == old(receiveBuffer) || fresh(receiveBuffer)
    {
      if responderId == Some(id) {
        selfId := Some(initiatorId);
        ChangeConnectionState(Connected);
        outbox := outbox + [Confirm(selfId)];
      }
    }

    method OnConnectConfirm(initiatorId: Option<int>)
      requires Valid()
      modifies this
      ensures Valid() && State() == OnConfirm(old(State()), initiatorId).end && outbox == old(outbox)
      ensures sendBuffer == old(sendBuffer) || fresh(sendBuffer)
      ensures receiveBuffer == old(receiveBuffer) || fresh(receiveBuffer)
    {
      if initiatorId == Some(id) {
        ChangeConnectionState(Connected);
      }
    }

    method OnSend(senderId: Option<int>, serial: nat, payload: Payload)
      requires Valid()
      modifies this, receiveBuffer
      ensures Valid() && State() == OnData(old(State()), senderId, serial, payload).end
      ensures outbox == old(outbox) + OnData(old(State()), senderId, serial, payload).out
      ensures sendBuffer == old(sendBuffer) && receiveBuffer == old(receiveBuffer)
    {
      if senderId == Some(id) {
        ghost var before := State();
        if serial <= receiveSerial {
        } else if serial == receiveSerial + 1 {
          receiveSerial := serial;
          received := received + [payload];
          ghost var ready := State();
          assert before.sendBuffer == ready.sendBuffer;
          while receiveBuffer[(receiveSerial + 1) % bufferSize].Some?
            invariant Valid() && sendBuffer == old(sendBuffer) && receiveBuffer == old(receiveBuffer)
            invariant outbox == old(outbox) && selfId == old(selfId)
            invariant Drain(State()) == Drain(ready)
            decreases Waiting(receiveBuffer[..])
          {
            ghost var now := State();
            TakeOneOut(receiveBuffer[..], (receiveSerial + 1) % bufferSize);
            receiveSerial := receiveSerial + 1;
            received := received + [receiveBuffer[receiveSerial % bufferSize].value];
            receiveBuffer[receiveSerial % bufferSize] := None;
            assert receiveBuffer[..] == now.receiveBuffer[receiveSerial % bufferSize := None];
          }
        } else {
          receiveBuffer[serial % bufferSize] := Some(payload);
        }
        ReceiveFrame(before, serial, payload);
        outbox := outbox + [Ack(selfId, serial)];
      }
    }

    method OnAck(senderId: Option<int>, serial: nat)
      requires Valid()
      modifies this`sendAckSerial, sendBuffer
      ensures Valid() && State() == WireEnd.OnAck(old(State()), senderId, serial).end
    {
      if senderId == Some(id) {
        if serial == sendAckSerial + 1 {
          sendAckSerial := serial;
          if sendBuffer[serial % bufferSize].Some? {
            sendBuffer[serial % bufferSize] := None;
          }
        }
      }
    }

    method OnDisconnect(senderId: Option<int>)
      requires Valid()
      modifies this
      ensures Valid() && State() == WireEnd.OnDisconnect(old(State()), senderId).end
      ensures outbox == old(outbox) + WireEnd.OnDisconnect(old(State()), senderId).out
      ensures sendBuffer == old(sendBuffer) || fresh(sendBuffer)
      ensures receiveBuffer == old(receiveBuffer) || fresh(receiveBuffer)
    {
      if senderId == Some(id) {
        outbox := outbox + [DisconnectConfirm(selfId)];
        ChangeConnectionState(Disconnected);
      }
    }

    method OnDisconnectConfirm(senderId: Option<int>)
      requires Valid()
      modifies this
      ensures Valid() && State() == WireEnd.OnDisconnectConfirm(old(State()), senderId).end && outbox == old(outbox)
      ensures sendBuffer == old(sendBuffer) || fresh(sendBuffer)
      ensures receiveBuffer == old(receiveBuffer) || fresh(receiveBuffer)
    {
      if senderId == Some(id) {
        ChangeConnectionState(Disconnected);
      }
    }
  }
}
