/**
 The ring of inbound MQTT messages: filled by `messageArrived`, which drops the oldest message when the ring is full,
 and emptied by `mqtt_proto_read`.
 */
module MqttRing {
  import opened Prelude
  import opened BoundedFifo
  import opened Ring

  const MAX_MSG_BUFFER_SIZE: nat := 100
  const MAX_MESSAGE_SIZE: nat := 1024
  const TOPIC_SIZE: nat := 128

  datatype Message = Message(topic: string, payload: seq<Byte>, timestampMs: int)

  datatype ConnectStatus = ConOk | ConIdle | ConPending | DconOk | DconPending

  datatype OperationStatus = OpIdle | OpPending | OpSuccess | OpFailed

  datatype Result = Success | ErrorParam | ErrorConnect | ErrorRead | NoData

  function Min(a: nat, b: nat): nat {
    if a < b then a else b
  }

  /** What is kept of an arriving message. */
  function Stored(topicName: string, payload: Option<seq<Byte>>, payloadLen: int, now: int): Message
    requires payload.Some? ==> payloadLen <= |payload.value|
  {
    Message(
      if |topicName| < TOPIC_SIZE then topicName else topicName[..TOPIC_SIZE - 1],
      if payload.Some? && payloadLen > 0 then payload.value[..Min(payloadLen, MAX_MESSAGE_SIZE)] else [],
      now * 1000)
  }

  /** The caller's buffers for a topic and a payload. */
  class ReadRequest {
    var topic: string
    const payload: array<Byte>

    constructor ()
      ensures fresh(payload) && payload.Length == MAX_MESSAGE_SIZE
    {
      topic := "";
      payload := new Byte[MAX_MESSAGE_SIZE];
    }

    /** The bytes of `m` that fit before a terminating zero. */
    ghost predicate Holds(m: Message)
      reads this, payload
    {
      var n := Min(|m.payload|, MAX_MESSAGE_SIZE - 1);
      topic == m.topic && payload.Length == MAX_MESSAGE_SIZE && payload[..n] == m.payload[..n] && payload[n] == 0
    }
  }

  /** Payloads of up to 1023 bytes pass unchanged, longer ones as their first 1023 bytes. */
  lemma {:induction false} DeliveredPayload(req: ReadRequest, topicName: string, payload: seq<Byte>, now: int)
    requires req.Holds(Stored(topicName, Some(payload), |payload|, now))
    ensures |payload| <= 1023 ==> req.payload[..|payload|] == payload && req.payload[|payload|] == 0
    ensures |payload| > 1023 ==> req.payload[..1023] == payload[..1023] && req.payload[1023] == 0
    ensures req.topic == if |topicName| <= 127 then topicName else topicName[..127]
  {
    var m := Stored(topicName, Some(payload), |payload|, now);
    if |payload| > 1023 {
      assert m.payload[..1023] == payload[..1023];
    } else {
      assert m.payload == payload;
    }
  }

  /** Writing at the tail, after giving up the oldest message of a full ring, is `Enqueue`. */
  lemma {:induction false} WindowEnqueue(slots: seq<Message>, head: nat, count: nat, m: Message)
    requires |slots| == MAX_MSG_BUFFER_SIZE && head < MAX_MSG_BUFFER_SIZE && count <= MAX_MSG_BUFFER_SIZE
    ensures var full := count >= MAX_MSG_BUFFER_SIZE;
            var first := if full then Slot(head, 1, MAX_MSG_BUFFER_SIZE) else head;
            var kept := if full then count - 1 else count;
            && Window(slots[Slot(head, count, MAX_MSG_BUFFER_SIZE) := m], first, kept + 1)
               == Enqueue(Window(slots, head, count), m, MAX_MSG_BUFFER_SIZE)
            && Slot(Slot(head, count, MAX_MSG_BUFFER_SIZE), 1, MAX_MSG_BUFFER_SIZE)
               == Slot(first, kept + 1, MAX_MSG_BUFFER_SIZE)
  {
    if count >= MAX_MSG_BUFFER_SIZE {
      WindowDropFirst(slots, head, count);
      WindowAdd(slots, Slot(head, 1, MAX_MSG_BUFFER_SIZE), count - 1, m);
    } else {
      WindowAdd(slots, head, count, m);
    }
  }

  class MqttContext {
    const msgBuffer: array<Message>
    var head: nat
    var tail: nat
    var count: nat
    var client: bool
    var connectStatus: ConnectStatus
    var operationStatus: OperationStatus
    ghost var history: seq<Event<Message>>

    ghost predicate Valid()
      reads this, msgBuffer
    {
      && msgBuffer.Length == MAX_MSG_BUFFER_SIZE
      && head < MAX_MSG_BUFFER_SIZE
      && count <= MAX_MSG_BUFFER_SIZE
      && tail == Slot(head, count, MAX_MSG_BUFFER_SIZE)
    }

    /** The ring holds what the FIFO holds after the same arrivals and reads. */
    ghost predicate Follows()
      reads this, msgBuffer
    {
      Valid() && Contents() == Queue(history, MAX_MSG_BUFFER_SIZE)
    }

    /** The messages from the oldest to the newest. */
    ghost function Contents(): (q: seq<Message>)
      requires msgBuffer.Length == MAX_MSG_BUFFER_SIZE && head < MAX_MSG_BUFFER_SIZE && count <= MAX_MSG_BUFFER_SIZE
      reads this, msgBuffer
      ensures |q| == count
    {
      Window(msgBuffer[..], head, count)
    }

    constructor (blank: Message)
      ensures Follows() && history == [] && fresh(msgBuffer)
    {
      msgBuffer := new Message[MAX_MSG_BUFFER_SIZE](_ => blank);
      head, tail, count := 0, 0, 0;
      client := true;
      connectStatus, operationStatus := ConIdle, OpIdle;
      history := [];
    }

    method MessageArrived(topicName: string, payload: Option<seq<Byte>>, payloadLen: int, now: int)
      requires Follows()
      requires payload.Some? ==> payloadLen <= |payload.value|
      modifies `head, `tail, `count, `history, msgBuffer
      ensures Follows()
      ensures history == old(history) + [Push(Stored(topicName, payload, payloadLen, now))]
    {
      var m := NewMessage(topicName, payload, payloadLen, now);
      Insert(m);
      QueueStep(history, Push(m), MAX_MSG_BUFFER_SIZE);
      history := history + [Push(m)];
    }

    /** The message as it is stored. */
    method NewMessage(topicName: string, payload: Option<seq<Byte>>, payloadLen: int, now: int) returns (m: Message)
      requires payload.Some? ==> payloadLen <= |payload.value|
      ensures m == Stored(topicName, payload, payloadLen, now)
    {
      var topic := if |topicName| < TOPIC_SIZE then topicName else topicName[..TOPIC_SIZE - 1];
      var bytes: seq<Byte> := [];
      if payload.Some? && payloadLen > 0 {
        var copyLen := if payloadLen < MAX_MESSAGE_SIZE then payloadLen else MAX_MESSAGE_SIZE;
        bytes := payload.value[..copyLen];
      }
      return Message(topic, bytes, now * 1000);
    }

    /** Gives up the oldest message of a full ring and writes `m` at the tail. */
    method Insert(m: Message)
      requires Valid()
      modifies `head, `tail, `count, msgBuffer
      ensures Valid() && Contents() == Enqueue(old(Contents()), m, MAX_MSG_BUFFER_SIZE)
    {
      ghost var slots, start, size := msgBuffer[..], head, count;
      SlotIsModulo(head, 1, MAX_MSG_BUFFER_SIZE);
      SlotIsModulo(tail, 1, MAX_MSG_BUFFER_SIZE);
      if count >= MAX_MSG_BUFFER_SIZE {
        head := (head + 1) % MAX_MSG_BUFFER_SIZE;
        count := count - 1;
      }
      msgBuffer[tail] := m;
      tail := (tail + 1) % MAX_MSG_BUFFER_SIZE;
      count := count + 1;
      WindowEnqueue(slots, start, size, m);
      assert msgBuffer[..] == slots[Slot(start, size, MAX_MSG_BUFFER_SIZE) := m];
    }

    /** `proto_connect`; `accepted` says whether the MQTT library takes the request. */
    method ProtoConnect(accepted: bool) returns (rc: Result)
      modifies `connectStatus, `operationStatus
      ensures rc == Success <==> client && connectStatus in {ConOk, ConPending}
      ensures rc in {Success, ErrorConnect}
      ensures connectStatus == if client && accepted && old(connectStatus) in {ConIdle, DconOk} then ConPending
                               else old(connectStatus)
    {
      if !client {
        return ErrorConnect;
      }
      match connectStatus {
        case ConOk =>
          operationStatus := OpSuccess;
          rc := Success;
        case ConPending =>
          operationStatus := OpPending;
          rc := Success;
        case DconPending =>
          operationStatus := OpFailed;
          rc := ErrorConnect;
        case _ =>
          if accepted {
            connectStatus := ConPending;
            operationStatus := OpPending;
            rc := Success;
          } else {
            operationStatus := OpFailed;
            rc := ErrorConnect;
          }
      }
    }

    /** Hands the oldest message to the caller if the connection is up; otherwise the ring stays as it is. */
    method ProtoRead(req: ReadRequest, autoReconnect: bool, accepted: bool) returns (rc: Result)
      requires Follows()
      requires req.payload.Length == MAX_MESSAGE_SIZE
      modifies `head, `count, `connectStatus, `operationStatus, `history, req, req.payload
      ensures Follows()
      ensures history == if rc == Success then old(history) + [Pop] else old(history)
      ensures rc == Success <==> old(connectStatus) == ConOk && old(Contents()) != []
      ensures rc == Success ==> req.Holds(old(Contents())[0]) && Contents() == old(Contents())[1..]
      ensures rc != Success ==> Contents() == old(Contents()) && unchanged(req) && unchanged(req.payload)
      ensures rc == NoData <==>
                if old(connectStatus) == ConOk then old(Contents()) == []
                else autoReconnect && old(connectStatus) == DconOk && client && accepted
      ensures rc in {Success, NoData, ErrorRead}
    {
      if connectStatus != ConOk {
        if autoReconnect && connectStatus == DconOk {
          var result := ProtoConnect(accepted);
          if result != Success {
            return ErrorRead;
          }
          operationStatus := OpPending;
          return NoData;
        } else {
          operationStatus := OpFailed;
          return ErrorRead;
        }
      }
      if count == 0 {
        operationStatus := OpIdle;
        return NoData;
      }
      Remove(req);
      QueueStep(history, Pop, MAX_MSG_BUFFER_SIZE);
      history := history + [Pop];
      operationStatus := OpSuccess;
      rc := Success;
    }

    /** Copies the message at the head into the caller's buffers and gives its slot up. */
    method Remove(req: ReadRequest)
      requires Valid() && Contents() != []
      requires req.payload.Length == MAX_MESSAGE_SIZE
      modifies `head, `count, req, req.payload
      ensures Valid() && Contents() == old(Contents())[1..]
      ensures req.Holds(old(Contents())[0])
    {
      var msg := msgBuffer[head];
      WindowDropFirst(msgBuffer[..], head, count);
      var copyLen := if |msg.payload| < req.payload.Length then |msg.payload| else req.payload.Length - 1;
      forall i | 0 <= i < copyLen {
        req.payload[i] := msg.payload[i];
      }
      req.payload[copyLen] := 0;
      req.topic := msg.topic;
      SlotIsModulo(head, 1, MAX_MSG_BUFFER_SIZE);
      head := (head + 1) % MAX_MSG_BUFFER_SIZE;
      count := count - 1;
    }
  }

  /**
   Over all arrivals and reads of a context: what waits is the newest part of what arrived, what was delivered is an
   in-order subsequence of it, and every arrival was delivered, dropped or waits.
   */
  lemma {:induction false} ArrivalsAreAccountedFor(context: MqttContext)
    requires context.Follows()
    ensures var log, waiting := Log(context.history), context.Contents();
            && |waiting| <= 100 && |waiting| <= |log| && waiting == log[|log| - |waiting|..]
    ensures var log, taken := Log(context.history), Taken(context.history, MAX_MSG_BUFFER_SIZE);
            var delivered, dropped := Delivered(context.history, MAX_MSG_BUFFER_SIZE),
                                      Dropped(context.history, MAX_MSG_BUFFER_SIZE);
            && |log| == |delivered| + |dropped| + |context.Contents()|
            && |delivered| == |taken| && Increasing(taken)
            && (forall i :: 0 <= i < |taken| ==> 0 <= taken[i] < |log| && delivered[i] == log[taken[i]])
            && (dropped == [] ==> log == delivered + context.Contents())
  {
    QueueIsSuffixOfLog(context.history, MAX_MSG_BUFFER_SIZE);
    DeliveredIsSubsequence(context.history, MAX_MSG_BUFFER_SIZE);
    PushesAreAccountedFor(context.history, MAX_MSG_BUFFER_SIZE);
    if Dropped(context.history, MAX_MSG_BUFFER_SIZE) == [] {
      NothingLost(context.history, MAX_MSG_BUFFER_SIZE);
    }
  }
}
