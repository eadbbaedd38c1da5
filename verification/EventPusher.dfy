/**
 The controller's EventPusher: a map of the instances announced to the coordinator (keyed by
 job name, as in the source) and a FIFO of ADD/DEL/SET events that one consumer thread drains.
 */
module EventPusher {
  import opened Prelude

  /** What the pusher remembers of an instance; id and role never change during its life. */
  datatype Announced = Announced(id: int, role: Role)

  datatype Event = Add(ins: Announced) | Del(ins: Announced) | Set

  datatype Note = Ready | Separated | Unhandled

  /** One observer call: the instance it is about and what happened to it. */
  datatype Notice = Notice(job: string, ins: Announced, note: Note)

  datatype EventKind = ADD | DEL | SET

  datatype Message = Message(kind: EventKind, instances: set<Announced>)

  /** The locked half of `update`: what happens to the map. */
  function Remember(announced: map<string, Announced>, n: Notice): map<string, Announced> {
    match n.note
    case Ready => announced[n.job := n.ins]
    case Separated => announced - {n.job}
    case Unhandled => announced
  }

  /** The event that `update` queues once it has left the lock, if any. */
  function EventFor(announced: map<string, Announced>, n: Notice): Option<Event> {
    match n.note
    case Ready => Some(Add(n.ins))
    case Separated => if n.job in announced then Some(Del(n.ins)) else None
    case Unhandled => None
  }

  /** The consumer's message for an event; a SET reads the map when it is consumed. */
  function Prepare(announced: map<string, Announced>, e: Event): Option<Message> {
    match e
    case Add(x) => Some(Message(ADD, {x}))
    case Del(x) => Some(Message(DEL, {x}))
    case Set =>
      if exists x :: x in announced.Values && x.role.Prefill? then Some(Message(SET, announced.Values)) else None
  }

  /** Answer of one coordinator status query. */
  datatype Answer = Serving | NotReady | Unreachable

  /** The heartbeat detector's own state: its two flags and its local loss counter. */
  datatype Detector = Detector(connected: bool, reset: bool, losses: nat)

  const QUIET: Detector := Detector(false, false, 0)

  /** One iteration of the detector loop, and whether it queues a SET. */
  function Detect(d: Detector, a: Answer): (Detector, bool) {
    match a
    case Unreachable =>
      if !d.connected then (d, false)
      else if d.losses + 1 >= 2 then (d.(reset := true, losses := 0), false)
      else (d.(losses := d.losses + 1), false)
    case _ =>
      if d.reset || a == NotReady then (Detector(true, false, 0), true)
      else (d.(connected := true), false)
  }

  /** Detector state after a list of answers. */
  function DetectAll(d: Detector, answers: seq<Answer>): Detector
    decreases |answers|
  {
    if answers == [] then d else DetectAll(Detect(d, answers[0]).0, answers[1..])
  }

  /** Whenever two or more queries in a row went unanswered, the next answer of any kind queues a SET. */
  lemma {:induction false} OutageQueuesSet(d: Detector, lost: seq<Answer>, a: Answer)
    requires d.connected && a != Unreachable
    requires |lost| >= 2 && forall i :: 0 <= i < |lost| ==> lost[i] == Unreachable
    ensures Detect(DetectAll(d, lost), a).1
  {
    OutageRaisesFlag(d, lost);
  }

  lemma {:induction false} OutageRaisesFlag(d: Detector, lost: seq<Answer>)
    requires d.connected && forall i :: 0 <= i < |lost| ==> lost[i] == Unreachable
    ensures var e := DetectAll(d, lost); e.connected && (d.reset || (lost != [] && d.losses + |lost| >= 2) ==> e.reset)
    decreases |lost|
  {
    if lost != [] {
      OutageRaisesFlag(Detect(d, lost[0]).0, lost[1..]);
    }
  }

  class EventPusher {
    var instances: map<string, Announced>
    var queue: seq<Event>
    var detector: Detector

    constructor ()
      ensures instances == map[] && queue == [] && detector == QUIET
    {
      instances := map[];
      queue := [];
      detector := QUIET;
    }

    method Update(n: Notice)
      modifies `instances, `queue
      ensures instances == Remember(old(instances), n)
      ensures queue == old(queue) + (var e := EventFor(old(instances), n); if e.Some? then [e.value] else [])
    {
      if n.note == Ready {
        instances := instances[n.job := n.ins];
        queue := queue + [Add(n.ins)];
      } else if n.note == Separated {
        if n.job in instances {
          instances := instances - {n.job};
        } else {
          assert instances - {n.job} == instances;
          return;
        }
        queue := queue + [Del(n.ins)];
      }
    }

    /** One turn of the consumer thread on a non-empty queue. */
    method Consume() returns (m: Option<Message>)
      requires queue != []
      modifies `queue
      ensures queue == old(queue)[1..]
      ensures m == Prepare(instances, old(queue)[0])
    {
      var e := queue[0];
      queue := queue[1..];
      match e {
        case Add(x) => m := Some(Message(ADD, {x}));
        case Del(x) => m := Some(Message(DEL, {x}));
        case Set =>
          var all := instances.Values;
          if exists x :: x in all && x.role.Prefill? {
            m := Some(Message(SET, all));
          } else {
            m := None;
          }
      }
    }

    method PushSet()
      modifies `queue
      ensures queue == old(queue) + [Set]
    {
      queue := queue + [Set];
    }

    /** One iteration of the coordinator heartbeat detector. */
    method HeartbeatTick(a: Answer)
      modifies `queue, `detector
      ensures detector == Detect(old(detector), a).0
      ensures queue == if Detect(old(detector), a).1 then old(queue) + [Set] else old(queue)
    {
      if a == Unreachable {
        if detector.connected {
          detector := detector.(losses := detector.losses + 1);
          if detector.losses >= 2 {
            detector := detector.(reset := true, losses := 0);
          }
        }
      } else {
        detector := detector.(connected := true);
        if a == NotReady {
          detector := detector.(reset := true);
        }
        if detector.reset {
          PushSet();
          detector := detector.(reset := false, losses := 0);
        }
      }
    }
  }
}
