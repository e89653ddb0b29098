/**
  The DDS participant as the wrapper sees it: a graph of live entities, with the
  creation rules and the deletion preconditions of OMG DDS 1.4
  (sections 2.2.2.2.1, 2.2.2.4.1 and 2.2.2.5.2). Handles are never reused.
*/
module Dds {

  type Handle = nat

  const NIL: Handle := 0

  datatype ReturnCode =
    | RETCODE_OK
    | RETCODE_ERROR
    | RETCODE_PRECONDITION_NOT_MET
    | RETCODE_ALREADY_DELETED

  datatype ReaderQos = ReaderQos(policies: int, minimumSeparation: nat)

  /** Publisher and subscriber QoS: the partition list and everything else. */
  datatype GroupQos = GroupQos(partition: seq<string>, policies: int)

  datatype Entity =
    | Topic(name: string, listener: nat)
    | FilteredTopic(name: string, related: Handle, expression: string)
    | Publisher(groupQos: GroupQos)
    | Subscriber(groupQos: GroupQos)
    | Writer(publisher: Handle, topic: Handle, listener: nat, writerQos: int)
    | Reader(subscriber: Handle, description: Handle, listener: nat, readerQos: ReaderQos)
  {
    predicate IsDescription() {
      Topic? || FilteredTopic?
    }

    predicate HasListener() {
      Topic? || Writer? || Reader?
    }

    /** This entity keeps h from being deleted. */
    predicate RefersTo(h: Handle) {
      match this
      case Topic(_, _) => false
      case FilteredTopic(_, related, _) => related == h
      case Publisher(_) => false
      case Subscriber(_) => false
      case Writer(publisher, topic, _, _) => publisher == h || topic == h
      case Reader(subscriber, description, _, _) => subscriber == h || description == h
    }
  }

  /** loans holds the readers whose taken samples have not been returned. */
  datatype Participant = Participant(entities: map<Handle, Entity>, next: Handle, loans: set<Handle>)
  {
    predicate Named(h: Handle, name: string) {
      h in entities && entities[h].IsDescription() && entities[h].name == name
    }

    predicate NameInUse(name: string) {
      exists h :: h in entities && Named(h, name)
    }

    predicate Referenced(h: Handle) {
      exists x :: x in entities && entities[x].RefersTo(h)
    }

    /** Every reference points at a live entity of the right kind. */
    predicate WellReferenced(e: Entity) {
      match e
      case Topic(_, _) => true
      case FilteredTopic(_, related, _) => related in entities && entities[related].Topic?
      case Publisher(_) => true
      case Subscriber(_) => true
      case Writer(publisher, topic, _, _) =>
        && publisher in entities && entities[publisher].Publisher?
        && topic in entities && entities[topic].Topic?
      case Reader(subscriber, description, _, _) =>
        && subscriber in entities && entities[subscriber].Subscriber?
        && description in entities && entities[description].IsDescription()
    }

    ghost predicate NamesUnique() {
      forall h, k, name :: Named(h, name) && Named(k, name) ==> h == k
    }

    ghost predicate Valid() {
      && 0 < next
      && (forall h :: h in entities ==> 0 < h < next)
      && (forall h {:trigger WellReferenced(entities[h])} :: h in entities ==> WellReferenced(entities[h]))
      && NamesUnique()
      && (forall h :: h in loans ==> h in entities && entities[h].Reader?)
    }

    // ---- creation: NIL when the service refuses ----

    function Add(e: Entity): Participant {
      Participant(entities[next := e], next + 1, loans)
    }

    function CreateTopic(name: string, listener: nat, accept: bool): (Participant, Handle) {
      if accept && !NameInUse(name) then (Add(Topic(name, listener)), next) else (this, NIL)
    }

    function CreateFilteredTopic(name: string, related: Handle, expression: string, accept: bool): (Participant, Handle) {
      var e := FilteredTopic(name, related, expression);
      if accept && !NameInUse(name) && WellReferenced(e) then (Add(e), next) else (this, NIL)
    }

    function CreatePublisher(qos: GroupQos, accept: bool): (Participant, Handle) {
      if accept then (Add(Publisher(qos)), next) else (this, NIL)
    }

    function CreateSubscriber(qos: GroupQos, accept: bool): (Participant, Handle) {
      if accept then (Add(Subscriber(qos)), next) else (this, NIL)
    }

    function CreateWriter(publisher: Handle, topic: Handle, listener: nat, qos: int, accept: bool): (Participant, Handle) {
      var e := Writer(publisher, topic, listener, qos);
      if accept && WellReferenced(e) then (Add(e), next) else (this, NIL)
    }

    function CreateReader(subscriber: Handle, description: Handle, listener: nat, qos: ReaderQos, accept: bool)
      : (Participant, Handle)
    {
      var e := Reader(subscriber, description, listener, qos);
      if accept && WellReferenced(e) then (Add(e), next) else (this, NIL)
    }

    // ---- deletion ----

    /** Any delete_* call: refused while a dependant lives or a loan is out. */
    function Delete(h: Handle): (Participant, ReturnCode) {
      if h !in entities then (this, RETCODE_ALREADY_DELETED)
      else if Referenced(h) || h in loans then (this, RETCODE_PRECONDITION_NOT_MET)
      else (this.(entities := entities - {h}), RETCODE_OK)
    }

    /** delete_datareader on a given subscriber: the reader must belong to it. */
    function DeleteReader(subscriber: Handle, h: Handle): (Participant, ReturnCode) {
      if h in entities && !(entities[h].Reader? && entities[h].subscriber == subscriber)
      then (this, RETCODE_PRECONDITION_NOT_MET)
      else Delete(h)
    }

    // ---- set_qos and loans; a deleted entity ignores both ----

    function SetReaderQos(h: Handle, qos: ReaderQos): Participant {
      if h in entities && entities[h].Reader?
      then this.(entities := entities[h := entities[h].(readerQos := qos)]) else this
    }

    function SetWriterQos(h: Handle, qos: int): Participant {
      if h in entities && entities[h].Writer?
      then this.(entities := entities[h := entities[h].(writerQos := qos)]) else this
    }

    function SetGroupQos(h: Handle, qos: GroupQos): Participant {
      if h in entities && (entities[h].Publisher? || entities[h].Subscriber?)
      then this.(entities := entities[h := entities[h].(groupQos := qos)]) else this
    }

    function Take(h: Handle): Participant {
      if h in entities && entities[h].Reader? then this.(loans := loans + {h}) else this
    }

    function ReturnLoan(h: Handle): Participant {
      this.(loans := loans - {h})
    }
  }

  const EMPTY_PARTICIPANT := Participant(map[], 1, {})

  lemma AddIsValid(p: Participant, e: Entity)
    requires p.Valid() && p.WellReferenced(e)
    requires e.IsDescription() ==> !p.NameInUse(e.name)
    ensures p.Add(e).Valid()
  {
    var q := p.Add(e);
    forall h | h in q.entities ensures q.WellReferenced(q.entities[h]) {
      assert p.WellReferenced(q.entities[h]);
    }
    forall h, k, name | q.Named(h, name) && q.Named(k, name) ensures h == k {
      assert h != p.next ==> p.Named(h, name);
      assert k != p.next ==> p.Named(k, name);
    }
  }

  lemma DeleteIsValid(p: Participant, h: Handle)
    requires p.Valid()
    ensures p.Delete(h).0.Valid()
  {
    var q := p.Delete(h).0;
    if q != p {
      forall x | x in q.entities ensures q.WellReferenced(q.entities[x]) {
        assert p.WellReferenced(p.entities[x]) && !p.entities[x].RefersTo(h);
      }
      forall x, k, name | q.Named(x, name) && q.Named(k, name) ensures x == k {
        assert p.Named(x, name) && p.Named(k, name);
      }
    }
  }

  /** A change of QoS keeps the graph. */
  ghost predicate SameGraph(p: Participant, q: Participant) {
    && p.next == q.next && p.loans == q.loans && p.entities.Keys == q.entities.Keys
    && forall h :: h in p.entities ==> SameShape(p.entities[h], q.entities[h])
  }

  /** Equal up to QoS. */
  predicate SameShape(e: Entity, f: Entity) {
    match e
    case Topic(_, _) => e == f
    case FilteredTopic(_, _, _) => e == f
    case Publisher(_) => f.Publisher?
    case Subscriber(_) => f.Subscriber?
    case Writer(publisher, topic, listener, _) =>
      f.Writer? && f.publisher == publisher && f.topic == topic && f.listener == listener
    case Reader(subscriber, description, listener, _) =>
      f.Reader? && f.subscriber == subscriber && f.description == description && f.listener == listener
  }

  lemma SameGraphIsValid(p: Participant, q: Participant)
    requires p.Valid() && SameGraph(p, q)
    ensures q.Valid()
  {
    forall h | h in q.entities ensures q.WellReferenced(q.entities[h]) {
      assert SameShape(p.entities[h], q.entities[h]) && p.WellReferenced(p.entities[h]);
    }
    forall x, k, name | q.Named(x, name) && q.Named(k, name) ensures x == k {
      assert SameShape(p.entities[x], q.entities[x]) && SameShape(p.entities[k], q.entities[k]);
      assert p.Named(x, name) && p.Named(k, name);
    }
    assert forall h :: h in p.entities ==> SameShape(p.entities[h], q.entities[h]);
  }
}
