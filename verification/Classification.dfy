/** Once a message has begun, its kind and its receiver stay what they are. */
module Classification {
  import opened Bytes
  import opened MultiplexerSpec
  import opened Queues
  import opened Invariants
  import opened Correlation
  import Parser = ParserSpec

  /** What may happen between two reads of one message, while the connection lives. */
  datatype Interference =
    | Adding(e: Elem)
    | Removing(id: nat)
    | CancellingWaiting
    | PreparingWrite
    | CommittingWrite
    | Arriving(data: bytes)

  ghost predicate Allowed(s: Mpx, i: Interference) {
    match i
    case Adding(e) => e == MakeElem(e.id, e.req) && Count(Everyone(s), e.id) == 0
    case Removing(id) => InQueue(s, id)
    case _ => true
  }

  ghost function Interfere(s: Mpx, i: Interference): (t: Mpx)
    requires Allowed(s, i)
  {
    match i
    case Adding(e) => Add(s, e)
    case Removing(id) => Remove(s, id)
    case CancellingWaiting => CancelWaiting(s)
    case PreparingWrite => PrepareWrite(s)
    case CommittingWrite => CommitWrite(s)
    case Arriving(data) => Append(s, data)
  }

  ghost predicate AllAllowed(s: Mpx, steps: seq<Interference>)
    decreases |steps|
  {
    steps == [] || (Allowed(s, steps[0]) && AllAllowed(Interfere(s, steps[0]), steps[1..]))
  }

  ghost function InterfereAll(s: Mpx, steps: seq<Interference>): (t: Mpx)
    requires AllAllowed(s, steps)
    decreases |steps|
  {
    if steps == [] then s else InterfereAll(Interfere(s, steps[0]), steps[1..])
  }

  /** Where the message in the read buffer goes: a reply slot, or the receiver of pushes. */
  function Destination(s: Mpx): (d: Option<Slot>)
    requires s.readBuffer != []
  {
    if s.onPush || IsNextPush(s) then None else Some(Slot(s.queue[0].id, s.queue[0].Index()))
  }

  /** The message has begun: as a push, which the flag records, or as a reply. */
  predicate Begun(s: Mpx) {
    s.readBuffer != [] && (s.onPush || Destination(s).Some?)
  }

  lemma {:induction false} SelectFirst(q: seq<Elem>, f: Elem -> bool)
    requires q != [] && f(q[0])
    ensures Select(q, f) != [] && Select(q, f)[0] == q[0]
  {
    assert q == [q[0]] + q[1..];
    SelectAppend([q[0]], q[1..], f);
    assert [q[0]][..0] == [];
    assert Select([q[0]], f) == [q[0]];
  }

  lemma {:induction false} FrontStays(s: Mpx, i: Interference)
    requires Wf(s) && Allowed(s, i)
    requires s.queue != [] && !s.queue[0].IsWaiting() && s.queue[0].remaining > 0
    ensures
      var t := Interfere(s, i);
      && t.queue != [] && !t.queue[0].IsWaiting()
      && t.queue[0].id == s.queue[0].id && t.queue[0].req == s.queue[0].req
      && t.queue[0].remaining == s.queue[0].remaining
  {
    hide Select, Count, Everyone;
    var front := s.queue[0];
    assert QueuedOk(front);
    match i {
      case Adding(e) =>
        AddShape(s, e);
        AddIs(s, e);
        LeadIs(s.queue);
      case Removing(id) =>
        assert IndexOf(s.queue, id) == 0 ==> Remove(s, id) == s;
      case CancellingWaiting =>
        SelectFirst(s.queue, IsActive);
      case PreparingWrite =>
        LeadIs(s.queue);
      case CommittingWrite =>
        SelectFirst(MapElems(s.queue, MarkWritten), IsRetained);
      case Arriving(_) =>
    }
  }

  lemma {:induction false} InterfereKeeps(s: Mpx, i: Interference)
    requires Wf(s) && Allowed(s, i)
    ensures Wf(Interfere(s, i))
  {
    hide Wf;
    match i
    case Adding(e) => AddKeeps(s, e);
    case Removing(id) => RemoveKeeps(s, id);
    case CancellingWaiting => CancelWaitingKeeps(s);
    case PreparingWrite => PrepareWriteKeeps(s);
    case CommittingWrite => CommitWriteKeeps(s);
    case Arriving(data) => AppendKeeps(s, data);
  }

  lemma {:induction false} StepKeepsDestination(s: Mpx, i: Interference)
    requires Wf(s) && Begun(s) && Allowed(s, i)
    ensures Begun(Interfere(s, i)) && Destination(Interfere(s, i)) == Destination(s)
    ensures Interfere(s, i).onPush == s.onPush && Interfere(s, i).parser == s.parser
    ensures s.readBuffer <= Interfere(s, i).readBuffer
  {
    hide Wf, Select, MapElems, Stagings, Depart;
    var t := Interfere(s, i);
    assert t.onPush == s.onPush && t.parser == s.parser && s.readBuffer <= t.readBuffer;
    if !s.onPush {
      FrontStays(s, i);
    }
  }

  /** A read that asks for more leaves a message that has begun, for the receiver it began with. */
  lemma {:induction false} ReadBegins(s: Mpx, fault: Option<Parser.Fault>)
    requires Wf(s) && s.readBuffer != [] && CommitRead(s, fault).read.NeedMore?
    ensures Begun(CommitRead(s, fault).mpx) && Destination(CommitRead(s, fault).mpx) == Destination(s)
  {
    hide Parser.Parse, Deliver;
  }

  /** Classification is stable.  Whatever interleaving of other operations happens while a message is
      incomplete, the rest of it is read as the same kind and handed to the same reply slot. */
  lemma {:induction false} KindIsStable(s: Mpx, steps: seq<Interference>)
    requires Wf(s) && Begun(s) && AllAllowed(s, steps)
    ensures Wf(InterfereAll(s, steps)) && Begun(InterfereAll(s, steps))
    ensures Destination(InterfereAll(s, steps)) == Destination(s)
    ensures InterfereAll(s, steps).onPush == s.onPush && InterfereAll(s, steps).parser == s.parser
    ensures s.readBuffer <= InterfereAll(s, steps).readBuffer
    decreases |steps|
  {
    hide Wf, Begun, Destination, Interfere;
    if steps != [] {
      var t := Interfere(s, steps[0]);
      InterfereKeeps(s, steps[0]);
      StepKeepsDestination(s, steps[0]);
      KindIsStable(t, steps[1..]);
    }
  }
}
