/** MonitorStreamAdapter: a bounded channel between goroutines that send events and goroutines that
    receive them, with a context that can be cancelled. */
module StreamAdapter {
  import opened Models

  /** A *BuildEvent, which may be a nil pointer. */
  datatype Message = Event(text: string) | NilEvent

  /** The argument of SendMsg or RecvMsg: nothing, a value of another type, or a *BuildEvent. */
  datatype Argument = Nothing | OtherType | Pointer(m: Message)

  datatype Result = Nil | StreamClosed | NoMessage | WrongType | EndOfFile | NotAssignable

  /** One step of some goroutine. A call begins with the checks and then waits in its select. */
  datatype Step =
    | BeginSend(i: nat, arg: Argument)
    | Send(i: nat)
    | AbandonSend(i: nat)
    | BeginReceive(j: nat, arg: Argument)
    | Receive(j: nat)
    | AbandonReceive(j: nat)
    | Rendezvous(i: nat, j: nat)
    | Cancel

  /** What a receive returns that took m and was to assign it through target. A nil event reads as the
      end of the stream, and nothing can be assigned through a nil pointer. */
  function Outcome(m: Message, target: Message): Result {
    if m.NilEvent? then EndOfFile else if target.NilEvent? then NotAssignable else Nil
  }

  /** What call j, which waited, makes of message m: a nil event reads as the end of the stream, nothing
      can be assigned through a nil pointer, and otherwise the call returns nil and its value is m. The
      other calls are left alone. */
  predicate Received(
      m: Message, j: nat, waiting: map<nat, Message>, results: map<nat, Result>, values: map<nat, Message>,
      waiting': map<nat, Message>, results': map<nat, Result>, values': map<nat, Message>)
  {
    && j in waiting && waiting' == waiting - {j}
    && if m == NilEvent then results' == results[j := EndOfFile] && values' == values
       else if waiting[j] == NilEvent then results' == results[j := NotAssignable] && values' == values
       else results' == results[j := Nil] && values' == values[j := m]
  }

  predicate Distinct(calls: seq<nat>) {
    forall k, l :: 0 <= k < l < |calls| ==> calls[k] != calls[l]
  }

  /** The k-th message sent is the one call calls[k] was given, and the calls that sent one are those that
      returned nil. offered holds the messages of all calls that passed the checks, waiting those of
      the calls that have not returned. */
  ghost predicate Sends(
      sent: seq<Message>, calls: seq<nat>, offered: map<nat, Message>, waiting: map<nat, Message>, results: map<nat, Result>)
  {
    && |calls| == |sent| && Distinct(calls)
    && (forall k :: 0 <= k < |calls| ==> calls[k] in offered && sent[k] == offered[calls[k]])
    && (forall i :: i in results && results[i].Nil? <==> i in calls)
    && (forall i :: i in waiting ==> i in offered && offered[i] == waiting[i] && i !in results)
    && (forall i :: i in offered ==> i in waiting || i in results)
  }

  /** The k-th message taken went to call calls[k], which returned accordingly and has it if it returned
      nil; nobody else returned nil. targets holds the pointers of all calls that passed the checks,
      values what has been assigned through them. */
  ghost predicate Receives(
      taken: seq<Message>, calls: seq<nat>, targets: map<nat, Message>, waiting: map<nat, Message>,
      results: map<nat, Result>, values: map<nat, Message>)
  {
    && |calls| == |taken| && Distinct(calls)
    && (forall k :: 0 <= k < |calls| ==>
          calls[k] in targets && calls[k] in results && results[calls[k]] == Outcome(taken[k], targets[calls[k]]))
    && (forall k :: 0 <= k < |calls| && results[calls[k]].Nil? ==> calls[k] in values && values[calls[k]] == taken[k])
    && (forall j :: j in results && results[j].Nil? ==> j in calls)
    && (forall j :: j in values ==> j in results && results[j].Nil?)
    && (forall j :: j in waiting ==> j in targets && targets[j] == waiting[j] && j !in results)
    && (forall j :: j in targets ==> j in waiting || j in results)
  }

  class Adapter {
    const capacity: nat
    var buffer: seq<Message>
    var cancelled: bool
    /** the calls that wait in their select */
    var senders: map<nat, Message>
    var receivers: map<nat, Message>
    /** how calls have returned, and what receives have assigned */
    var sendResults: map<nat, Result>
    var receiveResults: map<nat, Result>
    var values: map<nat, Message>
    /** what has entered and left the channel, by which calls, and what these had been given */
    ghost var sent: seq<Message>
    ghost var sentBy: seq<nat>
    ghost var offered: map<nat, Message>
    ghost var taken: seq<Message>
    ghost var takenBy: seq<nat>
    ghost var targets: map<nat, Message>

    ghost predicate Valid() reads this {
      && |buffer| <= capacity
      && sent == taken + buffer
      && SendSide() && ReceiveSide()
    }

    ghost predicate SendSide()
      reads this`sent, this`sentBy, this`offered, this`senders, this`sendResults
    {
      Sends(sent, sentBy, offered, senders, sendResults)
    }

    ghost predicate ReceiveSide()
      reads this`taken, this`takenBy, this`targets, this`receivers, this`receiveResults, this`values
    {
      Receives(taken, takenBy, targets, receivers, receiveResults, values)
    }

    constructor (bufmsgs: nat)
      ensures Valid() && capacity == bufmsgs && sent == [] && !cancelled
    {
      capacity := bufmsgs;
      buffer, cancelled, senders, receivers := [], false, map[], map[];
      sendResults, receiveResults, values := map[], map[], map[];
      sent, sentBy, offered, taken, takenBy, targets := [], [], map[], [], [], map[];
    }

    predicate Possible(s: Step) reads this {
      match s
      case BeginSend(i, _) => i !in senders && i !in sendResults
      case Send(i) => i in senders && |buffer| < capacity
      case AbandonSend(i) => i in senders && cancelled
      case BeginReceive(j, _) => j !in receivers && j !in receiveResults
      case Receive(j) => j in receivers && buffer != []
      case AbandonReceive(j) => j in receivers && cancelled
      case Rendezvous(i, j) => i in senders && j in receivers && buffer == []
      case Cancel => true
    }

    /** The result of the checks a call begins with, if it goes no further. */
    function Checks(arg: Argument): (r: Option<Result>)
      reads this
      ensures r != Some(Nil) && (r.None? ==> arg.Pointer?)
    {
      if cancelled then Some(StreamClosed)
      else match arg
        case Nothing => Some(NoMessage)
        case OtherType => Some(WrongType)
        case Pointer(_) => None
    }

    method EnterSend(i: nat, arg: Argument)
      requires SendSide() && i !in senders && i !in sendResults
      modifies this`senders, this`sendResults, this`offered
      ensures SendSide()
      ensures cancelled ==> sendResults == old(sendResults)[i := StreamClosed]
      ensures !cancelled && !arg.Pointer? ==>
                sendResults == old(sendResults)[i := if arg.Nothing? then NoMessage else WrongType]
      ensures !cancelled && arg.Pointer? ==> senders == old(senders)[i := arg.m] && sendResults == old(sendResults)
    {
      var r := Checks(arg);
      if r.Some? {
        sendResults := sendResults[i := r.value];
      } else {
        senders, offered := senders[i := arg.m], offered[i := arg.m];
      }
    }

    /** The channel has accepted the message of call i. */
    method Accept(i: nat)
      requires SendSide() && i in senders
      modifies this`senders, this`sendResults, this`sent, this`sentBy
      ensures SendSide() && sent == old(sent) + [old(senders)[i]] && sentBy == old(sentBy) + [i]
      ensures senders == old(senders) - {i} && sendResults == old(sendResults)[i := Nil]
    {
      Accepted(sent, sentBy, offered, senders, sendResults, i);
      sent, sentBy := sent + [senders[i]], sentBy + [i];
      senders, sendResults := senders - {i}, sendResults[i := Nil];
    }

    method EnterReceive(j: nat, arg: Argument)
      requires ReceiveSide() && j !in receivers && j !in receiveResults
      modifies this`receivers, this`receiveResults, this`targets
      ensures ReceiveSide()
      ensures cancelled ==> receiveResults == old(receiveResults)[j := StreamClosed]
      ensures !cancelled && !arg.Pointer? ==>
                receiveResults == old(receiveResults)[j := if arg.Nothing? then NoMessage else WrongType]
      ensures !cancelled && arg.Pointer? ==>
                receivers == old(receivers)[j := arg.m] && receiveResults == old(receiveResults)
    {
      var r := Checks(arg);
      if r.Some? {
        receiveResults := receiveResults[j := r.value];
      } else {
        receivers, targets := receivers[j := arg.m], targets[j := arg.m];
      }
    }

    /** Call j has got m from the channel. */
    method Take(j: nat, m: Message)
      requires ReceiveSide() && j in receivers
      modifies this`receivers, this`receiveResults, this`values, this`taken, this`takenBy
      ensures ReceiveSide() && taken == old(taken) + [m] && takenBy == old(takenBy) + [j]
      ensures Received(m, j, old(receivers), old(receiveResults), old(values), receivers, receiveResults, values)
    {
      Delivered(taken, takenBy, targets, receivers, receiveResults, values, j, m);
      taken, takenBy := taken + [m], takenBy + [j];
      if m.NilEvent? {
        receiveResults := receiveResults[j := EndOfFile];
      } else if receivers[j].NilEvent? {
        receiveResults := receiveResults[j := NotAssignable];
      } else {
        values := values[j := m];
        receiveResults := receiveResults[j := Nil];
      }
      receivers := receivers - {j};
    }

    method SendStep(i: nat)
      requires Valid() && i in senders && |buffer| < capacity
      modifies this`buffer, this`senders, this`sendResults, this`sent, this`sentBy
      ensures Valid() && buffer == old(buffer) + [old(senders)[i]] && sent == old(sent) + [old(senders)[i]]
      ensures senders == old(senders) - {i} && sendResults == old(sendResults)[i := Nil]
    {
      hide Sends, Receives;
      buffer := buffer + [senders[i]];
      Accept(i);
    }

    method AbandonSendStep(i: nat)
      requires Valid() && i in senders
      modifies this`senders, this`sendResults
      ensures Valid() && senders == old(senders) - {i} && sendResults == old(sendResults)[i := EndOfFile]
    {
      hide Sends, Receives;
      Turned(sent, sentBy, offered, senders, sendResults, i);
      senders, sendResults := senders - {i}, sendResults[i := EndOfFile];
    }

    method ReceiveStep(j: nat)
      requires Valid() && j in receivers && buffer != []
      modifies this`buffer, this`receivers, this`receiveResults, this`values, this`taken, this`takenBy
      ensures Valid() && taken == old(taken) + [old(buffer)[0]] && buffer == old(buffer)[1..]
      ensures Received(old(buffer)[0], j, old(receivers), old(receiveResults), old(values), receivers, receiveResults, values)
    {
      hide Sends, Receives;
      var m := buffer[0];
      assert taken + buffer == (taken + [m]) + buffer[1..];
      buffer := buffer[1..];
      Take(j, m);
    }

    method AbandonReceiveStep(j: nat)
      requires Valid() && j in receivers
      modifies this`receivers, this`receiveResults
      ensures Valid() && receivers == old(receivers) - {j} && receiveResults == old(receiveResults)[j := EndOfFile]
    {
      hide Sends, Receives;
      GaveUp(taken, takenBy, targets, receivers, receiveResults, values, j);
      receivers, receiveResults := receivers - {j}, receiveResults[j := EndOfFile];
    }

    method RendezvousStep(i: nat, j: nat)
      requires Valid() && i in senders && j in receivers && buffer == []
      modifies this`senders, this`sendResults, this`sent, this`sentBy, this`receivers, this`receiveResults, this`values,
        this`taken, this`takenBy
      ensures Valid() && sent == old(sent) + [old(senders)[i]] && taken == old(taken) + [old(senders)[i]]
      ensures senders == old(senders) - {i} && sendResults == old(sendResults)[i := Nil]
      ensures Received(old(senders)[i], j, old(receivers), old(receiveResults), old(values), receivers, receiveResults, values)
    {
      hide Sends, Receives;
      var m := senders[i];
      Accept(i);
      Take(j, m);
    }

    method Do(s: Step)
      requires Valid() && Possible(s)
      modifies this
      ensures Valid() && old(sent) <= sent && old(taken) <= taken
      ensures cancelled == (old(cancelled) || s.Cancel?)
      // a send appends its message and returns nil; a receive takes the oldest; a rendezvous does both
      ensures buffer == if s.Send? then old(buffer) + [old(senders)[s.i]]
                        else if s.Receive? then old(buffer)[1..] else old(buffer)
      ensures sent == if s.Send? || s.Rendezvous? then old(sent) + [old(senders)[s.i]] else old(sent)
      ensures taken == if s.Receive? then old(taken) + [old(buffer)[0]]
                       else if s.Rendezvous? then old(taken) + [old(senders)[s.i]] else old(taken)
      ensures s.Send? || s.Rendezvous? ==>
                sendResults == old(sendResults)[s.i := Nil] && senders == old(senders) - {s.i}
      ensures s.Receive? || s.Rendezvous? ==>
                Received(taken[|taken| - 1], s.j, old(receivers), old(receiveResults), old(values),
                         receivers, receiveResults, values)
      ensures s.AbandonSend? ==> sendResults == old(sendResults)[s.i := EndOfFile]
      ensures s.AbandonReceive? ==> receiveResults == old(receiveResults)[s.j := EndOfFile]
    {
      hide SendSide, ReceiveSide, Received;
      match s {
        case BeginSend(i, arg) => EnterSend(i, arg);
        case Send(i) => SendStep(i);
        case AbandonSend(i) => AbandonSendStep(i);
        case BeginReceive(j, arg) => EnterReceive(j, arg);
        case Receive(j) => ReceiveStep(j);
        case AbandonReceive(j) => AbandonReceiveStep(j);
        case Rendezvous(i, j) => RendezvousStep(i, j);
        case Cancel => cancelled := true;
      }
    }

    /** A sender that waits can go on exactly when the stream is cancelled, there is room, or somebody
        waits to receive from the empty buffer; a receiver when the stream is cancelled, something is
        buffered, or somebody waits to send. */
    lemma {:induction false} GoesOnExactly(i: nat, j: nat)
      requires Valid()
      ensures i in senders ==>
                ((Possible(Send(i)) || Possible(AbandonSend(i)) || exists k :: Possible(Rendezvous(i, k))) <==>
                 cancelled || |buffer| < capacity || (buffer == [] && |receivers| > 0))
      ensures j in receivers ==>
                ((Possible(Receive(j)) || Possible(AbandonReceive(j)) || exists k :: Possible(Rendezvous(k, j))) <==>
                 cancelled || |buffer| > 0 || |senders| > 0)
    {
      if |receivers| > 0 && i in senders && buffer == [] {
        var k :| k in receivers;
        assert Possible(Rendezvous(i, k));
      }
      if |senders| > 0 && j in receivers && buffer == [] {
        var k :| k in senders;
        assert Possible(Rendezvous(k, j));
      }
    }

    /** Any interleaving of senders, receivers and cancellation. What the sends that returned nil were
        given is what has been taken followed by what is buffered, in order, and no more than the
        capacity is buffered. A receive that returned nil holds the message it took; a message that
        was taken is with such a receive unless it is a nil event or the receive had a nil pointer. */
    method Interleave(schedule: seq<Step>)
      requires Valid()
      modifies this
      ensures Valid() && old(sent) <= sent && old(taken) <= taken
      ensures sent == taken + buffer && |buffer| <= capacity
      ensures Sends(sent, sentBy, offered, senders, sendResults)
      ensures Receives(taken, takenBy, targets, receivers, receiveResults, values)
    {
      hide Sends, Receives;
      for k := 0 to |schedule|
        invariant Valid() && old(sent) <= sent && old(taken) <= taken
      {
        if Possible(schedule[k]) {
          Do(schedule[k]);
        }
      }
    }
  }

  lemma {:induction false} Accepted(
      sent: seq<Message>, calls: seq<nat>, offered: map<nat, Message>, waiting: map<nat, Message>,
      results: map<nat, Result>, i: nat)
    requires Sends(sent, calls, offered, waiting, results) && i in waiting
    ensures Sends(sent + [waiting[i]], calls + [i], offered, waiting - {i}, results[i := Nil])
  {
  }

  lemma {:induction false} Turned(
      sent: seq<Message>, calls: seq<nat>, offered: map<nat, Message>, waiting: map<nat, Message>,
      results: map<nat, Result>, i: nat)
    requires Sends(sent, calls, offered, waiting, results) && i in waiting
    ensures Sends(sent, calls, offered, waiting - {i}, results[i := EndOfFile])
  {
  }

  lemma {:induction false} Delivered(
      taken: seq<Message>, calls: seq<nat>, targets: map<nat, Message>, waiting: map<nat, Message>,
      results: map<nat, Result>, values: map<nat, Message>, j: nat, m: Message)
    requires Receives(taken, calls, targets, waiting, results, values) && j in waiting
    ensures var r := Outcome(m, waiting[j]);
            Receives(taken + [m], calls + [j], targets, waiting - {j}, results[j := r],
                     if r.Nil? then values[j := m] else values)
  {
  }

  lemma {:induction false} GaveUp(
      taken: seq<Message>, calls: seq<nat>, targets: map<nat, Message>, waiting: map<nat, Message>,
      results: map<nat, Result>, values: map<nat, Message>, j: nat)
    requires Receives(taken, calls, targets, waiting, results, values) && j in waiting
    ensures Receives(taken, calls, targets, waiting - {j}, results[j := EndOfFile], values)
  {
  }

  /** The channel hands messages on one to one: the k-th message taken is the one the k-th successful
      send was given, so two receives never get the message of the same send. */
  lemma {:induction false} OneToOne(a: Adapter, k: nat, l: nat)
    requires a.Valid() && k < |a.taken| && l < |a.taken| && k != l
    ensures k < |a.sentBy| && a.sentBy[k] in a.offered && a.taken[k] == a.offered[a.sentBy[k]]
    ensures a.sentBy[k] != a.sentBy[l] && a.takenBy[k] != a.takenBy[l]
    ensures a.takenBy[k] in a.receiveResults
    ensures a.receiveResults[a.takenBy[k]].Nil? ==>
              a.takenBy[k] in a.values && a.values[a.takenBy[k]] == a.offered[a.sentBy[k]]
  {
    assert a.sent[k] == a.taken[k];
    assert Distinct(a.sentBy) && Distinct(a.takenBy);
    if k > l {
      assert a.sentBy[l] != a.sentBy[k] && a.takenBy[l] != a.takenBy[k];
    }
  }
}
