/** The processes that wait for a build to run or to end: ListenForBuildRunning and
    ListenForBuildCompleted, any number of calls, beside the build protocol.

    A connection of the listen pool is taken to carry only the registration of the call that holds it. */
module Observers {
  import opened Models
  import opened Lifecycle
  import opened LifecycleSafety
  import opened Abandonment
  import opened Wire

  // ---------- The calls ----------

  datatype Kind = ForRunning | ForCompleted

  /** How a call returns: nil, nil with a status, or an error. */
  datatype Result = Nil | Ended(status: BuildStatus) | Error

  /** queue holds the payloads the call's connection has received. */
  datatype Pc = ReadDone | Subscribed(queue: seq<string>) | Returned(result: Result)

  datatype Observer = Observer(kind: Kind, pc: Pc)

  /** The build under observation, id, and the calls. */
  datatype World = World(core: State, calls: map<nat, Observer>)

  /** Core is a step of the build protocol, Foreign a notification some other build's id causes. */
  datatype Move =
    | Core(l: Label)
    | Foreign(ch: Channel, other: Uuid, payload: string)
    | Read(i: nat, kind: Kind)
    | Listen(i: nat, ok: bool)
    | Wake(i: nat)
    | GiveUp(i: nat)

  function ChannelOf(k: Kind): Channel {
    match k
    case ForRunning => RunningChannel
    case ForCompleted => CompletedChannel
  }

  /** The channel and payload of the NOTIFY that a protocol step commits. */
  function Notification(l: Label): Option<(Channel, string)> {
    match Written(l)
    case Some(st) =>
      if st.Running? then Some((RunningChannel, "running"))
      else if st.CancelRequested? then Some((CancelChannel, "cancel"))
      else Some((CompletedChannel, Itoa(Code(st))))
    case None =>
      if l.AddWrite? && l.w.Committed() then Some((EventChannel, l.event)) else None
  }

  /** The statement that sends it. */
  function Statement(l: Label, id: Uuid): string
    requires Notification(l).Some?
  {
    var (ch, payload) := Notification(l).value;
    NotifyStatement(ChannelName(ch, id), Quote(payload))
  }

  /** What the read of the row tells a call. */
  function OnRead(k: Kind, s: BuildStatus): Pc {
    match k
    case ForRunning =>
      if s.Running? then Returned(Nil) else if s.NotStarted? then ReadDone else Returned(Error)
    case ForCompleted =>
      if TerminalState(s) then Returned(Ended(s))
      else if s.Running? || s.NotStarted? then ReadDone
      else Returned(Error)
  }

  /** What a received payload tells a call. */
  function OnPayload(k: Kind, payload: string): Result {
    match k
    case ForRunning => Nil
    case ForCompleted =>
      match Atoi(payload)
      case Some(n) => if TerminalState(FromCode(n)) then Ended(FromCode(n)) else Error
      case None => Error
  }

  /** PostgreSQL hands a notification to the connections that listen on the named channel. */
  function Deliver(o: Observer, id: Uuid, n: Option<(string, string)>): Observer {
    if o.pc.Subscribed? && n.Some? && n.value.0 == ChannelName(ChannelOf(o.kind), id)
    then o.(pc := Subscribed(o.pc.queue + [n.value.1])) else o
  }

  function DeliverAll(calls: map<nat, Observer>, id: Uuid, n: Option<(string, string)>): map<nat, Observer> {
    map i | i in calls :: Deliver(calls[i], id, n)
  }

  function Sent(m: Move, id: Uuid): Option<(string, string)> {
    match m
    case Core(l) => if Notification(l).Some? then ParseNotify(Statement(l, id)) else None
    case Foreign(ch, other, payload) => ParseNotify(NotifyStatement(ChannelName(ch, other), Quote(payload)))
    case _ => None
  }

  predicate CanMove(w: World, id: Uuid, m: Move) {
    match m
    case Core(l) => Enabled(w.core, l)
    case Foreign(_, other, _) => other != id
    case Read(i, _) => i !in w.calls
    case Listen(i, _) => i in w.calls && w.calls[i].pc.ReadDone?
    case Wake(i) => i in w.calls && w.calls[i].pc.Subscribed? && w.calls[i].pc.queue != []
    case GiveUp(i) => i in w.calls && w.calls[i].pc.Subscribed?
  }

  function Moved(w: World, id: Uuid, m: Move): World
    requires CanMove(w, id, m)
  {
    match m
    case Core(l) => World(Apply(w.core, l), DeliverAll(w.calls, id, Sent(m, id)))
    case Foreign(_, _, _) => w.(calls := DeliverAll(w.calls, id, Sent(m, id)))
    case Read(i, k) => w.(calls := w.calls[i := Observer(k, OnRead(k, w.core.row.status))])
    case Listen(i, ok) =>
      w.(calls := w.calls[i := w.calls[i].(pc := if ok then Subscribed([]) else Returned(Error))])
    case Wake(i) =>
      w.(calls := w.calls[i := w.calls[i].(pc := Returned(OnPayload(w.calls[i].kind, w.calls[i].pc.queue[0])))])
    case GiveUp(i) => w.(calls := w.calls[i := w.calls[i].(pc := Returned(Error))])
  }

  /** Where a sequence of moves leads to. */
  function Reached(id: Uuid, ms: seq<Move>): World {
    if ms == [] then World(INIT, map[])
    else
      var w := Reached(id, Front(ms));
      if CanMove(w, id, Last(ms)) then Moved(w, id, Last(ms)) else w
  }

  predicate IsHistory(id: Uuid, ms: seq<Move>) {
    ms == [] || (IsHistory(id, Front(ms)) && CanMove(Reached(id, Front(ms)), id, Last(ms)))
  }

  lemma {:induction false} PrefixIsHistory(id: Uuid, ms: seq<Move>, k: nat)
    requires IsHistory(id, ms) && k <= |ms|
    ensures IsHistory(id, ms[..k])
  {
    if k == |ms| {
      assert ms[..k] == ms;
    } else {
      PrefixIsHistory(id, Front(ms), k);
      assert Front(ms)[..k] == ms[..k];
    }
  }

  lemma {:induction false} StepOfHistory(id: Uuid, ms: seq<Move>, k: nat)
    requires IsHistory(id, ms) && k < |ms|
    ensures IsHistory(id, ms[..k]) && CanMove(Reached(id, ms[..k]), id, ms[k])
    ensures Reached(id, ms[..k + 1]) == Moved(Reached(id, ms[..k]), id, ms[k])
  {
    PrefixIsHistory(id, ms, k + 1);
    assert Front(ms[..k + 1]) == ms[..k] && Last(ms[..k + 1]) == ms[k];
  }

  /** The status before move k. */
  function Status(id: Uuid, ms: seq<Move>, k: nat): BuildStatus
    requires k <= |ms|
  {
    Reached(id, ms[..k]).core.row.status
  }

  // ---------- The build protocol inside a history ----------

  function Steps(ms: seq<Move>): seq<Label> {
    if ms == [] then []
    else Steps(Front(ms)) + if Last(ms).Core? then [Last(ms).l] else []
  }

  lemma {:induction false} HistoryIsRun(id: Uuid, ms: seq<Move>)
    requires IsHistory(id, ms)
    ensures IsRun(Steps(ms)) && After(Steps(ms)) == Reached(id, ms).core
  {
    hide Apply, Enabled, DeliverAll, Sent;
    if ms != [] {
      HistoryIsRun(id, Front(ms));
      if Last(ms).Core? {
        Extend(Steps(Front(ms)), Last(ms).l);
      } else {
        assert Steps(ms) == Steps(Front(ms));
      }
    }
  }

  // ---------- Delivery ----------

  /** The payloads that a stretch of history sends to the calls of one kind. */
  function Payloads(ms: seq<Move>, k: Kind): seq<string> {
    if ms == [] then []
    else Payloads(Front(ms), k) + PayloadOf(Last(ms), k)
  }

  function PayloadOf(m: Move, k: Kind): seq<string> {
    if m.Core? && Notification(m.l).Some? && Notification(m.l).value.0 == ChannelOf(k)
    then [Notification(m.l).value.1] else []
  }

  /** A listening call receives the notifications of its own build and kind, and no others. */
  lemma {:induction false} DeliveryIsExact(o: Observer, id: Uuid, w: World, m: Move)
    requires CanMove(w, id, m) && o.pc.Subscribed?
    ensures Deliver(o, id, Sent(m, id)) == o.(pc := Subscribed(o.pc.queue + PayloadOf(m, o.kind)))
  {
    match m {
      case Core(l) =>
        if Notification(l).Some? {
          var (ch, payload) := Notification(l).value;
          NotifyDelivers(ch, id, payload);
          if ChannelName(ch, id) == ChannelName(ChannelOf(o.kind), id) {
            ChannelNameInjective(ch, id, ChannelOf(o.kind), id);
          }
        }
      case Foreign(ch, other, payload) =>
        NotifyDelivers(ch, other, payload);
        if ChannelName(ch, other) == ChannelName(ChannelOf(o.kind), id) {
          ChannelNameInjective(ch, other, ChannelOf(o.kind), id);
        }
      case _ =>
    }
    assert o.pc.queue + [] == o.pc.queue;
  }

  /** Call i subscribed at move q and is still waiting. */
  ghost predicate WaitsSince(id: Uuid, ms: seq<Move>, i: nat, q: nat) {
    && q < |ms| && ms[q] == Listen(i, true)
    && i in Reached(id, ms).calls && Reached(id, ms).calls[i].pc.Subscribed?
  }

  /** No wake-up is lost after the LISTEN: the call holds every notification of its build and kind
      since then, in order, and nothing else. */
  lemma {:induction false} QueueIsPayloads(id: Uuid, ms: seq<Move>, i: nat, q: nat)
    requires IsHistory(id, ms) && WaitsSince(id, ms, i, q)
    ensures Reached(id, ms).calls[i].pc.queue == Payloads(ms[q + 1..], Reached(id, ms).calls[i].kind)
  {
    hide Apply, Enabled, Sent, Deliver, OnRead, OnPayload, PayloadOf;
    if q == |ms| - 1 {
      assert ms[q + 1..] == [];
    } else {
      var w := Reached(id, Front(ms));
      StillWaiting(id, ms, i, q);
      QueueIsPayloads(id, Front(ms), i, q);
      assert Front(ms[q + 1..]) == Front(ms)[q + 1..] && Last(ms[q + 1..]) == Last(ms);
      DeliveryIsExact(w.calls[i], id, w, Last(ms));
      QuietMove(id, w, Last(ms), i);
    }
  }

  lemma {:induction false} StillWaiting(id: Uuid, ms: seq<Move>, i: nat, q: nat)
    requires IsHistory(id, ms) && WaitsSince(id, ms, i, q) && q < |ms| - 1
    ensures WaitsSince(id, Front(ms), i, q)
  {
    hide Apply, Enabled, Sent, OnPayload;
    if Last(ms) == Listen(i, true) {
      SubscribedOnce(id, Front(ms), i, q);
    }
  }

  /** A call that has subscribed never gets back to where it would subscribe. */
  lemma {:induction false} SubscribedOnce(id: Uuid, ms: seq<Move>, i: nat, q: nat)
    requires IsHistory(id, ms) && q < |ms| && ms[q] == Listen(i, true)
    ensures i in Reached(id, ms).calls && !Reached(id, ms).calls[i].pc.ReadDone?
  {
    hide Apply, Enabled, Sent, OnRead, OnPayload;
    if q < |ms| - 1 {
      SubscribedOnce(id, Front(ms), i, q);
    }
  }

  /** What a move does to a call that keeps waiting. */
  lemma {:induction false} QuietMove(id: Uuid, w: World, m: Move, i: nat)
    requires CanMove(w, id, m) && i in w.calls && w.calls[i].pc.Subscribed?
    requires i in Moved(w, id, m).calls && Moved(w, id, m).calls[i].pc.Subscribed?
    ensures Moved(w, id, m).calls[i] == Deliver(w.calls[i], id, Sent(m, id))
  {
    hide Apply, Enabled, OnRead, OnPayload;
  }

  // ---------- What wakes a call ----------

  lemma {:induction false} PayloadsEmpty(ms: seq<Move>, k: Kind)
    ensures Payloads(ms, k) == [] <==> forall x :: 0 <= x < |ms| ==> PayloadOf(ms[x], k) == []
  {
    hide PayloadOf;
    if ms != [] {
      PayloadsEmpty(Front(ms), k);
      assert forall x :: 0 <= x < |ms| - 1 ==> Front(ms)[x] == ms[x];
    }
  }

  lemma {:induction false} PayloadsOrigin(ms: seq<Move>, k: Kind, p: string) returns (x: nat)
    requires p in Payloads(ms, k)
    ensures x < |ms| && PayloadOf(ms[x], k) == [p]
  {
    if p in PayloadOf(Last(ms), k) {
      x := |ms| - 1;
    } else {
      x := PayloadsOrigin(Front(ms), k, p);
    }
  }

  lemma {:induction false} PayloadsSince(ms: seq<Move>, q: nat, k: Kind)
    requires q < |ms|
    ensures Payloads(ms[q + 1..], k) != [] <==> exists x :: q < x < |ms| && PayloadOf(ms[x], k) != []
  {
    hide PayloadOf;
    var ns := ms[q + 1..];
    PayloadsEmpty(ns, k);
    if x :| q < x < |ms| && PayloadOf(ms[x], k) != [] {
      assert ns[x - (q + 1)] == ms[x];
    }
    if y :| 0 <= y < |ns| && PayloadOf(ns[y], k) != [] {
      assert ns[y] == ms[y + (q + 1)];
    }
  }

  /** A waiting call can return exactly when a matching write has committed since its LISTEN. */
  lemma {:induction false} WokenExactlyWhenNotified(id: Uuid, ms: seq<Move>, i: nat, q: nat)
    requires IsHistory(id, ms) && WaitsSince(id, ms, i, q)
    ensures CanMove(Reached(id, ms), id, Wake(i)) <==>
            exists x :: q < x < |ms| && PayloadOf(ms[x], Reached(id, ms).calls[i].kind) != []
  {
    hide PayloadOf, IsHistory, Reached;
    QueueIsPayloads(id, ms, i, q);
    PayloadsSince(ms, q, Reached(id, ms).calls[i].kind);
  }

  // ---------- What a return value means ----------

  /** Where a waiting call read the row (r) and where it subscribed (q). */
  lemma {:induction false} OriginOfCall(id: Uuid, ms: seq<Move>, i: nat) returns (r: nat, q: nat)
    requires IsHistory(id, ms) && i in Reached(id, ms).calls
    requires Reached(id, ms).calls[i].pc.Subscribed? || Reached(id, ms).calls[i].pc.ReadDone?
    ensures r < |ms| && ms[r] == Read(i, Reached(id, ms).calls[i].kind)
    ensures OnRead(Reached(id, ms).calls[i].kind, Status(id, ms, r)) == ReadDone
    ensures Reached(id, ms).calls[i].pc.Subscribed? ==> r < q < |ms| && ms[q] == Listen(i, true)
  {
    hide Apply, Enabled, Sent, OnPayload;
    if Last(ms).Read? && Last(ms).i == i {
      r, q := |ms| - 1, 0;
      assert ms[..r] == Front(ms);
    } else {
      r, q := OriginOfCall(id, Front(ms), i);
      assert Front(ms)[..r] == ms[..r];
      if Last(ms) == Listen(i, true) {
        q := |ms| - 1;
      }
    }
  }

  /** The status is the one most recently written, and NotStarted if there is none. */
  lemma {:induction false} LastWriter(id: Uuid, ms: seq<Move>, x: int) returns (y: nat)
    requires IsHistory(id, ms) && -1 <= x < |ms|
    requires !Reached(id, ms).core.row.status.NotStarted?
    requires 0 <= x ==> ms[x].Core? && Written(ms[x].l).Some?
    ensures x <= y < |ms| && ms[y].Core? && Written(ms[y].l) == Some(Reached(id, ms).core.row.status)
  {
    hide Enabled, Sent, OnRead, OnPayload, NextCancels, NextAdds, NextServer, NextRunner;
    if Last(ms).Core? && Written(Last(ms).l).Some? {
      y := |ms| - 1;
    } else {
      y := LastWriter(id, Front(ms), x);
    }
  }

  /** The status a result reports. */
  function Reported(r: Result): BuildStatus
    requires !r.Error?
  {
    if r.Nil? then Running else r.status
  }

  /** A call reports only a status that was committed for this very build, and ListenForBuildCompleted
      only a terminal one. */
  lemma {:induction false} ResultIsSound(id: Uuid, ms: seq<Move>, i: nat) returns (x: nat)
    requires IsHistory(id, ms) && i in Reached(id, ms).calls
    requires var pc := Reached(id, ms).calls[i].pc; pc.Returned? && !pc.result.Error?
    ensures x < |ms| && ms[x].Core?
    ensures var o := Reached(id, ms).calls[i];
            && Written(ms[x].l) == Some(Reported(o.pc.result))
            && (o.kind.ForRunning? <==> o.pc.result.Nil?)
            && (o.kind.ForCompleted? ==> TerminalState(o.pc.result.status))
  {
    hide Apply, Enabled, Sent;
    var m := Last(ms);
    if m.Read? && m.i == i {
      x := LastWriter(id, Front(ms), -1);
    } else if m == Wake(i) {
      x := OriginOfQueued(id, Front(ms), i);
    } else {
      x := ResultIsSound(id, Front(ms), i);
    }
  }

  /** The first payload a waiting call has received, and what the call makes of it. */
  lemma {:induction false} OriginOfQueued(id: Uuid, ms: seq<Move>, i: nat) returns (x: nat)
    requires IsHistory(id, ms) && i in Reached(id, ms).calls
    requires Reached(id, ms).calls[i].pc.Subscribed? && Reached(id, ms).calls[i].pc.queue != []
    ensures x < |ms| && ms[x].Core? && Written(ms[x].l).Some?
    ensures var o := Reached(id, ms).calls[i];
            && (o.kind.ForRunning? ==> Written(ms[x].l).value.Running?)
            && (o.kind.ForCompleted? ==> TerminalState(Written(ms[x].l).value))
            && OnPayload(o.kind, o.pc.queue[0]) ==
                 if o.kind.ForRunning? then Nil else Ended(Written(ms[x].l).value)
  {
    hide PayloadOf, OnPayload, Reached, IsHistory, Payloads;
    var o := Reached(id, ms).calls[i];
    var _, q := OriginOfCall(id, ms, i);
    QueueIsPayloads(id, ms, i, q);
    var y := PayloadsOrigin(ms[q + 1..], o.kind, o.pc.queue[0]);
    x := q + 1 + y;
    assert ms[x] == ms[q + 1..][y];
    PayloadMeaning(o.kind, ms[x]);
  }

  /** The payload of a notification tells the status that was written. */
  lemma {:induction false} PayloadMeaning(k: Kind, m: Move)
    requires PayloadOf(m, k) != []
    ensures m.Core? && Written(m.l).Some?
    ensures OnPayload(k, PayloadOf(m, k)[0]) ==
            match k
            case ForRunning => Nil
            case ForCompleted => Ended(Written(m.l).value)
    ensures k.ForRunning? ==> Written(m.l).value.Running?
    ensures k.ForCompleted? ==> TerminalState(Written(m.l).value)
  {
    hide Atoi, Itoa, FromCode, Code;
    StatusLiteral(Written(m.l).value);
  }

  // ---------- What a call makes of the row ----------

  /** The statuses on which a call of kind k goes on to wait. */
  predicate Awaits(k: Kind, s: BuildStatus) {
    s == NotStarted || (k == ForCompleted && s == Running)
  }

  /** A call that reads that the build runs, or has ended, has its answer at once and for good; where it
      can wait for one it does, and any other status is an error. */
  lemma {:induction false} AnsweredAtOnce(id: Uuid, ms: seq<Move>, i: nat, r: nat)
    requires IsHistory(id, ms) && r < |ms| && ms[r].Read? && ms[r].i == i
    ensures i in Reached(id, ms).calls && Reached(id, ms).calls[i].kind == ms[r].kind
    ensures var s, pc := Status(id, ms, r), Reached(id, ms).calls[i].pc;
            && (ms[r].kind == ForRunning && s == Running ==> pc == Returned(Nil))
            && (ms[r].kind == ForCompleted && HasEnded(s) ==> pc == Returned(Ended(s)))
            && (ms[r].kind == ForRunning && s != Running && !Awaits(ForRunning, s) ==> pc == Returned(Error))
            && (ms[r].kind == ForCompleted && !HasEnded(s) && !Awaits(ForCompleted, s) ==> pc == Returned(Error))
            && (Awaits(ms[r].kind, s) && |ms| == r + 1 ==> pc == ReadDone)
  {
    hide Apply, Enabled, Sent, OnPayload;
    if r == |ms| - 1 {
      assert ms[..r] == Front(ms);
    } else {
      AnsweredAtOnce(id, Front(ms), i, r);
      assert Front(ms)[..r] == ms[..r];
    }
  }

  /** A call reports an error only if it was given up, its LISTEN failed, or it read a status on which it
      neither has an answer nor can wait for one. */
  lemma {:induction false} ErrorHasCause(id: Uuid, ms: seq<Move>, i: nat) returns (x: nat)
    requires IsHistory(id, ms) && i in Reached(id, ms).calls && Reached(id, ms).calls[i].pc == Returned(Error)
    ensures x < |ms|
    ensures var k := Reached(id, ms).calls[i].kind;
            || ms[x] == GiveUp(i) || ms[x] == Listen(i, false)
            || (ms[x] == Read(i, k) && !Awaits(k, Status(id, ms, x))
                && if k == ForRunning then Status(id, ms, x) != Running else !HasEnded(Status(id, ms, x)))
  {
    hide Apply, Enabled, Sent, OnPayload;
    assert ms[..|ms| - 1] == Front(ms);
    var m := Last(ms);
    if m == GiveUp(i) || m == Listen(i, false) || (m.Read? && m.i == i) {
      x := |ms| - 1;
    } else if m == Wake(i) {
      NoErrorFromPayload(id, Front(ms), i);
      assert false;
    } else {
      x := ErrorHasCause(id, Front(ms), i);
      assert Front(ms)[..x] == ms[..x];
    }
  }

  /** A call about to listen either waits or fails, and one that waits may be given up. */
  lemma {:induction false} ListensOrFails(id: Uuid, ms: seq<Move>, i: nat)
    requires IsHistory(id, ms) && i in Reached(id, ms).calls
    ensures Reached(id, ms).calls[i].pc == ReadDone ==>
              && IsHistory(id, ms + [Listen(i, true)]) && IsHistory(id, ms + [Listen(i, false)])
              && i in Reached(id, ms + [Listen(i, true)]).calls && i in Reached(id, ms + [Listen(i, false)]).calls
              && Reached(id, ms + [Listen(i, true)]).calls[i].pc == Subscribed([])
              && Reached(id, ms + [Listen(i, false)]).calls[i].pc == Returned(Error)
    ensures Reached(id, ms).calls[i].pc.Subscribed? ==>
              && IsHistory(id, ms + [GiveUp(i)]) && i in Reached(id, ms + [GiveUp(i)]).calls
              && Reached(id, ms + [GiveUp(i)]).calls[i].pc == Returned(Error)
  {
    hide IsHistory, Reached;
    if Reached(id, ms).calls[i].pc == ReadDone {
      var l := Next(id, ms, Listen(i, true));
      var f := Next(id, ms, Listen(i, false));
    } else if Reached(id, ms).calls[i].pc.Subscribed? {
      var g := Next(id, ms, GiveUp(i));
    }
  }

  /** A ListenForBuildRunning that has been notified returns nil when it is woken. */
  lemma {:induction false} WokenIsNil(id: Uuid, ms: seq<Move>, i: nat)
    requires IsHistory(id, ms) && i in Reached(id, ms).calls && Reached(id, ms).calls[i].kind.ForRunning?
    requires Reached(id, ms).calls[i].pc.Subscribed? && Reached(id, ms).calls[i].pc.queue != []
    ensures IsHistory(id, ms + [Wake(i)]) && i in Reached(id, ms + [Wake(i)]).calls
    ensures Reached(id, ms + [Wake(i)]).calls[i].pc == Returned(Nil)
  {
    hide IsHistory, Reached;
    var r := Next(id, ms, Wake(i));
  }

  lemma {:induction false} NoErrorFromPayload(id: Uuid, ms: seq<Move>, i: nat)
    requires IsHistory(id, ms) && i in Reached(id, ms).calls
    requires Reached(id, ms).calls[i].pc.Subscribed? && Reached(id, ms).calls[i].pc.queue != []
    ensures OnPayload(Reached(id, ms).calls[i].kind, Reached(id, ms).calls[i].pc.queue[0]) != Error
  {
    hide OnPayload, IsHistory, Reached;
    var x := OriginOfQueued(id, ms, i);
  }

  // ---------- What a call can miss ----------

  /** A waiting call that has received nothing has missed a matching write only if the write fell
      between its read of the row and its LISTEN, or if, before that read, a runner that was past its
      check had set an ended build back to Running. */
  lemma {:induction false} MissedOnlyInWindow(id: Uuid, ms: seq<Move>, i: nat, x: nat)
    requires IsHistory(id, ms) && i in Reached(id, ms).calls
    requires Reached(id, ms).calls[i].pc == Subscribed([])
    requires x < |ms| && PayloadOf(ms[x], Reached(id, ms).calls[i].kind) != []
    ensures exists r: nat, q: nat ::
              && r < q < |ms| && ms[r].Read? && ms[r].i == i && ms[q] == Listen(i, true)
              && x < q
              && (x < r ==> exists y :: x < y < r && ms[y].Core? && Written(ms[y].l) == Some(Running))
  {
    hide Apply, Enabled, Sent, OnPayload, PayloadOf, IsHistory, Reached, Written;
    var k := Reached(id, ms).calls[i].kind;
    var r, q := OriginOfCall(id, ms, i);
    QueueIsPayloads(id, ms, i, q);
    PayloadsSince(ms, q, k);
    PayloadMeaning(k, ms[x]);
    if x < r {
      var y := OverwrittenByRunning(id, ms, k, x, r);
    }
  }

  /** A read that sends a call waiting, after a matching write, has seen Running written in between. */
  lemma {:induction false} OverwrittenByRunning(id: Uuid, ms: seq<Move>, k: Kind, x: nat, r: nat) returns (y: nat)
    requires IsHistory(id, ms) && x < r < |ms| && PayloadOf(ms[x], k) != []
    requires OnRead(k, Status(id, ms, r)) == ReadDone
    ensures x < y < r && ms[y].Core? && Written(ms[y].l) == Some(Running)
  {
    hide IsHistory, Reached, OnPayload;
    PayloadMeaning(k, ms[x]);
    PrefixIsHistory(id, ms, r);
    assert ms[..r][x] == ms[x];
    NotStartedMeansUnwritten(id, ms[..r], x);
    y := LastWriter(id, ms[..r], x);
    assert ms[..r][y] == ms[y];
  }

  lemma {:induction false} NotStartedMeansUnwritten(id: Uuid, ms: seq<Move>, x: nat)
    requires IsHistory(id, ms) && x < |ms| && ms[x].Core? && Written(ms[x].l).Some?
    ensures !Reached(id, ms).core.row.status.NotStarted?
  {
    hide Enabled, Sent, OnRead, OnPayload, NextCancels, NextAdds, NextServer, NextRunner;
    if x < |ms| - 1 {
      NotStartedMeansUnwritten(id, Front(ms), x);
    }
  }

  // ---------- Whether a waiting call can still return a status ----------

  /** If no verdict is to come, a call that has received none waits until it is given up. */
  lemma {:induction false} MissedEndIsMissedForever(id: Uuid, ms: seq<Move>, ns: seq<Move>, i: nat)
    requires IsHistory(id, ms + ns) && i in Reached(id, ms).calls
    requires Reached(id, ms).calls[i] == Observer(ForCompleted, Subscribed([]))
    requires NoVerdictToCome(Reached(id, ms).core)
    ensures NoVerdictToCome(Reached(id, ms + ns).core) && i in Reached(id, ms + ns).calls
    ensures var pc := Reached(id, ms + ns).calls[i].pc; pc == Subscribed([]) || pc == Returned(Error)
    ensures Reached(id, ms + ns).calls[i].kind.ForCompleted?
  {
    hide NoVerdictToCome, Enabled, Apply, Sent;
    if ns == [] {
      assert ms + ns == ms;
    } else {
      assert Front(ms + ns) == ms + Front(ns) && Last(ms + ns) == Last(ns);
      MissedEndIsMissedForever(id, ms, Front(ns), i);
      CoreInv(id, ms + Front(ns));
      MissedStep(id, Reached(id, ms + Front(ns)), Last(ns), i);
    }
  }

  lemma {:induction false} CoreInv(id: Uuid, ms: seq<Move>)
    requires IsHistory(id, ms)
    ensures Inv(Reached(id, ms).core)
  {
    hide IsHistory, Reached, Inv;
    HistoryIsRun(id, ms);
    RunsKeepInv(Steps(ms));
  }

  lemma {:induction false} MissedStep(id: Uuid, w: World, m: Move, i: nat)
    requires Inv(w.core) && CanMove(w, id, m) && i in w.calls && NoVerdictToCome(w.core)
    requires w.calls[i].kind.ForCompleted?
    requires w.calls[i].pc == Subscribed([]) || w.calls[i].pc == Returned(Error)
    ensures var v := Moved(w, id, m);
            && NoVerdictToCome(v.core) && i in v.calls && v.calls[i].kind.ForCompleted?
            && (v.calls[i].pc == Subscribed([]) || v.calls[i].pc == Returned(Error))
  {
    hide Apply, Enabled, Sent, OnPayload, NoVerdictToCome, Inv, WritesVerdict;
    if m.Core? {
      NoVerdictStep(w.core, m.l);
    }
    if w.calls[i].pc.Subscribed? {
      DeliveryIsExact(w.calls[i], id, w, m);
      OnlyVerdictsNotify(m);
    }
  }

  lemma {:induction false} OnlyVerdictsNotify(m: Move)
    ensures PayloadOf(m, ForCompleted) != [] <==> m.Core? && WritesVerdict(m.l)
  {
  }

  /** A protocol step, as a waiting call sees it. */
  lemma {:induction false} Witnessed(id: Uuid, ms: seq<Move>, l: Label, i: nat) returns (r: seq<Move>)
    requires IsHistory(id, ms) && Enabled(Reached(id, ms).core, l)
    requires i in Reached(id, ms).calls && Reached(id, ms).calls[i].pc.Subscribed?
    ensures r == ms + [Core(l)] && IsHistory(id, r)
    ensures Reached(id, r).core == Apply(Reached(id, ms).core, l) && i in Reached(id, r).calls
    ensures var o := Reached(id, ms).calls[i];
            Reached(id, r).calls[i] == o.(pc := Subscribed(o.pc.queue + PayloadOf(Core(l), o.kind)))
  {
    hide Apply, Enabled, Sent, IsHistory, Reached, PayloadOf, Deliver;
    r := Next(id, ms, Core(l));
    DeliveryIsExact(Reached(id, ms).calls[i], id, Reached(id, ms), Core(l));
  }

  /** Call i has returned a status. */
  ghost predicate HasReturned(id: Uuid, ms: seq<Move>, i: nat) {
    && IsHistory(id, ms) && i in Reached(id, ms).calls
    && Reached(id, ms).calls[i].pc.Returned? && Reached(id, ms).calls[i].pc.result.Ended?
  }

  lemma {:induction false} Woken(id: Uuid, ms: seq<Move>, i: nat)
    requires IsHistory(id, ms) && i in Reached(id, ms).calls && Reached(id, ms).calls[i].kind.ForCompleted?
    requires Reached(id, ms).calls[i].pc.Subscribed? && Reached(id, ms).calls[i].pc.queue != []
    ensures HasReturned(id, ms + [Wake(i)], i)
  {
    hide OnPayload, IsHistory, Reached;
    var r := Next(id, ms, Wake(i));
    var x := OriginOfQueued(id, ms, i);
  }

  /** A continuation in which the call returns the status of the build's end. */
  lemma {:induction false} WayToReturn(id: Uuid, ms: seq<Move>, i: nat) returns (ns: seq<Move>)
    requires IsHistory(id, ms) && i in Reached(id, ms).calls
    requires Reached(id, ms).calls[i].kind.ForCompleted? && Reached(id, ms).calls[i].pc.Subscribed?
    requires Reached(id, ms).calls[i].pc.queue != [] || !NoVerdictToCome(Reached(id, ms).core)
    ensures HasReturned(id, ms + ns, i)
    decreases if Reached(id, ms).calls[i].pc.queue != [] then 0 else Distance(Reached(id, ms).core) + 1
  {
    hide IsHistory, Reached, Apply, Enabled, NoVerdictToCome, Onwards, HasReturned, PayloadOf, WritesVerdict, Inv;
    var w := Reached(id, ms);
    if w.calls[i].pc.queue != [] {
      Woken(id, ms, i);
      ns := [Wake(i)];
    } else {
      var l := Onwards(w.core);
      CoreInv(id, ms);
      OnwardsStep(w.core);
      var r := Witnessed(id, ms, l, i);
      OnlyVerdictsNotify(Core(l));
      var rest := WayToReturn(id, r, i);
      ns := [Core(l)] + rest;
      assert ms + ns == r + rest;
    }
  }

  /** A waiting ListenForBuildCompleted that has received nothing can still return a status exactly
      unless no verdict is to come for its build. */
  lemma {:induction false} ReturnsExactlyUnlessOver(id: Uuid, ms: seq<Move>, i: nat)
    requires IsHistory(id, ms) && i in Reached(id, ms).calls
    requires Reached(id, ms).calls[i] == Observer(ForCompleted, Subscribed([]))
    ensures !NoVerdictToCome(Reached(id, ms).core) <==> exists ns :: HasReturned(id, ms + ns, i)
  {
    hide NoVerdictToCome, IsHistory, Reached;
    if NoVerdictToCome(Reached(id, ms).core) {
      forall ns ensures !HasReturned(id, ms + ns, i) {
        if HasReturned(id, ms + ns, i) {
          MissedEndIsMissedForever(id, ms, ns, i);
        }
      }
    } else {
      var ns := WayToReturn(id, ms, i);
    }
  }

  lemma {:induction false} Next(id: Uuid, ms: seq<Move>, m: Move) returns (r: seq<Move>)
    requires IsHistory(id, ms) && CanMove(Reached(id, ms), id, m)
    ensures r == ms + [m] && IsHistory(id, r) && Reached(id, r) == Moved(Reached(id, ms), id, m)
  {
    r := ms + [m];
    assert Front(r) == ms && Last(r) == m;
  }

  lemma {:induction false} NextCore(id: Uuid, ms: seq<Move>, l: Label) returns (r: seq<Move>)
    requires IsHistory(id, ms) && Enabled(Reached(id, ms).core, l)
    requires forall i :: i in Reached(id, ms).calls ==> !Reached(id, ms).calls[i].pc.Subscribed?
    ensures r == ms + [Core(l)] && IsHistory(id, r)
    ensures Reached(id, r) == World(Apply(Reached(id, ms).core, l), Reached(id, ms).calls)
  {
    hide Apply, Enabled, Sent, IsHistory, Reached;
    r := Next(id, ms, Core(l));
    assert DeliverAll(Reached(id, ms).calls, id, Sent(Core(l), id)) == Reached(id, ms).calls;
  }

  /** The job cannot be created, and the server writes Failure. */
  lemma {:induction false} FailedStart() returns (s: State, t: State)
    ensures Enabled(INIT, JobStarted(false, 0)) && s == Apply(INIT, JobStarted(false, 0)) && s.row.status.NotStarted?
    ensures Enabled(s, FailureWrite(Acked)) && t == Apply(s, FailureWrite(Acked))
    ensures Quiescent(t) && NoVerdictToCome(t)
  {
    s := Apply(INIT, JobStarted(false, 0));
    t := Apply(s, FailureWrite(Acked));
  }

  /** The call has read the row and is about to listen. */
  lemma {:induction false} AboutToListen(id: Uuid, s: State) returns (ms: seq<Move>)
    requires Enabled(INIT, JobStarted(false, 0)) && s == Apply(INIT, JobStarted(false, 0)) && s.row.status.NotStarted?
    ensures IsHistory(id, ms) && Reached(id, ms) == World(s, map[0 := Observer(ForCompleted, ReadDone)])
  {
    assert IsHistory(id, []) && Reached(id, []) == World(INIT, map[]);
    hide IsHistory, Reached, Sent, Apply, Enabled;
    ms := NextCore(id, [], JobStarted(false, 0));
    ms := Next(id, ms, Read(0, ForCompleted));
  }

  /** The window exists: the build fails while the call is between its read and its LISTEN. */
  lemma {:induction false} EndCanBeMissed(id: Uuid) returns (ms: seq<Move>)
    ensures IsHistory(id, ms) && Quiescent(Reached(id, ms).core) && NoVerdictToCome(Reached(id, ms).core)
    ensures Reached(id, ms).calls == map[0 := Observer(ForCompleted, Subscribed([]))]
  {
    var s, t := FailedStart();
    hide IsHistory, Reached, Sent, Apply, Enabled, Quiescent, NoVerdictToCome;
    ms := AboutToListen(id, s);
    ms := NextCore(id, ms, FailureWrite(Acked));
    ms := Next(id, ms, Listen(0, true));
  }
}
