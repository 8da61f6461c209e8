/** One MonitorBuild call beside the build protocol: it replays the events in the row, then forwards
    those that PostgreSQL notifies it of. */
module Monitor {
  import opened Models
  import opened Lifecycle
  import opened Wire
  import Observers

  /** The goroutine that runs ListenForBuildEvents. queue is what its connection has received, event
      what it is about to hand to the forwarding goroutine. */
  datatype Source =
    | Absent
    | Started
    | Allowed
    | Subscribed(queue: seq<string>)
    | Offering(event: string, queue: seq<string>)
    | Ended

  /** The goroutine that sends on the gRPC stream. */
  datatype Forwarder = Ready | Sending(event: string) | Gone

  datatype Phase = Unread | Replaying(snapshot: seq<string>, status: BuildStatus) | Following | Over

  /** received is what the client has got, of which the first replayed came from the row, and closed
      says that the closing message followed. since is the length of the log at the LISTEN. */
  datatype Call = Call(
    phase: Phase,
    received: seq<string>,
    replayed: nat,
    closed: bool,
    source: Source,
    forwarder: Forwarder,
    since: nat)

  const NEW_CALL := Call(Unread, [], 0, false, Absent, Ready, 0)

  datatype World = World(core: State, call: Call)

  datatype Move =
    | Core(l: Label)
    | ReadRow
    | Replay(ok: bool)
    | Close(ok: bool)
    | Follow
    | SourceRead(ok: bool)
    | SourceListen(ok: bool)
    | SourceTakes
    | SourceFails
    | HandOver
    | Forward(ok: bool)
    | Return

  /** The event a protocol step delivers to a connection that listens for events of build id. */
  function Delivered(l: Label, id: Uuid): seq<string> {
    if Observers.Notification(l).None? then []
    else match ParseNotify(Observers.Statement(l, id))
      case Some((name, payload)) => if name == ChannelName(EventChannel, id) then [payload] else []
      case None => []
  }

  /** The event a protocol step appends to the row. */
  function Appended(l: Label): seq<string> {
    if l.AddWrite? && l.w.Committed() then [l.event] else []
  }

  predicate CanMove(w: World, m: Move) {
    var c := w.call;
    match m
    case Core(l) => Enabled(w.core, l)
    case ReadRow => c.phase.Unread?
    case Replay(_) => c.phase.Replaying? && |c.received| < |c.phase.snapshot|
    case Close(_) =>
      c.phase.Replaying? && |c.received| == |c.phase.snapshot| && TerminalState(c.phase.status)
    case Follow =>
      c.phase.Replaying? && |c.received| == |c.phase.snapshot| && !TerminalState(c.phase.status)
    case SourceRead(_) => c.phase.Following? && c.source.Started?
    case SourceListen(_) => c.phase.Following? && c.source.Allowed?
    case SourceTakes => c.phase.Following? && c.source.Subscribed? && c.source.queue != []
    case SourceFails => c.phase.Following? && (c.source.Subscribed? || c.source.Offering?)
    case HandOver => c.phase.Following? && c.source.Offering? && c.forwarder.Ready?
    case Forward(_) => (c.phase.Following? || c.phase.Over?) && c.forwarder.Sending?
    case Return => c.phase.Following?
  }

  function Queued(s: Source, events: seq<string>): Source {
    match s
    case Subscribed(q) => Subscribed(q + events)
    case Offering(e, q) => Offering(e, q + events)
    case _ => s
  }

  function Moved(w: World, id: Uuid, m: Move): World
    requires CanMove(w, m)
  {
    var c := w.call;
    match m
    case Core(l) => World(Apply(w.core, l), c.(source := Queued(c.source, Delivered(l, id))))
    case ReadRow => w.(call := c.(phase := Replaying(w.core.row.events, w.core.row.status)))
    case Replay(ok) =>
      w.(call := if ok then c.(received := c.received + [c.phase.snapshot[|c.received|]])
                 else c.(phase := Over, replayed := |c.received|))
    case Close(ok) => w.(call := c.(phase := Over, replayed := |c.received|, closed := ok))
    case Follow => w.(call := c.(phase := Following, replayed := |c.received|, source := Started))
    case SourceRead(ok) =>
      w.(call := c.(source := if ok && EventListenable(w.core.row.status) then Allowed else Ended))
    case SourceListen(ok) =>
      w.(call := if ok then c.(source := Subscribed([]), since := |w.core.row.events|)
                 else c.(source := Ended))
    case SourceTakes => w.(call := c.(source := Offering(c.source.queue[0], c.source.queue[1..])))
    case SourceFails => w.(call := c.(source := Ended))
    case HandOver => w.(call := c.(source := Subscribed(c.source.queue), forwarder := Sending(c.source.event)))
    case Forward(ok) =>
      w.(call := if ok then c.(received := c.received + [c.forwarder.event], forwarder := Ready)
                 else c.(forwarder := Gone))
    case Return => w.(call := c.(phase := Over))
  }

  function Reached(id: Uuid, ms: seq<Move>): World {
    if ms == [] then World(INIT, NEW_CALL)
    else
      var w := Reached(id, Front(ms));
      if CanMove(w, Last(ms)) then Moved(w, id, Last(ms)) else w
  }

  predicate IsHistory(id: Uuid, ms: seq<Move>) {
    ms == [] || (IsHistory(id, Front(ms)) && CanMove(Reached(id, Front(ms)), Last(ms)))
  }

  // ---------- Notified is appended ----------

  /** The payloads notified on a build's event channel are the events appended to its row. */
  lemma {:induction false} NotifiedIsAppended(l: Label, id: Uuid)
    ensures Delivered(l, id) == Appended(l)
  {
    hide ParseNotify, NotifyStatement, ChannelName, Quote, Itoa;
    if Observers.Notification(l).Some? {
      var (ch, payload) := Observers.Notification(l).value;
      NotifyDelivers(ch, id, payload);
      if ChannelName(ch, id) == ChannelName(EventChannel, id) {
        ChannelNameInjective(ch, id, EventChannel, id);
      }
    }
  }

  lemma {:induction false} LogGrows(s: State, l: Label)
    ensures Apply(s, l).row.events == s.row.events + Appended(l)
  {
    assert s.row.events + [] == s.row.events;
  }

  // ---------- What the client has received ----------

  /** Received from the notifications, and still on the way: with the forwarder, with the source, and
      in the queue of the connection. */
  function Live(c: Call): seq<string>
    requires c.replayed <= |c.received|
  {
    c.received[c.replayed..]
  }

  function InForwarder(c: Call): seq<string> {
    if c.forwarder.Sending? then [c.forwarder.event] else []
  }

  function InSource(c: Call): seq<string> {
    match c.source
    case Subscribed(q) => q
    case Offering(e, q) => [e] + q
    case _ => []
  }

  predicate Connected(s: Source) { s.Subscribed? || s.Offering? }

  /** After the replay: what has come from notifications is a block of the log that starts at since. */
  ghost predicate StreamInv(c: Call, log: seq<string>) {
    && c.replayed <= |c.received| && c.replayed <= |log| && c.since <= |log|
    && c.received[..c.replayed] == log[..c.replayed]
    && (c.closed ==> c.phase.Over? && c.source.Absent?)
    && (c.source.Absent? || c.source.Started? || c.source.Allowed? ==> Live(c) == [] && c.forwarder.Ready?)
    && (Live(c) + InForwarder(c) != [] || Connected(c.source) ==> c.replayed <= c.since)
    && Live(c) + InForwarder(c) <= log[c.since..]
    && (Connected(c.source) && !c.forwarder.Gone? ==>
          Live(c) + InForwarder(c) + InSource(c) == log[c.since..])
  }

  ghost predicate Inv(w: World) {
    var c, log := w.call, w.core.row.events;
    match c.phase
    case Unread => c == NEW_CALL
    case Replaying(snapshot, _) =>
      && snapshot <= log && c.received <= snapshot
      && c.replayed == 0 && c.source.Absent? && c.forwarder.Ready? && !c.closed && c.since == 0
    case _ => StreamInv(c, log)
  }

  lemma {:induction false} GrowthKeepsStreamInv(c: Call, log: seq<string>, more: seq<string>)
    requires StreamInv(c, log)
    ensures StreamInv(c.(source := Queued(c.source, more)), log + more)
  {
    var d := c.(source := Queued(c.source, more));
    var known, tail := Live(c) + InForwarder(c), log[c.since..];
    assert Live(d) + InForwarder(d) == known;
    assert Connected(c.source) ==> InSource(d) == InSource(c) + more;
    hide Live, InForwarder, InSource;
    GrownLog(log, more, c.since, c.replayed);
    if Connected(c.source) && !c.forwarder.Gone? {
      assert known + (InSource(c) + more) == (known + InSource(c)) + more;
    }
  }

  lemma {:induction false} GrownLog(log: seq<string>, more: seq<string>, since: nat, replayed: nat)
    requires since <= |log| && replayed <= |log|
    ensures (log + more)[since..] == log[since..] + more
    ensures (log + more)[..replayed] == log[..replayed]
  {
  }

  lemma {:induction false} CoreKeepsInv(id: Uuid, w: World, l: Label)
    requires Inv(w) && CanMove(w, Core(l))
    ensures Inv(Moved(w, id, Core(l)))
  {
    hide Apply, Enabled, Delivered, Appended, StreamInv;
    NotifiedIsAppended(l, id);
    LogGrows(w.core, l);
    if !w.call.phase.Unread? && !w.call.phase.Replaying? {
      GrowthKeepsStreamInv(w.call, w.core.row.events, Appended(l));
    }
  }

  lemma {:induction false} ReplayKeepsInv(id: Uuid, w: World, m: Move)
    requires Inv(w) && CanMove(w, m) && (m.ReadRow? || m.Replay? || m.Close? || m.Follow?)
    ensures Inv(Moved(w, id, m))
  {
    var c, v := w.call, Moved(w, id, m);
    if m == Replay(true) {
      assert v.call.received == c.phase.snapshot[..|c.received| + 1];
    } else if !m.ReadRow? {
      assert Live(v.call) == [];
    }
  }

  lemma {:induction false} SourceKeepsInv(id: Uuid, w: World, m: Move)
    requires Inv(w) && CanMove(w, m) && w.call.phase.Following? && !m.Core? && !m.Forward? && !m.HandOver?
    ensures Inv(Moved(w, id, m))
  {
    var c, v := w.call, Moved(w, id, m);
    assert Live(v.call) == Live(c) && InForwarder(v.call) == InForwarder(c);
    if m.SourceTakes? {
      assert InSource(v.call) == InSource(c);
    }
  }

  lemma {:induction false} ForwardingKeepsInv(id: Uuid, w: World, m: Move)
    requires Inv(w) && CanMove(w, m) && (m.Forward? || m.HandOver?)
    ensures Inv(Moved(w, id, m))
  {
    var c, v := w.call, Moved(w, id, m);
    if m.HandOver? {
      assert InSource(c) == InForwarder(v.call) + InSource(v.call);
      assert Live(c) + [] == Live(v.call);
    } else if m.ok {
      assert v.call.received[..c.replayed] == c.received[..c.replayed];
      assert Live(v.call) + [] == Live(c) + [c.forwarder.event];
    } else {
      assert Live(v.call) <= Live(c) + InForwarder(c);
      assert Live(v.call) + [] == Live(c);
    }
  }

  lemma {:induction false} HistoriesKeepInv(id: Uuid, ms: seq<Move>)
    requires IsHistory(id, ms)
    ensures Inv(Reached(id, ms))
  {
    hide Inv, Moved;
    if ms == [] {
      NewCallInv();
    } else {
      var w := Reached(id, Front(ms));
      HistoriesKeepInv(id, Front(ms));
      if Last(ms).Core? {
        CoreKeepsInv(id, w, Last(ms).l);
      } else if Last(ms).Forward? || Last(ms).HandOver? {
        ForwardingKeepsInv(id, w, Last(ms));
      } else if w.call.phase.Following? {
        SourceKeepsInv(id, w, Last(ms));
      } else {
        ReplayKeepsInv(id, w, Last(ms));
      }
    }
  }

  lemma {:induction false} NewCallInv()
    ensures Inv(World(INIT, NEW_CALL))
  {
  }

  /** The first k events of the log, and then those from m up to p. */
  predicate PrefixAndBlock(received: seq<string>, log: seq<string>, k: nat, m: nat, p: nat) {
    k <= m <= p <= |log| && received == log[..k] + log[m..p]
  }

  lemma {:induction false} PrefixOnly(received: seq<string>, log: seq<string>)
    requires received <= log
    ensures PrefixAndBlock(received, log, |received|, |log|, |log|)
  {
    assert received == log[..|received|] + log[|log|..|log|];
  }

  lemma {:induction false} PrefixAndLive(c: Call, log: seq<string>) returns (m: nat, p: nat)
    requires StreamInv(c, log)
    ensures PrefixAndBlock(c.received, log, c.replayed, m, p) && (c.closed ==> m == p)
  {
    hide InForwarder, InSource;
    var live := Live(c);
    assert live + InForwarder(c) == log[c.since..][..|live + InForwarder(c)|];
    assert c.received == c.received[..c.replayed] + live;
    if live == [] {
      m, p := c.replayed, c.replayed;
    } else {
      m, p := c.since, c.since + |live|;
      assert live == (live + InForwarder(c))[..|live|] == log[c.since..p];
    }
  }

  // ---------- What the replay was of ----------

  /** The row before move r. */
  function RowAt(id: Uuid, ms: seq<Move>, r: nat): Row
    requires r <= |ms|
  {
    Reached(id, ms[..r]).core.row
  }

  /** The call replays the row it has read. */
  lemma {:induction false} OriginOfReplay(id: Uuid, ms: seq<Move>) returns (r: nat)
    requires IsHistory(id, ms) && Reached(id, ms).call.phase.Replaying?
    ensures r < |ms| && ms[r] == ReadRow
    ensures Reached(id, ms).call.phase == Replaying(RowAt(id, ms, r).events, RowAt(id, ms, r).status)
  {
    hide Apply, Enabled, Delivered;
    assert ms[..|ms| - 1] == Front(ms);
    if Last(ms).ReadRow? {
      r := |ms| - 1;
    } else {
      r := OriginOfReplay(id, Front(ms));
      assert Front(ms)[..r] == ms[..r];
    }
  }

  /** A call that has begun to follow, or has closed, had replayed exactly the row it read: it follows a
      build that had not ended then, and closes on one that had. */
  lemma {:induction false} ReplayedIsRow(id: Uuid, ms: seq<Move>) returns (r: nat)
    requires IsHistory(id, ms)
    requires !Reached(id, ms).call.source.Absent? || Reached(id, ms).call.closed
    ensures r < |ms| && ms[r] == ReadRow
    ensures Reached(id, ms).call.replayed == |RowAt(id, ms, r).events|
    ensures Reached(id, ms).call.closed <==> HasEnded(RowAt(id, ms, r).status)
  {
    hide Apply, Enabled, Delivered, RowAt, IsHistory, Reached, Inv, Moved, CanMove;
    LastMove(id, ms);
    HistoriesKeepInv(id, Front(ms));
    SameReplay(id, Reached(id, Front(ms)), Last(ms));
    if Last(ms).Follow? || Last(ms).Close? {
      r := OriginOfReplay(id, Front(ms));
    } else {
      r := ReplayedIsRow(id, Front(ms));
    }
    SameRow(id, ms, r);
  }

  lemma {:induction false} LastMove(id: Uuid, ms: seq<Move>)
    requires IsHistory(id, ms)
    ensures ms == [] ==> Reached(id, ms).call == NEW_CALL
    ensures ms != [] ==> IsHistory(id, Front(ms)) && CanMove(Reached(id, Front(ms)), Last(ms))
                         && Reached(id, ms) == Moved(Reached(id, Front(ms)), id, Last(ms))
  {
    hide Moved, CanMove;
  }

  /** A call begins to follow, or closes, with one move, which tells how much was replayed; no other move
      changes any of it. */
  lemma {:induction false} SameReplay(id: Uuid, w: World, m: Move)
    requires Inv(w) && CanMove(w, m)
    ensures var c, d := w.call, Moved(w, id, m).call;
            if m.Follow? || m.Close? then
              && c.phase.Replaying? && c.source.Absent? && !c.closed && d.replayed == |c.phase.snapshot|
              && (m.Close? ==> d.source.Absent? && HasEnded(c.phase.status))
              && (m.Follow? ==> !d.closed && !HasEnded(c.phase.status))
            else
              (!d.source.Absent? || d.closed ==>
                 (!c.source.Absent? || c.closed) && d.replayed == c.replayed && (d.closed <==> c.closed))
  {
    hide Apply, Enabled, Delivered;
  }

  lemma {:induction false} SameRow(id: Uuid, ms: seq<Move>, r: nat)
    requires r < |ms|
    ensures RowAt(id, Front(ms), r) == RowAt(id, ms, r)
  {
    assert Front(ms)[..r] == ms[..r];
  }

  /** Where the source has subscribed, and how long the log was then. */
  lemma {:induction false} OriginOfSince(id: Uuid, ms: seq<Move>) returns (q: nat)
    requires IsHistory(id, ms) && Connected(Reached(id, ms).call.source)
    ensures q < |ms| && ms[q] == SourceListen(true)
    ensures Reached(id, ms).call.since == |RowAt(id, ms, q).events|
  {
    hide Apply, Enabled, Delivered;
    if Last(ms).SourceListen? {
      q := |ms| - 1;
      assert ms[..q] == Front(ms);
    } else {
      q := OriginOfSince(id, Front(ms));
      assert Front(ms)[..q] == ms[..q];
    }
  }

  /** The client has got the first k events because the row held them when it was read. */
  ghost predicate ReadWith(id: Uuid, ms: seq<Move>, k: nat) {
    exists r: nat :: r < |ms| && ms[r] == ReadRow && k == |RowAt(id, ms, r).events|
  }

  /** Whatever happens, a client receives a prefix of the log and then, from a later point of the log,
      a contiguous block: nothing twice, nothing out of order, nothing that is not in the log. Once the
      call follows or has closed, the prefix is the row as it was read. */
  lemma {:induction false} StreamOrder(id: Uuid, ms: seq<Move>)
    requires IsHistory(id, ms)
    ensures var c, log := Reached(id, ms).call, Reached(id, ms).core.row.events;
            exists k: nat, m: nat, p: nat ::
              && PrefixAndBlock(c.received, log, k, m, p) && (c.closed ==> m == p)
              && (!c.source.Absent? || c.closed ==> ReadWith(id, ms, k))
  {
    HistoriesKeepInv(id, ms);
    hide IsHistory, Reached, StreamInv, PrefixAndBlock, RowAt;
    var c, log := Reached(id, ms).call, Reached(id, ms).core.row.events;
    if c.phase.Unread? || c.phase.Replaying? {
      PrefixOnly(c.received, log);
    } else {
      var m, p := PrefixAndLive(c, log);
      if !c.source.Absent? || c.closed {
        var r := ReplayedIsRow(id, ms);
      }
    }
  }

  lemma {:induction false} SendsSnapshot(id: Uuid, ms: seq<Move>)
    requires IsHistory(id, ms) && Reached(id, ms).call.phase.Replaying?
    ensures |Reached(id, ms).call.received| <= |Reached(id, ms).call.phase.snapshot|
  {
    hide IsHistory, Reached, StreamInv;
    HistoriesKeepInv(id, ms);
  }

  /** How many events of the row have yet to be sent. */
  function Unsent(c: Call): nat {
    if c.phase.Replaying? && |c.received| < |c.phase.snapshot| then |c.phase.snapshot| - |c.received| else 0
  }

  lemma {:induction false} SendOne(id: Uuid, ms: seq<Move>) returns (r: seq<Move>)
    requires IsHistory(id, ms) && Reached(id, ms).call.phase.Replaying?
    requires Unsent(Reached(id, ms).call) > 0
    ensures r == ms + [Replay(true)] && IsHistory(id, r)
    ensures Reached(id, r).call.phase == Reached(id, ms).call.phase
    ensures Unsent(Reached(id, r).call) < Unsent(Reached(id, ms).call)
  {
    hide IsHistory, Reached;
    r := Next(id, ms, Replay(true));
  }

  /** With the whole row sent, the call closes or follows, by the status it read. */
  lemma {:induction false} Sent(id: Uuid, ms: seq<Move>) returns (m: Move)
    requires IsHistory(id, ms) && Reached(id, ms).call.phase.Replaying?
    requires Unsent(Reached(id, ms).call) == 0
    ensures !m.Core? && IsHistory(id, ms + [m])
    ensures var before, c := Reached(id, ms).call, Reached(id, ms + [m]).call;
            && |c.received| == |before.phase.snapshot|
            && if HasEnded(before.phase.status) then c.closed && c.phase.Over? else c.phase.Following? && c.source.Started?
  {
    SendsSnapshot(id, ms);
    hide IsHistory, Reached;
    m := if HasEnded(Reached(id, ms).call.phase.status) then Close(true) else Follow;
    var r := Next(id, ms, m);
  }

  /** A call that has read the row can send it to the end, and then closes or follows, by what it read. */
  lemma {:induction false} ReplayCompletes(id: Uuid, ms: seq<Move>) returns (ns: seq<Move>)
    requires IsHistory(id, ms) && Reached(id, ms).call.phase.Replaying?
    ensures IsHistory(id, ms + ns) && forall n :: 0 <= n < |ns| ==> !ns[n].Core?
    ensures var before, c := Reached(id, ms).call, Reached(id, ms + ns).call;
            && |c.received| == |before.phase.snapshot|
            && if HasEnded(before.phase.status) then c.closed && c.phase.Over? else c.phase.Following? && c.source.Started?
    decreases Unsent(Reached(id, ms).call)
  {
    hide IsHistory, Reached, HasEnded, Unsent;
    if Unsent(Reached(id, ms).call) > 0 {
      var r := SendOne(id, ms);
      var rest := ReplayCompletes(id, r);
      ns := [Replay(true)] + rest;
      assert ms + ns == r + rest;
      assert forall n :: 0 <= n < |ns| ==> !ns[n].Core? by {
        assert forall n :: 0 < n < |ns| ==> ns[n] == rest[n - 1];
      }
    } else {
      var m := Sent(id, ms);
      ns := [m];
    }
  }

  /** The listening goroutine goes on to subscribe exactly if the build has not ended by the time it
      reads the row. */
  lemma {:induction false} SourceChecks(id: Uuid, ms: seq<Move>)
    requires IsHistory(id, ms)
    requires Reached(id, ms).call.phase.Following? && Reached(id, ms).call.source.Started?
    ensures IsHistory(id, ms + [SourceRead(true)]) && IsHistory(id, ms + [SourceRead(false)])
    ensures Reached(id, ms + [SourceRead(true)]).call.source ==
            if HasEnded(Reached(id, ms).core.row.status) then Ended else Allowed
    ensures Reached(id, ms + [SourceRead(false)]).call.source == Ended
  {
    hide IsHistory, Reached;
    var r := Next(id, ms, SourceRead(true));
    var f := Next(id, ms, SourceRead(false));
  }

  /** A send that fails ends the call during the replay, and the forwarding afterwards; a failing
      listener ends the source. Nothing is received by any of it. */
  lemma {:induction false} FailuresEndTheirPart(id: Uuid, ms: seq<Move>)
    requires IsHistory(id, ms)
    ensures var c := Reached(id, ms).call;
            && (Unsent(c) > 0 ==>
                  IsHistory(id, ms + [Replay(false)]) && Reached(id, ms + [Replay(false)]).call.phase == Over
                  && Reached(id, ms + [Replay(false)]).call.received == c.received)
            && (c.phase.Following? && c.forwarder.Sending? ==>
                  IsHistory(id, ms + [Forward(false)])
                  && Reached(id, ms + [Forward(false)]).call == c.(forwarder := Gone))
            && (c.phase.Following? && Connected(c.source) ==>
                  IsHistory(id, ms + [SourceFails]) && Reached(id, ms + [SourceFails]).call == c.(source := Ended))
            && (c.phase.Following? ==>
                  IsHistory(id, ms + [Return]) && Reached(id, ms + [Return]).call == c.(phase := Over))
  {
    hide IsHistory, Reached;
    var c := Reached(id, ms).call;
    if Unsent(c) > 0 {
      var r := Next(id, ms, Replay(false));
    } else if c.phase.Following? {
      var r := Next(id, ms, Return);
      if c.forwarder.Sending? { var f := Next(id, ms, Forward(false)); }
      if Connected(c.source) { var g := Next(id, ms, SourceFails); }
    }
  }

  /** How many moves bring what is on its way to the client. */
  function OnItsWay(c: Call): nat {
    (if c.forwarder.Sending? then 1 else 0) +
    match c.source
    case Subscribed(q) => 3 * |q|
    case Offering(_, q) => 3 * |q| + 2
    case _ => 0
  }

  /** On a working stream everything can get to the client: the row as it was read and the log since the
      LISTEN. */
  lemma {:induction false} CatchesUp(id: Uuid, ms: seq<Move>) returns (ns: seq<Move>)
    requires IsHistory(id, ms) && Reached(id, ms).call.phase.Following?
    requires Connected(Reached(id, ms).call.source) && !Reached(id, ms).call.forwarder.Gone?
    ensures IsHistory(id, ms + ns) && Reached(id, ms + ns).core == Reached(id, ms).core
    ensures var c, log := Reached(id, ms + ns).call, Reached(id, ms).core.row.events;
            && c.phase.Following? && c.source == Subscribed([]) && c.forwarder.Ready?
            && c.replayed == Reached(id, ms).call.replayed <= c.since == Reached(id, ms).call.since <= |log|
            && c.received == log[..c.replayed] + log[c.since..]
    decreases OnItsWay(Reached(id, ms).call)
  {
    hide IsHistory, Reached, Delivered;
    var c := Reached(id, ms).call;
    if c.forwarder.Ready? && c.source == Subscribed([]) {
      NothingLostAfterListen(id, ms);
      ns := [];
      assert ms + ns == ms;
    } else {
      var m := if c.forwarder.Sending? then Forward(true) else if c.source.Offering? then HandOver else SourceTakes;
      var r := Next(id, ms, m);
      var rest := CatchesUp(id, r);
      ns := [m] + rest;
      assert ms + ns == r + rest;
    }
  }

  /** While the stream works, every event appended since the LISTEN is with the client or on its way,
      and with the client once nothing is on its way. */
  lemma {:induction false} NothingLostAfterListen(id: Uuid, ms: seq<Move>)
    requires IsHistory(id, ms)
    requires Reached(id, ms).call.phase.Following?
    requires Connected(Reached(id, ms).call.source) && !Reached(id, ms).call.forwarder.Gone?
    ensures var c, log := Reached(id, ms).call, Reached(id, ms).core.row.events;
            && c.replayed <= c.since <= |log| && c.replayed <= |c.received|
            && Live(c) + InForwarder(c) + InSource(c) == log[c.since..]
            && (c.source == Subscribed([]) && c.forwarder.Ready? ==>
                  c.received == log[..c.replayed] + log[c.since..])
  {
    HistoriesKeepInv(id, ms);
    hide IsHistory, Reached;
    var c, log := Reached(id, ms).call, Reached(id, ms).core.row.events;
    assert c.received == c.received[..c.replayed] + Live(c);
    assert Live(c) + [] + [] == Live(c);
  }

  /** Once nothing is on its way, the client has the whole log exactly when no event was appended between
      the read of the row, move r, and the LISTEN, move q. */
  lemma {:induction false} WholeLogExactly(id: Uuid, ms: seq<Move>) returns (r: nat, q: nat)
    requires IsHistory(id, ms)
    requires var c := Reached(id, ms).call;
             c.phase.Following? && c.source == Subscribed([]) && c.forwarder.Ready?
    ensures r < |ms| && q < |ms| && ms[r] == ReadRow && ms[q] == SourceListen(true)
    ensures Reached(id, ms).call.received == Reached(id, ms).core.row.events <==>
            |RowAt(id, ms, r).events| == |RowAt(id, ms, q).events|
  {
    NothingLostAfterListen(id, ms);
    r := ReplayedIsRow(id, ms);
    q := OriginOfSince(id, ms);
    hide IsHistory, Reached, RowAt;
    var c, log := Reached(id, ms).call, Reached(id, ms).core.row.events;
    assert log == log[..c.since] + log[c.since..];
  }

  /** The call has returned, or its source or its forwarder has given up, which nobody notices: the
      stream is left open. */
  predicate Ebbing(c: Call) {
    c.phase.Over? || (c.phase.Following? && (c.source.Ended? || c.forwarder.Gone?))
  }

  /** From then on the client gets at most the one event that the forwarder is about to send. */
  lemma {:induction false} LastDelivery(id: Uuid, ms: seq<Move>, ns: seq<Move>)
    requires IsHistory(id, ms + ns) && Ebbing(Reached(id, ms).call)
    ensures var c, d := Reached(id, ms).call, Reached(id, ms + ns).call;
            && Ebbing(d) && d.received + InForwarder(d) <= c.received + InForwarder(c)
            && c.received <= d.received
  {
    hide Apply, Enabled, Delivered;
    if ns == [] {
      assert ms + ns == ms;
    } else {
      assert Front(ms + ns) == ms + Front(ns) && Last(ms + ns) == Last(ns);
      LastDelivery(id, ms, Front(ns));
      EbbingStep(id, Reached(id, ms + Front(ns)), Last(ns));
    }
  }

  lemma {:induction false} EbbingStep(id: Uuid, w: World, m: Move)
    requires CanMove(w, m) && Ebbing(w.call)
    ensures var c, d := w.call, Moved(w, id, m).call;
            && Ebbing(d) && d.received + InForwarder(d) <= c.received + InForwarder(c)
            && c.received <= d.received
  {
    hide Apply, Enabled, Delivered;
    var c, d := w.call, Moved(w, id, m).call;
    assert c.received + [] == c.received && d.received + [] == d.received;
  }

  /** The client can still get something exactly when the forwarder has something in hand. */
  lemma {:induction false} DeliversExactlyInHand(id: Uuid, ms: seq<Move>)
    requires IsHistory(id, ms) && Ebbing(Reached(id, ms).call)
    ensures Reached(id, ms).call.forwarder.Sending? <==>
            exists ns :: IsHistory(id, ms + ns) && Reached(id, ms + ns).call.received != Reached(id, ms).call.received
  {
    hide IsHistory, Reached;
    var c := Reached(id, ms).call;
    if c.forwarder.Sending? {
      var r := Next(id, ms, Forward(true));
      assert IsHistory(id, ms + [Forward(true)]);
    } else {
      forall ns | IsHistory(id, ms + ns) ensures Reached(id, ms + ns).call.received == c.received {
        LastDelivery(id, ms, ns);
      }
    }
  }

  lemma {:induction false} Next(id: Uuid, ms: seq<Move>, m: Move) returns (r: seq<Move>)
    requires IsHistory(id, ms) && CanMove(Reached(id, ms), m)
    ensures r == ms + [m] && IsHistory(id, r) && Reached(id, r) == Moved(Reached(id, ms), id, m)
  {
    hide Moved, CanMove;
    r := ms + [m];
    assert Front(r) == ms && Last(r) == m;
  }

  lemma {:induction false} NextCore(id: Uuid, ms: seq<Move>, l: Label) returns (r: seq<Move>)
    requires IsHistory(id, ms) && Enabled(Reached(id, ms).core, l)
    ensures IsHistory(id, r)
    ensures var w := Reached(id, ms);
            Reached(id, r) == World(Apply(w.core, l), w.call.(source := Queued(w.call.source, Appended(l))))
  {
    hide Apply, Enabled, Delivered, Appended, IsHistory, Reached;
    NotifiedIsAppended(l, id);
    r := Next(id, ms, Core(l));
  }

  lemma {:induction false} Subscribe(id: Uuid, ms: seq<Move>) returns (r: seq<Move>)
    requires IsHistory(id, ms) && CanMove(Reached(id, ms), SourceListen(true))
    ensures IsHistory(id, r)
    ensures var w := Reached(id, ms);
            Reached(id, r) == w.(call := w.call.(source := Subscribed([]), since := |w.core.row.events|))
  {
    r := Next(id, ms, SourceListen(true));
  }

  lemma {:induction false} AddingEvent(event: string)
    ensures Enabled(INIT, AddRead(0, event))
    ensures Enabled(Apply(INIT, AddRead(0, event)), AddWrite(0, event, Acked))
    ensures Apply(Apply(INIT, AddRead(0, event)), AddWrite(0, event, Acked)).row
            == Row(NotStarted, [event], false)
  {
  }

  /** A call that has read the empty row, and whose source is about to subscribe. */
  const ALLOWED := NEW_CALL.(phase := Following, source := Allowed)

  lemma {:induction false} AboutToListen(id: Uuid) returns (ms: seq<Move>)
    ensures IsHistory(id, ms) && Reached(id, ms) == World(INIT, ALLOWED)
  {
    assert IsHistory(id, []) && Reached(id, []) == World(INIT, NEW_CALL);
    hide IsHistory, Reached;
    ms := Next(id, [], ReadRow);
    ms := Next(id, ms, Follow);
    ms := Next(id, ms, SourceRead(true));
  }

  lemma {:induction false} EventAppended(id: Uuid, ms: seq<Move>, event: string) returns (r: seq<Move>)
    requires IsHistory(id, ms) && Reached(id, ms) == World(INIT, ALLOWED)
    ensures IsHistory(id, r) && Reached(id, r).core.row == Row(NotStarted, [event], false)
    ensures Reached(id, r).call == ALLOWED
  {
    hide IsHistory, Reached, Apply, Enabled, Appended;
    AddingEvent(event);
    r := NextCore(id, ms, AddRead(0, event));
    r := NextCore(id, r, AddWrite(0, event, Acked));
  }

  /** An event appended between the read of the row and the LISTEN is in neither part. */
  lemma {:induction false} EventsCanBeMissed(id: Uuid, event: string) returns (ms: seq<Move>)
    ensures IsHistory(id, ms)
    ensures var w := Reached(id, ms);
            && w.core.row.events == [event] && w.call.replayed == 0 && w.call.since == 1
            && w.call.phase.Following? && w.call.source == Subscribed([])
  {
    hide IsHistory, Reached, Moved;
    ms := AboutToListen(id);
    ms := EventAppended(id, ms, event);
    ms := Subscribe(id, ms);
  }
}
