/**
 The WebSocket hub as a protocol: the hub goroutine, any number of broadcasters, and two pumps per
 client, interleaved step by step. A step is what one goroutine does between two points at which
 another can run; the read-write lock of the hub is part of the state.
 */
module Hub {

  type Client = nat

  /** A pump runs, then waits to hand the client to the hub's unsubscribe channel, then is gone. */
  datatype Pump = Running | Leaving | Gone

  datatype Side = Reader | Writer

  /** Where the hub goroutine is in its loop. */
  datatype HubAt =
    | Idle
    | Adding(client: Client)
    | AddLocked(client: Client)
    | Removing(client: Client)
    | RemoveLocked(client: Client)
    | Deleted(client: Client)
    | Unlocking
    | Broadcasting(pending: set<Client>)

  datatype State = State(
    clients: set<Client>,
    hub: HubAt,
    broadcasts: map<nat, set<Client>>,
    pumps: map<Client, map<Side, Pump>>,
    closes: multiset<Client>,
    sentOnClosed: bool)

  const INITIAL := State({}, Idle, map[], map[], multiset{}, false)

  datatype Step =
    | Connect(client: Client)
    | Lock
    | Insert
    | Delete
    | Close
    | Unlock
    | Break(client: Client, side: Side)
    | Unsubscribe(client: Client, side: Side)
    | HubBroadcast
    | HubSend(client: Client)
    | HubDone
    | Begin(id: nat)
    | Send(id: nat, client: Client)
    | Skip(id: nat, client: Client)
    | End(id: nat)

  /** The hub goroutine holds the lock for writing. */
  predicate WriteLocked(h: HubAt) {
    h.AddLocked? || h.RemoveLocked? || h.Deleted? || h.Unlocking?
  }

  predicate Enabled(s: State, x: Step) {
    match x
    case Connect(c) => s.hub.Idle? && c !in s.pumps
    case Lock => (s.hub.Adding? || s.hub.Removing?) && s.broadcasts == map[]
    case Insert => s.hub.AddLocked?
    case Delete => s.hub.RemoveLocked?
    case Close => s.hub.Deleted?
    case Unlock => s.hub.Unlocking?
    case Break(c, side) => c in s.pumps && side in s.pumps[c] && s.pumps[c][side].Running?
    case Unsubscribe(c, side) => s.hub.Idle? && c in s.pumps && side in s.pumps[c] && s.pumps[c][side].Leaving?
    case HubBroadcast => s.hub.Idle?
    case HubSend(c) => s.hub.Broadcasting? && c in s.hub.pending
    case HubDone => s.hub.Broadcasting? && s.hub.pending == {}
    case Begin(id) => id !in s.broadcasts && !WriteLocked(s.hub)
    case Send(id, c) => id in s.broadcasts && c in s.broadcasts[id]
    case Skip(id, c) => id in s.broadcasts && c in s.broadcasts[id]
    case End(id) => id in s.broadcasts && s.broadcasts[id] == {}
  }

  function SetPump(s: State, c: Client, side: Side, p: Pump): State
    requires c in s.pumps
  {
    s.(pumps := s.pumps[c := s.pumps[c][side := p]])
  }

  /** A send that does not block; on a closed channel it panics. */
  function SendTo(s: State, c: Client): State {
    s.(sentOnClosed := s.sentOnClosed || c in s.closes)
  }

  function Do(s: State, x: Step): State
    requires Enabled(s, x)
  {
    match x
    case Connect(c) =>
      // The client is handed over, and its pumps are started.
      s.(hub := Adding(c), pumps := s.pumps[c := map[Reader := Running, Writer := Running]])
    case Lock =>
      s.(hub := if s.hub.Adding? then AddLocked(s.hub.client) else RemoveLocked(s.hub.client))
    case Insert => s.(clients := s.clients + {s.hub.client}, hub := Unlocking)
    case Delete =>
      if s.hub.client in s.clients then s.(clients := s.clients - {s.hub.client}, hub := Deleted(s.hub.client))
      else s.(hub := Unlocking)
    case Close => s.(closes := s.closes + multiset{s.hub.client}, hub := Unlocking)
    case Unlock => s.(hub := Idle)
    case Break(c, side) => SetPump(s, c, side, Leaving)
    case Unsubscribe(c, side) => SetPump(s, c, side, Gone).(hub := Removing(c))
    case HubBroadcast => s.(hub := Broadcasting(s.clients))
    case HubSend(c) => SendTo(s, c).(hub := Broadcasting(s.hub.pending - {c}))
    case HubDone => s.(hub := Idle)
    case Begin(id) => s.(broadcasts := s.broadcasts[id := s.clients])
    case Send(id, c) => SendTo(s, c).(broadcasts := s.broadcasts[id := s.broadcasts[id] - {c}])
    case Skip(id, c) => s.(broadcasts := s.broadcasts[id := s.broadcasts[id] - {c}])
    case End(id) => s.(broadcasts := s.broadcasts - {id})
  }

  /** The steps can be taken one after the other from s on. */
  predicate CanRun(s: State, xs: seq<Step>)
    decreases |xs|
  {
    xs == [] || (Enabled(s, xs[0]) && CanRun(Do(s, xs[0]), xs[1..]))
  }

  function Run(s: State, xs: seq<Step>): State
    requires CanRun(s, xs)
    decreases |xs|
  {
    if xs == [] then s else Run(Do(s, xs[0]), xs[1..])
  }

  /** Some interleaving leads to s. */
  ghost predicate Reachable(s: State) {
    exists xs :: CanRun(INITIAL, xs) && Run(INITIAL, xs) == s
  }

  lemma {:induction false} RunOneMore(s: State, xs: seq<Step>, x: Step)
    requires CanRun(s, xs) && Enabled(Run(s, xs), x)
    ensures CanRun(s, xs + [x]) && Run(s, xs + [x]) == Do(Run(s, xs), x)
    decreases |xs|
  {
    if xs == [] {
      assert [x][1..] == [];
      assert xs + [x] == [x];
    } else {
      RunOneMore(Do(s, xs[0]), xs[1..], x);
      assert (xs + [x])[1..] == xs[1..] + [x];
    }
  }

  lemma ReachOneMore(s: State, x: Step)
    requires Reachable(s) && Enabled(s, x)
    ensures Reachable(Do(s, x))
  {
    var xs :| CanRun(INITIAL, xs) && Run(INITIAL, xs) == s;
    RunOneMore(INITIAL, xs, x);
  }

  // ---------- Safety ----------

  /** The hub has taken the client over and has not put it into the map yet. */
  predicate BeingAdded(h: HubAt, c: Client) {
    h == Adding(c) || h == AddLocked(c)
  }

  predicate BeingRemoved(h: HubAt, c: Client) {
    h == Removing(c) || h == RemoveLocked(c)
  }

  /** Where a client can be, and how often its channel has been closed there. */
  predicate ClientOk(s: State, c: Client) {
    if c !in s.pumps then c !in s.clients && s.closes[c] == 0 && !BeingAdded(s.hub, c) && s.hub != Deleted(c)
    else if c in s.clients then s.closes[c] == 0 && !BeingAdded(s.hub, c) && s.hub != Deleted(c)
    else if BeingAdded(s.hub, c) || s.hub == Deleted(c) then s.closes[c] == 0
    else s.closes[c] == 1
  }

  /** A pump of the client has unsubscribed and ended. */
  predicate LostPump(s: State, c: Client) {
    && c in s.pumps
    && ((Reader in s.pumps[c] && s.pumps[c][Reader].Gone?) || (Writer in s.pumps[c] && s.pumps[c][Writer].Gone?))
  }

  /** A client one of whose pumps has unsubscribed is out of the map, or about to be. */
  predicate GoneOk(s: State, c: Client) {
    LostPump(s, c) ==> !BeingAdded(s.hub, c) && (c in s.clients ==> BeingRemoved(s.hub, c))
  }

  /** A client that is out of the map, and not on its way in, has lost a pump. */
  predicate OutOk(s: State, c: Client) {
    c in s.pumps && c !in s.clients && !BeingAdded(s.hub, c) ==> LostPump(s, c)
  }

  /**
   A client has both pumps. The hub removes only clients that have lost one, and a second time only
   with both lost.
   */
  predicate PumpsOk(s: State, c: Client) {
    && (c in s.pumps ==> Reader in s.pumps[c] && Writer in s.pumps[c])
    && (BeingRemoved(s.hub, c) ==> LostPump(s, c))
    && (BeingRemoved(s.hub, c) && c !in s.clients ==> s.pumps[c][Reader].Gone? && s.pumps[c][Writer].Gone?)
  }

  /** Broadcasts under way visit clients of the map only, and hold the lock against the hub. */
  predicate LockOk(s: State) {
    && (WriteLocked(s.hub) ==> s.broadcasts == map[])
    && (s.hub.Broadcasting? ==> s.hub.pending <= s.clients)
    && (forall id :: id in s.broadcasts ==> s.broadcasts[id] <= s.clients)
  }

  ghost predicate Inv(s: State) {
    && LockOk(s)
    && (forall c :: ClientOk(s, c))
    && (forall c :: c in s.pumps ==> GoneOk(s, c))
    && (forall c :: PumpsOk(s, c) && OutOk(s, c))
    && !s.sentOnClosed
  }

  lemma ClientKept(s: State, x: Step, c: Client)
    requires Enabled(s, x) && ClientOk(s, c)
    ensures ClientOk(Do(s, x), c)
  {
  }

  lemma GoneKept(s: State, x: Step, c: Client)
    requires Enabled(s, x) && ClientOk(s, c) && c in Do(s, x).pumps && (c in s.pumps ==> GoneOk(s, c))
    ensures GoneOk(Do(s, x), c)
  {
  }

  lemma PumpsKept(s: State, x: Step, c: Client)
    requires Enabled(s, x) && ClientOk(s, c) && PumpsOk(s, c) && OutOk(s, c)
    ensures PumpsOk(Do(s, x), c)
  {
    match x {
      case Unsubscribe(_, side) => assert side == Reader || side == Writer;
      case _ =>
    }
  }

  lemma OutKept(s: State, x: Step, c: Client)
    requires Enabled(s, x) && ClientOk(s, c) && PumpsOk(s, c) && OutOk(s, c)
    ensures OutOk(Do(s, x), c)
  {
  }

  lemma StepKeeps(s: State, x: Step)
    requires Inv(s) && Enabled(s, x)
    ensures Inv(Do(s, x))
  {
    assert LockOk(Do(s, x));
    forall c
      ensures ClientOk(Do(s, x), c)
    {
      ClientKept(s, x, c);
    }
    forall c | c in Do(s, x).pumps
      ensures GoneOk(Do(s, x), c)
    {
      GoneKept(s, x, c);
    }
    forall c
      ensures PumpsOk(Do(s, x), c) && OutOk(Do(s, x), c)
    {
      assert ClientOk(s, c) && PumpsOk(s, c) && OutOk(s, c);
      PumpsKept(s, x, c);
      OutKept(s, x, c);
    }
    match x {
      case HubSend(c) => assert ClientOk(s, c);
      case Send(id, c) => assert ClientOk(s, c);
      case _ =>
    }
  }

  lemma {:induction false} RunKeeps(s: State, xs: seq<Step>)
    requires Inv(s) && CanRun(s, xs)
    ensures Inv(Run(s, xs))
    decreases |xs|
  {
    if xs != [] {
      StepKeeps(s, xs[0]);
      RunKeeps(Do(s, xs[0]), xs[1..]);
    }
  }

  lemma ReachableKeeps(s: State)
    requires Reachable(s)
    ensures Inv(s)
  {
    var xs :| CanRun(INITIAL, xs) && Run(INITIAL, xs) == s;
    RunKeeps(INITIAL, xs);
  }

  /**
   Under every interleaving: a send channel is closed at most once, never while its client is in the
   map, and no broadcast sends on a closed channel.
   */
  lemma HubIsSafe(s: State, c: Client)
    requires Reachable(s)
    ensures s.closes[c] <= 1
    ensures c in s.clients ==> s.closes[c] == 0
    ensures !s.sentOnClosed
  {
    ReachableKeeps(s);
    assert ClientOk(s, c);
  }

  /**
   Once a pump of a client is gone and the hub is idle again, the client is out of the map and its
   channel has been closed exactly once, whatever the other pump has done.
   */
  lemma GoneMeansClosed(s: State, c: Client, side: Side)
    requires Reachable(s) && s.hub.Idle?
    requires c in s.pumps && side in s.pumps[c] && s.pumps[c][side].Gone?
    ensures c !in s.clients && s.closes[c] == 1
  {
    ReachableKeeps(s);
    assert ClientOk(s, c) && GoneOk(s, c);
  }

  /** The hub has been told to remove the client, and has not closed its channel yet. */
  predicate Closing(h: HubAt, c: Client) {
    BeingRemoved(h, c) || h == Deleted(c)
  }

  /**
   A reply of the read pump takes no lock, so it can meet a closed channel. In every reachable state:
   while the read pump of a client still runs, its channel is closed iff its write pump is gone and
   the hub has dealt with that.
   */
  lemma ReaderMeetsClosedIff(s: State, c: Client)
    requires Reachable(s) && c in s.pumps && Reader in s.pumps[c] && s.pumps[c][Reader].Running?
    ensures Writer in s.pumps[c]
    ensures s.closes[c] > 0 <==> s.pumps[c][Writer].Gone? && !Closing(s.hub, c)
  {
    ReachableKeeps(s);
    assert ClientOk(s, c) && GoneOk(s, c) && PumpsOk(s, c) && OutOk(s, c);
  }

  /**
   The closed channel is real: the write pump unsubscribes, the hub closes the channel, and the read
   pump still runs.
   */
  lemma ReaderOutlivesChannel(c: Client) returns (s: State)
    ensures Reachable(s) && s.closes[c] == 1
    ensures c in s.pumps && Reader in s.pumps[c] && s.pumps[c][Reader].Running?
  {
    s := INITIAL;
    assert Reachable(s) by {
      assert CanRun(INITIAL, []) && Run(INITIAL, []) == INITIAL;
    }
    ReachOneMore(s, Connect(c));
    s := Do(s, Connect(c));
    ReachOneMore(s, Lock);
    s := Do(s, Lock);
    ReachOneMore(s, Insert);
    s := Do(s, Insert);
    ReachOneMore(s, Unlock);
    s := Do(s, Unlock);
    ReachOneMore(s, Break(c, Writer));
    s := Do(s, Break(c, Writer));
    ReachOneMore(s, Unsubscribe(c, Writer));
    s := Do(s, Unsubscribe(c, Writer));
    ReachOneMore(s, Lock);
    s := Do(s, Lock);
    ReachOneMore(s, Delete);
    s := Do(s, Delete);
    ReachOneMore(s, Close);
    s := Do(s, Close);
  }

  /** Every broadcast that can be under way sends on an open channel. */
  lemma SendsMeetOpenChannels(s: State, x: Step)
    requires Reachable(s) && Enabled(s, x) && (x.HubSend? || x.Send?)
    ensures s.closes[x.client] == 0
  {
    ReachableKeeps(s);
    assert ClientOk(s, x.client);
  }

  /** From Lock to Unlock the hub is alone: no broadcast of another goroutine is under way. */
  lemma LockExcludes(s: State)
    requires Reachable(s) && (s.hub.AddLocked? || s.hub.RemoveLocked? || s.hub.Deleted? || s.hub.Unlocking?)
    ensures s.broadcasts == map[]
  {
    ReachableKeeps(s);
  }

  // ---------- What a broadcast reaches ----------

  /** How often the broadcast `id` has turned to the client: it sent, or found the channel full and went on. */
  function Offers(xs: seq<Step>, id: nat, c: Client): nat {
    if xs == [] then 0
    else (if xs[0] == Send(id, c) || xs[0] == Skip(id, c) then 1 else 0) + Offers(xs[1..], id, c)
  }

  /** The run neither begins nor ends the broadcast. */
  predicate KeepsOn(xs: seq<Step>, id: nat) {
    forall i :: 0 <= i < |xs| ==> xs[i] != Begin(id) && xs[i] != End(id)
  }

  lemma {:induction false} OffersCount(s: State, xs: seq<Step>, id: nat, c: Client)
    requires CanRun(s, xs) && id in s.broadcasts && KeepsOn(xs, id)
    ensures id in Run(s, xs).broadcasts
    ensures Offers(xs, id, c) == if c in s.broadcasts[id] && c !in Run(s, xs).broadcasts[id] then 1 else 0
    ensures c in Run(s, xs).broadcasts[id] ==> c in s.broadcasts[id]
    decreases |xs|
  {
    if xs != [] {
      OffersCount(Do(s, xs[0]), xs[1..], id, c);
    }
  }

  /**
   Whatever runs in between: from its begin to its end a broadcast turns exactly once to every client
   that was in the map when it began, and to no other.
   */
  lemma BroadcastReachesAll(s: State, id: nat, xs: seq<Step>, c: Client)
    requires Enabled(s, Begin(id)) && CanRun(Do(s, Begin(id)), xs) && KeepsOn(xs, id)
    requires Enabled(Run(Do(s, Begin(id)), xs), End(id))
    ensures Offers(xs, id, c) == if c in s.clients then 1 else 0
  {
    OffersCount(Do(s, Begin(id)), xs, id, c);
  }

  /** The same for a broadcast of the hub itself, which nothing else of the hub interrupts. */
  function HubOffers(xs: seq<Step>, c: Client): nat {
    if xs == [] then 0 else (if xs[0] == HubSend(c) then 1 else 0) + HubOffers(xs[1..], c)
  }

  lemma {:induction false} HubOffersCount(s: State, xs: seq<Step>, c: Client)
    requires CanRun(s, xs) && s.hub.Broadcasting? && forall i :: 0 <= i < |xs| ==> xs[i] != HubDone
    ensures Run(s, xs).hub.Broadcasting?
    ensures HubOffers(xs, c) == if c in s.hub.pending && c !in Run(s, xs).hub.pending then 1 else 0
    ensures c in Run(s, xs).hub.pending ==> c in s.hub.pending
    decreases |xs|
  {
    if xs != [] {
      HubOffersCount(Do(s, xs[0]), xs[1..], c);
    }
  }

  lemma HubBroadcastReachesAll(s: State, xs: seq<Step>, c: Client)
    requires Enabled(s, HubBroadcast) && CanRun(Do(s, HubBroadcast), xs)
    requires forall i :: 0 <= i < |xs| ==> xs[i] != HubDone
    requires Enabled(Run(Do(s, HubBroadcast), xs), HubDone)
    ensures HubOffers(xs, c) == if c in s.clients then 1 else 0
  {
    HubOffersCount(Do(s, HubBroadcast), xs, c);
  }

  // ---------- Progress ----------

  lemma {:induction false} RunBoth(s: State, xs: seq<Step>, ys: seq<Step>)
    requires CanRun(s, xs) && CanRun(Run(s, xs), ys)
    ensures CanRun(s, xs + ys) && Run(s, xs + ys) == Run(Run(s, xs), ys)
    decreases |xs|
  {
    if xs == [] {
      assert xs + ys == ys;
    } else {
      RunBoth(Do(s, xs[0]), xs[1..], ys);
      assert (xs + ys)[1..] == xs[1..] + ys;
    }
  }

  lemma OneStep(s: State, x: Step)
    requires Enabled(s, x)
    ensures CanRun(s, [x]) && Run(s, [x]) == Do(s, x)
  {
    assert [x][1..] == [];
  }

  /** A broadcast under way can always be finished. */
  lemma {:induction false} BroadcastCanEnd(s: State, id: nat) returns (xs: seq<Step>)
    requires id in s.broadcasts
    ensures CanRun(s, xs) && Run(s, xs) == s.(broadcasts := s.broadcasts - {id})
    decreases |s.broadcasts[id]|
  {
    if s.broadcasts[id] == {} {
      xs := [End(id)];
      OneStep(s, End(id));
    } else {
      var c :| c in s.broadcasts[id];
      var next := Do(s, Skip(id, c));
      var rest := BroadcastCanEnd(next, id);
      xs := [Skip(id, c)] + rest;
      OneStep(s, Skip(id, c));
      RunBoth(s, [Skip(id, c)], rest);
      assert next.broadcasts - {id} == s.broadcasts - {id};
    }
  }

  lemma {:induction false} AllBroadcastsCanEnd(s: State) returns (xs: seq<Step>)
    ensures CanRun(s, xs) && Run(s, xs) == s.(broadcasts := map[])
    decreases |s.broadcasts.Keys|
  {
    if s.broadcasts == map[] {
      xs := [];
    } else {
      var id :| id in s.broadcasts;
      var first := BroadcastCanEnd(s, id);
      assert (s.broadcasts - {id}).Keys == s.broadcasts.Keys - {id};
      var rest := AllBroadcastsCanEnd(Run(s, first));
      xs := first + rest;
      RunBoth(s, first, rest);
    }
  }

  /** What the hub does next where it does not wait for a lock. */
  function NextOf(h: HubAt): Step
    requires !h.Idle? && (h.Broadcasting? ==> h.pending == {})
  {
    match h
    case Adding(_) => Lock
    case Removing(_) => Lock
    case AddLocked(_) => Insert
    case RemoveLocked(_) => Delete
    case Deleted(_) => Close
    case Unlocking => Unlock
    case Broadcasting(_) => HubDone
  }

  function StepsLeft(h: HubAt): nat {
    match h
    case Idle => 0
    case Unlocking => 1
    case Broadcasting(pending) => 1 + |pending|
    case AddLocked(_) => 2
    case Deleted(_) => 2
    case RemoveLocked(_) => 3
    case Adding(_) => 3
    case Removing(_) => 4
  }

  lemma {:induction false} HubCanFinish(s: State) returns (xs: seq<Step>)
    requires s.broadcasts == map[]
    ensures CanRun(s, xs) && Run(s, xs).hub.Idle? && Run(s, xs).broadcasts == map[]
    ensures s.hub.Adding? ==> s.hub.client in Run(s, xs).clients
    ensures s.hub.AddLocked? ==> s.hub.client in Run(s, xs).clients
    ensures s.hub.Removing? || s.hub.RemoveLocked? ==> s.hub.client !in Run(s, xs).clients
    ensures s.hub.Idle? || s.hub.Deleted? || s.hub.Unlocking? || s.hub.Broadcasting? ==>
              Run(s, xs).clients == s.clients
    decreases StepsLeft(s.hub)
  {
    if s.hub.Idle? {
      xs := [];
    } else {
      var x: Step;
      if s.hub.Broadcasting? && s.hub.pending != {} {
        var c :| c in s.hub.pending;
        x := HubSend(c);
      } else {
        x := NextOf(s.hub);
      }
      OneStep(s, x);
      var rest := HubCanFinish(Do(s, x));
      xs := [x] + rest;
      RunBoth(s, [x], rest);
    }
  }

  /**
   No deadlock: from every state, whatever is under way can be finished, and the hub be idle again; a
   client that was being added is then in the map, and one that was being removed is not.
   */
  lemma HubNeverDeadlocks(s: State) returns (xs: seq<Step>)
    ensures CanRun(s, xs) && Run(s, xs).hub.Idle? && Run(s, xs).broadcasts == map[]
    ensures s.hub.Adding? ==> s.hub.client in Run(s, xs).clients
    ensures s.hub.Removing? ==> s.hub.client !in Run(s, xs).clients
  {
    var first := AllBroadcastsCanEnd(s);
    var rest := HubCanFinish(Run(s, first));
    xs := first + rest;
    RunBoth(s, first, rest);
  }

  /** Whenever the hub is idle, the map holds exactly the clients that have connected and not lost a pump. */
  lemma MembershipIff(s: State, c: Client)
    requires Reachable(s) && s.hub.Idle?
    ensures c in s.clients <==>
            c in s.pumps && forall side :: side in s.pumps[c] ==> !s.pumps[c][side].Gone?
  {
    ReachableKeeps(s);
    assert ClientOk(s, c) && PumpsOk(s, c) && OutOk(s, c);
    if c in s.pumps {
      assert GoneOk(s, c);
      forall side | side in s.pumps[c] && c in s.clients
        ensures !s.pumps[c][side].Gone?
      {
        assert side == Reader || side == Writer;
      }
    }
  }

  /** Some broadcast of the run sends on a channel that is closed by then. */
  predicate MeetsClosed(s: State, xs: seq<Step>)
    requires CanRun(s, xs)
    decreases |xs|
  {
    xs != [] &&
    (((xs[0].Send? || xs[0].HubSend?) && s.closes[xs[0].client] > 0) || MeetsClosed(Do(s, xs[0]), xs[1..]))
  }

  /** That is what the flag records, so no run does it. */
  lemma {:induction false} FlagIff(s: State, xs: seq<Step>)
    requires CanRun(s, xs)
    ensures Run(s, xs).sentOnClosed <==> s.sentOnClosed || MeetsClosed(s, xs)
    decreases |xs|
  {
    if xs != [] {
      FlagIff(Do(s, xs[0]), xs[1..]);
    }
  }
}
