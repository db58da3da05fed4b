/**
 backend/internal/ws/hub.go: the connection table of one node and the life of
 each connection's send channel. Connections are pointers, modelled as numbers;
 `Directory` gives the immutable fields behind a pointer. Closing a closed
 channel and sending on one panic in Go, and here set `panicked`.
 */
module Hub {
  datatype Client = Client(device: string, owner: string, kind: string)

  type Directory = nat -> Client

  const BUFFER: nat := 64

  datatype State = State(
    clients: map<string, nat>,         // device_id -> connection
    queues: map<nat, seq<string>>,     // buffered events per connection
    closed: set<nat>,
    seen: set<nat>,                    // history: connections whose registration was processed
    panicked: bool)

  const EMPTY := State(map[], map[], {}, {}, false)

  function Queue(s: State, c: nat): seq<string> { if c in s.queues then s.queues[c] else [] }

  function CloseChan(s: State, c: nat): State
  {
    if c in s.closed then s.(panicked := true) else s.(closed := s.closed + {c})
  }

  // ---- Register and unregister ----------------------------------------------------

  function Register(who: Directory, s: State, c: nat): State
  {
    var device := who(c).device;
    var s1 := if device in s.clients then CloseChan(s, s.clients[device]) else s;
    s1.(clients := s1.clients[device := c], seen := s1.seen + {c})
  }

  function Unregister(who: Directory, s: State, c: nat): State
  {
    var device := who(c).device;
    if device in s.clients && s.clients[device] == c then CloseChan(s.(clients := s.clients - {device}), c) else s
  }

  // ---- Routing ----------------------------------------------------------------

  const DEVICE := "device:"
  const USER := "user:"
  const TEAM := "team:admins"

  /** Which connection a channel addresses; the prefixes are tried in this order. */
  predicate Addressed(who: Directory, channel: string, c: nat)
  {
    if |channel| > 7 && channel[..7] == DEVICE then who(c).device == channel[7..]
    else if |channel| > 5 && channel[..5] == USER then who(c).kind == "user" && who(c).owner == channel[5..]
    else channel == TEAM && who(c).kind == "admin"
  }

  /** A send that gives up when the buffer is full. */
  function Offer(s: State, c: nat, ev: string): State
  {
    if c in s.closed then s.(panicked := true)
    else if |Queue(s, c)| < BUFFER then s.(queues := s.queues[c := Queue(s, c) + [ev]])
    else s
  }

  function Offered(q: seq<string>, target: bool, ev: string): seq<string>
  {
    if target && |q| < BUFFER then q + [ev] else q
  }

  /** All connections in the table that the channel addresses are offered the event. */
  function Deliver(s: State, targets: set<nat>, ev: string): State
  {
    if targets * s.closed != {} then s.(panicked := true)
    else s.(queues := map c | c in s.queues.Keys + targets :: Offered(Queue(s, c), c in targets, ev))
  }

  function Targets(who: Directory, s: State, channel: string): set<nat>
  {
    set d | d in s.clients && Addressed(who, channel, s.clients[d]) :: s.clients[d]
  }

  function CloseAll(s: State): State
  {
    if s.clients.Values * s.closed != {} then s.(panicked := true)
    else s.(clients := map[], closed := s.closed + s.clients.Values)
  }

  datatype Step =
    | RegisterC(c: nat)
    | UnregisterC(c: nat)
    | Route(channel: string, ev: string)
    | Broadcast(ev: string, slow: set<nat>)    // connections that do not make room within 50 ms
    | BroadcastTo(c: nat, ev: string, prompt: bool)    // one send of a broadcast that routing interrupts
    | Drain(c: nat)                            // the write pump takes one event
    | CloseHub

  function TakeOne(s: State, c: nat): State
  {
    if Queue(s, c) == [] then s else s.(queues := s.queues[c := Queue(s, c)[1..]])
  }

  function Roomed(q: seq<string>, prompt: bool): seq<string>
  {
    if prompt && |q| >= BUFFER then q[1..] else q
  }

  /** The write pumps of `prompt` take one event each where the buffer is full. */
  function MakeRoom(s: State, prompt: set<nat>): State
  {
    s.(queues := map c | c in s.queues :: Roomed(s.queues[c], c in prompt))
  }

  /** A send of a broadcast: a full buffer is waited for, and the pump takes an event meanwhile or does not. */
  function WaitAndOffer(s: State, c: nat, prompt: bool, ev: string): State
  {
    Offer(if prompt && |Queue(s, c)| >= BUFFER then TakeOne(s, c) else s, c, ev)
  }

  predicate IsEntry(who: Directory, s: State, c: nat)
  {
    who(c).device in s.clients && s.clients[who(c).device] == c
  }

  function Do(who: Directory, s: State, step: Step): State
  {
    match step
    case RegisterC(c) => Register(who, s, c)
    case UnregisterC(c) => Unregister(who, s, c)
    case Route(channel, ev) => Deliver(s, Targets(who, s, channel), ev)
    case Broadcast(ev, slow) => Deliver(MakeRoom(s, s.clients.Values - slow), s.clients.Values, ev)
    case BroadcastTo(c, ev, prompt) => if IsEntry(who, s, c) then WaitAndOffer(s, c, prompt, ev) else s
    case Drain(c) => TakeOne(s, c)
    case CloseHub => CloseAll(s)
  }

  function DoAll(who: Directory, steps: seq<Step>): State
  {
    if steps == [] then EMPTY else Do(who, DoAll(who, steps[..|steps| - 1]), steps[|steps| - 1])
  }

  /** Serve registers a connection once. */
  predicate RegistersOnce(steps: seq<Step>)
  {
    forall i, j :: 0 <= i < j < |steps| && steps[i].RegisterC? ==> steps[j] != steps[i]
  }

  // ---- Channels are closed once -------------------------------------------------

  predicate Inv(who: Directory, s: State)
  {
    && !s.panicked && s.closed <= s.seen
    && (forall d :: d in s.clients ==> s.clients[d] in s.seen && who(s.clients[d]).device == d)
    && (forall c :: c in s.seen ==> (c !in s.closed <==> IsEntry(who, s, c)))
  }

  lemma StepKeepsInv(who: Directory, s: State, step: Step)
    requires Inv(who, s) && (step.RegisterC? ==> step.c !in s.seen)
    ensures Inv(who, Do(who, s, step))
  {
    assert forall d :: d in s.clients ==> IsEntry(who, s, s.clients[d]);
  }

  lemma {:induction false} SeenWereRegistered(who: Directory, steps: seq<Step>, c: nat)
    requires c in DoAll(who, steps).seen
    ensures RegisterC(c) in steps
  {
    var last := steps[|steps| - 1];
    if last != RegisterC(c) {
      SeenWereRegistered(who, steps[..|steps| - 1], c);
    }
  }

  /**
   Over any interleaving of registrations, unregistrations, routing, broadcasts
   and shutdown nothing panics: every channel is closed at most once and never
   sent on afterwards, and a processed connection is open exactly while it is
   its device's entry.
   */
  lemma {:induction false} NothingPanics(who: Directory, steps: seq<Step>)
    requires RegistersOnce(steps)
    ensures Inv(who, DoAll(who, steps))
  {
    if steps != [] {
      var init, last := steps[..|steps| - 1], steps[|steps| - 1];
      NothingPanics(who, init);
      if last.RegisterC? && last.c in DoAll(who, init).seen {
        SeenWereRegistered(who, init, last.c);
      }
      StepKeepsInv(who, DoAll(who, init), last);
    }
  }

  /** What takes a registered connection out of the table. */
  predicate Ousts(who: Directory, step: Step, c: nat)
  {
    || (step.RegisterC? && who(step.c).device == who(c).device)
    || step == UnregisterC(c)
    || step.CloseHub?
  }

  lemma StaysEntry(who: Directory, s: State, step: Step, c: nat)
    requires Inv(who, s) && c in s.seen && step != RegisterC(c)
    ensures IsEntry(who, Do(who, s, step), c) <==> IsEntry(who, s, c) && !Ousts(who, step, c)
    ensures c in Do(who, s, step).seen
  {
  }

  lemma FirstSteps(who: Directory, steps: seq<Step>)
    requires steps != []
    ensures DoAll(who, steps) == Do(who, DoAll(who, steps[..|steps| - 1]), steps[|steps| - 1])
    ensures RegistersOnce(steps) ==> RegistersOnce(steps[..|steps| - 1])
    ensures RegistersOnce(steps) && steps[|steps| - 1].RegisterC? ==> steps[|steps| - 1] !in steps[..|steps| - 1]
  {
  }

  lemma OpenIffEntry(who: Directory, s: State, c: nat)
    requires Inv(who, s) && c in s.seen
    ensures c !in s.closed <==> IsEntry(who, s, c)
  {
  }

  lemma StartsAsEntry(who: Directory, s: State, c: nat)
    ensures IsEntry(who, Do(who, s, RegisterC(c)), c) && c in Do(who, s, RegisterC(c)).seen
  {
  }

  /**
   From its registration on, a connection is its device's entry and open if and
   only if the device has not reconnected, the connection has not unregistered
   and the hub has not closed. So a stale connection's unregister, however late
   and however often, never evicts its replacement.
   */
  lemma {:induction false} ReplacementSurvives(who: Directory, steps: seq<Step>, i: nat, c: nat)
    requires RegistersOnce(steps) && i < |steps| && steps[i] == RegisterC(c)
    ensures IsEntry(who, DoAll(who, steps), c) <==> forall j :: i < j < |steps| ==> !Ousts(who, steps[j], c)
    ensures c in DoAll(who, steps).seen && (c !in DoAll(who, steps).closed <==> IsEntry(who, DoAll(who, steps), c))
  {
    var n := |steps| - 1;
    var init, last := steps[..n], steps[n];
    hide Ousts, IsEntry, Do, DoAll, Inv, RegistersOnce;
    FirstSteps(who, steps);
    NothingPanics(who, steps);
    NothingPanics(who, init);
    if i < n {
      ReplacementSurvives(who, init, i, c);
      StaysEntry(who, DoAll(who, init), last, c);
      assert forall j :: i < j < n ==> init[j] == steps[j];
    } else {
      StartsAsEntry(who, DoAll(who, init), c);
    }
    OpenIffEntry(who, DoAll(who, steps), c);
  }

  /** An event reaches exactly the open connections its channel addresses, as long as they have room. */
  lemma RoutesToOpenClients(who: Directory, steps: seq<Step>, channel: string, ev: string, c: nat)
    requires RegistersOnce(steps)
    ensures var s := DoAll(who, steps);
            var s' := Do(who, s, Route(channel, ev));
            c in s.seen ==>
              Queue(s', c) == (if c !in s.closed && Addressed(who, channel, c) && |Queue(s, c)| < BUFFER
                               then Queue(s, c) + [ev] else Queue(s, c))
  {
    NothingPanics(who, steps);
    var s := DoAll(who, steps);
    StepKeepsInv(who, s, Route(channel, ev));
    if c in s.seen {
      assert c in Targets(who, s, channel) <==> c !in s.closed && Addressed(who, channel, c);
    }
  }

  /** No buffer ever holds more than its capacity. */
  lemma {:induction false} QueuesFit(who: Directory, steps: seq<Step>, c: nat)
    ensures |Queue(DoAll(who, steps), c)| <= 64
  {
    if steps != [] {
      var s, last := DoAll(who, steps[..|steps| - 1]), steps[|steps| - 1];
      QueuesFit(who, steps[..|steps| - 1], c);
      hide Deliver, MakeRoom, Targets;
      if last.Route? {
        DeliverFits(s, {}, Targets(who, s, last.channel), last.ev, c);
      } else if last.Broadcast? {
        DeliverFits(s, s.clients.Values - last.slow, s.clients.Values, last.ev, c);
      } else if last.BroadcastTo? && last.c !in s.closed {
        WaitedQueue(s, last.c, last.prompt, last.ev, c);
      }
    }
  }

  lemma DeliverFits(s: State, prompt: set<nat>, targets: set<nat>, ev: string, c: nat)
    requires |Queue(s, c)| <= BUFFER
    ensures |Queue(Deliver(s, targets, ev), c)| <= BUFFER && |Queue(Deliver(MakeRoom(s, prompt), targets, ev), c)| <= BUFFER
  {
  }

  /** A broadcast is the last event of every open connection that is not slow; a closed one gets nothing. */
  lemma BroadcastReachesPrompt(who: Directory, steps: seq<Step>, ev: string, slow: set<nat>, c: nat)
    requires RegistersOnce(steps)
    ensures var s := DoAll(who, steps);
            var q := Queue(Do(who, s, Broadcast(ev, slow)), c);
            c in s.seen ==>
              && (c !in s.closed && c !in slow ==> q != [] && q[|q| - 1] == ev)
              && (c in s.closed ==> q == Queue(s, c))
  {
    hide DoAll, Deliver, MakeRoom;
    NothingPanics(who, steps);
    var s := DoAll(who, steps);
    EntriesAreOpen(who, s, c);
    QueuesFit(who, steps, c);
    hide Inv;
    DeliveredQueue(s, s.clients.Values - slow, s.clients.Values, ev, c);
  }

  /**
   Routing shares the lock with a broadcast and can come between its sends. The
   send to a connection that makes room still arrives, after whatever came
   before it, and no other connection notices.
   */
  lemma BroadcastSendArrives(who: Directory, steps: seq<Step>, c: nat, ev: string, prompt: bool, k: nat)
    requires RegistersOnce(steps)
    ensures var s := DoAll(who, steps);
            var s' := Do(who, s, BroadcastTo(c, ev, prompt));
            && (IsEntry(who, s, c) && prompt ==> Queue(s', c) != [] && Queue(s', c)[|Queue(s', c)| - 1] == ev)
            && (k != c || !IsEntry(who, s, c) ==> Queue(s', k) == Queue(s, k))
  {
    hide DoAll, WaitAndOffer;
    NothingPanics(who, steps);
    QueuesFit(who, steps, c);
    var s := DoAll(who, steps);
    if IsEntry(who, s, c) {
      assert c !in s.closed;
      WaitedQueue(s, c, prompt, ev, c);
      WaitedQueue(s, c, prompt, ev, k);
    }
  }

  lemma EntriesAreOpen(who: Directory, s: State, c: nat)
    requires Inv(who, s)
    ensures s.clients.Values * s.closed == {}
    ensures c in s.seen ==> (c in s.clients.Values <==> c !in s.closed)
  {
    assert forall d :: d in s.clients ==> IsEntry(who, s, s.clients[d]);
  }

  /** `c` is the only thing that matters of `s`: it is open and has room. */
  predicate Ready(s: State, c: nat) { c in s.seen && c !in s.closed && |Queue(s, c)| < 64 }

  /**
   The three kinds of channel, said by name: a device's own, a user's, which
   reaches all user connections of that owner, and the admins'. Any other
   channel reaches nobody.
   */
  lemma RoutesByName(who: Directory, steps: seq<Step>, name: string, other: string, ev: string, c: nat)
    requires RegistersOnce(steps) && Ready(DoAll(who, steps), c) && name != ""
    requires !("device:" <= other) && !("user:" <= other) && other != "team:admins"
    ensures var s := DoAll(who, steps);
            var got := (channel: string) => Queue(Do(who, s, Route(channel, ev)), c);
            && got("device:" + name) == Queue(s, c) + (if who(c).device == name then [ev] else [])
            && got("user:" + name) == Queue(s, c) + (if who(c).kind == "user" && who(c).owner == name then [ev] else [])
            && got("team:admins") == Queue(s, c) + (if who(c).kind == "admin" then [ev] else [])
            && got(other) == got("device:") == got("user:") == Queue(s, c)
  {
    hide DoAll, Do;
    Prefixed("device:", name);
    Prefixed("user:", name);
    assert ("user:" + name)[0] != "device:"[0] && "team:admins"[0] == 't';
    RoutesToOpenClients(who, steps, "device:" + name, ev, c);
    RoutesToOpenClients(who, steps, "user:" + name, ev, c);
    RoutesToOpenClients(who, steps, "team:admins", ev, c);
    RoutesToOpenClients(who, steps, other, ev, c);
    RoutesToOpenClients(who, steps, "device:", ev, c);
    RoutesToOpenClients(who, steps, "user:", ev, c);
  }

  lemma Prefixed(prefix: string, name: string)
    ensures (prefix + name)[..|prefix|] == prefix && (prefix + name)[|prefix|..] == name
  {
  }

  /** The write pump takes the oldest event of its own connection. */
  lemma DrainTakesOldest(who: Directory, s: State, c: nat, ev: string, rest: seq<string>, k: nat)
    requires Queue(s, c) == [ev] + rest
    ensures Queue(Do(who, s, Drain(c)), c) == rest
    ensures k != c ==> Queue(Do(who, s, Drain(c)), k) == Queue(s, k)
  {
  }

  /** What is buffered stays readable when connections come and go and when the hub closes. */
  lemma BuffersSurvive(who: Directory, s: State, step: Step, c: nat)
    requires step.RegisterC? || step.UnregisterC? || step.CloseHub?
    ensures Queue(Do(who, s, step), c) == Queue(s, c)
  {
  }

  /** Registering one connection twice would leave a closed channel in the table, and the next event for it panics. */
  lemma SecondRegistrationPanics(who: Directory, s: State, c: nat, ev: string)
    requires Inv(who, s) && c in s.seen && who(c).device != ""
    ensures Do(who, Register(who, s, c), Route(DEVICE + who(c).device, ev)).panicked
  {
    var s1, channel := Register(who, s, c), DEVICE + who(c).device;
    assert channel[..7] == DEVICE && channel[7..] == who(c).device;
    assert s1.clients[who(c).device] == c && c in s1.closed;
    assert c in Targets(who, s1, channel) * s1.closed;
  }

  // ---- The hub itself ---------------------------------------------------------

  class HubServer {
    var state: State

    constructor ()
      ensures state == EMPTY
    {
      state := EMPTY;
    }

    method ProcessRegister(who: Directory, c: nat)
      modifies this
      ensures state == Register(who, old(state), c)
    {
      var device := who(c).device;
      if device in state.clients {
        state := CloseChan(state, state.clients[device]);
      }
      state := state.(clients := state.clients[device := c], seen := state.seen + {c});
    }

    method ProcessUnregister(who: Directory, c: nat)
      modifies this
      ensures state == Unregister(who, old(state), c)
    {
      var device := who(c).device;
      if device in state.clients && state.clients[device] == c {
        state := state.(clients := state.clients - {device});
        state := CloseChan(state, c);
      }
    }

    /** The loop over the table, offering the event to every connection that matches, in any order. */
    method RouteByChannel(who: Directory, channel: string, ev: string)
      requires Inv(who, state)
      modifies this
      ensures state == Deliver(old(state), Targets(who, old(state), channel), ev)
    {
      ghost var s0 := state;
      ghost var done: set<nat> := {};
      DeliverNothing(s0, ev);
      var devices := state.clients.Keys;
      while devices != {}
        invariant devices <= s0.clients.Keys
        invariant done == set d | d in s0.clients && d !in devices && Addressed(who, channel, s0.clients[d]) :: s0.clients[d]
        invariant state == Deliver(s0, done, ev) && done * s0.closed == {}
        decreases devices
      {
        var d :| d in devices;
        devices := devices - {d};
        var c := state.clients[d];
        assert IsEntry(who, s0, c);
        if Addressed(who, channel, c) {
          OfferOneMore(s0, done, c, ev);
          state := Offer(state, c, ev);
          done := done + {c};
        }
      }
      assert done == Targets(who, s0, channel);
    }

    /** The loop waits on each connection in turn; a pump that is not slow makes room during its own wait. */
    method BroadcastToAll(who: Directory, ev: string, slow: set<nat>)
      requires Inv(who, state)
      modifies this
      ensures state == Do(who, old(state), Broadcast(ev, slow))
    {
      ghost var s0 := state;
      ghost var done: set<nat> := {};
      DeliverNothing(s0, ev);
      assert MakeRoom(s0, done - slow).queues == s0.queues;
      var devices := state.clients.Keys;
      while devices != {}
        invariant devices <= s0.clients.Keys
        invariant done == set d | d in s0.clients && d !in devices :: s0.clients[d]
        invariant state == Deliver(MakeRoom(s0, done - slow), done, ev) && done * s0.closed == {}
        decreases devices
      {
        var d :| d in devices;
        devices := devices - {d};
        var c := state.clients[d];
        assert IsEntry(who, s0, c);
        OfferAfterWait(s0, done, slow, c, ev);
        if c !in slow && |Queue(state, c)| >= BUFFER {
          state := TakeOne(state, c);
        }
        state := Offer(state, c, ev);
        done := done + {c};
      }
      assert done == s0.clients.Values;
    }

    method Close(who: Directory)
      requires Inv(who, state)
      modifies this
      ensures state == CloseAll(old(state))
    {
      ghost var s0 := state;
      while state.clients != map[]
        invariant state == s0.(clients := state.clients, closed := state.closed)
        invariant state.clients.Keys <= s0.clients.Keys
        invariant forall d :: d in state.clients ==> state.clients[d] == s0.clients[d]
        invariant state.closed == s0.closed + set d | d in s0.clients && d !in state.clients :: s0.clients[d]
        decreases state.clients.Keys
      {
        var d :| d in state.clients;
        var c := state.clients[d];
        assert IsEntry(who, s0, c);
        state := CloseChan(state, c);
        state := state.(clients := state.clients - {d});
      }
      assert state.closed == s0.closed + s0.clients.Values;
      assert s0.clients.Values * s0.closed == {} by {
        assert forall d :: d in s0.clients ==> IsEntry(who, s0, s0.clients[d]);
      }
    }
  }

  lemma DeliverNothing(s: State, ev: string)
    ensures Deliver(s, {}, ev) == s
  {
    assert Deliver(s, {}, ev).queues == s.queues;
  }

  lemma OfferOneMore(s: State, done: set<nat>, c: nat, ev: string)
    requires c !in done && c !in s.closed && done * s.closed == {}
    ensures Offer(Deliver(s, done, ev), c, ev) == Deliver(s, done + {c}, ev)
  {
    assert Queue(Deliver(s, done, ev), c) == Queue(s, c);
    assert Offer(Deliver(s, done, ev), c, ev).queues == Deliver(s, done + {c}, ev).queues;
  }

  /** Each queue by itself. */
  lemma DeliveredQueue(s: State, prompt: set<nat>, targets: set<nat>, ev: string, k: nat)
    requires targets * s.closed == {}
    ensures var s' := Deliver(MakeRoom(s, prompt), targets, ev);
            && (k in s'.queues <==> k in s.queues || k in targets)
            && Queue(s', k) == Offered(Roomed(Queue(s, k), k in prompt), k in targets, ev)
  {
  }

  lemma WaitedQueue(s: State, c: nat, prompt: bool, ev: string, k: nat)
    requires c !in s.closed
    ensures var s' := WaitAndOffer(s, c, prompt, ev);
            && s' == s.(queues := s'.queues)
            && (k in s'.queues <==> k in s.queues || k == c)
            && Queue(s', k) == (if k == c then Offered(Roomed(Queue(s, c), prompt), true, ev) else Queue(s, k))
  {
  }

  /** Queues are independent, so making room during a connection's own wait is making room up front. */
  lemma OfferAfterWait(s: State, done: set<nat>, slow: set<nat>, c: nat, ev: string)
    requires c !in done && c !in s.closed && done * s.closed == {}
    ensures WaitAndOffer(Deliver(MakeRoom(s, done - slow), done, ev), c, c !in slow, ev)
         == Deliver(MakeRoom(s, done + {c} - slow), done + {c}, ev)
  {
    var s1, s' := Deliver(MakeRoom(s, done - slow), done, ev), Deliver(MakeRoom(s, done + {c} - slow), done + {c}, ev);
    var s2 := WaitAndOffer(s1, c, c !in slow, ev);
    assert s' == s1.(queues := s'.queues);
    hide Deliver, MakeRoom, WaitAndOffer, Offered, Roomed;
    forall k: nat
      ensures k in s2.queues <==> k in s'.queues
      ensures k in s2.queues ==> s2.queues[k] == s'.queues[k]
    {
      DeliveredQueue(s, done - slow, done, ev, k);
      DeliveredQueue(s, done + {c} - slow, done + {c}, ev, k);
      WaitedQueue(s1, c, c !in slow, ev, k);
      NotTargeted(Queue(s, k), ev);
    }
    WaitedQueue(s1, c, c !in slow, ev, c);
    assert s2.queues == s'.queues;
  }

  lemma NotTargeted(q: seq<string>, ev: string)
    ensures Offered(Roomed(q, false), false, ev) == q
  {
  }
}
