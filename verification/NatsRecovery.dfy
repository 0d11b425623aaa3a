/** Reconnecting to NATS: many tasks, one lock checked twice, and callbacks at any moment.

    A step is the code a task runs between two suspensions, a callback, or an event of the network.
    Nobody calls `close` during the run. */
module NatsRecovery {
  import opened Common
  import opened NatsErrors

  /** Who waits for the lock: `_recover_connection` or `_ensure_connected`. */
  datatype Kind = Recover | Ensure

  /** The lock holder waits for the old client to close, or for the new one to connect. */
  datatype Phase = Closing | Connecting

  datatype Holder = Holder(kind: Kind, phase: Phase)

  /** The client's fields, the state of the connection behind `_nc`, the lock, and the history of
      the run: connections lost, connections made, recoveries finished, automatic reconnects. */
  datatype State = State(
    nc: Option<nat>,
    js: Option<nat>,
    up: bool,
    closed: bool,
    connected: bool,
    reconnectCount: nat,
    consecutiveErrors: nat,
    waiting: seq<Kind>,
    holder: Option<Holder>,
    drops: nat,
    connects: nat,
    recoveries: nat,
    autoReconnects: nat)

  datatype Step =
    | Fails                  // a task hits a connection error and asks for recovery
    | Uses                   // a task asks for a connection
    | Acquires(i: nat)       // waiter i gets the lock and checks again
    | ClosingEnds            // the old client is closed
    | ConnectingEnds(ok: bool)
    | LinkDown(peerClosed: bool)
    | LinkUp                 // the old client reconnects by itself, and says so
    | SaysDisconnected
    | SaysClosed
    | SaysError

  predicate Healthy(s: State) { s.nc.Some? && s.up && !s.closed && s.js.Some? }

  function Leave(waiting: seq<Kind>, i: nat): seq<Kind>
    requires i < |waiting|
  {
    waiting[..i] + waiting[i + 1..]
  }

  /** The code under the lock, up to its first suspension. */
  function Locked(s: State, kind: Kind): State {
    if Healthy(s) then (if kind.Recover? then s.(consecutiveErrors := 0) else s)
    else if s.nc.Some? then s.(holder := Some(Holder(kind, Closing)))
    else
      s.(holder := Some(Holder(kind, Connecting)),
         connected := if kind.Recover? then false else s.connected)
  }

  function Connected(s: State, kind: Kind): State {
    var t := s.(nc := Some(s.connects), js := Some(s.connects), up := true, closed := false,
                connected := true, connects := s.connects + 1, holder := None);
    if kind.Recover?
    then t.(reconnectCount := t.reconnectCount + 1, consecutiveErrors := 0, recoveries := t.recoveries + 1)
    else t
  }

  function Next(s: State, step: Step): State {
    match step
    case Fails => s.(consecutiveErrors := s.consecutiveErrors + 1, waiting := s.waiting + [Recover])
    case Uses => if Healthy(s) then s else s.(waiting := s.waiting + [Ensure])
    case Acquires(i) =>
      if s.holder.None? && i < |s.waiting| then Locked(s.(waiting := Leave(s.waiting, i)), s.waiting[i]) else s
    case ClosingEnds =>
      if s.holder.Some? && s.holder.value.phase.Closing?
      then s.(nc := None, js := None, connected := false, holder := Some(s.holder.value.(phase := Connecting)))
      else s
    case ConnectingEnds(ok) =>
      if s.holder.Some? && s.holder.value.phase.Connecting?
      then if ok then Connected(s, s.holder.value.kind) else s.(holder := None)
      else s
    case LinkDown(peerClosed) =>
      if s.nc.Some? && s.up && !s.closed then s.(up := false, closed := peerClosed, drops := s.drops + 1) else s
    case LinkUp =>
      if s.nc.Some? && !s.up && !s.closed
      then s.(up := true, connected := true, reconnectCount := s.reconnectCount + 1,
              consecutiveErrors := 0, autoReconnects := s.autoReconnects + 1)
      else s
    case SaysDisconnected =>
      s.(connected := false, consecutiveErrors := s.consecutiveErrors + if s.connected then 1 else 0)
    case SaysClosed => s.(connected := false)
    case SaysError => s.(consecutiveErrors := s.consecutiveErrors + 1)
  }

  function Run(s: State, steps: seq<Step>): State
    decreases |steps|
  {
    if steps == [] then s else Run(Next(s, steps[0]), steps[1..])
  }

  /** A reconnect is owed: the connection is unusable, or a lock holder has found it so. */
  function Owed(s: State): nat {
    if Healthy(s) && s.holder.None? then 0 else 1
  }

  ghost predicate Coherent(s: State) {
    && (s.nc.None? <==> s.js.None?)
    && (s.holder.Some? && s.holder.value.phase.Connecting? ==> s.nc.None?)
    && s.recoveries <= s.connects
    && s.reconnectCount == s.recoveries + s.autoReconnects
  }

  /** No step makes a connection that no outage paid for. */
  lemma StepCoherent(s: State, step: Step)
    requires Coherent(s)
    ensures Coherent(Next(s, step))
    ensures Next(s, step).connects + Owed(Next(s, step)) - Next(s, step).drops <= s.connects + Owed(s) - s.drops
  {
  }

  lemma {:induction false} RunCoherent(s: State, steps: seq<Step>)
    requires Coherent(s)
    ensures Coherent(Run(s, steps))
    ensures Run(s, steps).connects + Owed(Run(s, steps)) - Run(s, steps).drops <= s.connects + Owed(s) - s.drops
    decreases |steps|
  {
    if steps != [] {
      StepCoherent(s, steps[0]);
      RunCoherent(Next(s, steps[0]), steps[1..]);
    }
  }

  /** A client without a connection yet. */
  const FRESH: State := State(None, None, false, false, false, 0, 0, [], None, 0, 0, 0, 0)

  /** From a healthy connection, however many tasks fail and however they interleave, there are at
      most as many connects, and so at most as many recoveries, as outages: one outage, one
      reconnect. At every suspension point `_nc` and `_js` are both set or both None. */
  lemma OneReconnectPerOutage(s: State, steps: seq<Step>)
    requires Coherent(s) && Healthy(s) && s.holder.None?
    ensures var t := Run(s, steps);
            && t.connects - s.connects <= t.drops - s.drops
            && (t.nc.None? <==> t.js.None?)
            && t.reconnectCount == t.recoveries + t.autoReconnects
  {
    RunCoherent(s, steps);
  }

  lemma RecoveryConnects(s: State, step: Step)
    ensures Next(s, step).recoveries - s.recoveries <= Next(s, step).connects - s.connects
  {
  }

  lemma {:induction false} RecoveriesConnect(s: State, steps: seq<Step>)
    ensures Run(s, steps).recoveries - s.recoveries <= Run(s, steps).connects - s.connects
    decreases |steps|
  {
    if steps != [] {
      RecoveryConnects(s, steps[0]);
      RecoveriesConnect(Next(s, steps[0]), steps[1..]);
    }
  }

  lemma OneRecoveryPerOutage(s: State, steps: seq<Step>)
    requires Coherent(s) && Healthy(s) && s.holder.None?
    ensures Run(s, steps).recoveries - s.recoveries <= Run(s, steps).drops - s.drops
  {
    OneReconnectPerOutage(s, steps);
    RecoveriesConnect(s, steps);
  }

  /** Starting without a connection allows one connect more. */
  lemma FirstConnect(s: State, steps: seq<Step>)
    requires Coherent(s) && s.nc.None?
    ensures Run(s, steps).connects - s.connects <= Run(s, steps).drops - s.drops + 1
    ensures Run(s, steps).nc.None? <==> Run(s, steps).js.None?
  {
    RunCoherent(s, steps);
  }

  /** A waiter that finds the connection healthy leaves it alone; one that does not ends up,
      unless the connect fails, with a healthy one. */
  lemma WaiterRespectsHealth(s: State, i: nat)
    requires s.holder.None? && i < |s.waiting|
    ensures var t := Next(s, Acquires(i));
            if Healthy(s)
            then t.nc == s.nc && t.js == s.js && t.holder.None? && Healthy(t) && t.reconnectCount == s.reconnectCount
            else t.holder.Some? && t.holder.value.kind == s.waiting[i]
                 && Healthy(Next(Next(t, ClosingEnds), ConnectingEnds(true)))
  {
  }

  // ---------------------------------------------------------------- the client

  class NatsClient {
    var nc: Option<nat>
    var js: Option<nat>
    var connected: bool
    var reconnectCount: nat
    var consecutiveErrors: nat
    /** The reconnect lock: its holder and the tasks queued for it. */
    var waiting: seq<Kind>
    var holder: Option<Holder>
    /** What the client library reports about the connection behind `nc`. */
    var up: bool
    var closed: bool
    ghost var drops: nat
    var connects: nat
    ghost var recoveries: nat
    ghost var autoReconnects: nat

    constructor ()
      ensures View() == FRESH
    {
      nc, js, connected, up, closed := None, None, false, false, false;
      reconnectCount, consecutiveErrors, waiting, holder := 0, 0, [], None;
      drops, connects, recoveries, autoReconnects := 0, 0, 0, 0;
    }

    ghost function View(): State
      reads this
    {
      State(nc, js, up, closed, connected, reconnectCount, consecutiveErrors, waiting, holder,
            drops, connects, recoveries, autoReconnects)
    }

    method ConnectionHealthy() returns (ok: bool)
      ensures ok == Healthy(View())
    {
      return nc.Some? && up && !closed && js.Some?;
    }

    /** `_recover_connection` up to the lock. */
    method Recovering()
      modifies this
      ensures View() == Next(old(View()), Fails)
    {
      consecutiveErrors := consecutiveErrors + 1;
      waiting := waiting + [Recover];
    }

    /** `_ensure_connected` up to the lock. */
    method Ensuring()
      modifies this
      ensures View() == Next(old(View()), Uses)
    {
      var healthy := ConnectionHealthy();
      if healthy {
        return;
      }
      waiting := waiting + [Ensure];
    }

    /** The lock goes to waiter `i`, which checks the connection again. */
    method Enter(i: nat)
      requires holder.None? && i < |waiting|
      modifies this
      ensures View() == Next(old(View()), Acquires(i))
    {
      var kind := waiting[i];
      waiting := Leave(waiting, i);
      var healthy := ConnectionHealthy();
      if healthy {
        if kind.Recover? {
          consecutiveErrors := 0;
        }
        return;
      }
      if nc.Some? {
        holder := Some(Holder(kind, Closing));
      } else {
        if kind.Recover? {
          connected := false;
        }
        holder := Some(Holder(kind, Connecting));
      }
    }

    /** The end of `_disconnect`, and on to `_connect`. */
    method FinishDisconnect()
      requires holder.Some? && holder.value.phase.Closing?
      modifies this
      ensures View() == Next(old(View()), ClosingEnds)
    {
      nc := None;
      js := None;
      connected := false;
      holder := Some(Holder(holder.value.kind, Connecting));
    }

    /** The end of `_connect`, or its exception; the lock is released either way. */
    method FinishConnect(ok: bool)
      requires holder.Some? && holder.value.phase.Connecting?
      modifies this
      ensures View() == Next(old(View()), ConnectingEnds(ok))
    {
      var kind := holder.value.kind;
      if ok {
        Connect();
        if kind.Recover? {
          reconnectCount := reconnectCount + 1;
          consecutiveErrors := 0;
          recoveries := recoveries + 1;
        }
      }
      holder := None;
    }

    /** `_connect`, once the library has answered. */
    method Connect()
      modifies this`nc, this`js, this`up, this`closed, this`connected, this`connects
      ensures nc == js == Some(old(connects)) && up && !closed && connected && connects == old(connects) + 1
    {
      nc := Some(connects);
      js := Some(connects);
      up, closed := true, false;
      connected := true;
      connects := connects + 1;
    }

    method OnDisconnected()
      modifies this
      ensures View() == Next(old(View()), SaysDisconnected)
    {
      if connected {
        consecutiveErrors := consecutiveErrors + 1;
      }
      connected := false;
    }

    /** The library has reconnected the old client and calls back. */
    method OnReconnected()
      requires nc.Some? && !up && !closed
      modifies this
      ensures View() == Next(old(View()), LinkUp)
    {
      up := true;
      connected := true;
      reconnectCount := reconnectCount + 1;
      autoReconnects := autoReconnects + 1;
      consecutiveErrors := 0;
    }

    method OnClosed()
      modifies this
      ensures View() == Next(old(View()), SaysClosed)
    {
      connected := false;
    }

    /** Logs exactly when the count of consecutive errors is a power of two. */
    method OnError() returns (logged: bool)
      modifies this
      ensures View() == Next(old(View()), SaysError)
      ensures logged <==> IsPowerOfTwo(consecutiveErrors)
    {
      consecutiveErrors := consecutiveErrors + 1;
      var n := consecutiveErrors;
      LogsAtPowers(n);
      logged := n == 1 || BitAnd(n, n - 1) == 0;
    }
  }
}
