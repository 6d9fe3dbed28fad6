/** The hub's registry of agent connections, and when a connection is closed. */
module WSHub {

  // ---------------------------------------------------------------------------
  // The registry as a function of the events the hub's loop has handled.
  // ---------------------------------------------------------------------------

  datatype Event<C> = Register(conn: C) | Unregister(conn: C) | PumpCloses(conn: C)
  datatype Notice = Connected(agent: string) | Disconnected(agent: string)

  /** `closes` lists the closed send channels, and `notices` the callbacks started, in order. */
  datatype State<C> = State(clients: map<string, C>, closed: set<C>, closes: seq<C>, notices: seq<Notice>)

  function CloseConn<C(==)>(s: State<C>, c: C): State<C> {
    if c in s.closed then s else s.(closed := s.closed + {c}, closes := s.closes + [c])
  }

  predicate Listed<C(==)>(s: State<C>, a: string, c: C) {
    a in s.clients && s.clients[a] == c
  }

  function Step<C(==)>(owner: C -> string, s: State<C>, e: Event<C>): State<C> {
    var a := owner(e.conn);
    match e
    case Register(c) =>
      var t := if a in s.clients then CloseConn(s, s.clients[a]) else s;
      t.(clients := t.clients[a := c], notices := t.notices + [Connected(a)])
    case Unregister(c) =>
      var t := if Listed(s, a, c) then CloseConn(s.(clients := s.clients - {a}), c) else s;
      t.(notices := t.notices + [Disconnected(a)])
    case PumpCloses(c) => CloseConn(s, c)
  }

  function Run<C(==)>(owner: C -> string, es: seq<Event<C>>): State<C> {
    if es == [] then State(map[], {}, [], []) else Step(owner, Run(owner, es[..|es| - 1]), es[|es| - 1])
  }

  // ---------------------------------------------------------------------------
  // The same, read off the history.
  // ---------------------------------------------------------------------------

  /** From event i on, c is a's connection: no later registration for a, no later unregistration of c. */
  ghost predicate CurrentSince<C(!new)>(owner: C -> string, es: seq<Event<C>>, a: string, c: C, i: int) {
    && 0 <= i < |es| && es[i] == Register(c) && owner(c) == a
    && forall j :: i < j < |es| ==> es[j] != Unregister(c) && (es[j].Register? ==> owner(es[j].conn) != a)
  }

  ghost predicate Current<C(!new)>(owner: C -> string, es: seq<Event<C>>, a: string, c: C) {
    exists i :: CurrentSince(owner, es, a, c, i)
  }

  lemma {:induction false} CurrentStep<C(!new)>(owner: C -> string, front: seq<Event<C>>, e: Event<C>, a: string, c: C)
    ensures Current(owner, front + [e], a, c) <==>
      || (e == Register(c) && owner(c) == a)
      || (Current(owner, front, a, c) && e != Unregister(c) && !(e.Register? && owner(e.conn) == a))
  {
    var es := front + [e];
    assert es[|front|] == e;
    if i :| CurrentSince(owner, es, a, c, i) {
      if i < |front| {
        assert forall j :: 0 <= j < |front| ==> es[j] == front[j];
        assert CurrentSince(owner, front, a, c, i);
      }
    }
    if e == Register(c) && owner(c) == a {
      assert CurrentSince(owner, es, a, c, |front|);
    } else if i :| CurrentSince(owner, front, a, c, i) {
      if e != Unregister(c) && !(e.Register? && owner(e.conn) == a) {
        assert CurrentSince(owner, es, a, c, i);
      }
    }
  }

  /** The last connection registered for an agent is the listed one, unless unregistered since. */
  lemma {:induction false} ListedIsCurrent<C(!new)>(owner: C -> string, es: seq<Event<C>>, a: string, c: C)
    ensures Listed(Run(owner, es), a, c) <==> Current(owner, es, a, c)
  {
    if es == [] {
    } else {
      var front, e := es[..|es| - 1], es[|es| - 1];
      ListedIsCurrent(owner, front, a, c);
      CurrentStep(owner, front, e, a, c);
      assert es == front + [e];
    }
  }

  predicate RegistersOnce<C(==)>(es: seq<Event<C>>) {
    forall i, j :: 0 <= i < j < |es| && es[i].Register? ==> es[i] != es[j]
  }

  lemma {:induction false} ListedHasRegistered<C(!new)>(owner: C -> string, es: seq<Event<C>>, a: string, c: C)
    requires Listed(Run(owner, es), a, c)
    ensures owner(c) == a && Register(c) in es
  {
    ListedIsCurrent(owner, es, a, c);
  }

  lemma {:induction false} StepCloses<C(!new)>(owner: C -> string, s: State<C>, e: Event<C>, c: C, pumped: bool,
          registered: bool)
    requires c in s.closed <==> pumped || (registered && !Listed(s, owner(c), c))
    requires Listed(s, owner(c), c) ==> registered
    requires Listed(s, owner(e.conn), c) ==> owner(e.conn) == owner(c)
    requires e == Register(c) ==> !registered
    ensures c in Step(owner, s, e).closed
      <==> pumped || e == PumpCloses(c) || ((registered || e == Register(c)) && !Listed(Step(owner, s, e), owner(c), c))
  {
  }

  /** Every registered connection but the listed one is closed; otherwise only a write loop closes one. */
  lemma {:induction false} ClosedExactly<C(!new)>(owner: C -> string, es: seq<Event<C>>, c: C)
    requires RegistersOnce(es)
    ensures c in Run(owner, es).closed
      <==> PumpCloses(c) in es || (Register(c) in es && !Listed(Run(owner, es), owner(c), c))
  {
    if es == [] {
    } else {
      var front, e := es[..|es| - 1], es[|es| - 1];
      ClosedExactly(owner, front, c);
      assert es == front + [e];
      var s := Run(owner, front);
      if Listed(s, owner(c), c) {
        ListedHasRegistered(owner, front, owner(c), c);
      }
      if Listed(s, owner(e.conn), c) {
        ListedHasRegistered(owner, front, owner(e.conn), c);
      }
      StepCloses(owner, s, e, c, PumpCloses(c) in front, Register(c) in front);
    }
  }

  predicate ClosedOnce<C(==, !new)>(s: State<C>) {
    && (forall c <- s.closes :: c in s.closed)
    && (forall c <- s.closed :: c in s.closes)
    && (forall i, j :: 0 <= i < j < |s.closes| ==> s.closes[i] != s.closes[j])
  }

  lemma {:induction false} CloseConnOnce<C(!new)>(s: State<C>, c: C)
    requires ClosedOnce(s)
    ensures ClosedOnce(CloseConn(s, c))
  {
    var t := CloseConn(s, c);
    if c !in s.closed {
      assert t.closes[|s.closes|] == c;
      assert forall d :: d in s.closes ==> d in t.closes;
    }
  }

  /** No send channel is closed twice. */
  lemma {:induction false} ClosesOnce<C(!new)>(owner: C -> string, es: seq<Event<C>>)
    ensures ClosedOnce(Run(owner, es))
  {
    if es == [] {
    } else {
      var s, e := Run(owner, es[..|es| - 1]), es[|es| - 1];
      var a := owner(e.conn);
      ClosesOnce(owner, es[..|es| - 1]);
      CloseConnOnce(s, if e.Register? && a in s.clients then s.clients[a] else e.conn);
      CloseConnOnce(s.(clients := s.clients - {a}), e.conn);
    }
  }

  /** A closed connection stays closed. */
  lemma {:induction false} ClosedStays<C(!new)>(owner: C -> string, es: seq<Event<C>>, more: seq<Event<C>>)
    ensures Run(owner, es).closed <= Run(owner, es + more).closed
  {
    if more == [] {
      assert es + more == es;
    } else {
      assert (es + more)[..|es + more| - 1] == es + more[..|more| - 1];
      ClosedStays(owner, es, more[..|more| - 1]);
    }
  }

  /** An agent is reported disconnected while another connection of its own is listed, exactly when c was replaced. */
  lemma {:induction false} DisconnectReportedWhileConnected<C(!new)>(owner: C -> string, es: seq<Event<C>>, c: C)
    ensures var s, a := Run(owner, es + [Unregister(c)]), owner(c);
      && s.notices == Run(owner, es).notices + [Disconnected(a)]
      && (a in s.clients <==> exists d :: d != c && Current(owner, es, a, d))
  {
    assert (es + [Unregister(c)])[..|es|] == es;
    var s, a := Run(owner, es), owner(c);
    forall d
      ensures Listed(s, a, d) <==> Current(owner, es, a, d)
    {
      ListedIsCurrent(owner, es, a, d);
    }
    if a in s.clients {
      assert Listed(s, a, s.clients[a]);
    }
  }

  /** Handled in the other order, a registration outlives the unregistration of the same connection. */
  lemma {:induction false} UnregisterFirstLeavesItListed<C(!new)>(owner: C -> string, c: C)
    ensures Listed(Run(owner, [Unregister(c), Register(c)]), owner(c), c)
  {
    var es := [Unregister(c), Register(c)];
    assert CurrentSince(owner, es, owner(c), c, 1);
    ListedIsCurrent(owner, es, owner(c), c);
  }

  /** Registering the same connection twice would leave it listed but closed. */
  lemma {:induction false} RegisteringTwiceClosesIt<C(!new)>(owner: C -> string, c: C)
    ensures var s := Run(owner, [Register(c), Register(c)]);
      Listed(s, owner(c), c) && c in s.closed
  {
    var es := [Register(c), Register(c)];
    assert es[..1] == [Register(c)] && es[..1][..0] == [];
    var s := Run(owner, es[..1]);
    assert s == Step(owner, Run(owner, []), Register(c));
    assert Listed(s, owner(c), c);
    assert Run(owner, es) == Step(owner, s, Register(c));
  }

  // ---------------------------------------------------------------------------
  // The objects.
  // ---------------------------------------------------------------------------

  /** Every registration and unregistration is announced, in order, under its agent; a write loop's close is not. */
  function Announced<C>(owner: C -> string, es: seq<Event<C>>): seq<Notice> {
    if es == [] then []
    else
      var before, e := Announced(owner, es[..|es| - 1]), es[|es| - 1];
      if e.Register? then before + [Connected(owner(e.conn))]
      else if e.Unregister? then before + [Disconnected(owner(e.conn))]
      else before
  }

  lemma {:induction false} NoticesAreAnnounced<C(!new)>(owner: C -> string, es: seq<Event<C>>)
    ensures Run(owner, es).notices == Announced(owner, es)
  {
    if es == [] {
    } else {
      NoticesAreAnnounced(owner, es[..|es| - 1]);
    }
  }

  class WSClientConn {
    const agentID: string
    var closed: bool
    ghost var channelCloses: nat

    ghost predicate Valid()
      reads this
    {
      channelCloses == if closed then 1 else 0
    }

    constructor (agentID: string)
      ensures this.agentID == agentID && !closed && Valid()
    {
      this.agentID := agentID;
      closed := false;
      channelCloses := 0;
    }

    method Close()
      requires Valid()
      modifies this
      ensures closed && channelCloses == 1 && Valid()
    {
      if closed {
        return;
      }
      closed := true;
      channelCloses := channelCloses + 1;
    }
  }

  class WSHub {
    var clients: map<string, WSClientConn>
    var notices: seq<Notice>
    ghost var closes: seq<WSClientConn>

    constructor ()
      ensures clients == map[] && notices == [] && closes == []
    {
      clients, notices, closes := map[], [], [];
    }

    /** `all` is every connection ever made. */
    ghost predicate Valid(all: set<WSClientConn>)
      reads this, all
    {
      clients.Values <= all && forall c <- all :: c.Valid()
    }

    ghost function View(all: set<WSClientConn>): State<WSClientConn>
      reads this, all
    {
      State(clients, (set c | c in all && c.closed), closes, notices)
    }

    method HandleRegister(client: WSClientConn, ghost all: set<WSClientConn>)
      requires Valid(all) && client in all
      modifies this, clients.Values
      ensures Valid(all)
      ensures View(all) == Step((c: WSClientConn) => c.agentID, old(View(all)), Register(client))
    {
      ghost var before := View(all);
      if client.agentID in clients {
        var replaced := clients[client.agentID];
        CloseAndLog(replaced, all);
      }
      clients := clients[client.agentID := client];
      notices := notices + [Connected(client.agentID)];
    }

    method HandleUnregister(client: WSClientConn, ghost all: set<WSClientConn>)
      requires Valid(all) && client in all
      modifies this, client
      ensures Valid(all)
      ensures View(all) == Step((c: WSClientConn) => c.agentID, old(View(all)), Unregister(client))
    {
      if client.agentID in clients && clients[client.agentID] == client {
        clients := clients - {client.agentID};
        CloseAndLog(client, all);
      }
      notices := notices + [Disconnected(client.agentID)];
    }

    /** The write loop closes its connection when it ends. */
    method CloseAndLog(client: WSClientConn, ghost all: set<WSClientConn>)
      requires Valid(all) && client in all
      modifies this`closes, client
      ensures Valid(all)
      ensures View(all) == Step((c: WSClientConn) => c.agentID, old(View(all)), PumpCloses(client))
    {
      if !client.closed {
        closes := closes + [client];
      }
      client.Close();
    }
  }
}
