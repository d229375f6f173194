/** Requests, route replacements and closures of one listener, interleaved.

    A request fetches the current router, dials, and only then registers its
    two connections with that router.  Closing a router takes its table under
    the mutex and closes the connections afterwards.  With `gateway`, the same
    states describe the publication gateway, whose early returns take the
    connections out of the table before they close them. */
module RoutesProtocol {
  type RouterId = nat
  type AgentId = nat
  type Conn = nat

  datatype Table = Table(tracked: set<Conn>, closed: bool, ever: set<Conn>)

  datatype Request =
    | Fetched(router: RouterId)
    | Dialled(router: RouterId, client: Conn, upstream: Conn)
    | Refused(client: Conn, upstream: Conn)
    | Tunnelling(router: RouterId, client: Conn, upstream: Conn)
    | UpstreamClosed(router: RouterId, client: Conn, upstream: Conn)
    | BothClosed(router: RouterId, client: Conn, upstream: Conn)
    | Abandoned(router: RouterId, client: Conn, upstream: Conn)
    | Over

  datatype Closer =
    | Closing(router: RouterId)
    | Emptying(router: RouterId, rest: set<Conn>)
    | Returned(router: RouterId)

  datatype State = State(
    gateway: bool,
    tables: map<RouterId, Table>,
    current: RouterId,
    closed: set<Conn>,
    used: set<Conn>,
    requests: map<AgentId, Request>,
    closers: map<AgentId, Closer>)

  datatype Step =
    | Fetches
    | Dials(client: Conn, upstream: Conn)
    | Tracks
    | DropsRefused
    | ClosesUpstream
    | ClosesClient
    | Untracks
    | Abandons
    | DropsAbandoned
    | Replaces(next: RouterId)
    | ClosesCurrent
    | Captures
    | ClosesOne(conn: Conn)
    | Returns

  ghost predicate Init(s: State) {
    && s.tables == map[s.current := Table({}, false, {})]
    && s.closed == {} && s.used == {} && s.requests == map[] && s.closers == map[]
  }

  function Put(s: State, a: AgentId, request: Request): State {
    s.(requests := s.requests[a := request])
  }

  function PutCloser(s: State, a: AgentId, closer: Closer): State {
    s.(closers := s.closers[a := closer])
  }

  function SetTable(s: State, r: RouterId, table: Table): State {
    s.(tables := s.tables[r := table])
  }

  ghost predicate Next(s: State, a: AgentId, step: Step, t: State) {
    match step
    case Fetches => a !in s.requests && t == Put(s, a, Fetched(s.current))
    case Replaces(next) =>
      a !in s.closers && next !in s.tables
      && t == SetTable(PutCloser(s, a, Closing(s.current)), next, Table({}, false, {})).(current := next)
    case ClosesCurrent => a !in s.closers && t == PutCloser(s, a, Closing(s.current))
    case Captures => a in s.closers && CapturesTable(s, a, s.closers[a], t)
    case ClosesOne(conn) => a in s.closers && ClosesConn(s, a, s.closers[a], conn, t)
    case Returns =>
      a in s.closers && s.closers[a].Emptying? && s.closers[a].rest == {}
      && t == PutCloser(s, a, Returned(s.closers[a].router))
    case _ => a in s.requests && Serves(s, a, s.requests[a], step, t)
  }

  ghost predicate CapturesTable(s: State, a: AgentId, me: Closer, t: State) {
    && me.Closing? && me.router in s.tables
    && var table := s.tables[me.router];
       t == SetTable(PutCloser(s, a, Emptying(me.router, table.tracked)), me.router, Table({}, true, table.ever))
  }

  ghost predicate ClosesConn(s: State, a: AgentId, me: Closer, conn: Conn, t: State) {
    && me.Emptying? && conn in me.rest
    && t == PutCloser(s, a, Emptying(me.router, me.rest - {conn})).(closed := s.closed + {conn})
  }

  ghost predicate Serves(s: State, a: AgentId, me: Request, step: Step, t: State) {
    match step
    case Dials(client, upstream) =>
      && me.Fetched? && client !in s.used && upstream !in s.used && client != upstream
      && t == Put(s, a, Dialled(me.router, client, upstream)).(used := s.used + {client, upstream})
    case Tracks =>
      && me.Dialled? && me.router in s.tables
      && var table := s.tables[me.router];
         t == if table.closed then Put(s, a, Refused(me.client, me.upstream))
              else SetTable(Put(s, a, Tunnelling(me.router, me.client, me.upstream)), me.router,
                            Table(table.tracked + {me.client, me.upstream}, false, table.ever + {me.client, me.upstream}))
    case DropsRefused => me.Refused? && t == Put(s, a, Over).(closed := s.closed + {me.client, me.upstream})
    case ClosesUpstream =>
      me.Tunnelling? && t == Put(s, a, UpstreamClosed(me.router, me.client, me.upstream)).(closed := s.closed + {me.upstream})
    case ClosesClient =>
      me.UpstreamClosed? && t == Put(s, a, BothClosed(me.router, me.client, me.upstream)).(closed := s.closed + {me.client})
    case Untracks => me.BothClosed? && me.router in s.tables && t == Put(Untracked(s, me), a, Over)
    case Abandons =>
      && s.gateway && me.Tunnelling? && me.router in s.tables
      && t == Put(Untracked(s, me), a, Abandoned(me.router, me.client, me.upstream))
    case DropsAbandoned => me.Abandoned? && t == Put(s, a, Over).(closed := s.closed + {me.client, me.upstream})
    case _ => false
  }

  function Untracked(s: State, me: Request): State
    requires (me.BothClosed? || me.Tunnelling?) && me.router in s.tables
  {
    var table := s.tables[me.router];
    SetTable(s, me.router, table.(tracked := table.tracked - {me.client, me.upstream}))
  }

  // ---------------------------------------------------------------- invariant

  /** Another part of the program will still close this connection of router
      `r`: a closer that took the table, or a gateway's early return. */
  ghost predicate InHand(s: State, r: RouterId, conn: Conn) {
    || (exists b :: b in s.closers && CloserHas(s.closers[b], r, conn))
    || (exists a :: a in s.requests && RequestHas(s.requests[a], r, conn))
  }

  ghost predicate TableInv(s: State, r: RouterId)
    requires r in s.tables
  {
    && s.tables[r].tracked <= s.tables[r].ever
    && (s.tables[r].closed ==> s.tables[r].tracked == {})
    && forall conn :: conn in s.tables[r].ever ==> conn in s.tables[r].tracked || conn in s.closed || InHand(s, r, conn)
  }

  ghost predicate RequestInv(s: State, me: Request) {
    match me
    case Tunnelling(r, client, upstream) => Accepted(s, r, client, upstream)
    case UpstreamClosed(r, client, upstream) => Accepted(s, r, client, upstream) && upstream in s.closed
    case BothClosed(r, client, upstream) => Accepted(s, r, client, upstream) && client in s.closed && upstream in s.closed
    case Abandoned(r, client, upstream) => Accepted(s, r, client, upstream) && s.gateway
    case _ => true
  }

  /** Router `r` has accepted this tunnel. */
  ghost predicate Accepted(s: State, r: RouterId, client: Conn, upstream: Conn) {
    r in s.tables && client in s.tables[r].ever && upstream in s.tables[r].ever
  }

  ghost predicate CloserInv(s: State, me: Closer) {
    && me.router in s.tables && (!me.Closing? ==> s.tables[me.router].closed)
    && (me.Emptying? ==> me.rest <= s.tables[me.router].ever)
  }

  ghost predicate Inv(s: State) {
    && s.current in s.tables
    && (forall r :: r in s.tables ==> TableInv(s, r))
    && (forall a :: a in s.requests ==> RequestInv(s, s.requests[a]))
    && (forall b :: b in s.closers ==> CloserInv(s, s.closers[b]))
  }

  lemma RequestKeepsTables(s: State, a: AgentId, step: Step, t: State)
    requires Inv(s) && a in s.requests && Serves(s, a, s.requests[a], step, t)
    ensures forall r :: r in t.tables ==> TableInv(t, r)
  {
    assert RequestInv(s, s.requests[a]);
    forall r | r in t.tables ensures TableInv(t, r) {
      assert TableInv(s, r);
      forall conn | conn in t.tables[r].ever
        ensures conn in t.tables[r].tracked || conn in t.closed || InHand(t, r, conn)
      {
        if InHand(s, r, conn) {
          HandKept(s, a, t, r, conn);
        } else if step.Abandons? && conn in s.tables[r].tracked && conn !in t.tables[r].tracked {
          assert t.requests[a].Abandoned?;
        }
      }
    }
  }

  /** Nothing a router has accepted is forgotten. */
  ghost predicate EverGrows(s: State, t: State) {
    && s.closed <= t.closed && t.gateway == s.gateway
    && forall r :: r in s.tables ==>
         r in t.tables && s.tables[r].ever <= t.tables[r].ever && (s.tables[r].closed ==> t.tables[r].closed)
  }

  lemma ServingGrows(s: State, a: AgentId, step: Step, t: State)
    requires a in s.requests && Serves(s, a, s.requests[a], step, t)
    ensures EverGrows(s, t)
  {
  }

  lemma OthersKept(s: State, t: State, a: AgentId)
    requires Inv(s) && EverGrows(s, t)
    requires a in t.requests ==> a in s.requests && RequestInv(t, t.requests[a])
    requires forall b :: b in t.requests && b != a ==> b in s.requests && t.requests[b] == s.requests[b]
    requires t.closers == s.closers
    ensures forall b :: b in t.requests ==> RequestInv(t, t.requests[b])
    ensures forall b :: b in t.closers ==> CloserInv(t, t.closers[b])
  {
    forall b | b in t.requests && b != a ensures RequestInv(t, t.requests[b]) {
      assert RequestInv(s, s.requests[b]);
    }
    forall b | b in t.closers ensures CloserInv(t, t.closers[b]) {
      assert CloserInv(s, s.closers[b]);
    }
  }

  lemma RequestKeepsItself(s: State, a: AgentId, step: Step, t: State)
    requires Inv(s) && a in s.requests && Serves(s, a, s.requests[a], step, t)
    ensures a in t.requests && RequestInv(t, t.requests[a])
  {
    assert RequestInv(s, s.requests[a]);
  }

  lemma RequestKeepsInv(s: State, a: AgentId, step: Step, t: State)
    requires Inv(s) && a in s.requests && Serves(s, a, s.requests[a], step, t)
    ensures Inv(t)
  {
    RequestKeepsTables(s, a, step, t);
    ServingGrows(s, a, step, t);
    RequestKeepsItself(s, a, step, t);
    OthersKept(s, t, a);
  }

  ghost predicate CloserHas(me: Closer, r: RouterId, conn: Conn) {
    me.Emptying? && me.router == r && conn in me.rest
  }

  ghost predicate RequestHas(me: Request, r: RouterId, conn: Conn) {
    me.Abandoned? && me.router == r && (conn == me.client || conn == me.upstream)
  }

  /** A request keeps what others have in hand. */
  lemma HandKept(s: State, a: AgentId, t: State, r: RouterId, conn: Conn)
    requires a in s.requests && InHand(s, r, conn) && t.closers == s.closers
    requires a in t.requests && t.requests == s.requests[a := t.requests[a]]
    requires s.requests[a].Abandoned? ==> {s.requests[a].client, s.requests[a].upstream} <= t.closed
    ensures InHand(t, r, conn) || conn in t.closed
  {
    if b :| b in s.closers && CloserHas(s.closers[b], r, conn) {
      assert CloserHas(t.closers[b], r, conn);
    } else {
      var b :| b in s.requests && RequestHas(s.requests[b], r, conn);
      if b != a {
        assert RequestHas(t.requests[b], r, conn);
      }
    }
  }

  /** So does a closer, which closes what it takes out of its own hand. */
  lemma CloserHandKept(s: State, a: AgentId, t: State, r: RouterId, conn: Conn)
    requires InHand(s, r, conn) && t.requests == s.requests
    requires a in t.closers && t.closers == s.closers[a := t.closers[a]]
    requires a in s.closers && CloserHas(s.closers[a], r, conn) ==> CloserHas(t.closers[a], r, conn) || conn in t.closed
    ensures InHand(t, r, conn) || conn in t.closed
  {
    if b :| b in s.requests && RequestHas(s.requests[b], r, conn) {
      assert RequestHas(t.requests[b], r, conn);
    } else {
      var b :| b in s.closers && CloserHas(s.closers[b], r, conn);
      assert CloserHas(t.closers[b], r, conn) || conn in t.closed;
    }
  }

  predicate CloserStep(step: Step) {
    step.Replaces? || step.ClosesCurrent? || step.Captures? || step.ClosesOne? || step.Returns?
  }

  lemma CloserKeepsTables(s: State, a: AgentId, step: Step, t: State)
    requires Inv(s) && Next(s, a, step, t) && CloserStep(step)
    ensures forall r :: r in t.tables ==> TableInv(t, r)
  {
    assert a in s.closers ==> CloserInv(s, s.closers[a]);
    forall r | r in t.tables ensures TableInv(t, r) {
      if r in s.tables {
        assert TableInv(s, r);
        forall conn | conn in t.tables[r].ever
          ensures conn in t.tables[r].tracked || conn in t.closed || InHand(t, r, conn)
        {
          if InHand(s, r, conn) {
            CloserHandKept(s, a, t, r, conn);
          } else if conn in s.tables[r].tracked && conn !in t.tables[r].tracked {
            assert CloserHas(t.closers[a], r, conn);
          }
        }
      }
    }
  }

  lemma CloserKeepsActors(s: State, a: AgentId, step: Step, t: State)
    requires Inv(s) && Next(s, a, step, t) && CloserStep(step)
    ensures t.current in t.tables
    ensures forall b :: b in t.requests ==> RequestInv(t, t.requests[b])
    ensures forall b :: b in t.closers ==> CloserInv(t, t.closers[b])
  {
    assert EverGrows(s, t);
    if a in s.closers {
      assert CloserInv(s, s.closers[a]) && TableInv(s, s.closers[a].router);
    }
    forall b | b in t.closers && b != a ensures CloserInv(t, t.closers[b]) {
      assert CloserInv(s, s.closers[b]);
    }
    forall b | b in t.requests ensures RequestInv(t, t.requests[b]) {
      assert RequestInv(s, s.requests[b]);
    }
  }

  lemma CloserKeepsInv(s: State, a: AgentId, step: Step, t: State)
    requires Inv(s) && Next(s, a, step, t) && CloserStep(step)
    ensures Inv(t)
  {
    CloserKeepsTables(s, a, step, t);
    CloserKeepsActors(s, a, step, t);
  }

  lemma NextKeepsInv(s: State, a: AgentId, step: Step, t: State)
    requires Inv(s) && Next(s, a, step, t)
    ensures Inv(t)
  {
    if CloserStep(step) {
      CloserKeepsInv(s, a, step, t);
    } else if step.Fetches? {
      FetchKeepsInv(s, a, t);
    } else {
      RequestKeepsInv(s, a, step, t);
    }
  }

  lemma FetchKeepsInv(s: State, a: AgentId, t: State)
    requires Inv(s) && a !in s.requests && t == Put(s, a, Fetched(s.current))
    ensures Inv(t)
  {
    forall r | r in t.tables ensures TableInv(t, r) {
      assert TableInv(s, r);
      forall conn | conn in t.tables[r].ever && InHand(s, r, conn) ensures InHand(t, r, conn) {
        if b :| b in s.requests && RequestHas(s.requests[b], r, conn) {
          assert RequestHas(t.requests[b], r, conn);
        } else {
          var b :| b in s.closers && CloserHas(s.closers[b], r, conn);
          assert CloserHas(t.closers[b], r, conn);
        }
      }
    }
  }

  // -------------------------------------------------------------------- runs

  ghost predicate IsRun(states: seq<State>, moves: seq<(AgentId, Step)>) {
    && |states| == |moves| + 1
    && Init(states[0])
    && forall i :: 0 <= i < |moves| ==> Next(states[i], moves[i].0, moves[i].1, states[i + 1])
  }

  lemma {:induction false} RunKeepsInv(states: seq<State>, moves: seq<(AgentId, Step)>, i: nat)
    requires IsRun(states, moves) && i < |states|
    ensures Inv(states[i])
  {
    if i > 0 {
      RunKeepsInv(states, moves, i - 1);
      assert Next(states[i - 1], moves[i - 1].0, moves[i - 1].1, states[i]);
      NextKeepsInv(states[i - 1], moves[i - 1].0, moves[i - 1].1, states[i]);
    }
  }

  /** What one step can never undo. */
  ghost predicate Onwards(s: State, t: State) {
    && s.closed <= t.closed && t.gateway == s.gateway
    && forall r :: r in s.tables ==>
         && r in t.tables && s.tables[r].ever <= t.tables[r].ever
         && (s.tables[r].closed ==> t.tables[r].closed && t.tables[r].ever == s.tables[r].ever)
  }

  lemma NextGoesOnwards(s: State, a: AgentId, step: Step, t: State)
    requires Next(s, a, step, t) && (step.Replaces? ==> step.next !in s.tables)
    ensures Onwards(s, t)
  {
  }

  lemma {:induction false} Lasting(states: seq<State>, moves: seq<(AgentId, Step)>, i: nat, j: nat)
    requires IsRun(states, moves) && i <= j < |states|
    ensures Onwards(states[i], states[j])
  {
    if i < j {
      Lasting(states, moves, i, j - 1);
      assert Next(states[j - 1], moves[j - 1].0, moves[j - 1].1, states[j]);
      NextGoesOnwards(states[j - 1], moves[j - 1].0, moves[j - 1].1, states[j]);
    }
  }

  /** Once a replacement has returned, its old router has accepted its last
      tunnel: every later registration is refused, also for a request that
      fetched the router before it was replaced. */
  lemma OldRouterRefuses(states: seq<State>, moves: seq<(AgentId, Step)>, i: nat, j: nat, b: AgentId, a: AgentId)
    requires IsRun(states, moves) && i <= j < |moves|
    requires b in states[i].closers && states[i].closers[b].Returned?
    requires moves[j] == (a, Tracks) && a in states[j].requests && states[j].requests[a].Dialled?
    requires states[j].requests[a].router == states[i].closers[b].router
    ensures a in states[j + 1].requests && states[j + 1].requests[a].Refused?
  {
    RunKeepsInv(states, moves, i);
    assert CloserInv(states[i], states[i].closers[b]);
    Lasting(states, moves, i, j);
    assert Next(states[j], moves[j].0, moves[j].1, states[j + 1]);
  }

  /** What others still hold of router `r` is closed. */
  ghost predicate HandsClosed(s: State, r: RouterId) {
    forall conn :: InHand(s, r, conn) ==> conn in s.closed
  }

  lemma HeldWasAccepted(s: State, r: RouterId, conn: Conn)
    requires Inv(s) && r in s.tables && InHand(s, r, conn)
    ensures conn in s.tables[r].ever
  {
    if b :| b in s.closers && CloserHas(s.closers[b], r, conn) {
      assert CloserInv(s, s.closers[b]);
    } else {
      var a :| a in s.requests && RequestHas(s.requests[a], r, conn);
      assert RequestInv(s, s.requests[a]);
    }
  }

  /** When a closing of a router or gateway has returned, every tunnel ever
      accepted is closed exactly if what other closings and early returns
      hold is closed; and then that stays so. */
  lemma OldTunnelsAreClosed(states: seq<State>, moves: seq<(AgentId, Step)>, i: nat, j: nat, b: AgentId)
    requires IsRun(states, moves) && i <= j < |states|
    requires b in states[i].closers && states[i].closers[b].Returned?
    ensures var r := states[i].closers[b].router;
            && r in states[i].tables && r in states[j].tables
            && (states[i].tables[r].ever <= states[i].closed <==> HandsClosed(states[i], r))
            && (HandsClosed(states[i], r) ==> states[j].tables[r].ever <= states[j].closed)
  {
    var s, r := states[i], states[i].closers[b].router;
    RunKeepsInv(states, moves, i);
    assert CloserInv(s, s.closers[b]) && TableInv(s, r);
    forall conn | InHand(s, r, conn) ensures conn in s.tables[r].ever {
      HeldWasAccepted(s, r, conn);
    }
    Lasting(states, moves, i, j);
  }

  /** Closings of different routers, none of the current one: so it is while
      routers are only replaced. */
  ghost predicate OnlyReplacements(s: State) {
    && (forall b :: b in s.closers ==> s.closers[b].router != s.current)
    && forall b, c :: b in s.closers && c in s.closers && b != c ==> s.closers[b].router != s.closers[c].router
  }

  lemma ReplacementsStay(s: State, a: AgentId, step: Step, t: State)
    requires Inv(s) && OnlyReplacements(s) && Next(s, a, step, t) && !step.ClosesCurrent?
    ensures OnlyReplacements(t)
  {
    assert forall b :: b in s.closers ==> CloserInv(s, s.closers[b]);
  }

  lemma {:induction false} ReplacementsOnly(states: seq<State>, moves: seq<(AgentId, Step)>, i: nat)
    requires IsRun(states, moves) && i < |states| && forall k :: 0 <= k < i ==> !moves[k].1.ClosesCurrent?
    ensures OnlyReplacements(states[i])
  {
    if i > 0 {
      ReplacementsOnly(states, moves, i - 1);
      RunKeepsInv(states, moves, i - 1);
      ReplacementsStay(states[i - 1], moves[i - 1].0, moves[i - 1].1, states[i]);
    }
  }

  /** A replacement that returns before the proxy is closed, as the one of a
      session does, leaves no old tunnel: every connection the old router ever
      accepted is closed, then and from then on. */
  lemma ReplacementClosesOldTunnels(states: seq<State>, moves: seq<(AgentId, Step)>, i: nat, j: nat, b: AgentId)
    requires IsRun(states, moves) && i <= j < |states| && !states[i].gateway
    requires b in states[i].closers && states[i].closers[b].Returned?
    requires forall k :: 0 <= k < i ==> !moves[k].1.ClosesCurrent?
    ensures states[i].closers[b].router in states[j].tables
    ensures states[j].tables[states[i].closers[b].router].ever <= states[j].closed
  {
    var s, r := states[i], states[i].closers[b].router;
    ReplacementsOnly(states, moves, i);
    RunKeepsInv(states, moves, i);
    forall conn ensures !InHand(s, r, conn) {
      assert forall c :: c in s.closers && c != b ==> s.closers[c].router != r;
      assert forall a :: a in s.requests ==> RequestInv(s, s.requests[a]);
    }
    OldTunnelsAreClosed(states, moves, i, j, b);
  }

  /** A router closes a connection before it takes it off its list, so that
      while it is open whatever has left the list is closed. */
  lemma LeftRouterMeansClosed(states: seq<State>, moves: seq<(AgentId, Step)>, i: nat, r: RouterId)
    requires IsRun(states, moves) && i < |states| && !states[i].gateway
    requires r in states[i].tables && !states[i].tables[r].closed
    ensures states[i].tables[r].ever - states[i].tables[r].tracked <= states[i].closed
  {
    var s := states[i];
    RunKeepsInv(states, moves, i);
    assert TableInv(s, r);
    forall conn ensures !InHand(s, r, conn) {
      assert forall c :: c in s.closers ==> CloserInv(s, s.closers[c]);
      assert forall a :: a in s.requests ==> RequestInv(s, s.requests[a]);
    }
  }

  lemma Extends(states: seq<State>, moves: seq<(AgentId, Step)>, a: AgentId, step: Step, t: State)
    returns (states': seq<State>, moves': seq<(AgentId, Step)>)
    requires IsRun(states, moves) && Next(states[|moves|], a, step, t)
    ensures states' == states + [t] && moves' == moves + [(a, step)] && IsRun(states', moves')
  {
    states', moves' := states + [t], moves + [(a, step)];
    forall i | 0 <= i < |moves'| ensures Next(states'[i], moves'[i].0, moves'[i].1, states'[i + 1]) {
      if i < |moves| {
        assert Next(states[i], moves[i].0, moves[i].1, states[i + 1]);
      }
    }
  }

  /** One tunnel, connections 1 and 2, registered with router 0. */
  lemma TunnelRun(gateway: bool) returns (states: seq<State>, moves: seq<(AgentId, Step)>)
    ensures IsRun(states, moves) && |moves| == 3
    ensures states[3] == State(gateway, map[0 := Table({1, 2}, false, {1, 2})], 0, {}, {1, 2}, map[5 := Tunnelling(0, 1, 2)], map[])
  {
    var s0 := State(gateway, map[0 := Table({}, false, {})], 0, {}, {}, map[], map[]);
    var s1 := Put(s0, 5, Fetched(0));
    states, moves := Extends([s0], [], 5, Fetches, s1);
    var s2 := Put(s1, 5, Dialled(0, 1, 2)).(used := {1, 2});
    states, moves := Extends(states, moves, 5, Dials(1, 2), s2);
    var s3 := SetTable(Put(s2, 5, Tunnelling(0, 1, 2)), 0, Table({1, 2}, false, {1, 2}));
    states, moves := Extends(states, moves, 5, Tracks, s3);
  }

  /** The proxy being closed at the same time, a replacement can return with a
      tunnel of the old router still open.  The program makes no such run: its
      one replacement and the closing of its proxy are calls of one goroutine. */
  lemma ReplacementBesideClose() returns (states: seq<State>, moves: seq<(AgentId, Step)>)
    ensures IsRun(states, moves) && |moves| == 8
    ensures !states[8].gateway && 7 in states[8].closers && states[8].closers[7] == Returned(0)
    ensures 0 in states[8].tables && 1 in states[8].tables[0].ever && 1 !in states[8].closed
  {
    states, moves := TunnelRun(false);
    var s4 := PutCloser(states[3], 6, Closing(0));
    states, moves := Extends(states, moves, 6, ClosesCurrent, s4);
    var s5 := SetTable(PutCloser(s4, 6, Emptying(0, {1, 2})), 0, Table({}, true, {1, 2}));
    states, moves := Extends(states, moves, 6, Captures, s5);
    states, moves := ReplacesBeside(states, moves, s5);
  }

  lemma ReplacesBeside(before: seq<State>, made: seq<(AgentId, Step)>, s5: State)
    returns (states: seq<State>, moves: seq<(AgentId, Step)>)
    requires IsRun(before, made) && |made| == 5 && before[5] == s5
    requires s5.closers == map[6 := Emptying(0, {1, 2})] && s5.tables == map[0 := Table({}, true, {1, 2})]
    requires s5.current == 0 && s5.closed == {} && !s5.gateway
    ensures IsRun(states, moves) && |moves| == 8
    ensures !states[8].gateway && 7 in states[8].closers && states[8].closers[7] == Returned(0)
    ensures 0 in states[8].tables && 1 in states[8].tables[0].ever && 1 !in states[8].closed
  {
    var s6 := SetTable(PutCloser(s5, 7, Closing(0)), 1, Table({}, false, {})).(current := 1);
    states, moves := Extends(before, made, 7, Replaces(1), s6);
    var s7 := SetTable(PutCloser(s6, 7, Emptying(0, {})), 0, Table({}, true, {1, 2}));
    states, moves := Extends(states, moves, 7, Captures, s7);
    var s8 := PutCloser(s7, 7, Returned(0));
    states, moves := Extends(states, moves, 7, Returns, s8);
  }

  /** The publication gateway can close with nobody else closing it and still
      leave connections open: an early return took them out of the table. */
  lemma GatewayCloseMissesEarlyReturn() returns (states: seq<State>, moves: seq<(AgentId, Step)>)
    ensures IsRun(states, moves) && |moves| == 7
    ensures states[7].gateway && states[7].closers == map[6 := Returned(0)]
    ensures 0 in states[7].tables && 1 in states[7].tables[0].ever && 1 !in states[7].closed
  {
    states, moves := TunnelRun(true);
    assert {1, 2} - {1, 2} == {};
    var s4 := Put(SetTable(states[3], 0, Table({}, false, {1, 2})), 5, Abandoned(0, 1, 2));
    states, moves := Extends(states, moves, 5, Abandons, s4);
    var s5 := PutCloser(s4, 6, Closing(0));
    states, moves := Extends(states, moves, 6, ClosesCurrent, s5);
    var s6 := SetTable(PutCloser(s5, 6, Emptying(0, {})), 0, Table({}, true, {1, 2}));
    states, moves := Extends(states, moves, 6, Captures, s6);
    var s7 := PutCloser(s6, 6, Returned(0));
    states, moves := Extends(states, moves, 6, Returns, s7);
  }
}
