/** The local HTTPS proxy's routers (internal/proxy/proxy.go) and their
    replacement on the running listener (internal/session/proxy.go).
    RoutesProtocol.dfy puts them under concurrent requests. */
module Routes {
  import opened Wrappers
  import opened HostNames

  /** One network connection. */
  type Conn = nat

  datatype Profile = Profile(registry: string, privateHosts: seq<string>, proxyPort: int, socksPort: int)

  datatype Refusal = InvalidRoutes | OtherListener

  /** The connections of the process that have been closed. */
  class Sockets {
    var closed: set<Conn>

    constructor ()
      ensures closed == {}
    {
      closed := {};
    }

    method Close(connection: Conn)
      modifies this
      ensures closed == old(closed) + {connection}
    {
      closed := closed + {connection};
    }
  }

  /** One routing table with the tunnels opened through it. */
  class Router {
    const registry: string
    const privateHosts: seq<string>
    const socksPort: int
    const sockets: Sockets
    var connections: set<Conn>
    var closed: bool
    /** Every connection this router has ever accepted. */
    ghost var ever: set<Conn>

    /** What is not in the table any more has been closed. */
    ghost predicate Valid()
      reads this, sockets
    {
      && connections <= ever
      && ever - connections <= sockets.closed
      && (closed ==> connections == {})
    }

    constructor (registry: string, privateHosts: seq<string>, socksPort: int, sockets: Sockets)
      ensures Valid() && !closed && ever == {}
      ensures this.registry == registry && this.privateHosts == privateHosts
      ensures this.socksPort == socksPort && this.sockets == sockets
    {
      this.registry := registry;
      this.privateHosts := privateHosts;
      this.socksPort := socksPort;
      this.sockets := sockets;
      this.connections := {};
      this.closed := false;
      this.ever := {};
    }

    /** track: refused, with no effect, once the router is closed. */
    method Track(client: Conn, upstream: Conn) returns (accepted: bool)
      requires Valid() && client !in sockets.closed && upstream !in sockets.closed
      modifies this`connections, this`ever
      ensures Valid()
      ensures accepted <==> !closed
      ensures accepted ==> connections == old(connections) + {client, upstream} && ever == old(ever) + {client, upstream}
      ensures !accepted ==> connections == old(connections) && ever == old(ever)
    {
      if closed {
        return false;
      }
      connections := connections + {client, upstream};
      ever := ever + {client, upstream};
      return true;
    }

    /** The deferred end of a tunnel: both connections are closed, and only
        then leave the table. */
    method Finish(client: Conn, upstream: Conn)
      requires Valid()
      modifies this`connections, sockets
      ensures Valid()
      ensures sockets.closed == old(sockets.closed) + {upstream, client}
      ensures connections == old(connections) - {client, upstream}
    {
      sockets.Close(upstream);
      sockets.Close(client);
      connections := connections - {client, upstream};
    }

    /** Close: afterwards every connection the router ever accepted is closed. */
    method Close()
      requires Valid()
      modifies this`connections, this`closed, sockets
      ensures Valid() && closed && ever == old(ever)
      ensures ever <= sockets.closed
      ensures sockets.closed == old(sockets.closed) + old(connections)
    {
      closed := true;
      var rest := connections;
      connections := {};
      while rest != {}
        invariant rest <= old(connections)
        invariant sockets.closed == old(sockets.closed) + (old(connections) - rest)
        decreases |rest|
        modifies sockets
      {
        var connection :| connection in rest;
        sockets.Close(connection);
        rest := rest - {connection};
      }
    }
  }

  /** The listener whose router can be exchanged. */
  class RunningProxy {
    const sockets: Sockets
    var config: Profile
    var router: Router
    var isIP: string -> bool
    /** Every router this listener has ever used. */
    ghost var installed: set<Router>

    /** No router that was ever installed routes a public sign-in, management
        or Graph name, or a name below one; all but the current router have
        closed whatever they accepted. */
    ghost predicate Valid()
      reads this, sockets, installed
    {
      && router in installed
      && (forall r :: r in installed ==>
            r.sockets == sockets && r.Valid() && ValidPrivateHosts(r.privateHosts, isIP))
      && (forall r :: r in installed && r != router ==> r.closed && r.ever <= sockets.closed)
      && router.privateHosts == config.privateHosts && router.registry == config.registry
      && router.socksPort == config.socksPort
    }

    /** startProxy, with the port the listener got. */
    constructor Start(c: Profile, port: int, sockets: Sockets, isIP: string -> bool)
      requires ValidPrivateHosts(c.privateHosts, isIP)
      ensures Valid() && this.sockets == sockets && this.isIP == isIP
      ensures config == c.(proxyPort := port)
      ensures fresh(router) && installed == {router} && !router.closed
    {
      this.sockets := sockets;
      this.isIP := isIP;
      this.config := c.(proxyPort := port);
      var first := new Router(c.registry, c.privateHosts, c.socksPort, sockets);
      this.router := first;
      this.installed := {first};
    }

    /** replaceRoutes: on success the new routes are in force, and whatever the
        previous router ever accepted is closed for good. */
    method ReplaceRoutes(c: Profile) returns (outcome: Outcome<Refusal>)
      requires Valid()
      modifies this, router, sockets
      ensures Valid() && isIP == old(isIP)
      ensures outcome == Fail(InvalidRoutes) <==> !ValidPrivateHosts(c.privateHosts, isIP)
      ensures outcome.Pass? <==>
        ValidPrivateHosts(c.privateHosts, isIP)
        && (c.registry, c.proxyPort, c.socksPort) == (old(config).registry, old(config).proxyPort, old(config).socksPort)
      ensures outcome.Pass? ==>
        && config == c && fresh(router) && installed == old(installed) + {router}
        && old(router).closed && old(router).ever == old(router.ever) && old(router).ever <= sockets.closed
      ensures outcome.Fail? ==>
        && config == old(config) && router == old(router) && installed == old(installed)
        && unchanged(router) && unchanged(sockets)
    {
      var valid := ValidatePrivateHosts(c.privateHosts, isIP);
      if !valid {
        return Fail(InvalidRoutes);
      }
      if c.registry != config.registry || c.proxyPort != config.proxyPort || c.socksPort != config.socksPort {
        return Fail(OtherListener);
      }
      var previous := router;
      router := new Router(c.registry, c.privateHosts, c.socksPort, sockets);
      config := c;
      previous.Close();
      installed := installed + {router};
      return Pass;
    }
  }
}
