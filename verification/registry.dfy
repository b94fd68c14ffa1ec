// The gateway's table of live tunnels: one entry per machine, guarded by a mutex.
//
// The three map functions say what happens while the lock is held. The class runs them
// together with the closes that the source performs after unlocking; the Gateway module
// separates the two halves and interleaves them.
module Registry {
  import opened Wrappers

  // One CLI's reverse tunnel. C stands for the SSH connection that carries it.
  datatype Tunnel<C> = Tunnel(machine: string, tenant: nat, conn: C, bindAddr: string, bindPort: nat)

  type Table<C> = map<string, Tunnel<C>>

  function Put<C>(tunnels: Table<C>, t: Tunnel<C>): Table<C> {
    tunnels[t.machine := t]
  }

  // The connection that registering t pushes out and that must then be closed.
  function Displaced<C(==)>(tunnels: Table<C>, t: Tunnel<C>): Option<C> {
    if t.machine in tunnels && tunnels[t.machine].conn != t.conn
    then Some(tunnels[t.machine].conn)
    else None
  }

  function Drop<C(==)>(tunnels: Table<C>, machine: string, conn: C): Table<C> {
    if machine in tunnels && tunnels[machine].conn == conn then tunnels - {machine} else tunnels
  }

  // An SSH connection, reduced to whether it has been closed.
  class Conn {
    var closed: bool

    constructor ()
      ensures !closed
    {
      closed := false;
    }

    method Close()
      modifies this
      ensures closed
    {
      closed := true;
    }
  }

  datatype DialError = NotConnected | OpenFailed

  // A forwarded-tcpip channel: the connection it runs on and the bind address it names.
  datatype Channel = Channel(conn: Conn, addr: string, port: nat)

  class Registry {
    var tunnels: map<string, Tunnel<Conn>>

    constructor ()
      ensures tunnels == map[]
    {
      tunnels := map[];
    }

    ghost function Conns(): set<Conn>
      reads this
    {
      set machine | machine in tunnels :: tunnels[machine].conn
    }

    method Register(t: Tunnel<Conn>)
      modifies this, Conns()
      ensures tunnels == Put(old(tunnels), t)
      ensures forall c <- old(Conns()) :: c.closed == (old(c.closed) || Displaced(old(tunnels), t) == Some(c))
    {
      var previous := if t.machine in tunnels then Some(tunnels[t.machine]) else None;
      tunnels := tunnels[t.machine := t];
      if previous.Some? && previous.value.conn != t.conn {
        previous.value.conn.Close();
      }
    }

    method Unregister(machine: string, conn: Conn)
      modifies this
      ensures tunnels == Drop(old(tunnels), machine, conn)
    {
      if machine in tunnels && tunnels[machine].conn == conn {
        tunnels := tunnels - {machine};
      }
    }

    method Online(machine: string) returns (online: bool)
      ensures online <==> machine in tunnels
    {
      online := machine in tunnels;
    }

    method Close(machine: string) returns (found: bool)
      modifies this, Conns()
      ensures found <==> machine in old(tunnels)
      ensures tunnels == old(tunnels) - {machine}
      ensures forall c <- old(Conns()) ::
                c.closed == (old(c.closed) || (found && c == old(tunnels)[machine].conn))
    {
      found := machine in tunnels;
      if found {
        var conn := tunnels[machine].conn;
        tunnels := tunnels - {machine};
        conn.Close();
      }
    }

    // accepts is the answer of the remote end, which the registry does not control.
    method Dial(machine: string, accepts: bool) returns (r: Result<Channel, DialError>)
      ensures r == Err(NotConnected) <==> machine !in tunnels
      ensures r.Ok? <==> machine in tunnels && !tunnels[machine].conn.closed && accepts
      ensures r.Ok? ==>
                var t := tunnels[machine];
                r.value == Channel(t.conn, t.bindAddr, t.bindPort)
    {
      if machine !in tunnels {
        return Err(NotConnected);
      }
      var t := tunnels[machine];
      if t.conn.closed || !accepts {
        return Err(OpenFailed);
      }
      r := Ok(Channel(t.conn, t.bindAddr, t.bindPort));
    }
  }
}
