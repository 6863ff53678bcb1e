/** The shared port (internal/listener/unified.go): one byte is sniffed to tell
    SOCKS5 from HTTP, and served again to the handler it selects. */
module Unified {
  import opened Prelude
  import opened Wire
  import opened Socks5Listener
  import Registry
  import Routing

  datatype Served =
    | Dropped
    | Http
    | Socks(outcome: Outcome, recorded: bool)

  /** The SOCKS5 branch must be indistinguishable from a connection that came in
      on the dedicated port: its clauses are those of Socks5Listener.HandleConn on
      the stream as it arrived. The HTTP branch hands over the whole stream. The
      deny list is asked twice, at the gate and again by the SOCKS5 handler. */
  method HandleConn(conn: Conn, banned: bool, bannedAgain: bool, state: Option<Routing.RoutingState>,
                    dialOk: bool, ipText: seq<byte> -> string,
                    reg: Registry.ConnectionRegistry, cancel: nat)
    returns (served: Served)
    requires reg.Valid()
    modifies conn, reg
    ensures reg.Valid() && reg.cancelled == old(reg.cancelled)
    ensures reg.View() == old(reg.View()).(
                            nextId := if served.Socks? && served.outcome.Dialled? then old(reg.nextId) + 1 else old(reg.nextId))
    ensures banned || old(conn.Pending()) == []
        ==> served == Dropped && conn.closed && conn.written == old(conn.written)
    ensures banned ==> conn.Pending() == old(conn.Pending())
    ensures !banned && old(conn.Pending()) != [] ==>
              (served.Socks? <==> old(conn.Pending())[0] == Byte(5)) && !served.Dropped?
    ensures served.Http? ==> conn.Pending() == old(conn.Pending()) && conn.written == old(conn.written)
    ensures served.Socks? && bannedAgain ==> served == Socks(Closed, false) && conn.written == old(conn.written)
    ensures served.Socks? && !bannedAgain ==>
              && old(conn.written) <= conn.written
              && Serves(Handle(old(conn.Pending()), state), old(conn.Pending()), state, dialOk, ipText, old(conn.accepts),
                        served.outcome, served.recorded, conn.written[|old(conn.written)|..], conn.Pending())
    ensures served.Socks? ==> conn.closed
  {
    hide Handle, Answers, Ending, Serves;
    if banned {
      conn.Close();
      return Dropped;
    }
    ghost var s := conn.Pending();
    var first, ok := conn.ReadFull(1);
    if !ok {
      conn.Close();
      return Dropped;
    }
    conn.Prefix(first);
    assert conn.Pending() == s;
    if first[0] != Byte(5) {
      return Http;
    }
    var outcome, recorded, _ := Socks5Listener.HandleConn(conn, bannedAgain, state, dialOk, ipText, reg, cancel);
    return Socks(outcome, recorded);
  }
}
