/** The part of a client that negotiates the connection with one peer. */
module NegotiationObject {
  import opened Negotiation

  class PeerSetup {
    const addrs: seq<BindAddr>
    const known: set<Scope>
    const amMaster: bool
    var binding: bool
    var addrpos: nat
    var conn: Conn
    var nextKey: nat
    /** The messages handed to the chat, oldest first. */
    var out: seq<Msg>

    function Conf(): Config {
      Config(addrs, known)
    }

    function State(): Side
      reads this
    {
      Side(amMaster, binding, addrpos, conn, nextKey)
    }

    constructor (c: Config, master: bool)
      ensures Conf() == c && State() == Side(master, false, 0, NoConn, 0) && out == []
    {
      addrs := c.addrs;
      known := c.known;
      amMaster := master;
      binding := false;
      addrpos := 0;
      conn := NoConn;
      nextKey := 0;
      out := [];
    }

    method NeedRelayNow()
      modifies this`conn
      ensures conn == NeedsRelay
    {
      conn := NeedsRelay;
    }

    /** A fresh link replaces whatever connection there was. */
    method FreshLink() returns (key: nat)
      modifies this`conn, this`nextKey
      ensures conn == IdleLink && key == old(nextKey) && nextKey == old(nextKey) + 1
    {
      key := nextKey;
      nextKey := nextKey + 1;
      conn := IdleLink;
    }

    /** peer_bind_one_address: the ports of the range are tried in order. */
    method BindOneAddress(i: nat, taken: Taken) returns (cont: bool)
      requires i < |addrs| && addrs[i].scopes != []
      modifies this`conn, this`nextKey, this`out
      ensures nextKey == old(nextKey) + 1 && (cont <==> FreePort(i, addrs[i].ports, taken).None?)
      ensures cont ==> conn == IdleLink && out == old(out)
      ensures !cont ==> conn == Bound(old(nextKey), i)
      ensures !cont ==>
                var port := FreePort(i, addrs[i].ports, taken).value;
                out == old(out) + [YouConnect(old(nextKey), i, port, addrs[i].scopes)]
    {
      var key := FreshLink();
      var port := 0;
      while port < addrs[i].ports && (i, port) in taken
        invariant port <= addrs[i].ports
        invariant FreePort(i, addrs[i].ports, taken) == FreePortFrom(i, port, addrs[i].ports, taken)
      {
        port := port + 1;
      }
      if port == addrs[i].ports {
        return true;
      }
      conn := Bound(key, i);
      out := out + [YouConnect(key, i, port, addrs[i].scopes)];
      cont := false;
    }

    /** peer_bind */
    method Bind(taken: Taken)
      requires binding
      modifies this
      ensures var e := Negotiation.Bind(Conf(), old(State()), taken); State() == e.side && out == old(out) + e.out
    {
      while addrpos < |addrs|
        invariant binding && out == old(out)
        invariant Negotiation.Bind(Conf(), State(), taken) == Negotiation.Bind(Conf(), old(State()), taken)
      {
        if addrs[addrpos].scopes == [] {
          addrpos := addrpos + 1;
          continue;
        }
        var cont := BindOneAddress(addrpos, taken);
        addrpos := addrpos + 1;
        if !cont {
          return;
        }
      }
      binding := false;
      out := out + [CannotBind];
      if !amMaster {
        NeedRelayNow();
      }
    }

    /** peer_start_binding */
    method StartBinding(taken: Taken)
      modifies this
      ensures var e := Negotiation.StartBinding(Conf(), old(State()), taken);
              State() == e.side && out == old(out) + e.out
    {
      binding := true;
      addrpos := 0;
      Bind(taken);
    }

    /** peer_msg_youconnect: the first address in a known scope is used. */
    method MsgYouConnect(key: nat, addr: nat, port: nat, scopes: seq<Scope>)
      modifies this
      ensures var e := Receive(Conf(), old(State()), YouConnect(key, addr, port, scopes), {});
              State() == e.side && out == old(out) + e.out
    {
      var i := 0;
      while i < |scopes| && scopes[i] !in known
        invariant i <= |scopes| && forall k :: 0 <= k < i ==> scopes[k] !in known
      {
        i := i + 1;
      }
      if i == |scopes| {
        out := out + [CannotConnect];
        return;
      }
      assert Usable(Conf(), scopes) by { assert scopes[i] in scopes; }
      var link := FreshLink();
      conn := Connected(key);
    }

    /** peer_msg_cannotconnect */
    method MsgCannotConnect(taken: Taken)
      modifies this
      ensures var e := Receive(Conf(), old(State()), CannotConnect, taken); State() == e.side && out == old(out) + e.out
    {
      if !binding {
        return;
      }
      Bind(taken);
    }

    /** peer_msg_cannotbind */
    method MsgCannotBind(taken: Taken)
      modifies this
      ensures var e := Receive(Conf(), old(State()), CannotBind, taken); State() == e.side && out == old(out) + e.out
    {
      if !amMaster {
        StartBinding(taken);
      } else {
        NeedRelayNow();
      }
    }
  }
}
