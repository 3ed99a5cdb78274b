/**
 * The multi-connection registry of utils/hub.go: a table from bare JID to client.
 * Every operation runs under one mutex in the source; here each is one atomic step.
 */
module Hub {
  import opened Jid

  /**
   * A connection as the hub uses it: its own address, and a record of the hub's calls on it.
   * The transport behind SendString and Close is not part of this model.
   */
  class Client {
    const jid: string
    /** Payloads handed to SendString, in call order, whether or not the write succeeded. */
    ghost var sent: seq<string>
    /** Number of calls to Close. */
    ghost var closeCount: nat

    constructor (jid: string)
      ensures this.jid == jid && sent == [] && closeCount == 0
    {
      this.jid := jid;
      sent := [];
      closeCount := 0;
    }

    /** Writes one pre-rendered payload; whether the write fails is up to the transport. */
    method SendString(msg: string) returns (ok: bool)
      modifies this`sent
      ensures sent == old(sent) + [msg]
    {
      sent := sent + [msg];
      ok :| true;
    }

    method Close()
      modifies this`closeCount
      ensures closeCount == old(closeCount) + 1
    {
      closeCount := closeCount + 1;
    }
  }

  /** Every client is filed under the bare form of its own address. */
  ghost predicate FiledByBareJid(table: map<string, Client>)
  {
    forall k :: k in table ==> BareJid(table[k].jid) == k
  }

  /** In a table filed by bare JID, no client sits under two keys. */
  lemma FiledClientsDistinct(table: map<string, Client>, k1: string, k2: string)
    requires FiledByBareJid(table)
    requires k1 in table && k2 in table && k1 != k2
    ensures table[k1] != table[k2]
  {
  }

  /** The table after registering `c`, whose address is `jid`: utils/hub.go:20-21. */
  function Registered<C>(table: map<string, C>, jid: string, c: C): (t: map<string, C>)
  {
    table[BareJid(jid) := c]
  }

  /**
   * Registration files the client under the part of its address before the first `/`,
   * a key without `/`; it replaces whatever that key held, and leaves every other entry alone.
   */
  lemma RegisteredEntry<C>(table: map<string, C>, jid: string, c: C)
    ensures var t := Registered(table, jid, c);
      && var key := BareJid(jid);
      && key <= jid && '/' !in key
      && ('/' !in jid ==> key == jid)
      && key in t && t[key] == c
      && t.Keys == table.Keys + {key}
      && (forall k :: k in table && k != key ==> t[k] == table[k])
      && |t| == if key in table then |table| else |table| + 1
  {
  }

  /** Two addresses with the same bare JID collapse into one entry: the later registration wins. */
  lemma RegisterSameBareJidOverwrites<C>(table: map<string, C>, jid1: string, c1: C, jid2: string, c2: C)
    requires BareJid(jid1) == BareJid(jid2)
    ensures Registered(Registered(table, jid1, c1), jid2, c2) == Registered(table, jid2, c2)
  {
  }

  /** Registering `a@x/res1` and then `a@x/res2` into an empty hub leaves one entry, `a@x`, holding the second. */
  lemma RegisterTwoResources<C>(c1: C, c2: C)
    ensures Registered(Registered(map[], "a@x/res1", c1), "a@x/res2", c2) == map["a@x" := c2]
  {
    assert "a@x/res1" == "a@x" + ['/'] + "res1";
    assert "a@x/res2" == "a@x" + ['/'] + "res2";
    BeforeFirstOfJoin("a@x", '/', "res1");
    BeforeFirstOfJoin("a@x", '/', "res2");
  }

  /** XMPPHub: rules several connections, keyed by bare JID. */
  class XmppHub {
    var connections: map<string, Client>

    ghost predicate Valid()
      reads this
    {
      FiledByBareJid(connections)
    }

    /** NewXMPPHub: an empty table. */
    constructor ()
      ensures Valid()
      ensures connections == map[] && |connections| == 0
    {
      connections := map[];
    }

    /** Files `c` under its bare JID, replacing the client held there; the replaced client is not closed. */
    method Register(c: Client)
      requires Valid()
      modifies this
      ensures Valid()
      ensures connections == Registered(old(connections), c.jid, c)
    {
      var bareJid := BeforeFirst(c.jid, '/');
      connections := connections[bareJid := c];
    }

    /** Closes the client filed under `jid` and removes the entry. The source indexes the table unguarded. */
    method Unregister(jid: string)
      requires Valid()
      requires jid in connections
      modifies this, connections[jid]
      ensures Valid()
      ensures connections == old(connections) - {jid}
      ensures |connections| == |old(connections)| - 1
      ensures old(connections[jid]).closeCount == old(connections[jid].closeCount) + 1
      ensures old(connections[jid]).sent == old(connections[jid].sent)
    {
      connections[jid].Close();
      connections := connections - {jid};
    }

    method Len() returns (n: nat)
      ensures n == |connections|
    {
      n := |connections|;
    }

    /**
     * Hands `msg` to SendString of every registered client exactly once. A failed send is
     * only logged in the source: it neither stops the loop nor removes the client.
     */
    method SendBroadcast(msg: string)
      requires Valid()
      modifies connections.Values
      ensures connections == old(connections)
      ensures forall k :: k in connections ==> connections[k].sent == old(connections[k].sent) + [msg]
      ensures forall k :: k in connections ==> connections[k].closeCount == old(connections[k].closeCount)
    {
      var pending := connections.Keys;
      while pending != {}
        invariant pending <= connections.Keys
        invariant forall k :: k in connections ==>
          connections[k].sent == old(connections[k].sent) + (if k in pending then [] else [msg])
        invariant forall k :: k in connections ==> connections[k].closeCount == old(connections[k].closeCount)
        decreases pending
      {
        var key :| key in pending;
        var c := connections[key];
        forall k | k in connections && k != key
          ensures connections[k] != c
        {
          FiledClientsDistinct(connections, k, key);
        }
        var ok := c.SendString(msg);
        pending := pending - {key};
      }
    }

    /**
     * Calls `f` on distinct entries, in no particular order, and stops right after the first
     * call that returns false. `visited` lists the keys passed to `f`, in call order.
     */
    method Range(f: (string, Client) -> bool) returns (visited: seq<string>)
      ensures forall i :: 0 <= i < |visited| ==> visited[i] in connections
      ensures forall i, j :: 0 <= i < j < |visited| ==> visited[i] != visited[j]
      ensures forall i :: 0 <= i < |visited| - 1 ==> f(visited[i], connections[visited[i]])
      ensures || (|visited| > 0 && !f(visited[|visited| - 1], connections[visited[|visited| - 1]]))
              || (forall k :: k in connections ==> k in visited)
    {
      var pending := connections.Keys;
      visited := [];
      while pending != {}
        invariant pending <= connections.Keys
        invariant forall i :: 0 <= i < |visited| ==> visited[i] in connections && visited[i] !in pending
        invariant forall i, j :: 0 <= i < j < |visited| ==> visited[i] != visited[j]
        invariant forall i :: 0 <= i < |visited| ==> f(visited[i], connections[visited[i]])
        invariant forall k :: k in connections && k !in pending ==> k in visited
        decreases pending
      {
        var key :| key in pending;
        visited := visited + [key];
        if !f(key, connections[key]) {
          return;
        }
        pending := pending - {key};
      }
    }

    /** The client filed under `jid`, and whether there is one; nil and false otherwise. */
    method Get(jid: string) returns (c: Client?, ok: bool)
      ensures ok <==> jid in connections
      ensures ok ==> c == connections[jid]
      ensures !ok ==> c == null
    {
      if jid in connections {
        c, ok := connections[jid], true;
      } else {
        c, ok := null, false;
      }
    }
  }
}
