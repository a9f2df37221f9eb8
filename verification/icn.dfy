/**
 * The node and its ICN protocol engine.  The two Python classes refer to each
 * other (the node owns its protocol object and the protocol drives the
 * node's tables), so both live in this one module.
 *
 * The engine runs one event to completion at a time.  Every send that has a
 * destination is appended to `outbox`; the transport behind it (connection
 * lookup, socket writes) is not part of this model.
 */
module Icn {
  import opened Common
  import opened Tables
  import opened Wire
  import opened Peers
  import opened Engine

  /** A transport connection as the engine sees it: an identity and the
      "host:port" of the far end. */
  datatype Conn = Conn(id: nat, peerAddr: Addr)

  /** Python exceptions a handler can raise part-way through:
      StrayReply    unpacking the absent result of a PIT removal (TypeError),
      MissingGetLoc `self.getLoc`, which the protocol object does not have (AttributeError),
      BadAddress    unpacking `addr.split(':')` into host and port (ValueError),
      BadContent    a content object without the keys its type reads (KeyError). */
  datatype Fault = StrayReply | MissingGetLoc | BadAddress | BadContent

  datatype Status = Completed | Raised(fault: Fault)

  class Node {
    const name: Name
    var PIT: Table<Name>          // data name -> requester (a neighbour, or this node's own name)
    var cache: Table<Value>       // data name -> relayed value
    var locations: Table<Name>    // data name -> neighbour that supplied it
    var peers: seq<Name>          // connected neighbours, in registration order
    var data: map<Name, (Value, int)>  // locally owned data: value and time-to-use window
    var icn: ICNProtocol?

    ghost predicate Valid()
      reads this`peers
    {
      NoDup(peers)
    }

    /** A node with its own data and empty tables, not yet wired to a protocol. */
    constructor (name: Name, data: map<Name, (Value, int)>)
      ensures this.name == name && this.data == data && peers == [] && icn == null
      ensures PIT == Empty() && cache == Empty() && locations == Empty()
      ensures Valid()
    {
      this.name := name;
      this.data := data;
      PIT, cache, locations := Empty(), Empty(), Empty();
      peers := [];
      icn := null;
    }

    /** addToPIT: records `nodeName` as the requester of `dataName`; the count
        defaults to 1. */
    method AddToPIT(dataName: Name, nodeName: Name, ttw: int, count: int := 1)
      modifies this`PIT
      ensures PIT == Add(old(PIT), dataName, nodeName, Some(ttw), count)
    {
      PIT := Add(PIT, dataName, nodeName, Some(ttw), count);
    }

    /** removeCountFromPIT: the (requester, decremented count) pair of
        removeCount, handed back unchanged; None stands for the exception the
        unpacking raises when there is no entry. */
    method RemoveCountFromPIT(dataName: Name) returns (r: Option<(Name, int)>)
      modifies this`PIT
      ensures r == RemoveCount(old(PIT), dataName).got
      ensures PIT == RemoveCount(old(PIT), dataName).rest
    {
      var taken := RemoveCount(PIT, dataName);
      PIT := taken.rest;
      r := taken.got;
    }

    /** removeFromPIT: the (requester, count) pair of remove, handed back
        unchanged; the whole entry goes, whatever its count. */
    method RemoveFromPIT(dataName: Name) returns (r: Option<(Name, int)>)
      modifies this`PIT
      ensures r == Remove(old(PIT), dataName).got
      ensures PIT == Remove(old(PIT), dataName).rest
    {
      var taken := Remove(PIT, dataName);
      PIT := taken.rest;
      r := taken.got;
    }

    function HasPITEntry(dataName: Name): (r: bool)
      reads this`PIT
      ensures r <==> Get(PIT, dataName).Some?
    {
      Contains(PIT, dataName)
    }

    /** canRequestFrom: some pending data name whose remembered location is
        `n`, with the PIT's (requester, lifetime) for it; None when no
        pending name is located at `n`.  The table's iteration order is not
        part of the model, so which match comes back is left open. */
    method CanRequestFrom(n: Name) returns (r: Option<(Name, Name, Option<int>)>)
      ensures r.Some? ==>
        var d := r.value.0;
        d in PIT.entries && d in locations.entries && locations.entries[d].val == n &&
        Get(PIT, d) == Some((r.value.1, r.value.2))
      ensures r.None? ==>
        forall d :: d in PIT.entries && d in locations.entries ==> locations.entries[d].val != n
    {
      var keys := PIT.entries.Keys;
      while keys != {}
        invariant keys <= PIT.entries.Keys
        invariant forall d :: d in PIT.entries && d !in keys && d in locations.entries ==>
          locations.entries[d].val != n
        decreases keys
      {
        var d :| d in keys;
        if Contains(locations, d) && locations.entries[d].val == n {
          var got := Get(PIT, d);
          return Some((d, got.value.0, got.value.1));
        }
        keys := keys - {d};
      }
      return None;
    }

    function HasLocation(dataName: Name): (r: bool)
      reads this`locations
      ensures r <==> Get(locations, dataName).Some?
    {
      Contains(locations, dataName)
    }

    /** addLocation: remembers the supplier, with the table's default lifetime. */
    method AddLocation(dataName: Name, location: Name)
      modifies this`locations
      ensures locations == Add(old(locations), dataName, location, None, 1)
    {
      locations := Add(locations, dataName, location, None, 1);
    }

    /** getLocation: the remembered supplier; None stands for the exception
        the unpacking raises when there is none. */
    function GetLocation(dataName: Name): (r: Option<Name>)
      reads this`locations
      ensures r.Some? <==> HasLocation(dataName)
      ensures r.Some? ==> r.value == locations.entries[dataName].val
    {
      match Get(locations, dataName)
      case Some((location, _)) => Some(location)
      case None => None
    }

    /** cacheData: stores a relayed value under its time-to-use. */
    method CacheData(dataName: Name, dataVal: Value, ttu: int)
      modifies this`cache
      ensures cache == Add(old(cache), dataName, dataVal, Some(ttu), 1)
    {
      cache := Add(cache, dataName, dataVal, Some(ttu), 1);
    }

    function HasCache(dataName: Name): (r: bool)
      reads this`cache
      ensures r <==> Get(cache, dataName).Some?
    {
      Contains(cache, dataName)
    }

    /** getCache: the cached value and its time-to-use. */
    function GetCache(dataName: Name): (r: Option<(Value, Option<int>)>)
      reads this`cache
      ensures r.Some? <==> HasCache(dataName)
      ensures r.Some? ==> r.value == (cache.entries[dataName].val, cache.entries[dataName].ttl)
    {
      Get(cache, dataName)
    }

    /** addPeer: appends a new neighbour at the end and ignores a known one. */
    method AddPeer(nodeName: Name)
      modifies this`peers
      ensures peers == WithPeer(old(peers), nodeName)
    {
      if nodeName !in peers {
        peers := peers + [nodeName];
      }
    }

    /** removePeer: drops the neighbour if present; the others keep their order. */
    method RemovePeer(nodeName: Name)
      modifies this`peers
      ensures peers == RemoveFirst(old(peers), nodeName)
      ensures old(Valid()) ==> Valid() && nodeName !in peers
    {
      ghost var before := peers;
      if nodeName in peers {
        peers := RemoveFirst(peers, nodeName);
      }
      if NoDup(before) {
        RemoveFirstNoDup(before, nodeName);
      }
    }

    function HasData(dataName: Name): (r: bool)
      reads this`data
      ensures r <==> GetData(dataName, 0).Some?
    {
      dataName in data
    }

    /** getData: the owned value with its time-to-use turned into an absolute
        deadline (`now` plus the stored window); None for a name not owned. */
    function GetData(dataName: Name, now: int): (r: Option<(Value, int)>)
      reads this`data
      ensures r.Some? <==> dataName in data
      ensures r.Some? ==> r.value.0 == data[dataName].0 && r.value.1 - now == data[dataName].1
    {
      if dataName in data then Some((data[dataName].0, data[dataName].1 + now)) else None
    }

    /** requestData: asks the protocol for `dataName` with the absolute wait
        deadline `now + ttw` (ttw defaults to 10) and the default hop budget 3. */
    method RequestData(dataName: Name, now: int, ttw: int := 10) returns (st: Status)
      requires icn != null && icn.node == this && icn.Valid()
      modifies this`PIT, this`cache, this`locations, icn`outbox, icn`ipMap
      ensures icn.Valid()
      ensures forall i :: |old(icn.outbox)| <= i < |icn.outbox| ==>
        icn.outbox[i].msg == Encode(Requested(name, dataName, now + ttw, 3))
      ensures dataName in data ==> icn.outbox == old(icn.outbox) && dataName !in PIT.entries
      ensures dataName !in data ==>
        dataName in PIT.entries && PIT.entries[dataName].val == name &&
        PIT.entries[dataName].ttl == Some(now + ttw)
    {
      st := icn.RequestData(dataName, now + ttw, now);
    }
  }

  class ICNProtocol {
    const node: Node
    const selfAddr: Addr               // "host:port" of this node's transport
    var outbox: seq<Sent>              // every send that had a destination, in order
    var connections: map<Name, Conn>   // neighbour -> its connection
    var ipMap: map<Name, Addr>         // neighbour -> first address learned for it
    var closed: seq<Conn>              // connections torn down by the engine

    /** The peer list has no duplicates and every message sent carries this
        node's name. */
    ghost predicate Valid()
      reads this`outbox, node`peers
    {
      node.Valid() && forall s :: s in outbox ==> s.msg.id == node.name
    }

    /** Every pending interest waits on at least one branch: each add into
        the PIT records a count of at least 1. */
    ghost predicate Counted()
      reads node`PIT
    {
      PositiveCounts(node.PIT)
    }

    /** Wires a protocol engine to its node; the transport start-up and the
        initial discovery broadcast are not part of this model. */
    constructor (node: Node, selfAddr: Addr)
      requires node.Valid()
      modifies node`icn
      ensures this.node == node && this.selfAddr == selfAddr && node.icn == this
      ensures outbox == [] && connections == map[] && ipMap == map[] && closed == []
      ensures Valid()
    {
      this.node := node;
      this.selfAddr := selfAddr;
      outbox, connections, ipMap, closed := [], map[], map[], [];
      new;
      node.icn := this;
    }

    /** sendMsg: builds {id: own name, type, content, ttl} (content defaults
        to empty, ttl to 1); it goes out only when there is a destination, and
        the message is returned either way. */
    method SendMsg(kind: Kind, dest: Option<Name>, content: Content := NoContent, ttl: int := 1)
      returns (m: Message)
      modifies this`outbox
      ensures m == Message(node.name, kind, content, ttl)
      ensures outbox == old(outbox) + SentTo(dest, m)
      ensures old(Valid()) ==> Valid()
    {
      m := Message(node.name, kind, content, ttl);
      if dest.Some? {
        outbox := outbox + [Sent(dest.value, m)];
      }
    }

    /** newConnection: builds an ANNOUNCE without a destination, so nothing
        is sent.  The Python method discards the message and returns None;
        it is returned here only so that the contract can say what was
        built. */
    method NewConnection() returns (m: Message)
      requires Valid()
      modifies this`outbox
      ensures Valid()
      ensures m == Encode(Announced(node.name)) && outbox == old(outbox)
    {
      m := SendMsg(Announce, None);
    }

    /** The transport's addNodeConnection: the connection is recorded and the
        far end's address is learned unless one is known already. */
    method AddNodeConnection(source: Conn, nodeName: Name)
      modifies this`connections, this`ipMap
      ensures connections == old(connections)[nodeName := source]
      ensures ipMap == Remembered(old(ipMap), nodeName, source.peerAddr)
    {
      connections := connections[nodeName := source];
      ipMap := Remembered(ipMap, nodeName, source.peerAddr);
    }

    /** The transport's addNodeAddr: an unknown node's address is split into
        host and port, which raises unless it has exactly one ':'. */
    method AddNodeAddr(nodeName: Name, addr: Addr) returns (st: Status)
      modifies this`ipMap
      ensures nodeName in old(ipMap) || IsHostPort(addr) ==>
        st == Completed && ipMap == Remembered(old(ipMap), nodeName, addr)
      ensures nodeName !in old(ipMap) && !IsHostPort(addr) ==>
        st == Raised(BadAddress) && ipMap == old(ipMap)
    {
      if nodeName !in ipMap {
        if !IsHostPort(addr) {
          return Raised(BadAddress);
        }
        ipMap := ipMap[nodeName := addr];
      }
      return Completed;
    }

    /** The whole state change of handleAnnounce: an ANNOUNCE carrying this
        node's own name closes the connection and changes nothing else; any
        other registers the neighbour and answers with exactly one
        ACKNOWLEDGE.  The tables are untouched either way. */
    twostate predicate AnnounceEffect(nodeName: Name, source: Conn)
      reads this, node
    {
      node.PIT == old(node.PIT) && node.cache == old(node.cache) &&
      node.locations == old(node.locations) &&
      if nodeName == node.name then
        closed == old(closed) + [source] && outbox == old(outbox) &&
        node.peers == old(node.peers) && connections == old(connections) && ipMap == old(ipMap)
      else
        closed == old(closed) &&
        node.peers == WithPeer(old(node.peers), nodeName) &&
        connections == old(connections)[nodeName := source] &&
        ipMap == Remembered(old(ipMap), nodeName, source.peerAddr) &&
        outbox == old(outbox) + [Sent(nodeName, Encode(Acknowledged(node.name)))]
    }

    /** The whole state change of handleAcknowledge: the neighbour and its
        connection are registered, and nothing is sent or closed. */
    twostate predicate AcknowledgeEffect(nodeName: Name, source: Conn)
      reads this, node
    {
      node.PIT == old(node.PIT) && node.cache == old(node.cache) &&
      node.locations == old(node.locations) &&
      outbox == old(outbox) && closed == old(closed) &&
      node.peers == WithPeer(old(node.peers), nodeName) &&
      connections == old(connections)[nodeName := source] &&
      ipMap == Remembered(old(ipMap), nodeName, source.peerAddr)
    }

    /** The whole state change of handleRequest as written, with its outcome
        st; only the outbox and the PIT can change. */
    twostate predicate RequestEffect(nodeName: Name, dataName: Name, ttw: int, ttl: int, now: int, st: Status)
      reads this, node
    {
      connections == old(connections) && ipMap == old(ipMap) && closed == old(closed) &&
      node.peers == old(node.peers) && node.cache == old(node.cache) &&
      node.locations == old(node.locations) &&
      if dataName in node.data then
        st == Completed && node.PIT == old(node.PIT) &&
        outbox == old(outbox) + [Sent(nodeName, Encode(Delivered(node.name, dataName,
          node.data[dataName].0, node.data[dataName].1 + now, selfAddr)))]
      else if ttl == 1 then
        st == Completed && node.PIT == old(node.PIT) &&
        outbox == old(outbox) + [Sent(nodeName, Encode(Failed(node.name, dataName)))]
      else if dataName in node.locations.entries then
        st == Raised(MissingGetLoc) && outbox == old(outbox) &&
        node.PIT == Add(old(node.PIT), dataName, nodeName, Some(ttw), 1)
      else
        st == Completed &&
        outbox == old(outbox) + Fanned(Eligible(node.peers, nodeName), Encode(Requested(node.name, dataName, ttw, 1))) &&
        node.PIT == AsWrittenForwardPit(old(node.PIT), dataName, nodeName, ttw, |Eligible(node.peers, nodeName)|)
    }

    /** The whole state change of handleFail as written: the entry is
        removed, a FAIL goes upstream as FailTarget decides, and a missing
        entry raises. */
    twostate predicate FailEffect(dataName: Name, st: Status)
      reads this, node
    {
      connections == old(connections) && ipMap == old(ipMap) && closed == old(closed) &&
      node.peers == old(node.peers) && node.cache == old(node.cache) &&
      node.locations == old(node.locations) &&
      node.PIT == Remove(old(node.PIT), dataName).rest &&
      st == (if dataName in old(node.PIT).entries then Completed else Raised(StrayReply)) &&
      outbox == old(outbox) +
        SentTo(FailTarget(Remove(old(node.PIT), dataName).got, node.name), Encode(Failed(node.name, dataName)))
    }

    /** The whole state change of handleData: the entry is removed; a missing
        entry raises; for this node's own request the supplier is remembered
        as the location and its address learned (which can raise), nothing is
        sent or cached; for a neighbour's request the DATA is relayed
        unchanged and the value cached. */
    twostate predicate DataEffect(nodeName: Name, dataName: Name, dataVal: Value, ttu: int, location: Addr, st: Status)
      reads this, node
    {
      connections == old(connections) && closed == old(closed) && node.peers == old(node.peers) &&
      node.PIT == Remove(old(node.PIT), dataName).rest &&
      if dataName !in old(node.PIT).entries then
        st == Raised(StrayReply) && outbox == old(outbox) && ipMap == old(ipMap) &&
        node.cache == old(node.cache) && node.locations == old(node.locations)
      else if old(node.PIT).entries[dataName].val == node.name then
        outbox == old(outbox) && node.cache == old(node.cache) &&
        node.locations == Add(old(node.locations), dataName, nodeName, None, 1) &&
        (if nodeName in old(ipMap) || IsHostPort(location) then
           st == Completed && ipMap == Remembered(old(ipMap), nodeName, location)
         else
           st == Raised(BadAddress) && ipMap == old(ipMap))
      else
        st == Completed && ipMap == old(ipMap) && node.locations == old(node.locations) &&
        outbox == old(outbox) + [Sent(old(node.PIT).entries[dataName].val,
          Encode(Delivered(node.name, dataName, dataVal, ttu, location)))] &&
        node.cache == Add(old(node.cache), dataName, dataVal, Some(ttu), 1)
    }

    /** handleAnnounce: an ANNOUNCE carrying this node's own name closes the
        connection and changes nothing else; any other registers the
        neighbour and answers with exactly one ACKNOWLEDGE. */
    method HandleAnnounce(nodeName: Name, source: Conn)
      requires Valid()
      modifies this`outbox, this`connections, this`ipMap, this`closed, node`peers
      ensures Valid()
      ensures AnnounceEffect(nodeName, source)
    {
      if nodeName == node.name {
        closed := closed + [source];
        return;
      }
      AddNodeConnection(source, nodeName);
      node.AddPeer(nodeName);
      var _ := SendMsg(Acknowledge, Some(nodeName));
    }

    /** handleAcknowledge: registers the neighbour and sends nothing (there is
        no self check on this side of the handshake). */
    method HandleAcknowledge(nodeName: Name, source: Conn)
      requires Valid()
      modifies this`connections, this`ipMap, node`peers
      ensures Valid()
      ensures AcknowledgeEffect(nodeName, source)
    {
      AddNodeConnection(source, nodeName);
      node.AddPeer(nodeName);
    }

    /** handleRequest as written.  Owned data is answered with one DATA;
        otherwise a last-hop request (ttl 1) is answered with one FAIL;
        otherwise the interest is recorded and then either `self.getLoc`
        raises (a location is known) or one REQUEST goes to every peer but the
        requester, in peer order, with the default ttl 1.  No check for an
        interest already pending, and no FAIL when no peer is eligible. */
    method HandleRequest(nodeName: Name, dataName: Name, ttw: int, ttl: int, now: int)
      returns (st: Status)
      requires Valid()
      modifies this`outbox, node`PIT
      ensures Valid()
      ensures old(Counted()) ==> Counted()
      ensures RequestEffect(nodeName, dataName, ttw, ttl, now, st)
    {
      if node.HasData(dataName) {
        var got := node.GetData(dataName, now);
        var _ := SendMsg(Data, Some(nodeName), Payload(dataName, got.value.0, got.value.1, selfAddr));
        return Completed;
      } else if ttl == 1 {
        var _ := SendMsg(Fail, Some(nodeName), Failure(dataName));
        return Completed;
      }
      node.AddToPIT(dataName, nodeName, ttw);
      PositiveCountsKept(old(node.PIT), dataName, nodeName, Some(ttw), 1);
      var content := Interest(dataName, ttw);
      if node.HasLocation(dataName) {
        return Raised(MissingGetLoc);
      }
      FanOutAsWritten(nodeName, dataName, ttw);
      AddOverwrites(old(node.PIT), dataName, nodeName, Some(ttw), 1, nodeName,
        Some(|Eligible(node.peers, nodeName)|), 1);
      PositiveCountsKept(old(node.PIT), dataName, nodeName, Some(|Eligible(node.peers, nodeName)|), 1);
      return Completed;
    }

    /** The fan-out loop of handleRequest (lines 105-111) as written: every
        peer but the requester gets the REQUEST with the default ttl 1, and
        each branch re-adds the PIT entry with its branch index in the ttw
        slot, so the count stays 1. */
    method FanOutAsWritten(requester: Name, dataName: Name, ttw: int)
      requires Valid()
      modifies this`outbox, node`PIT
      ensures Valid()
      ensures outbox == old(outbox) +
        Fanned(Eligible(node.peers, requester), Encode(Requested(node.name, dataName, ttw, 1)))
      ensures node.PIT == if Eligible(node.peers, requester) == [] then old(node.PIT)
        else Add(old(node.PIT), dataName, requester, Some(|Eligible(node.peers, requester)|), 1)
    {
      ghost var req := Encode(Requested(node.name, dataName, ttw, 1));
      ghost var targets: seq<Name> := [];
      var count := 1;
      var i := 0;
      while i < |node.peers|
        invariant 0 <= i <= |node.peers|
        invariant targets == Eligible(node.peers[..i], requester)
        invariant count == |targets| + 1
        invariant outbox == old(outbox) + Fanned(targets, req)
        invariant node.PIT == if count == 1 then old(node.PIT)
          else Add(old(node.PIT), dataName, requester, Some(count - 1), 1)
        invariant Valid()
      {
        var n := node.peers[i];
        EligibleStep(node.peers, i, requester);
        if n != requester {
          Branch(n, requester, dataName, ttw, count, 1, 1);
          AddOverwrites(old(node.PIT), dataName, requester, Some(count - 1), 1, requester, Some(count), 1);
          FannedSnoc(targets, n, req);
          targets := targets + [n];
          count := count + 1;
        }
        i := i + 1;
      }
      assert node.peers[..i] == node.peers;
    }

    /** The fan-out loop of requestData (lines 146-152): every peer but the
        requester gets the REQUEST with hop budget ttl, and the k-th branch
        re-adds the PIT entry with count k and the wait deadline. */
    method FanOut(requester: Name, dataName: Name, ttw: int, ttl: int)
      requires Valid()
      modifies this`outbox, node`PIT
      ensures Valid()
      ensures outbox == old(outbox) +
        Fanned(Eligible(node.peers, requester), Encode(Requested(node.name, dataName, ttw, ttl)))
      ensures node.PIT == if Eligible(node.peers, requester) == [] then old(node.PIT)
        else Add(old(node.PIT), dataName, requester, Some(ttw), |Eligible(node.peers, requester)|)
    {
      ghost var req := Encode(Requested(node.name, dataName, ttw, ttl));
      ghost var targets: seq<Name> := [];
      var count := 1;
      var i := 0;
      while i < |node.peers|
        invariant 0 <= i <= |node.peers|
        invariant targets == Eligible(node.peers[..i], requester)
        invariant count == |targets| + 1
        invariant outbox == old(outbox) + Fanned(targets, req)
        invariant node.PIT == if count == 1 then old(node.PIT)
          else Add(old(node.PIT), dataName, requester, Some(ttw), count - 1)
        invariant Valid()
      {
        var n := node.peers[i];
        EligibleStep(node.peers, i, requester);
        if n != requester {
          Branch(n, requester, dataName, ttw, ttw, count, ttl);
          AddOverwrites(old(node.PIT), dataName, requester, Some(ttw), count - 1, requester, Some(ttw), count);
          FannedSnoc(targets, n, req);
          targets := targets + [n];
          count := count + 1;
        }
        i := i + 1;
      }
      assert node.peers[..i] == node.peers;
    }

    /** One branch of a fan-out loop: the PIT entry is re-added with the
        given (ttw, count) slots and a REQUEST for `dataName` with wait
        deadline `wait` and hop budget `ttl` goes to peer n. */
    method Branch(n: Name, requester: Name, dataName: Name, wait: int, ttw: int, count: int, ttl: int)
      requires Valid()
      modifies this`outbox, node`PIT
      ensures Valid()
      ensures node.PIT == Add(old(node.PIT), dataName, requester, Some(ttw), count)
      ensures outbox == old(outbox) + [Sent(n, Encode(Requested(node.name, dataName, wait, ttl)))]
    {
      node.AddToPIT(dataName, requester, ttw, count);
      var _ := SendMsg(Request, Some(n), Interest(dataName, wait), ttl);
    }

    /** handleFail as written: the PIT entry is taken out with remove, and a
        FAIL goes upstream only for a returned count of 0 and a requester
        other than this node (a requester equal to this node is only logged).
        Since every entry holds a count of at least 1, nothing is ever sent. */
    method HandleFail(nodeName: Name, dataName: Name) returns (st: Status)
      requires Valid()
      modifies this`outbox, node`PIT
      ensures Valid()
      ensures old(Counted()) ==> Counted()
      ensures FailEffect(dataName, st)
      ensures old(Counted()) ==> outbox == old(outbox)
    {
      PositiveCountsKept(node.PIT, dataName, nodeName, None, 1);
      if Counted() {
        AsWrittenFailIsSilent(node.PIT, dataName, node.name);
      }
      var got := node.RemoveFromPIT(dataName);
      if got.None? {
        return Raised(StrayReply);
      }
      var (dest, r) := got.value;
      if r == 0 && dest != node.name {
        var _ := SendMsg(Fail, Some(dest), Failure(dataName));
      }
      return Completed;
    }

    /** handleData: the whole PIT entry is resolved by one DATA.  For this
        node's own request the supplier is remembered as the location and its
        address learned (which can raise), nothing is sent and nothing cached;
        for a neighbour's request the DATA is relayed unchanged to it and the
        value cached. */
    method HandleData(nodeName: Name, dataName: Name, dataVal: Value, ttu: int, location: Addr)
      returns (st: Status)
      requires Valid()
      modifies this`outbox, this`ipMap, node`PIT, node`cache, node`locations
      ensures Valid()
      ensures old(Counted()) ==> Counted()
      ensures DataEffect(nodeName, dataName, dataVal, ttu, location, st)
    {
      PositiveCountsKept(node.PIT, dataName, nodeName, None, 1);
      var got := node.RemoveFromPIT(dataName);
      if got.None? {
        return Raised(StrayReply);
      }
      var (dest, _) := got.value;
      if dest == node.name {
        node.AddLocation(dataName, nodeName);
        st := AddNodeAddr(nodeName, location);
        // useData only logs the value
      } else {
        var _ := SendMsg(Data, Some(dest), Payload(dataName, dataVal, ttu, location));
        node.CacheData(dataName, dataVal, ttu);
        st := Completed;
      }
    }

    /** requestData: records this node as the requester (deadline ttw); owned
        data is short-circuited through handleData without a send; a known
        location gets exactly one REQUEST with the hop budget ttl (default 3);
        otherwise one REQUEST goes to every peer other than this node, in peer
        order, the PIT count being re-added as 1..k. */
    method RequestData(dataName: Name, ttw: int, now: int, ttl: int := 3) returns (st: Status)
      requires Valid()
      modifies this`outbox, this`ipMap, node`PIT, node`cache, node`locations
      ensures Valid()
      ensures old(Counted()) ==> Counted()
      ensures node.cache == old(node.cache)
      ensures dataName in node.data ==>
        outbox == old(outbox) && node.PIT == Remove(old(node.PIT), dataName).rest &&
        node.locations == Add(old(node.locations), dataName, node.name, None, 1) &&
        (node.name in old(ipMap) || IsHostPort(node.name) ==>
          st == Completed && ipMap == Remembered(old(ipMap), node.name, node.name)) &&
        (node.name !in old(ipMap) && !IsHostPort(node.name) ==>
          st == Raised(BadAddress) && ipMap == old(ipMap))
      ensures dataName !in node.data && dataName in node.locations.entries ==>
        st == Completed && ipMap == old(ipMap) && node.locations == old(node.locations) &&
        outbox == old(outbox) + [Sent(node.locations.entries[dataName].val,
          Encode(Requested(node.name, dataName, ttw, ttl)))] &&
        node.PIT == Add(old(node.PIT), dataName, node.name, Some(ttw), 1)
      ensures dataName !in node.data && dataName !in node.locations.entries ==>
        st == Completed && ipMap == old(ipMap) && node.locations == old(node.locations) &&
        outbox == old(outbox) + Fanned(Eligible(node.peers, node.name), Encode(Requested(node.name, dataName, ttw, ttl))) &&
        node.PIT == ForwardPit(old(node.PIT), dataName, node.name, ttw, |Eligible(node.peers, node.name)|)
    {
      if node.HasData(dataName) {
        node.AddToPIT(dataName, node.name, ttw);
        PositiveCountsKept(old(node.PIT), dataName, node.name, Some(ttw), 1);
        var got := node.GetData(dataName, now);
        RemoveAfterAdd(old(node.PIT), dataName, node.name, Some(ttw), 1);
        st := HandleData(node.name, dataName, got.value.0, got.value.1, node.name);
      } else {
        Forward(node.name, dataName, ttw, ttl);
        st := Completed;
      }
    }

    /** handleRequest as evidently intended: the known location is looked up
        on the node, every forwarded REQUEST carries one hop less than the
        inbound one, and the fan-out records one outstanding branch per
        target while keeping the wait deadline. */
    method HandleRequestIntended(nodeName: Name, dataName: Name, ttw: int, ttl: int, now: int)
      requires Valid()
      modifies this`outbox, node`PIT
      ensures Valid()
      ensures old(Counted()) ==> Counted()
      ensures dataName in node.data ==>
        node.PIT == old(node.PIT) &&
        outbox == old(outbox) + [Sent(nodeName, Encode(Delivered(node.name, dataName,
          node.data[dataName].0, node.data[dataName].1 + now, selfAddr)))]
      ensures dataName !in node.data && ttl == 1 ==>
        node.PIT == old(node.PIT) &&
        outbox == old(outbox) + [Sent(nodeName, Encode(Failed(node.name, dataName)))]
      ensures dataName !in node.data && ttl != 1 && dataName in node.locations.entries ==>
        outbox == old(outbox) + [Sent(node.locations.entries[dataName].val,
          Encode(Requested(node.name, dataName, ttw, ttl - 1)))] &&
        node.PIT == ForwardPit(old(node.PIT), dataName, nodeName, ttw, 1)
      ensures dataName !in node.data && ttl != 1 && dataName !in node.locations.entries ==>
        outbox == old(outbox) + Fanned(Eligible(node.peers, nodeName), Encode(Requested(node.name, dataName, ttw, ttl - 1))) &&
        node.PIT == ForwardPit(old(node.PIT), dataName, nodeName, ttw, |Eligible(node.peers, nodeName)|)
    {
      if node.HasData(dataName) {
        var got := node.GetData(dataName, now);
        var _ := SendMsg(Data, Some(nodeName), Payload(dataName, got.value.0, got.value.1, selfAddr));
      } else if ttl == 1 {
        var _ := SendMsg(Fail, Some(nodeName), Failure(dataName));
      } else {
        Forward(nodeName, dataName, ttw, ttl - 1);
      }
    }

    /** Propagation of an interest, as requestData does it (lines 137 and
        141-152) and as handleRequest evidently intends it (lines 98-111):
        the interest is recorded, then sent with hop budget ttl to the
        remembered holder when there is one and to every peer but the
        requester otherwise, with one outstanding branch per target. */
    method Forward(nodeName: Name, dataName: Name, ttw: int, ttl: int)
      requires Valid()
      modifies this`outbox, node`PIT
      ensures Valid()
      ensures old(Counted()) ==> Counted()
      ensures dataName in node.locations.entries ==>
        outbox == old(outbox) + [Sent(node.locations.entries[dataName].val,
          Encode(Requested(node.name, dataName, ttw, ttl)))] &&
        node.PIT == ForwardPit(old(node.PIT), dataName, nodeName, ttw, 1)
      ensures dataName !in node.locations.entries ==>
        outbox == old(outbox) + Fanned(Eligible(node.peers, nodeName), Encode(Requested(node.name, dataName, ttw, ttl))) &&
        node.PIT == ForwardPit(old(node.PIT), dataName, nodeName, ttw, |Eligible(node.peers, nodeName)|)
    {
      node.AddToPIT(dataName, nodeName, ttw);
      PositiveCountsKept(old(node.PIT), dataName, nodeName, Some(ttw), 1);
      if node.HasLocation(dataName) {
        var _ := SendMsg(Request, node.GetLocation(dataName), Interest(dataName, ttw), ttl);
        return;
      }
      FanOut(nodeName, dataName, ttw, ttl);
      AddOverwrites(old(node.PIT), dataName, nodeName, Some(ttw), 1, nodeName,
        Some(ttw), |Eligible(node.peers, nodeName)|);
    }

    /** handleFail as evidently intended (the `-1 remaining` of its comment):
        through removeCount, one branch is resolved per FAIL, and the FAIL is
        relayed to the requester exactly when the last branch has failed. */
    method HandleFailIntended(nodeName: Name, dataName: Name) returns (st: Status)
      requires Valid()
      modifies this`outbox, node`PIT
      ensures Valid()
      ensures old(Counted()) ==> Counted()
      ensures node.PIT == RemoveCount(old(node.PIT), dataName).rest
      ensures st == if dataName in old(node.PIT).entries then Completed else Raised(StrayReply)
      ensures outbox == old(outbox) +
        SentTo(FailTarget(RemoveCount(old(node.PIT), dataName).got, node.name), Encode(Failed(node.name, dataName)))
    {
      PositiveCountsKept(node.PIT, dataName, nodeName, None, 1);
      var got := node.RemoveCountFromPIT(dataName);
      if got.None? {
        return Raised(StrayReply);
      }
      var (dest, r) := got.value;
      if r == 0 && dest != node.name {
        var _ := SendMsg(Fail, Some(dest), Failure(dataName));
      }
      return Completed;
    }

    /** handleMsg: decodes the message and runs the handler for its type;
        only an ACKNOWLEDGE makes it return true.  A message of unknown type
        changes nothing, and so does one whose content lacks the keys its
        type reads (that one raises). */
    method HandleMsg(msg: Message, source: Conn, now: int) returns (acked: bool, st: Status)
      requires Valid()
      modifies this`outbox, this`connections, this`ipMap, this`closed,
        node`peers, node`PIT, node`cache, node`locations
      ensures Valid()
      ensures old(Counted()) ==> Counted()
      ensures acked <==> msg.kind == Acknowledge
      ensures Decode(msg).Ignored? ==> st == Completed && unchanged(this, node)
      ensures Decode(msg).Malformed? ==> st == Raised(BadContent) && unchanged(this, node)
      ensures Decode(msg).Announced? ==> st == Completed && AnnounceEffect(msg.id, source)
      ensures Decode(msg).Acknowledged? ==> st == Completed && AcknowledgeEffect(msg.id, source)
      ensures Decode(msg).Requested? ==>
        RequestEffect(msg.id, msg.content.name, msg.content.ttw, msg.ttl, now, st)
      ensures Decode(msg).Failed? ==>
        FailEffect(Decode(msg).name, st) && (old(Counted()) ==> outbox == old(outbox))
      ensures Decode(msg).Delivered? ==> DataEffect(msg.id, msg.content.name, msg.content.value,
        msg.content.ttu, msg.content.location, st)
    {
      acked := false;
      st := Completed;
      match Decode(msg)
      case Announced(from) =>
        HandleAnnounce(from, source);
      case Acknowledged(from) =>
        HandleAcknowledge(from, source);
        acked := true;
      case Requested(from, dataName, ttw, ttl) =>
        st := HandleRequest(from, dataName, ttw, ttl, now);
      case Failed(from, dataName) =>
        st := HandleFail(from, dataName);
      case Delivered(from, dataName, dataVal, ttu, location) =>
        st := HandleData(from, dataName, dataVal, ttu, location);
      case Ignored =>
      case Malformed =>
        st := Raised(BadContent);
    }
  }
}
