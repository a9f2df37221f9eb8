# ICN node: forwarding engine and node tables

A Dafny model of one node of an Information-Centric Networking overlay: data is
asked for by name, requests (interests) are flooded from peer to peer, and
replies travel back along the pending-interest state each node keeps. The model
covers the protocol engine of `ICNProtocol.py` and the table and peer
bookkeeping of `Node.py` that the engine drives.

- `common.dfy` (`Common`): `Option` and the name, value and address types.
- `tables.dfy` (`Tables`): the keyed table behind the PIT (pending interest
  table), the cache and the location table. It has the operations the node
  calls: `add`, `remove`, `removeCount`, `contains` and `get`. A table is a value
  that `Node` reassigns.
- `wire.dfy` (`Wire`): the message `{id, type, content, ttl}` as a datatype. It
  also holds the typed content objects and the decoding that `handleMsg`
  performs (`Decode`), with its inverse (`Encode`).
- `peers.dfy` (`Peers`): the peer list: `addPeer`, `removePeer` and the choice
  of fan-out targets ("every peer but X, in list order").
- `engine.dfy` (`Engine`): pure descriptions of what the handlers send and how
  they leave the PIT. It also holds the lemmas about branch accounting.
- `icn.dfy` (`Icn`): class `Node` (its tables, peers and owned data) and class
  `ICNProtocol` (the event handlers). The two Python classes refer to each
  other, so they share one module. Every `sendMsg` with a destination is
  appended to `ICNProtocol.outbox`. The whole state change of each message
  handler is one two-state predicate (`AnnounceEffect`, `AcknowledgeEffect`,
  `RequestEffect`, `FailEffect`, `DataEffect`). It pins every field the
  handler may touch: which messages are appended, which tables change and
  how, and what stays as it was. The handler and the `handleMsg` dispatcher
  both promise that predicate.

Python exceptions become a `Status`. When a handler raises part-way through,
the model returns `Raised(fault)` with the state changed up to that point:

- `StrayReply`: a FAIL or DATA with no PIT entry. Unpacking the absent result
  of `remove` raises.
- `MissingGetLoc`: `self.getLoc` at `ICNProtocol.py:102`.
- `BadAddress`: `addr.split(':')` in the transport's `addNodeAddr` did not
  give exactly two parts.
- `BadContent`: the content lacks a key its message type reads.

`requestData` for a name the node owns goes through `handleData` with the
node's own name as the location. `handleData` then records the node's own name
as an address. This raises (`BadAddress`) when two things both hold:

- the IP map has no entry for the node's name yet. It can have one, for
  example after the node received an ACKNOWLEDGE carrying its own name.
- the name does not hold exactly one `:`.

The location entry has already been written by then.
`ICNProtocol.RequestData` states this case.

In four places the code departs from the usual forwarding semantics of
Information-Centric Networking. The model follows the code in each case:

- The code has no check for an interest that is already pending. A second
  REQUEST overwrites the PIT entry and is forwarded again.
- A fan-out with no eligible peer sends nothing. No FAIL is made up for it,
  and `requestData` starts no peer discovery.
- Forwarded REQUESTs go out with `sendMsg`'s default ttl 1, not the inbound
  ttl minus one.
- `handleFail` resolves the PIT entry with `remove`, not with a decrement.

The last two are listed under Findings, each with a corrected handler.

The table's own implementation (`Tlru.py`) is not part of this model. The
table operations are modelled under the following assumed contract:

- `add` overwrites the value, the lifetime and the count.
- When `add` is called without a count, the count defaults to 1. The cache
  and the location table use this default.
- When `add` is called without a lifetime, the table's default lifetime
  applies. The model records that as `None`. The location table uses it.
- `contains` holds exactly when `get` finds an entry.
- `remove` evicts the entry and returns its value and count.
- `removeCount` decrements the count, evicts the entry at zero and returns the
  decremented count.
- An absent key yields nothing.

## Model

| member | source | states |
|---|---|---|
| Tables.Add | Node.py:36-37 | add: the key holds exactly the new value, lifetime and count; every other key keeps its entry |
| Tables.Remove | Node.py:43-45 | remove: an absent key yields nothing; a present one yields its value and count, and the key is gone whatever its count |
| Tables.RemoveCount | Node.py:39-41 | removeCount: yields value and decremented count; the entry stays with count-1 while that is positive and is evicted at zero |
| Tables.Empty | Node.py:15-17 | a new table has no entries |
| Tables.Contains | Node.py:47-48 | contains holds exactly when get finds an entry |
| Tables.Get | Node.py:68-70 | get: value and lifetime of a present key, nothing for an absent one |
| Tables.AddOverwrites | ICNProtocol.py:105-111 | the per-branch re-adds of a fan-out leave only the last add's value, lifetime and count |
| Tables.RemoveAfterAdd | ICNProtocol.py:137-140 | remove right after add returns what was added and restores the table minus the key |
| Tables.PositiveCountsKept | ICNProtocol.py:98-109 | adds with a count of at least 1, remove and removeCount keep every PIT count at least 1 |
| Wire.KindOf | ICNProtocol.py:45-62 | a known type string selects its kind; any other is carried as Other, which never holds a known string |
| Wire.TagOf | ICNProtocol.py:5-9 | the type string written for each kind |
| Wire.TagRoundTrip | ICNProtocol.py:5-62 | type strings round-trip through kinds, and so does every kind a string can produce |
| Wire.NameOf | ICNProtocol.py:57-60 | a content object has a data_name key exactly when it is not empty |
| Wire.Decode | ICNProtocol.py:41-65 | handleMsg's dispatch: unknown types are ignored; REQUEST/FAIL/DATA without the keys they read are malformed; the event carries the sender id |
| Wire.Encode | ICNProtocol.py:31-33 | the message sendMsg builds for an event carries the sender id and, except for REQUEST, ttl 1 |
| Wire.DecodeEncode | ICNProtocol.py:33 | a receiver decodes exactly the event the sender encoded |
| Wire.EncodeDecode | ICNProtocol.py:42-55 | a well-formed REQUEST is the encoding of its event; a DATA is, up to the ttl it never reads |
| Peers.WithPeer | Node.py:85-87 | addPeer: the name is present, the old list is an unchanged prefix, nothing else is added, no duplicates appear |
| Peers.WithPeerIdempotent | Node.py:85-87 | adding the same peer twice equals adding it once |
| Peers.IndexOf | Node.py:91 | the position of the first occurrence that list.remove deletes |
| Peers.RemoveFirst | Node.py:89-91 | removePeer: the list minus the first occurrence of the name, order kept; unchanged when the name is absent |
| Peers.RemoveFirstNoDup | Node.py:89-91 | on a duplicate-free list removePeer removes the name for good, keeps all others, keeps it duplicate-free |
| Peers.DropAtNoDup | Node.py:91 | dropping one position of a duplicate-free list drops exactly the name there and keeps it duplicate-free |
| Peers.Eligible | ICNProtocol.py:106-108 | the fan-out targets are exactly the peers other than the excluded name |
| Peers.EligibleAppend | ICNProtocol.py:105-111 | the target list is built peer by peer, in list order |
| Peers.EligibleStep | ICNProtocol.py:106-108 | the targets among the first i + 1 peers are those among the first i, then peer i unless it is the excluded one |
| Peers.EligibleIsRemoveFirst | ICNProtocol.py:146-149 | on a duplicate-free peer list the targets are the list minus the excluded name: every other peer once, in peer order |
| Peers.EligibleOfAbsent | ICNProtocol.py:147-149 | when the excluded name is not a peer, every peer is a target |
| Engine.Fanned | ICNProtocol.py:106-111 | one send per target, the i-th to the i-th target, all with the same message |
| Engine.FannedSnoc | ICNProtocol.py:111 | each further target appends one send at the end |
| Engine.SentTo | ICNProtocol.py:36-37 | a destination of None reaches nobody; a destination reaches exactly that node |
| Engine.Remembered | IPNode.py:137-142 | the transport keeps the first address it learns for a node |
| Engine.HostPortSplit | IPNode.py:147 | IsHostPort holds exactly when the address is host, one ':', port with no other ':', so the two-way unpacking succeeds |
| Engine.AsWrittenForwardPit | ICNProtocol.py:98-111 | the PIT left by the as-written fan-out to k targets: requester, count 1, deadline k (the wait deadline when k is 0); other entries kept |
| Engine.ForwardPit | ICNProtocol.py:137-152 | the PIT left by a counted fan-out to k targets: requester, wait deadline, count k (1 when k is 0); other entries kept |
| Engine.FailTarget | ICNProtocol.py:118-122 | a FAIL goes upstream only for a resolved count of 0 and a requester other than this node |
| Engine.BranchConservation | ICNProtocol.py:113-120 | through removeCount, an entry waiting on k branches relays nothing for k-1 FAILs, exactly one FAIL to its requester on the k-th (none when the requester is this node), then is gone |
| Engine.FanOutFailsOnce | ICNProtocol.py:104-122 | after a counted fan-out to k peers, k FAILs through removeCount relay nothing before the last one, then one FAIL to a requester other than this node; none for this node's own request |
| Engine.DataResolvesEntry | ICNProtocol.py:126 | one DATA resolves the whole entry, whatever its outstanding count |
| Engine.AsWrittenFailIsSilent | ICNProtocol.py:116-120 | through remove, a FAIL never relays anything while counts are positive, and it deletes the entry |
| Engine.AsWrittenForwardMiscounts | ICNProtocol.py:109 | the as-written inbound fan-out to k >= 2 peers records count 1 and deadline k, not count k and the wait deadline |
| Icn.Node.constructor | Node.py:13-19 | a node starts with its owned data, empty tables and no peers |
| Icn.Node.AddToPIT | Node.py:36-37 | the PIT gets (requester, ttw, count), count defaulting to 1; nothing else changes |
| Icn.Node.RemoveCountFromPIT | Node.py:39-41 | returns removeCount's pair unchanged and keeps its table |
| Icn.Node.RemoveFromPIT | Node.py:43-45 | returns remove's pair unchanged and keeps its table |
| Icn.Node.HasPITEntry | Node.py:47-48 | true exactly when the PIT has the name |
| Icn.Node.CanRequestFrom | Node.py:50-57 | finds a pending name whose location is the given node, with the PIT's requester and lifetime; none only when no pending name is located there |
| Icn.Node.HasLocation | Node.py:59-63 | true exactly when the location table has the name |
| Icn.Node.AddLocation | Node.py:65-66 | the location table maps the name to the supplier, default lifetime |
| Icn.Node.GetLocation | Node.py:68-70 | the remembered supplier, present exactly when hasLocation holds |
| Icn.Node.CacheData | Node.py:72-73 | the cache maps the name to (value, ttu) |
| Icn.Node.HasCache | Node.py:75-79 | true exactly when the cache has the name |
| Icn.Node.GetCache | Node.py:81-83 | the cached value and ttu, present exactly when hasCache holds |
| Icn.Node.AddPeer | Node.py:85-87 | peers becomes WithPeer of the old list |
| Icn.Node.RemovePeer | Node.py:89-91 | peers becomes the old list minus the name, order kept; on a duplicate-free list the name is gone |
| Icn.Node.HasData | Node.py:93-97 | true exactly when getData finds the name |
| Icn.Node.GetData | Node.py:103-109 | the owned value and now plus its stored time-to-use; None for a name not owned |
| Icn.Node.RequestData | Node.py:111-113 | every REQUEST sent carries deadline now + ttw and ttl 3; the PIT entry records this node with deadline now + ttw; owned data sends nothing |
| Icn.ICNProtocol.constructor | ICNProtocol.py:20-22 | the engine is wired to its node with nothing sent |
| Icn.ICNProtocol.SendMsg | ICNProtocol.py:31-38 | the message carries the node's own name; it is appended only when there is a destination and returned either way |
| Icn.ICNProtocol.NewConnection | ICNProtocol.py:25-26 | builds an ANNOUNCE and sends nothing |
| Icn.ICNProtocol.AddNodeConnection | IPNode.py:134-142 | records the connection and learns the far end's address if none is known |
| Icn.ICNProtocol.AddNodeAddr | IPNode.py:144-149 | learns an unknown node's address; raises when the address is not host:port |
| Icn.ICNProtocol.HandleAnnounce | ICNProtocol.py:67-76 | AnnounceEffect: own name: the connection is closed and nothing else changes; otherwise the peer is added, its connection and address recorded, and exactly one ACKNOWLEDGE goes to it; the tables are untouched |
| Icn.ICNProtocol.HandleAcknowledge | ICNProtocol.py:78-81 | AcknowledgeEffect: the peer is added and its connection and address recorded; nothing is sent or closed and the tables are untouched |
| Icn.ICNProtocol.HandleRequest | ICNProtocol.py:83-111 | RequestEffect: only the outbox and PIT change; owned data: one DATA (name, value, ttu, own address) to the requester, PIT untouched; ttl 1: one FAIL, PIT untouched; known location: entry added, getLoc raises, nothing sent; else one REQUEST (same name and ttw, ttl 1) per peer but the requester, in peer order |
| Icn.ICNProtocol.FanOutAsWritten | ICNProtocol.py:105-111 | sends in peer order to all peers but the requester; the PIT entry ends with count 1 and the last branch index as deadline |
| Icn.ICNProtocol.Branch | ICNProtocol.py:150-152 | one fan-out branch: the PIT entry is re-added with the given slots and exactly one REQUEST goes to the peer |
| Icn.ICNProtocol.FanOut | ICNProtocol.py:146-152 | sends in peer order with the given ttl to all peers but the requester; the PIT entry ends with count k and the wait deadline |
| Icn.ICNProtocol.HandleFail | ICNProtocol.py:113-122 | FailEffect: only the outbox and PIT change; the entry is removed; a FAIL goes upstream only on count 0 and requester not self; with positive counts nothing is ever sent; no entry raises |
| Icn.ICNProtocol.HandleData | ICNProtocol.py:124-134 | DataEffect: the entry is removed and at most one message goes out; own request: location recorded and the supplier's address learned (raising unless known or host:port), nothing sent or cached; else the DATA is relayed unchanged to the requester and cached; no entry raises |
| Icn.ICNProtocol.RequestData | ICNProtocol.py:136-152 | PIT entry with this node as requester; owned data: nothing sent, entry resolved, location recorded; known location: exactly one REQUEST with ttl; else one REQUEST per peer but self, count k |
| Icn.ICNProtocol.HandleRequestIntended | ICNProtocol.py:83-111 | corrected handleRequest: owned data and ttl 1 answered as written; otherwise the holder is read from the node, forwarded REQUESTs carry ttl - 1, and the PIT counts one branch per target |
| Icn.ICNProtocol.Forward | ICNProtocol.py:137-152 | propagation as requestData does it (and handleRequest intends it): the interest is recorded; one REQUEST to the remembered holder when known, else one per peer but the requester, with the PIT counting one branch per target and keeping the wait deadline |
| Icn.ICNProtocol.HandleFailIntended | ICNProtocol.py:113-122 | corrected failure handling through removeCount: a FAIL goes upstream exactly when the last branch has failed |
| Icn.ICNProtocol.HandleMsg | ICNProtocol.py:41-65 | returns true exactly for ACKNOWLEDGE; unknown or malformed messages change nothing; each decoded ANNOUNCE, ACKNOWLEDGE, REQUEST, FAIL and DATA has exactly its handler's whole effect, with the fields the message carries |

## Left out

- Transport (`IPNode.py`): connecting, port-range discovery, socket writes and
  connection lookup. A send appears in `outbox` even if the transport then
  finds no connection for the destination. Only `addNodeConnection`,
  `addNodeAddr` and the IP map are modelled.
- `Tlru.py` internals: capacity 3, least-recently-used eviction and lazy
  expiry are not modelled. Every table property holds of a table in which
  nothing has expired or been evicted. The recency refresh done by `get` is
  not modelled either.
- Tables.Get: returns the stored lifetime, not the remaining time to live,
  because expiry is not modelled.
- Icn.Node.CanRequestFrom: which match is returned first depends on the
  table's iteration order, which is not modelled, so the contract only says
  some matching pending name is returned.
- Icn.ICNProtocol.RequestData: states the PIT entry after the fan-out (count
  k), not each intermediate re-add with counts 1..k-1.
- Icn.Node.RequestData: states the deadline, ttl and requester of what it
  starts, not the whole effect. That effect is `ICNProtocol.RequestData`'s.
- JSON encoding and decoding: replaced by the `Message` and `Content`
  datatypes. A content string that is not JSON at all is not modelled.
- Time: `time()` is the integer parameter `now`, and deadlines are integers,
  not floats.
- `Node.__init__` beyond the initial tables: sensors and the refresh thread.
  `Node.updateData`, `Node.run`, `main` and `UserNode.py` are also left out,
  because they are threads, the reactor and the command line.
- Logging, `print` and `useData`: they only log.
- The initial discovery broadcast in `ICNProtocol.__init__`: it is transport.

## Findings

| source | as written | input that shows it | evidently intended | confidence | as-written member | corrected member |
|---|---|---|---|---|---|---|
| ICNProtocol.py:102 | `self.getLoc(data_name)`: the protocol object has no `getLoc`, so an AttributeError follows the PIT add of line 98 | a REQUEST with ttl 3 for a name the node does not own but has a location for | `self.node.getLocation(data_name)`, one REQUEST to the remembered holder | high, not executed | Icn.ICNProtocol.HandleRequest | Icn.ICNProtocol.HandleRequestIntended |
| ICNProtocol.py:109 | `addToPIT(data_name, node_name, count)` puts the branch index into the ttw slot, so the count stays 1 | peers [A, B, C]; a REQUEST from A (ttl 3) for an unknown name leaves entry (A, deadline 2, count 1) after two REQUESTs | `addToPIT(data_name, node_name, ttw, count)` as on line 150 | high, not executed | Engine.AsWrittenForwardMiscounts | Icn.ICNProtocol.HandleRequestIntended |
| ICNProtocol.py:111 | forwarded REQUESTs use `sendMsg`'s default ttl 1 | a REQUEST with ttl 3 forwarded from B to C arrives with ttl 1, so C answers FAIL instead of forwarding | the inbound ttl minus one | medium, not executed | Icn.ICNProtocol.HandleRequest | Icn.ICNProtocol.HandleRequestIntended |
| ICNProtocol.py:116 | `handleFail` resolves the entry with `removeFromPIT` (remove), which hands back the stored count of at least 1 and deletes the entry | node B with peers [A, C]: a REQUEST from A (ttl 2) goes to C, C answers FAIL, and B sends nothing to A | `removeCountFromPIT` (the "-1 remaining" of line 115): relay FAIL once the last branch has failed | medium, not executed (depends on the TLRU store's remove) | Engine.AsWrittenFailIsSilent | Engine.BranchConservation |

Each corrected member is modelled alongside the as-written one.
`HandleRequestIntended` fixes the first three rows. `HandleFailIntended`
applies the fourth. `Engine.BranchConservation` and `Engine.FanOutFailsOnce`
prove what happens after a counted fan-out to k peers, when k FAILs go through
removeCount. Nothing is relayed before the last FAIL. After it, exactly one
FAIL goes to a requester other than this node. Nothing goes out for this
node's own request. `HandleMsg` dispatches to the as-written handlers, as the
code does.
