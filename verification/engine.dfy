/**
 * Pure descriptions of what the forwarding engine's handlers send and how
 * they leave the pending interest table, used by the contracts of the
 * handler methods and by the lemmas about pending-interest accounting.
 */
module Engine {
  import opened Common
  import opened Tables
  import opened Wire

  /** The sends of one fan-out: message m to each target, in target order. */
  function Fanned(targets: seq<Name>, m: Message): (r: seq<Sent>)
    ensures |r| == |targets|
    ensures forall i :: 0 <= i < |r| ==> r[i] == Sent(targets[i], m)
  {
    if targets == [] then [] else [Sent(targets[0], m)] + Fanned(targets[1..], m)
  }

  /** One more target appends one more send. */
  lemma FannedSnoc(targets: seq<Name>, t: Name, m: Message)
    ensures Fanned(targets + [t], m) == Fanned(targets, m) + [Sent(t, m)]
  {
    assert Fanned(targets + [t], m) == Fanned(targets, m) + [Sent(t, m)];
  }

  /** sendMsg to an optional destination: a destination of None reaches no one. */
  function SentTo(dest: Option<Name>, m: Message): (r: seq<Sent>)
    ensures |r| <= 1
    ensures r != [] <==> dest.Some?
    ensures dest.Some? ==> r == [Sent(dest.value, m)]
  {
    if dest.Some? then [Sent(dest.value, m)] else []
  }

  /** IP-map update of the transport: the first address learned for a node is kept. */
  function Remembered(ipMap: map<Name, Addr>, n: Name, addr: Addr): (r: map<Name, Addr>)
    ensures n in r && r.Keys == ipMap.Keys + {n}
    ensures forall k :: k in ipMap ==> r[k] == ipMap[k]
    ensures n !in ipMap ==> r[n] == addr
  {
    if n in ipMap then ipMap else ipMap[n := addr]
  }

  /** Whether `addr.split(':')` yields exactly a host and a port. */
  predicate IsHostPort(addr: Addr)
  {
    multiset(addr)[':'] == 1
  }

  /** IsHostPort holds exactly when the address is a host, one ':' and a
      port, neither of which holds a ':', which is when `host, port =
      addr.split(':')` unpacks without raising. */
  lemma HostPortSplit(addr: Addr)
    ensures IsHostPort(addr) <==>
      exists i :: 0 <= i < |addr| && addr[i] == ':' && ':' !in addr[..i] && ':' !in addr[i + 1..]
  {
    if IsHostPort(addr) {
      assert ':' in multiset(addr);
      var i :| 0 <= i < |addr| && addr[i] == ':' && ':' !in addr[..i] by {
        var j :| 0 <= j < |addr| && addr[j] == ':';
        var k := FirstColon(addr, j);
        assert ':' !in addr[..k];
      }
      ColonSplit(addr, i);
    } else {
      forall i | 0 <= i < |addr| && addr[i] == ':' && ':' !in addr[..i]
        ensures ':' in addr[i + 1..]
      {
        ColonSplit(addr, i);
      }
    }
  }

  /** The first ':' at or before position j. */
  function FirstColon(addr: Addr, j: nat): (k: nat)
    requires j < |addr| && addr[j] == ':'
    ensures k <= j && addr[k] == ':' && ':' !in addr[..k]
  {
    if ':' !in addr[..j] then j
    else
      var m :| 0 <= m < j && addr[m] == ':';
      FirstColon(addr, m)
  }

  /** Splitting at a ':' counts that one plus the ':'s on either side. */
  lemma ColonSplit(addr: Addr, i: nat)
    requires i < |addr| && addr[i] == ':'
    ensures multiset(addr)[':'] == multiset(addr[..i])[':'] + 1 + multiset(addr[i + 1..])[':']
  {
    assert addr == addr[..i] + [addr[i]] + addr[i + 1..];
  }

  /** The upstream neighbour a Fail is relayed to, given what the PIT handed
      back: only a resolved count of zero for a requester other than this node
      sends anything. */
  function FailTarget(got: Option<(Name, int)>, self: Name): (r: Option<Name>)
    ensures r.Some? <==> got.Some? && got.value.1 == 0 && got.value.0 != self
    ensures r.Some? ==> r.value == got.value.0
  {
    match got
    case Some((dest, c)) => if c == 0 && dest != self then Some(dest) else None
    case None => None
  }

  /** The PIT left by the as-written inbound fan-out to k targets: the first
      add records the wait deadline, and each branch then re-adds the entry
      with its branch index in the deadline slot and the default count 1. */
  function AsWrittenForwardPit(t: Table<Name>, name: Name, from: Name, ttw: int, k: nat): (r: Table<Name>)
    ensures name in r.entries && r.entries[name].val == from && r.entries[name].count == 1
    ensures r.entries[name].ttl == Some(if k == 0 then ttw else k)
    ensures forall n :: n in t.entries && n != name ==> n in r.entries && r.entries[n] == t.entries[n]
  {
    Add(t, name, from, Some(if k == 0 then ttw else k), 1)
  }

  /** The PIT left by a fan-out that counts its branches: the wait deadline,
      and a count equal to the number of targets (1 when there are none). */
  function ForwardPit(t: Table<Name>, name: Name, requester: Name, ttw: int, k: nat): (r: Table<Name>)
    ensures name in r.entries && r.entries[name] == Entry(requester, Some(ttw), if k == 0 then 1 else k)
    ensures r.entries[name].count >= 1
    ensures forall n :: n in t.entries && n != name ==> n in r.entries && r.entries[n] == t.entries[n]
  {
    Add(t, name, requester, Some(ttw), if k == 0 then 1 else k)
  }

  /** The upstream Fails sent by j successive Fails for `name` when each one
      goes through removeCount, in the order they are sent. */
  function FailsAfter(t: Table<Name>, name: Name, self: Name, j: nat): seq<Name>
    decreases j
  {
    if j == 0 then []
    else
      var step := RemoveCount(t, name);
      (match FailTarget(step.got, self) case Some(d) => [d] case None => [])
        + FailsAfter(step.rest, name, self, j - 1)
  }

  /** The PIT once j Fails for `name` have gone through removeCount. */
  function AfterFails(t: Table<Name>, name: Name, j: nat): Table<Name>
    decreases j
  {
    if j == 0 then t else AfterFails(RemoveCount(t, name).rest, name, j - 1)
  }

  /** Branch-count conservation: an entry waiting on k branches relays nothing
      for the first k - 1 Fails, relays exactly one Fail to its requester on
      the k-th (none when the requester is this node itself), and is gone
      afterwards, so any further Fail is stray. */
  lemma {:induction false} BranchConservation(t: Table<Name>, name: Name, self: Name, k: nat)
    requires name in t.entries && t.entries[name].count == k >= 1
    ensures forall j :: 0 <= j < k ==> FailsAfter(t, name, self, j) == []
    ensures FailsAfter(t, name, self, k) ==
      if t.entries[name].val != self then [t.entries[name].val] else []
    ensures name !in AfterFails(t, name, k).entries
    decreases k
  {
    var step := RemoveCount(t, name);
    var req := t.entries[name].val;
    assert step.got == Some((req, k - 1));
    if k == 1 {
      forall j | 0 <= j < k ensures FailsAfter(t, name, self, j) == [] {
        assert j == 0;
      }
      assert FailsAfter(step.rest, name, self, 0) == [];
      assert AfterFails(t, name, 1) == AfterFails(step.rest, name, 0);
    } else {
      assert FailTarget(step.got, self) == None;
      assert name in step.rest.entries && step.rest.entries[name].count == k - 1;
      assert step.rest.entries[name].val == req;
      BranchConservation(step.rest, name, self, k - 1);
      forall j | 0 <= j < k ensures FailsAfter(t, name, self, j) == [] {
        if j > 0 {
          assert FailsAfter(t, name, self, j) == [] + FailsAfter(step.rest, name, self, j - 1);
        }
      }
      assert FailsAfter(t, name, self, k) == [] + FailsAfter(step.rest, name, self, k - 1);
      assert AfterFails(t, name, k) == AfterFails(step.rest, name, k - 1);
    }
  }

  /** After a counted fan-out to k >= 1 peers, k Fails relay nothing before
      the last one arrives, and then exactly one Fail to a requester other
      than this node; none for this node's own request. */
  lemma FanOutFailsOnce(t: Table<Name>, name: Name, from: Name, self: Name, ttw: int, k: nat)
    requires k >= 1
    ensures forall j :: 0 <= j < k ==> FailsAfter(ForwardPit(t, name, from, ttw, k), name, self, j) == []
    ensures FailsAfter(ForwardPit(t, name, from, ttw, k), name, self, k) == if from != self then [from] else []
  {
    BranchConservation(ForwardPit(t, name, from, ttw, k), name, self, k);
  }

  /** One Data resolves the whole entry, however many branches are still
      outstanding: the requester comes back and the entry is gone. */
  lemma DataResolvesEntry(t: Table<Name>, name: Name, from: Name, ttw: int, k: nat)
    ensures Remove(ForwardPit(t, name, from, ttw, k), name).got == Some((from, if k == 0 then 1 else k))
    ensures name !in Remove(ForwardPit(t, name, from, ttw, k), name).rest.entries
  {
  }

  /** Through remove, a Fail hands back the full positive count, so it never
      relays anything upstream, and it deletes the entry, so the Fails of the
      remaining branches find nothing. */
  lemma AsWrittenFailIsSilent(t: Table<Name>, name: Name, self: Name)
    requires PositiveCounts(t)
    ensures FailTarget(Remove(t, name).got, self) == None
    ensures name !in Remove(t, name).rest.entries
  {
  }

  /** The as-written inbound fan-out to k >= 2 peers records count 1 instead of
      k and the last branch index instead of the wait deadline. */
  lemma AsWrittenForwardMiscounts(t: Table<Name>, name: Name, from: Name, ttw: int, k: nat)
    requires k >= 2
    ensures AsWrittenForwardPit(t, name, from, ttw, k).entries[name] == Entry(from, Some(k), 1)
    ensures ForwardPit(t, name, from, ttw, k).entries[name] == Entry(from, Some(ttw), k)
  {
  }
}
