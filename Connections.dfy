/** The client's registry of peer connections (`AttestationClient.connections`):
    one protocol channel per peer service.  A channel is closed when the task
    holding its receiving end has gone away; that happens outside this code, so
    the set of closed channels is an input to every operation. */
module Connections {
  import opened Wrappers

  /** (host, port) of a peer attestation service. */
  datatype ServiceUrl = ServiceUrl(host: string, port: nat)

  type ChanId = nat
  type Registry = map<ServiceUrl, ChanId>

  /** The answer of `conn_already_exists_or_create`. */
  datatype OpenState = Unknown | Already(chan: ChanId) | Newly(chan: ChanId)

  /** `conn_already_exists`: the registered channel of `svc`, if it is still open. */
  function OpenChannel(conns: Registry, closed: set<ChanId>, svc: ServiceUrl): (r: Option<ChanId>)
    ensures r.Some? <==> svc in conns && conns[svc] !in closed
    ensures r.Some? ==> r.value == conns[svc]
  {
    if svc in conns then
      if conns[svc] !in closed then Some(conns[svc]) else None
    else None
  }

  /** The write-locked half of `conn_already_exists_or_create`:
      `entry(svc).and_modify(..).or_insert_with(..)`, with `newChan` as the
      channel a `new_protocol_chan` call would make.  An open entry found here
      was opened by another thread since the read-locked lookup. */
  function UpdateEntry(conns: Registry, closed: set<ChanId>, svc: ServiceUrl, newChan: ChanId): (r: (OpenState, Registry))
    ensures !r.0.Unknown?
    ensures svc in conns && conns[svc] !in closed ==> r == (Already(conns[svc]), conns)
    ensures svc in conns && conns[svc] in closed ==> r == (Newly(newChan), conns[svc := newChan])
    ensures svc !in conns ==> r == (Newly(newChan), conns[svc := newChan])
  {
    if svc in conns then
      if conns[svc] in closed then (Newly(newChan), conns[svc := newChan])
      else (Already(conns[svc]), conns)
    else (Newly(newChan), conns[svc := newChan])
  }

  /** `conn_already_exists_or_create` run without interference: the
      read-locked lookup, then the write-locked entry update. */
  function GetOrCreate(conns: Registry, closed: set<ChanId>, svc: ServiceUrl, newChan: ChanId): (r: (OpenState, Registry))
    ensures !r.0.Unknown?
    // an open channel is reused and nothing changes
    ensures OpenChannel(conns, closed, svc).Some? ==> r == (Already(conns[svc]), conns)
    // a closed or missing entry is (re)placed by the new channel, which is returned
    ensures OpenChannel(conns, closed, svc).None? ==> r == (Newly(newChan), conns[svc := newChan])
    // afterwards `svc` is registered with the returned channel, and every other key is untouched
    ensures svc in r.1 && r.1[svc] == r.0.chan
    ensures forall k :: k != svc ==> (k in r.1 <==> k in conns)
    ensures forall k :: k != svc && k in conns ==> r.1[k] == conns[k]
  {
    var found := OpenChannel(conns, closed, svc);
    if found.Some? then (Already(found.value), conns)
    else UpdateEntry(conns, closed, svc, newChan)
  }

  /** Once `svc` has been got-or-created with a channel that is open, asking
      again finds that same channel and changes nothing. */
  lemma GetOrCreateIsIdempotent(conns: Registry, closed: set<ChanId>, svc: ServiceUrl, newChan: ChanId, newChan': ChanId)
    requires newChan !in closed
    ensures var (st, conns') := GetOrCreate(conns, closed, svc, newChan);
            GetOrCreate(conns', closed, svc, newChan') == (Already(st.chan), conns')
  {
    var (st, conns') := GetOrCreate(conns, closed, svc, newChan);
    if OpenChannel(conns, closed, svc).None? {
      assert conns'[svc] == newChan;
    }
    assert OpenChannel(conns', closed, svc) == Some(st.chan);
  }

  class AttestationClient {
    var connections: Registry
    /** Services with an HTTP request in flight; only its initial value is modelled. */
    var inflight: set<ServiceUrl>
    /** The next channel `new_protocol_chan` allocates. */
    var nextChan: ChanId

    /** Every registered channel has been allocated. */
    ghost predicate Valid()
      reads this
    {
      forall s :: s in connections ==> connections[s] < nextChan
    }

    /** `AttestationClient::new`. */
    constructor ()
      ensures Valid()
      ensures connections == map[] && inflight == {}
    {
      connections := map[];
      inflight := {};
      nextChan := 0;
    }

    method ConnAlreadyExists(svc: ServiceUrl, closed: set<ChanId>) returns (r: Option<ChanId>)
      ensures r.Some? <==> svc in connections && connections[svc] !in closed
      ensures r.Some? ==> r.value == connections[svc]
    {
      if svc in connections {
        var s := connections[svc];
        if s !in closed {
          return Some(s);
        }
      }
      return None;
    }

    /** `new_protocol_chan`: a channel nobody has seen. */
    method NewProtocolChan() returns (a: ChanId)
      requires Valid()
      modifies this`nextChan
      ensures Valid()
      ensures a == old(nextChan) && nextChan == a + 1
    {
      a := nextChan;
      nextChan := nextChan + 1;
    }

    method ConnAlreadyExistsOrCreate(svc: ServiceUrl, closed: set<ChanId>) returns (st: OpenState)
      requires Valid()
      requires forall c :: c in closed ==> c < nextChan  // only allocated channels can have closed
      modifies this`connections, this`nextChan
      ensures Valid()
      ensures (st, connections) == GetOrCreate(old(connections), closed, svc, old(nextChan))
      ensures nextChan == old(nextChan) + (if st.Newly? then 1 else 0)
      ensures st.chan !in closed
    {
      var ch := ConnAlreadyExists(svc, closed);
      if ch.Some? {
        return Already(ch.value);
      }
      var openState := Unknown;
      if svc in connections {
        var priorTx := connections[svc];
        if priorTx in closed {
          var a := NewProtocolChan();
          connections := connections[svc := a];
          openState := Newly(a);
        } else {
          openState := Already(priorTx);
        }
      } else {
        var a := NewProtocolChan();
        connections := connections[svc := a];
        openState := Newly(a);
      }
      if openState.Unknown? {
        assert false;
      }
      st := openState;
    }

    /** The synchronous short-circuit of `get_conn`: an open channel is returned
        as is; `None` means a new connection task has to be spawned. */
    method GetConn(svc: ServiceUrl, closed: set<ChanId>) returns (r: Option<ChanId>)
      ensures r == OpenChannel(connections, closed, svc)
    {
      r := ConnAlreadyExists(svc, closed);
    }
  }
}
