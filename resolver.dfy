/**
 * Port-to-process resolution (`getPIDByPort`): a first-match scan of the
 * connection table for an entry whose local port is the requested one.
 */
module Resolver {
  import opened Wrappers
  import opened MachineInts

  /** One row of the connection table: its local port and owning process. */
  datatype Conn = Conn(localPort: uint32, pid: int32)

  datatype ResolveError =
    | ListingFailed        // the connection table itself could not be read
    | NoProcess(port: uint32)  // no connection uses the port

  /** Does some connection in `conns` use `port` locally? */
  ghost predicate Uses(conns: seq<Conn>, port: uint32)
  {
    exists i :: 0 <= i < |conns| && conns[i].localPort == port
  }

  /** `i` is the position of the first connection that uses `port`. */
  ghost predicate FirstUse(conns: seq<Conn>, port: uint32, i: int)
  {
    && 0 <= i < |conns|
    && conns[i].localPort == port
    && forall j :: 0 <= j < i ==> conns[j].localPort != port
  }

  /** There is at most one first connection that uses a port. */
  lemma FirstUseUnique(conns: seq<Conn>, port: uint32)
    ensures forall i, k :: FirstUse(conns, port, i) && FirstUse(conns, port, k) ==> i == k
  {
  }

  /** The scan over the connection list. */
  function FindPid(conns: seq<Conn>, port: uint32): (r: Option<int32>)
    ensures r.None? <==> !Uses(conns, port)
    ensures r.Some? ==> exists i :: FirstUse(conns, port, i) && conns[i].pid == r.value
  {
    if conns == [] then None
    else if conns[0].localPort == port then
      assert FirstUse(conns, port, 0);
      Some(conns[0].pid)
    else
      var rest := FindPid(conns[1..], port);
      if rest.None? then
        assert !Uses(conns, port) by {
          forall i | 0 <= i < |conns| ensures conns[i].localPort != port {
            if i > 0 { assert conns[1..][i - 1] == conns[i]; }
          }
        }
        None
      else
        assert exists i :: FirstUse(conns, port, i) && conns[i].pid == rest.value by {
          var k :| FirstUse(conns[1..], port, k) && conns[1..][k].pid == rest.value;
          assert FirstUse(conns, port, k + 1);
        }
        rest
  }

  /**
   * `getPIDByPort`: `connections` is what the connection enumeration
   * returned on this call (`None` when it failed).
   */
  function GetPIDByPort(connections: Option<seq<Conn>>, port: uint32): (r: Result<int32, ResolveError>)
    ensures connections.None? ==> r == Failure(ListingFailed)
    ensures connections.Some? && !Uses(connections.value, port) ==> r == Failure(NoProcess(port))
    ensures connections.Some? && Uses(connections.value, port) ==>
      r.Success? && exists i :: FirstUse(connections.value, port, i) && connections.value[i].pid == r.value
  {
    match connections
    case None => Failure(ListingFailed)
    case Some(conns) =>
      match FindPid(conns, port)
      case None => Failure(NoProcess(port))
      case Some(pid) => Success(pid)
  }

  /** A matching row after the first match does not change the answer. */
  lemma {:induction false} FindPidIgnoresLaterRows(conns: seq<Conn>, more: seq<Conn>, port: uint32)
    requires Uses(conns, port)
    ensures FindPid(conns + more, port) == FindPid(conns, port)
  {
    assert conns != [];
    if conns[0].localPort != port {
      var i :| 0 <= i < |conns| && conns[i].localPort == port;
      assert conns[1..][i - 1].localPort == port;
      FindPidIgnoresLaterRows(conns[1..], more, port);
      assert (conns + more)[1..] == conns[1..] + more;
    }
  }
}
