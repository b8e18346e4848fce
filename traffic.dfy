/**
 * The program's entry point (`main`): list the connections once, run one
 * monitor per connection's local port, then prepare the charts of both
 * maps.
 */
module Traffic {
  import opened Wrappers
  import opened MachineInts
  import opened Resolver
  import opened Monitor
  import opened Render

  /** The final store contents and the charts prepared from them. */
  datatype Snapshot = Snapshot(
    received: map<uint32, seq<uint64>>,
    sent: map<uint32, seq<uint64>>,
    receivedCharts: map<uint32, seq<Point>>,
    sentCharts: map<uint32, seq<Point>>)

  /** The local ports of a connection table. */
  function Ports(conns: seq<Conn>): (r: set<uint32>)
  {
    set c | c in conns :: c.localPort
  }

  /** Port `p` holds what the monitor started for connection `j` recorded. */
  ghost predicate WrittenBy(conns: seq<Conn>, schedules: seq<seq<Tick>>, j: int, p: uint32,
                            received: map<uint32, seq<uint64>>, sent: map<uint32, seq<uint64>>)
    requires |schedules| == |conns|
  {
    && 0 <= j < |conns|
    && conns[j].localPort == p
    && p in received && p in sent
    && received[p] == Reads(Samples(Outcomes(schedules[j], p)))
    && sent[p] == Writes(Samples(Outcomes(schedules[j], p)))
  }

  /** A monitor whose first poll fails leaves two empty series, and neither is drawn. */
  lemma FirstPollFailureNotDrawn(outcomes: seq<PollResult>)
    requires outcomes != [] && outcomes[0].Failed?
    ensures Reads(Samples(outcomes)) == [] && Writes(Samples(outcomes)) == []
    ensures Skipped(Reads(Samples(outcomes))) && Skipped(Writes(Samples(outcomes)))
  {
  }

  /** Starting one more monitor adds its port to the ports of the table so far. */
  lemma PortsSnoc(conns: seq<Conn>, i: nat)
    requires i < |conns|
    ensures Ports(conns[..i + 1]) == Ports(conns[..i]) + {conns[i].localPort}
  {
    assert conns[..i + 1] == conns[..i] + [conns[i]];
  }

  /** A monitor writing port `q` leaves what other monitors wrote to other ports in place. */
  lemma WrittenByOther(conns: seq<Conn>, schedules: seq<seq<Tick>>, j: int, p: uint32, q: uint32,
                       received: map<uint32, seq<uint64>>, sent: map<uint32, seq<uint64>>,
                       r: seq<uint64>, w: seq<uint64>)
    requires |schedules| == |conns|
    requires p != q && WrittenBy(conns, schedules, j, p, received, sent)
    ensures WrittenBy(conns, schedules, j, p, received[q := r], sent[q := w])
  {
  }

  /**
   * After the monitors for `conns[..i]` have run: the maps hold exactly
   * their ports, and `writer[p]` names the monitor whose series port `p`
   * holds.
   */
  ghost predicate Launched(conns: seq<Conn>, schedules: seq<seq<Tick>>, i: nat, writer: map<uint32, int>,
                           received: map<uint32, seq<uint64>>, sent: map<uint32, seq<uint64>>)
    requires |schedules| == |conns| && i <= |conns|
  {
    && received.Keys == Ports(conns[..i]) && sent.Keys == Ports(conns[..i])
    && writer.Keys == received.Keys
    && forall p :: p in writer ==> writer[p] < i && WrittenBy(conns, schedules, writer[p], p, received, sent)
  }

  /**
   * Running the monitor for `conns[i]` replaces its port's series by what
   * it recorded; afterwards that monitor is the writer of its port and
   * every other port keeps its writer.
   */
  lemma {:induction false} LaunchStep(conns: seq<Conn>, schedules: seq<seq<Tick>>, i: nat, writer: map<uint32, int>,
                                      received: map<uint32, seq<uint64>>, sent: map<uint32, seq<uint64>>)
    requires |schedules| == |conns| && i < |conns|
    requires Launched(conns, schedules, i, writer, received, sent)
    ensures var port := conns[i].localPort;
            var s := Samples(Outcomes(schedules[i], port));
            Launched(conns, schedules, i + 1, writer[port := i],
                     received[port := Reads(s)], sent[port := Writes(s)])
  {
    var port := conns[i].localPort;
    var s := Samples(Outcomes(schedules[i], port));
    var r, w, writer' := received[port := Reads(s)], sent[port := Writes(s)], writer[port := i];
    PortsSnoc(conns, i);
    assert r.Keys == received.Keys + {port} && w.Keys == sent.Keys + {port};
    assert writer'.Keys == writer.Keys + {port};
    forall p | p in writer'
      ensures writer'[p] < i + 1 && WrittenBy(conns, schedules, writer'[p], p, r, w)
    {
      if p != port {
        WrittenByOther(conns, schedules, writer[p], p, port, received, sent, Reads(s), Writes(s));
      }
    }
  }

  /**
   * The launch loop of `main`: one monitor per row of the startup
   * connection table, for that row's local port. `schedules[j]` is what
   * the monitor for `conns[j]` observes at each of its ticks in the
   * window. The monitors run one after another.
   */
  method MonitorAll(conns: seq<Conn>, schedules: seq<seq<Tick>>)
    returns (received: map<uint32, seq<uint64>>, sent: map<uint32, seq<uint64>>)
    requires |schedules| == |conns|
    ensures received.Keys == Ports(conns) && sent.Keys == Ports(conns)
    ensures forall p :: p in received ==> exists j :: WrittenBy(conns, schedules, j, p, received, sent)
  {
    var store := new SeriesStore();
    ghost var writer: map<uint32, int> := map[];
    for i := 0 to |conns|
      invariant store.Valid()
      invariant Launched(conns, schedules, i, writer, store.received, store.sent)
    {
      var port := conns[i].localPort;
      LaunchStep(conns, schedules, i, writer, store.received, store.sent);
      store.CheckPortTraffic(port, Outcomes(schedules[i], port));
      writer := writer[port := i];
    }
    assert conns[..|conns|] == conns;
    received, sent := store.received, store.sent;
    forall p | p in received
      ensures exists j :: WrittenBy(conns, schedules, j, p, received, sent)
    {
      assert WrittenBy(conns, schedules, writer[p], p, received, sent);
    }
  }

  /**
   * `main`. `startup` is the connection table listed at start (`None` when
   * listing failed, in which case nothing is monitored or drawn); after the
   * window, both maps are rendered.
   */
  method Observe(startup: Option<seq<Conn>>, schedules: seq<seq<Tick>>) returns (snap: Option<Snapshot>)
    requires startup.Some? ==> |schedules| == |startup.value|
    ensures snap.None? <==> startup.None?
    ensures snap.Some? ==>
      && snap.value.received.Keys == Ports(startup.value)
      && snap.value.sent.Keys == Ports(startup.value)
      && (forall p :: p in snap.value.received ==>
            exists j :: WrittenBy(startup.value, schedules, j, p, snap.value.received, snap.value.sent))
      && IsRendering(snap.value.received, snap.value.receivedCharts)
      && IsRendering(snap.value.sent, snap.value.sentCharts)
  {
    if startup.None? {
      return None;
    }
    var received, sent := MonitorAll(startup.value, schedules);
    var receivedCharts := RenderAll(received);
    var sentCharts := RenderAll(sent);
    return Some(Snapshot(received, sent, receivedCharts, sentCharts));
  }
}
