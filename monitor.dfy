/**
 * The per-port monitor (`checkPortTraffic`) and the store it writes to
 * (the global `Received` and `Sent` maps).
 *
 * What the operating system answers at each polling tick is given as a
 * `Tick`; the monitor's unbounded loop becomes a loop over the finite
 * sequence of ticks that fall inside the observation window.
 */
module Monitor {
  import opened Wrappers
  import opened MachineInts
  import opened Resolver

  /** Cumulative bytes read and written by a process. */
  datatype IOCounters = IOCounters(readBytes: uint64, writeBytes: uint64)

  /**
   * The outside world at one tick: the connection table (`None` when it
   * could not be listed) and, per live process id, its counters (`None`
   * when they cannot be read). A pid missing from `processes` is one the
   * process lookup rejects.
   */
  datatype Tick = Tick(connections: Option<seq<Conn>>, processes: map<int32, Option<IOCounters>>)

  /** The step of a tick that failed; each one ends the monitor. */
  datatype Failure =
    | PidLookupFailed(cause: ResolveError)
    | ProcessLookupFailed(pid: int32)
    | CountersFailed(pid: int32)

  datatype PollResult = Sampled(counters: IOCounters) | Failed(failure: Failure)

  /**
   * One iteration of the monitor loop: resolve the pid, look up the
   * process, read its counters. Each step that fails ends the poll with
   * that step's failure; when all three succeed the poll yields the
   * counters of the process owning the first row that uses the port.
   */
  function Poll(t: Tick, port: uint32): (r: PollResult)
    ensures t.connections.None? ==> r == Failed(PidLookupFailed(ListingFailed))
    ensures t.connections.Some? && !Uses(t.connections.value, port) ==>
      r == Failed(PidLookupFailed(NoProcess(port)))
    ensures forall i :: t.connections.Some? && FirstUse(t.connections.value, port, i) ==>
      var pid := t.connections.value[i].pid;
      && (pid !in t.processes ==> r == Failed(ProcessLookupFailed(pid)))
      && (pid in t.processes && t.processes[pid].None? ==> r == Failed(CountersFailed(pid)))
      && (pid in t.processes && t.processes[pid].Some? ==> r == Sampled(t.processes[pid].value))
  {
    match GetPIDByPort(t.connections, port)
    case Failure(e) => Failed(PidLookupFailed(e))
    case Success(pid) =>
      FirstUseUnique(t.connections.value, port);
      if pid !in t.processes then Failed(ProcessLookupFailed(pid))
      else match t.processes[pid]
        case None => Failed(CountersFailed(pid))
        case Some(c) => Sampled(c)
  }

  /**
   * A reading a poll returns is the counters of the process owning the
   * first row that uses the port; every other outcome is a failure.
   */
  lemma PollSampledMeaning(t: Tick, port: uint32)
    ensures Poll(t, port).Sampled? <==>
      && t.connections.Some?
      && exists i :: FirstUse(t.connections.value, port, i)
                  && t.connections.value[i].pid in t.processes
                  && t.processes[t.connections.value[i].pid].Some?
    ensures Poll(t, port).Sampled? ==>
      && t.connections.Some?
      && exists i :: FirstUse(t.connections.value, port, i)
                  && t.connections.value[i].pid in t.processes
                  && t.processes[t.connections.value[i].pid] == Some(Poll(t, port).counters)
  {
  }

  /** What polling `port` yields at each tick. */
  function Outcomes(ticks: seq<Tick>, port: uint32): (r: seq<PollResult>)
  {
    seq(|ticks|, j requires 0 <= j < |ticks| => Poll(ticks[j], port))
  }

  /**
   * The readings a monitor records from a run of poll outcomes: one per
   * outcome, up to and excluding the first failure.
   */
  function Samples(outcomes: seq<PollResult>): (s: seq<IOCounters>)
    ensures |s| <= |outcomes|
  {
    if outcomes == [] then []
    else match outcomes[0]
      case Failed(_) => []
      case Sampled(c) => [c] + Samples(outcomes[1..])
  }

  /**
   * The readings are exactly the leading successful outcomes: each one is
   * the counters of the outcome at its position, and the outcome right
   * after the last one, if any, is a failure.
   */
  lemma {:induction false} SamplesSpec(outcomes: seq<PollResult>)
    ensures forall j :: 0 <= j < |Samples(outcomes)| ==> outcomes[j] == Sampled(Samples(outcomes)[j])
    ensures |Samples(outcomes)| < |outcomes| ==> outcomes[|Samples(outcomes)|].Failed?
  {
    if outcomes != [] && outcomes[0].Sampled? {
      var rest := outcomes[1..];
      SamplesSpec(rest);
      assert Samples(outcomes) == [outcomes[0].counters] + Samples(rest);
      forall j | 0 < j < |Samples(outcomes)|
        ensures outcomes[j] == Sampled(Samples(outcomes)[j])
      {
        assert rest[j - 1] == outcomes[j];
      }
    }
  }

  /** The received-bytes series that a list of readings makes. */
  function Reads(s: seq<IOCounters>): (r: seq<uint64>)
    ensures |r| == |s|
  {
    seq(|s|, i requires 0 <= i < |s| => s[i].readBytes)
  }

  /** The sent-bytes series that a list of readings makes. */
  function Writes(s: seq<IOCounters>): (r: seq<uint64>)
    ensures |r| == |s|
  {
    seq(|s|, i requires 0 <= i < |s| => s[i].writeBytes)
  }

  /** Go's read of a map entry: a missing key yields the empty (nil) slice. */
  function SeriesOf(m: map<uint32, seq<uint64>>, port: uint32): (r: seq<uint64>)
  {
    if port in m then m[port] else []
  }

  /**
   * Cutting the window short only cuts the readings short: the readings
   * over the first `n` outcomes are a prefix of those over all of them.
   */
  lemma {:induction false} SamplesPrefix(outcomes: seq<PollResult>, n: nat)
    requires n <= |outcomes|
    ensures Samples(outcomes[..n]) <= Samples(outcomes)
    ensures |Samples(outcomes[..n])| == if n < |Samples(outcomes)| then n else |Samples(outcomes)|
  {
    if n > 0 {
      match outcomes[0]
      case Failed(_) =>
      case Sampled(c) =>
        assert outcomes[..n][0] == outcomes[0];
        assert outcomes[..n][1..] == outcomes[1..][..n - 1];
        SamplesPrefix(outcomes[1..], n - 1);
    }
  }

  /** A failure at outcome `i`, after `i` readings, is where the run stops. */
  lemma SamplesStop(outcomes: seq<PollResult>, i: nat)
    requires i < |outcomes| && i <= |Samples(outcomes)| && outcomes[i].Failed?
    ensures |Samples(outcomes)| == i
  {
    SamplesSpec(outcomes);
  }

  /** A reading at outcome `i`, after `i` readings, extends both series by one value. */
  lemma SamplesGrow(outcomes: seq<PollResult>, i: nat)
    requires i < |outcomes| && i <= |Samples(outcomes)| && outcomes[i].Sampled?
    ensures i < |Samples(outcomes)|
    ensures Reads(Samples(outcomes))[..i + 1] == Reads(Samples(outcomes))[..i] + [outcomes[i].counters.readBytes]
    ensures Writes(Samples(outcomes))[..i + 1] == Writes(Samples(outcomes))[..i] + [outcomes[i].counters.writeBytes]
  {
    SamplesSpec(outcomes);
    var s := Samples(outcomes);
    assert i < |s| && s[i] == outcomes[i].counters;
    var r, w := Reads(s), Writes(s);
    assert r[..i + 1] == r[..i] + [r[i]];
    assert w[..i + 1] == w[..i] + [w[i]];
  }

  /** Once the readings are all consumed, the series are the whole readings. */
  lemma SamplesEnd(outcomes: seq<PollResult>, n: nat)
    requires n == |Samples(outcomes)|
    ensures Reads(Samples(outcomes))[..n] == Reads(Samples(outcomes))
    ensures Writes(Samples(outcomes))[..n] == Writes(Samples(outcomes))
  {
  }

  /** Appending to an entry just written is the same as writing the longer entry. */
  lemma AppendAfterWrite(m: map<uint32, seq<uint64>>, port: uint32, a: seq<uint64>, x: uint64)
    ensures m[port := a][port := SeriesOf(m[port := a], port) + [x]] == m[port := a + [x]]
  {
  }

  /**
   * The store of per-port series. Both maps always have the same ports,
   * and a port's received and sent series always have the same length.
   */
  class SeriesStore {
    var received: map<uint32, seq<uint64>>
    var sent: map<uint32, seq<uint64>>

    ghost predicate Valid()
      reads this
    {
      && received.Keys == sent.Keys
      && forall p :: p in received ==> |received[p]| == |sent[p]|
    }

    /** The two empty global maps the program starts with. */
    constructor ()
      ensures Valid()
      ensures received == map[] && sent == map[]
    {
      received := map[];
      sent := map[];
    }

    /** Registration: the port's two series are reset to empty, whatever they held. */
    method Register(port: uint32)
      requires Valid()
      modifies this
      ensures Valid()
      ensures received == old(received)[port := []]
      ensures sent == old(sent)[port := []]
    {
      received := received[port := []];
      sent := sent[port := []];
    }

    /** One successful poll: each series of the port grows by exactly one value at its end. */
    method Record(port: uint32, c: IOCounters)
      requires Valid()
      modifies this
      ensures Valid()
      ensures received == old(received)[port := SeriesOf(old(received), port) + [c.readBytes]]
      ensures sent == old(sent)[port := SeriesOf(old(sent), port) + [c.writeBytes]]
      ensures SeriesOf(old(received), port) < received[port] && SeriesOf(old(sent), port) < sent[port]
    {
      received := received[port := SeriesOf(received, port) + [c.readBytes]];
      sent := sent[port := SeriesOf(sent, port) + [c.writeBytes]];
    }

    /**
     * `checkPortTraffic` over the poll outcomes of the observation window:
     * the port ends up holding exactly the readings before the first failed
     * poll, and every other port is untouched.
     */
    method CheckPortTraffic(port: uint32, outcomes: seq<PollResult>)
      requires Valid()
      modifies this
      ensures Valid()
      ensures received == old(received)[port := Reads(Samples(outcomes))]
      ensures sent == old(sent)[port := Writes(Samples(outcomes))]
    {
      Register(port);
      ghost var s := Samples(outcomes);
      var polls, stopped := 0, false;
      while polls < |outcomes| && !stopped
        invariant polls <= |s|
        invariant stopped ==> polls == |s|
        invariant received == old(received)[port := Reads(s)[..polls]]
        invariant sent == old(sent)[port := Writes(s)[..polls]]
        decreases |outcomes| - polls, !stopped
      {
        match outcomes[polls] {
          case Failed(_) =>
            SamplesStop(outcomes, polls);
            stopped := true;
          case Sampled(counters) =>
            SamplesGrow(outcomes, polls);
            AppendAfterWrite(old(received), port, Reads(s)[..polls], counters.readBytes);
            AppendAfterWrite(old(sent), port, Writes(s)[..polls], counters.writeBytes);
            Record(port, counters);
            polls := polls + 1;
        }
      }
      SamplesEnd(outcomes, polls);
    }
  }
}
