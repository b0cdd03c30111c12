/**
 * The session worker: the reconnect loop with its backoff, one session's
 * auth gate and read loop, and the mapping from one task's executor run to
 * the result messages sent for it.
 *
 * The transport is a trace: whether dialing and opening the stream succeed,
 * whether the Auth send succeeds, and the sequence of receive results.
 */
module Worker {
  import opened Wrappers
  import Executor
  import Config

  const AgentVersion := "1.0.1"
  const FallbackHostname := "unknown-agent"
  /** Backoff bounds, in seconds. */
  const InitialBackoff: nat := 1
  const MaxBackoff: nat := 30

  // ---------------------------------------------------------------------
  // Messages

  /** A message from the server; NoPayload stands for any other payload. */
  datatype ServerMsg =
    | AuthResponse(success: bool, errorMessage: string)
    | PingTask(id: string, target: string, count: int)
    | MtrTask(id: string, target: string)
    | NoPayload

  datatype MtrHop = MtrHop(
    hop: int, ip: string, loss: real, sent: int,
    last: real, avg: real, best: real, worst: real, variance: real)

  /** A message to the server; fields a message leaves unset are zero. */
  datatype AgentMsg =
    | Auth(token: string, hostname: string, version: string)
    | PingResult(
        taskId: string, target: string,
        seqNo: int, ttl: int, time: real,
        sent: int, minRtt: real, maxRtt: real, avgRtt: real, stdDev: real, rtts: seq<real>,
        isFinal: bool)
    | MtrResult(taskId: string, target: string, hop: Option<MtrHop>, isFinal: bool)
  {
    predicate Final() { (PingResult? || MtrResult?) && isFinal }

    predicate ForTask(id: string, target: string)
    {
      (PingResult? || MtrResult?) && taskId == id && this.target == target
    }
  }

  /** What one task's result messages must look like: every message carries
      the task's id and target, and only the last may be final. */
  ghost predicate TaskStream(r: seq<AgentMsg>, id: string, target: string)
  {
    && (forall i :: 0 <= i < |r| ==> r[i].ForTask(id, target))
    && (forall i :: 0 <= i < |r| - 1 ==> !r[i].Final())
  }

  // ---------------------------------------------------------------------
  // Reconnect backoff

  /** The sleep after the k-th session (counting from 0). */
  function Backoff(k: nat): (b: nat)
    ensures InitialBackoff <= b <= MaxBackoff
  {
    if k == 0 then InitialBackoff
    else
      var doubled := 2 * Backoff(k - 1);
      if doubled > MaxBackoff then MaxBackoff else doubled
  }

  function Pow2(k: nat): nat
  {
    if k == 0 then 1 else 2 * Pow2(k - 1)
  }

  /** The sleeps are 1, 2, 4, 8, 16 and then 30 for ever. */
  lemma {:induction false} BackoffClosedForm(k: nat)
    ensures Backoff(k) == if k < 5 then Pow2(k) else MaxBackoff
  {
    if k > 0 {
      BackoffClosedForm(k - 1);
      if k < 5 {
        assert Pow2(k - 1) <= 8 by {
          assert Pow2(0) == 1 && Pow2(1) == 2 && Pow2(2) == 4 && Pow2(3) == 8;
        }
      } else if k == 5 {
        assert Pow2(4) == 16 by {
          assert Pow2(0) == 1 && Pow2(1) == 2 && Pow2(2) == 4 && Pow2(3) == 8;
        }
      }
    }
  }

  lemma BackoffBounds(k: nat)
    ensures InitialBackoff <= Backoff(k) <= MaxBackoff
    ensures Backoff(k) <= Backoff(k + 1)
  {
    BackoffClosedForm(k);
    BackoffClosedForm(k + 1);
    if k < 5 {
      assert Pow2(1) == 2 && Pow2(2) == 4 && Pow2(3) == 8 && Pow2(4) == 16 && Pow2(5) == 32;
    }
  }

  /** Start's loop, over the sessions it runs before it is observed: every
      session that returns is followed by a sleep of the current backoff,
      which then doubles up to the cap. It is never reset, whatever the
      sessions did. A session that never returns (still blocked on a
      receive) is the last one: no sleep follows it. */
  method Start(cfg: Config.Config, sessions: seq<SessionEnv>) returns (sleeps: seq<nat>)
    ensures |sleeps| <= |sessions|
    ensures forall k :: 0 <= k < |sleeps| ==> Returns(sessions[k])
    ensures |sleeps| < |sessions| ==> !Returns(sessions[|sleeps|])
    ensures forall k :: 0 <= k < |sleeps| ==> sleeps[k] == Backoff(k)
  {
    var backoff := InitialBackoff;
    sleeps := [];
    var k := 0;
    while k < |sessions|
      invariant 0 <= k <= |sessions|
      invariant |sleeps| == k
      invariant forall j {:trigger sessions[j]} :: 0 <= j < k ==> Returns(sessions[j])
      invariant forall j {:trigger sleeps[j]} :: 0 <= j < k ==> sleeps[j] == Backoff(j)
      invariant backoff == Backoff(k)
    {
      var s := ConnectAndLoop(cfg, sessions[k]);
      if s.end == Waiting {
        break;
      }
      sleeps := sleeps + [backoff];
      assert Backoff(k + 1) == if 2 * Backoff(k) > MaxBackoff then MaxBackoff else 2 * Backoff(k);
      backoff := backoff * 2;
      if backoff > MaxBackoff {
        backoff := MaxBackoff;
      }
      k := k + 1;
    }
  }

  // ---------------------------------------------------------------------
  // One session

  datatype RecvResult = Received(msg: ServerMsg) | Eof | RecvError(reason: string)

  /** What the transport does during one session. */
  datatype SessionEnv = SessionEnv(
    dialOk: bool,
    streamOk: bool,
    osHostname: string,
    authSendOk: bool,
    inbound: seq<RecvResult>)

  /** How connectAndLoop returned; Waiting means the trace ended while the
      session was still blocked on a receive. */
  datatype SessionEnd =
    | DialFailed
    | StreamFailed
    | AuthSendFailed
    | AuthRecvFailed
    | AuthRejected(errorMessage: string)
    | ServerClosed
    | ReadFailed(reason: string)
    | Waiting

  /** One session: how it ended, what it sent itself, whether the heartbeat
      and task loop started, and the messages handed to handleMessage. */
  datatype Session = Session(end: SessionEnd, sent: seq<AgentMsg>, active: bool, dispatched: seq<ServerMsg>)

  function AgentHostname(osHostname: string): string
  {
    if osHostname == "" then FallbackHostname else osHostname
  }

  function AuthRequest(cfg: Config.Config, osHostname: string): (m: AgentMsg)
    ensures m.Auth? && m.token == cfg.token && m.version == AgentVersion
    ensures m.hostname != ""
    ensures osHostname != "" ==> m.hostname == osHostname
    ensures osHostname == "" ==> m.hostname == FallbackHostname
  {
    Auth(cfg.token, AgentHostname(osHostname), AgentVersion)
  }

  /** The first reply lets the session continue only when it is an auth
      response with success set. */
  predicate Accepted(r: RecvResult)
  {
    r.Received? && r.msg.AuthResponse? && r.msg.success
  }

  /** connectAndLoop returns: some step before the task loop failed or was
      refused, or a receive after the auth reply hit EOF or an error.
      Otherwise the session is still blocked on a receive. */
  predicate Returns(env: SessionEnv)
  {
    || !env.dialOk || !env.streamOk || !env.authSendOk
    || (|env.inbound| > 0 &&
        (!Accepted(env.inbound[0]) || exists i :: 1 <= i < |env.inbound| && !env.inbound[i].Received?))
  }

  /** connectAndLoop: dial, open the stream, authenticate, then read and
      dispatch until EOF or a receive error. */
  method ConnectAndLoop(cfg: Config.Config, env: SessionEnv) returns (s: Session)
    ensures !env.dialOk ==> s == Session(DialFailed, [], false, [])
    ensures env.dialOk && !env.streamOk ==> s == Session(StreamFailed, [], false, [])
    ensures env.dialOk && env.streamOk ==> s.sent == [AuthRequest(cfg, env.osHostname)]
    ensures s.active <==>
      env.dialOk && env.streamOk && env.authSendOk && |env.inbound| > 0 && Accepted(env.inbound[0])
    ensures env.dialOk && env.streamOk && !env.authSendOk ==> s.end == AuthSendFailed
    ensures env.dialOk && env.streamOk && env.authSendOk && |env.inbound| == 0 ==>
      s == Session(Waiting, [AuthRequest(cfg, env.osHostname)], false, [])
    ensures env.dialOk && env.streamOk && env.authSendOk && |env.inbound| > 0 && !env.inbound[0].Received? ==>
      s.end == AuthRecvFailed
    ensures env.dialOk && env.streamOk && env.authSendOk && |env.inbound| > 0 && env.inbound[0].Received? && !s.active ==>
      s.end == AuthRejected(if env.inbound[0].msg.AuthResponse? then env.inbound[0].msg.errorMessage else "")
    ensures !s.active ==> s.dispatched == []
    ensures s.active ==>
      && 1 + |s.dispatched| <= |env.inbound|
      && (forall i :: 0 <= i < |s.dispatched| ==> env.inbound[1 + i] == Received(s.dispatched[i]))
      && (1 + |s.dispatched| < |env.inbound| ==> !env.inbound[1 + |s.dispatched|].Received?)
      && s.end == (
           if 1 + |s.dispatched| == |env.inbound| then Waiting
           else if env.inbound[1 + |s.dispatched|].Eof? then ServerClosed
           else ReadFailed(env.inbound[1 + |s.dispatched|].reason))
    ensures s.end == Waiting <==> !Returns(env)
  {
    if !env.dialOk {
      return Session(DialFailed, [], false, []);
    }
    if !env.streamOk {
      return Session(StreamFailed, [], false, []);
    }
    var hostname := env.osHostname;
    if hostname == "" {
      hostname := FallbackHostname;
    }
    var sent := [Auth(cfg.token, hostname, AgentVersion)];
    if !env.authSendOk {
      return Session(AuthSendFailed, sent, false, []);
    }
    if |env.inbound| == 0 {
      return Session(Waiting, sent, false, []);
    }
    var ack := env.inbound[0];
    if !ack.Received? {
      return Session(AuthRecvFailed, sent, false, []);
    }
    if !(ack.msg.AuthResponse? && ack.msg.success) {
      var reason := if ack.msg.AuthResponse? then ack.msg.errorMessage else "";
      return Session(AuthRejected(reason), sent, false, []);
    }
    var dispatched := [];
    var next := 1;
    while next < |env.inbound| && env.inbound[next].Received?
      invariant 1 <= next <= |env.inbound|
      invariant |dispatched| == next - 1
      invariant forall i :: 0 <= i < |dispatched| ==> env.inbound[1 + i] == Received(dispatched[i])
    {
      dispatched := dispatched + [env.inbound[next].msg];
      next := next + 1;
    }
    if next == |env.inbound| {
      assert forall i :: 1 <= i < |env.inbound| ==> env.inbound[i] == Received(dispatched[i - 1]);
      return Session(Waiting, sent, true, dispatched);
    }
    var end := if env.inbound[next].Eof? then ServerClosed else ReadFailed(env.inbound[next].reason);
    s := Session(end, sent, true, dispatched);
  }

  // ---------------------------------------------------------------------
  // Result messages of one task

  /** One ping reply, as passed to DoPing's callback. */
  datatype PingPacket = PingPacket(seqNo: int, ttl: int, rtt: real)

  datatype PingStats = PingStats(min: real, max: real, avg: real, stdDev: real, packetLoss: real, rtts: seq<real>)

  /** What DoPing did: its callbacks, in order, and its stats (None when it
      returned an error). */
  datatype PingRun = PingRun(packets: seq<PingPacket>, stats: Option<PingStats>)

  /** The executors, as functions of the task's parameters. */
  type PingExecutor = (string, int) -> PingRun
  type MtrExecutor = string -> Executor.MtrOutcome

  function PingPartial(id: string, target: string, p: PingPacket): AgentMsg
  {
    PingResult(id, target, p.seqNo, p.ttl, p.rtt, 0, 0.0, 0.0, 0.0, 0.0, [], false)
  }

  function PingFinal(id: string, target: string, st: PingStats): AgentMsg
  {
    PingResult(id, target, 0, 0, 0.0, |st.rtts|, st.min, st.max, st.avg, st.stdDev, st.rtts, true)
  }

  /** The messages of a ping task: one partial per received packet carrying
      that packet, then one final summary only if DoPing returned stats. */
  function HandlePing(id: string, target: string, run: PingRun): (r: seq<AgentMsg>)
    ensures |r| == |run.packets| + (if run.stats.Some? then 1 else 0)
    ensures forall i :: 0 <= i < |run.packets| ==>
      && r[i].PingResult? && !r[i].isFinal
      && r[i].seqNo == run.packets[i].seqNo && r[i].ttl == run.packets[i].ttl && r[i].time == run.packets[i].rtt
    ensures run.stats.Some? ==>
      && r[|r| - 1].PingResult? && r[|r| - 1].isFinal
      && r[|r| - 1].sent == |run.stats.value.rtts| && r[|r| - 1].rtts == run.stats.value.rtts
      && r[|r| - 1].minRtt == run.stats.value.min && r[|r| - 1].maxRtt == run.stats.value.max
      && r[|r| - 1].avgRtt == run.stats.value.avg && r[|r| - 1].stdDev == run.stats.value.stdDev
    ensures TaskStream(r, id, target)
  {
    var partials := seq(|run.packets|, i requires 0 <= i < |run.packets| => PingPartial(id, target, run.packets[i]));
    match run.stats
    case None => partials
    case Some(st) => partials + [PingFinal(id, target, st)]
  }

  function HopMessage(h: Executor.HopStats): MtrHop
  {
    MtrHop(h.hop, h.ip, h.loss, h.sent, h.last, h.avg, h.best, h.worst, h.variance)
  }

  /** The messages of an MTR task: one partial per hop callback carrying that
      hop, then a hop-less final only if DoMTR returned no error. */
  function HandleMtr(id: string, target: string, run: Executor.MtrOutcome): (r: seq<AgentMsg>)
    ensures |r| == |run.reports| + (if run.err.None? then 1 else 0)
    ensures forall i :: 0 <= i < |run.reports| ==>
      r[i].MtrResult? && !r[i].isFinal && r[i].hop == Some(HopMessage(run.reports[i]))
    ensures run.err.None? ==> r[|r| - 1].MtrResult? && r[|r| - 1].isFinal && r[|r| - 1].hop.None?
    ensures TaskStream(r, id, target)
  {
    var partials := seq(|run.reports|, i requires 0 <= i < |run.reports| =>
      MtrResult(id, target, Some(HopMessage(run.reports[i])), false));
    if run.err.None? then partials + [MtrResult(id, target, None, true)] else partials
  }

  /** handleMessage: a ping or MTR task runs its executor and yields a task
      stream for that task; any other message yields nothing. */
  function HandleMessage(msg: ServerMsg, doPing: PingExecutor, doMtr: MtrExecutor): (r: seq<AgentMsg>)
    ensures msg.PingTask? ==> r == HandlePing(msg.id, msg.target, doPing(msg.target, msg.count))
    ensures msg.MtrTask? ==> r == HandleMtr(msg.id, msg.target, doMtr(msg.target))
    ensures msg.PingTask? || msg.MtrTask? ==> TaskStream(r, msg.id, msg.target)
    ensures !msg.PingTask? && !msg.MtrTask? ==> r == []
  {
    match msg
    case PingTask(id, target, count) => HandlePing(id, target, doPing(target, count))
    case MtrTask(id, target) => HandleMtr(id, target, doMtr(target))
    case _ => []
  }

  /** A completed trace, streamed: every hop message reports Sent >= 1 and a
      loss in [0, 100] equal to (Sent - |Rtts|) / Sent * 100, and the
      stream closes with the final marker. */
  lemma MtrStreamOfTrace(id: string, target: string, oracle: Executor.Oracle)
    ensures var trace := Executor.RunTo(oracle, Executor.Cycles).reports;
      var r := HandleMtr(id, target, Executor.MtrOutcome(None, trace));
      && |r| == |trace| + 1
      && r[|r| - 1].Final()
      && forall i :: 0 <= i < |r| - 1 ==>
           && r[i].hop.Some?
           && 1 <= r[i].hop.value.sent
           && 0.0 <= r[i].hop.value.loss <= 100.0
           && r[i].hop.value.loss == Executor.LossPct(r[i].hop.value.sent, |trace[i].rtts|)
  {
    Executor.TraceReportsOk(oracle);
  }
}
