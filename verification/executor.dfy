/**
 * The hop-limited discovery probe (DoMTR): a table of per-hop statistics,
 * walked TTL by TTL for a fixed number of cycles, updated in place.
 *
 * The raw ICMP socket is an oracle: for every (cycle, ttl) it says what the
 * marshal / write / read / parse sequence produced. RTTs are exact reals in
 * milliseconds.
 */
module Executor {
  import opened Wrappers

  /** Highest TTL probed in a cycle. */
  const MaxHops: int := 30
  /** Number of cycles of one trace. */
  const Cycles: int := 20
  /** Value every hop's Best starts from. */
  const InitialBest: real := 999999.0

  /** What one probe iteration observed on the socket. */
  datatype Outcome =
    | MarshalFailed
    | WriteFailed
    /** ReadFrom returned an error: the deadline passed, or any other read error. */
    | ReadFailed
    | ParseFailed
    | OtherType
    | TimeExceeded(rtt: real, peer: string)
    | EchoReply(rtt: real, peer: string)
  {
    /** The echo request left the socket, so the hop's Sent is incremented. */
    predicate Sent() { !MarshalFailed? && !WriteFailed? }

    /** A recognised ICMP reply: an RTT is recorded. */
    predicate Answered() { TimeExceeded? || EchoReply? }

    /** The iteration ends with a callback for the hop. */
    predicate Reported() { ReadFailed? || Answered() }
  }

  /** The socket, as a function of (cycle, ttl). */
  type Oracle = (int, int) -> Outcome

  /** One hop record (MTRHopStats). `variance` is the square of StdDev. */
  datatype HopStats = HopStats(
    hop: int,
    ip: string,
    sent: nat,
    loss: real,
    last: real,
    avg: real,
    best: real,
    worst: real,
    variance: real,
    dropped: int,
    rtts: seq<real>)

  function NewHop(i: int): HopStats
  {
    HopStats(i, "", 0, 0.0, 0.0, 0.0, InitialBest, 0.0, 0.0, 0, [])
  }

  /** The table DoMTR starts from: hops 1..MaxHops, nothing sent yet. */
  function InitialTable(): (t: map<int, HopStats>)
    ensures forall i :: i in t <==> 1 <= i <= MaxHops
    ensures forall i :: i in t ==>
      && t[i].hop == i && t[i].sent == 0 && t[i].rtts == []
      && t[i].best == InitialBest && t[i].worst == 0.0
      && t[i].loss == 0.0 && t[i].ip == ""
  {
    map i | 1 <= i <= MaxHops :: NewHop(i)
  }

  // ---------------------------------------------------------------------
  // Statistics

  /** Sum of the RTTs, added left to right. */
  function Sum(s: seq<real>): real
  {
    if s == [] then 0.0 else Sum(s[..|s| - 1]) + s[|s| - 1]
  }

  function Mean(s: seq<real>): real
    requires |s| > 0
  {
    Sum(s) / |s| as real
  }

  /** Sum of the squared deviations of the RTTs from m. */
  function SquaredDeviations(s: seq<real>, m: real): real
  {
    if s == [] then 0.0
    else SquaredDeviations(s[..|s| - 1], m) + (s[|s| - 1] - m) * (s[|s| - 1] - m)
  }

  /** Loss percentage of a hop that has sent at least one probe. */
  function LossPct(sent: int, received: int): real
    requires sent >= 1
  {
    (sent - received) as real / sent as real * 100.0
  }

  lemma LossBounds(sent: int, received: int)
    requires 0 <= received <= sent && sent >= 1
    ensures 0.0 <= LossPct(sent, received) <= 100.0
    ensures LossPct(sent, received) == 0.0 <==> received == sent
    ensures LossPct(sent, received) == 100.0 <==> received == 0
  {
  }

  lemma {:induction false} SumBounds(s: seq<real>, lo: real, hi: real)
    requires forall k :: 0 <= k < |s| ==> lo <= s[k] <= hi
    ensures |s| as real * lo <= Sum(s) <= |s| as real * hi
  {
    if s != [] {
      SumBounds(s[..|s| - 1], lo, hi);
    }
  }

  /** The mean lies between any lower and upper bound of the samples. */
  lemma MeanBounds(s: seq<real>, lo: real, hi: real)
    requires |s| > 0
    requires forall k :: 0 <= k < |s| ==> lo <= s[k] <= hi
    ensures lo <= Mean(s) <= hi
  {
    SumBounds(s, lo, hi);
    var n := |s| as real;
    var m := Mean(s);
    assert m * n == Sum(s);
    assert m * n >= lo * n && m * n <= hi * n;
  }

  // ---------------------------------------------------------------------
  // One hop, one iteration

  /** A recognised reply folded into a hop whose Sent already counts it. */
  function Record(h: HopStats, rtt: real, peer: string): (r: HopStats)
    requires h.sent >= 1
    ensures r.hop == h.hop && r.sent == h.sent && r.dropped == h.dropped
    ensures r.rtts == h.rtts + [rtt] && r.last == rtt && r.ip == peer
    ensures r.best <= h.best && r.best <= rtt && (r.best == h.best || r.best == rtt)
    ensures r.worst >= h.worst && r.worst >= rtt && (r.worst == h.worst || r.worst == rtt)
    ensures r.avg == Mean(r.rtts)
    ensures r.loss == LossPct(r.sent, |r.rtts|)
  {
    var rtts := h.rtts + [rtt];
    var avg := Sum(rtts) / |rtts| as real;
    h.(ip := peer,
       rtts := rtts,
       last := rtt,
       best := if rtt < h.best then rtt else h.best,
       worst := if rtt > h.worst then rtt else h.worst,
       avg := avg,
       variance := if |rtts| > 1 then SquaredDeviations(rtts, avg) / (|rtts| - 1) as real else h.variance,
       loss := LossPct(h.sent, |rtts|))
  }

  /** The effect of one iteration on the record of the TTL it probes. */
  function Step(h: HopStats, o: Outcome): (r: HopStats)
    ensures r.hop == h.hop && r.dropped == h.dropped
    ensures r.sent == if o.Sent() then h.sent + 1 else h.sent
    ensures r.rtts == if o.Answered() then h.rtts + [o.rtt] else h.rtts
    ensures r.best <= h.best && r.worst >= h.worst
    ensures !o.Sent() ==> r == h
    ensures o.ParseFailed? || o.OtherType? ==> r == h.(sent := h.sent + 1)
    ensures o.ReadFailed? ==> r == h.(sent := h.sent + 1, loss := LossPct(h.sent + 1, |h.rtts|))
    ensures o.Answered() ==> r == Record(h.(sent := h.sent + 1), o.rtt, o.peer)
    ensures o.Reported() ==> r.loss == LossPct(r.sent, |r.rtts|)
    ensures o.Answered() ==> r.ip == o.peer && r.last == o.rtt && r.avg == Mean(r.rtts)
  {
    match o
    case MarshalFailed => h
    case WriteFailed => h
    case ReadFailed =>
      var s := h.(sent := h.sent + 1);
      s.(loss := LossPct(s.sent, |s.rtts|))
    case ParseFailed => h.(sent := h.sent + 1)
    case OtherType => h.(sent := h.sent + 1)
    case TimeExceeded(rtt, peer) => Record(h.(sent := h.sent + 1), rtt, peer)
    case EchoReply(rtt, peer) => Record(h.(sent := h.sent + 1), rtt, peer)
  }

  /** What holds of hop i's record at all times. */
  ghost predicate HopInvariant(h: HopStats, i: int)
  {
    && h.hop == i
    && |h.rtts| <= h.sent
    && h.dropped == 0
    && 0.0 <= h.loss <= 100.0
    && h.best <= InitialBest
    && 0.0 <= h.worst
    && (forall k :: 0 <= k < |h.rtts| ==> h.best <= h.rtts[k] <= h.worst)
    && (h.rtts != [] ==> h.avg == Mean(h.rtts) && h.last == h.rtts[|h.rtts| - 1])
    && (|h.rtts| > 1 ==> h.variance == SquaredDeviations(h.rtts, h.avg) / (|h.rtts| - 1) as real)
    && (|h.rtts| <= 1 ==> h.variance == 0.0)
  }

  /** What holds of hop i's record after at most n cycles. */
  ghost predicate HopValid(h: HopStats, i: int, n: int)
  {
    HopInvariant(h, i) && h.sent <= n
  }

  /** What holds of every record handed to the callback. */
  ghost predicate ReportOk(r: HopStats)
  {
    && 1 <= r.sent
    && |r.rtts| <= r.sent
    && r.loss == LossPct(r.sent, |r.rtts|)
    && 0.0 <= r.loss <= 100.0
  }

  lemma InitialHopValid(i: int)
    ensures HopValid(NewHop(i), i, 0)
  {
  }

  /** Best <= Avg <= Worst once a hop has an RTT. */
  lemma HopAverageBounded(h: HopStats, i: int, n: int)
    requires HopValid(h, i, n) && h.rtts != []
    ensures h.best <= h.avg <= h.worst
  {
    MeanBounds(h.rtts, h.best, h.worst);
  }

  /** One iteration keeps the hop invariant (with one more cycle allowed)
      and every callback it makes carries a loss in [0, 100]. */
  lemma StepValid(h: HopStats, i: int, n: int, o: Outcome)
    requires HopValid(h, i, n)
    ensures HopValid(Step(h, o), i, n + 1)
    ensures o.Reported() ==> ReportOk(Step(h, o))
  {
    var r := Step(h, o);
    if o.Sent() {
      LossBounds(r.sent, |r.rtts|);
    }
    if o.Answered() {
      assert r.rtts[|r.rtts| - 1] == o.rtt;
      forall k | 0 <= k < |r.rtts|
        ensures r.best <= r.rtts[k] <= r.worst
      {
        if k < |h.rtts| {
          assert r.rtts[k] == h.rtts[k];
        }
      }
    }
  }

  // ---------------------------------------------------------------------
  // The walk over one cycle, as a specification

  /** The hop table, the callbacks made so far and targetReachedAt. */
  datatype Walk = Walk(hops: map<int, HopStats>, reports: seq<HopStats>, reached: int)

  /** A per-hop update; the trace itself uses Step. The walk below is stated
      for any update so that its control-flow lemmas do not depend on the
      statistics. */
  type Update = (HopStats, Outcome) -> HopStats

  /** One iteration of the TTL loop at `ttl` that is not skipped. */
  function AfterProbe(w: Walk, ttl: int, o: Outcome, update: Update): (r: Walk)
    requires ttl in w.hops
    ensures r.hops == w.hops[ttl := update(w.hops[ttl], o)]
    ensures r.reports == if o.Reported() then w.reports + [r.hops[ttl]] else w.reports
    ensures r.reached == if o.EchoReply? then ttl else w.reached
  {
    var h := update(w.hops[ttl], o);
    Walk(w.hops[ttl := h],
         if o.Reported() then w.reports + [h] else w.reports,
         if o.EchoReply? then ttl else w.reached)
  }

  /** The state after the iterations for TTL 1..k of `cycle`. */
  function WalkTo(w0: Walk, oracle: Oracle, update: Update, cycle: int, k: int): (r: Walk)
    requires 0 <= k <= MaxHops
    requires forall i :: 1 <= i <= MaxHops ==> i in w0.hops
    ensures forall i :: 1 <= i <= MaxHops ==> i in r.hops
    decreases k
  {
    if k == 0 then w0
    else
      var w := WalkTo(w0, oracle, update, cycle, k - 1);
      if w.reached > 0 && k > w.reached then w
      else AfterProbe(w, k, oracle(cycle, k), update)
  }

  /** A whole cycle: targetReachedAt starts at 0, TTLs 1..MaxHops. */
  function CycleOf(w: Walk, oracle: Oracle, cycle: int): (r: Walk)
    requires forall i :: 1 <= i <= MaxHops ==> i in w.hops
    ensures forall i :: 1 <= i <= MaxHops ==> i in r.hops
  {
    WalkTo(Walk(w.hops, w.reports, 0), oracle, Step, cycle, MaxHops)
  }

  /** The state after cycles 1..n. */
  function RunTo(oracle: Oracle, n: nat): (r: Walk)
    ensures forall i :: 1 <= i <= MaxHops ==> i in r.hops
  {
    if n == 0 then Walk(InitialTable(), [], 0)
    else CycleOf(RunTo(oracle, n - 1), oracle, n)
  }

  /** While the target has not answered, the walk probes the next TTL. */
  lemma WalkToNext(w0: Walk, oracle: Oracle, update: Update, cycle: int, k: int)
    requires 1 <= k <= MaxHops
    requires forall i :: 1 <= i <= MaxHops ==> i in w0.hops
    requires WalkTo(w0, oracle, update, cycle, k - 1).reached == 0
    ensures WalkTo(w0, oracle, update, cycle, k)
      == AfterProbe(WalkTo(w0, oracle, update, cycle, k - 1), k, oracle(cycle, k), update)
  {
  }

  /** Once the target answered at a TTL already walked, the rest of the
      cycle changes nothing. */
  lemma {:induction false} WalkStops(w0: Walk, oracle: Oracle, update: Update, cycle: int, k: int, m: int)
    requires 0 <= k <= m <= MaxHops
    requires forall i :: 1 <= i <= MaxHops ==> i in w0.hops
    requires 0 < WalkTo(w0, oracle, update, cycle, k).reached <= k
    ensures WalkTo(w0, oracle, update, cycle, m) == WalkTo(w0, oracle, update, cycle, k)
    decreases m
  {
    if m > k {
      WalkStops(w0, oracle, update, cycle, k, m - 1);
    }
  }

  /** Within one cycle: the TTLs not yet walked are untouched,
      targetReachedAt is 0 or a TTL already walked, and the callbacks made so
      far extend the earlier ones by at most one per TTL walked. */
  lemma {:induction false} WalkFrame(w0: Walk, oracle: Oracle, update: Update, cycle: int, k: int)
    requires 0 <= k <= MaxHops
    requires forall i :: 1 <= i <= MaxHops ==> i in w0.hops
    requires w0.reached == 0
    ensures var r := WalkTo(w0, oracle, update, cycle, k);
      && (forall u :: k < u <= MaxHops ==> r.hops[u] == w0.hops[u])
      && 0 <= r.reached <= k
      && |w0.reports| <= |r.reports| <= |w0.reports| + k
      && r.reports[..|w0.reports|] == w0.reports
    decreases k
  {
    if k > 0 {
      WalkFrame(w0, oracle, update, cycle, k - 1);
      var w := WalkTo(w0, oracle, update, cycle, k - 1);
      if !(w.reached > 0 && k > w.reached) {
        var r := AfterProbe(w, k, oracle(cycle, k), update);
        assert r.reports[..|w0.reports|] == w0.reports by {
          assert r.reports[..|w.reports|] == w.reports;
        }
      }
    }
  }

  /** The record `x` is one that the iteration for some TTL t of `cycle`
      computed from the table the cycle started with and reported. */
  ghost predicate ReportedIn(x: HopStats, w0: Walk, oracle: Oracle, update: Update, cycle: int)
  {
    exists t :: 1 <= t <= MaxHops && t in w0.hops && oracle(cycle, t).Reported()
      && x == update(w0.hops[t], oracle(cycle, t))
  }

  /** Within one cycle every TTL is probed at most once: each hop record is
      either the one the cycle started with or the update applied to it once,
      and every callback made in the cycle carries such an updated record. */
  lemma {:induction false} WalkShape(w0: Walk, oracle: Oracle, update: Update, cycle: int, k: int)
    requires 0 <= k <= MaxHops
    requires forall i :: 1 <= i <= MaxHops ==> i in w0.hops
    requires w0.reached == 0
    ensures var r := WalkTo(w0, oracle, update, cycle, k);
      && (forall i :: 1 <= i <= MaxHops ==>
            r.hops[i] == w0.hops[i] || r.hops[i] == update(w0.hops[i], oracle(cycle, i)))
      && (forall j :: |w0.reports| <= j < |r.reports| ==>
            ReportedIn(r.reports[j], w0, oracle, update, cycle))
    decreases k
  {
    if k > 0 {
      WalkShape(w0, oracle, update, cycle, k - 1);
      WalkFrame(w0, oracle, update, cycle, k - 1);
      var w := WalkTo(w0, oracle, update, cycle, k - 1);
      if !(w.reached > 0 && k > w.reached) {
        var o := oracle(cycle, k);
        var r := AfterProbe(w, k, o, update);
        assert WalkTo(w0, oracle, update, cycle, k) == r;
        forall j | |w0.reports| <= j < |r.reports|
          ensures ReportedIn(r.reports[j], w0, oracle, update, cycle)
        {
          if j < |w.reports| {
            assert r.reports[j] == w.reports[j];
          } else {
            assert r.reports[j] == update(w0.hops[k], o);
          }
        }
      }
    }
  }

  /** Before the first Echo Reply of a cycle, targetReachedAt stays 0. */
  lemma {:induction false} NoEchoYet(w0: Walk, oracle: Oracle, update: Update, cycle: int, k: int)
    requires 0 <= k <= MaxHops
    requires forall i :: 1 <= i <= MaxHops ==> i in w0.hops
    requires w0.reached == 0
    requires forall u :: 1 <= u <= k ==> !oracle(cycle, u).EchoReply?
    ensures WalkTo(w0, oracle, update, cycle, k).reached == 0
    decreases k
  {
    if k > 0 {
      NoEchoYet(w0, oracle, update, cycle, k - 1);
    }
  }

  /** Early termination: if the first Echo Reply of a cycle comes at TTL t,
      the cycle ends in the state it had right after TTL t, no TTL beyond t
      is probed (its record is untouched) and at most t callbacks are made.
      targetReachedAt is reset by every cycle, so this holds whatever earlier
      cycles saw. */
  lemma EarlyStop(w: Walk, oracle: Oracle, cycle: int, t: int)
    requires 1 <= t <= MaxHops
    requires forall i :: 1 <= i <= MaxHops ==> i in w.hops
    requires oracle(cycle, t).EchoReply?
    requires forall u :: 1 <= u < t ==> !oracle(cycle, u).EchoReply?
    ensures CycleOf(w, oracle, cycle) == WalkTo(Walk(w.hops, w.reports, 0), oracle, Step, cycle, t)
    ensures CycleOf(w, oracle, cycle).reached == t
    ensures forall u :: t < u <= MaxHops ==> CycleOf(w, oracle, cycle).hops[u] == w.hops[u]
    ensures |CycleOf(w, oracle, cycle).reports| <= |w.reports| + t
  {
    var w0 := Walk(w.hops, w.reports, 0);
    NoEchoYet(w0, oracle, Step, cycle, t - 1);
    assert WalkTo(w0, oracle, Step, cycle, t).reached == t;
    WalkStops(w0, oracle, Step, cycle, t, MaxHops);
    WalkFrame(w0, oracle, Step, cycle, t);
  }

  /** After n cycles every hop's Sent is at most n, |Rtts| <= Sent, the loss
      is in [0, 100], Avg is the mean of the RTTs, and every callback made
      so far carried loss = (Sent - |Rtts|) / Sent * 100 with Sent >= 1. */
  lemma {:induction false} RunValid(oracle: Oracle, n: nat)
    ensures forall i :: 1 <= i <= MaxHops ==> HopValid(RunTo(oracle, n).hops[i], i, n)
    ensures forall j :: 0 <= j < |RunTo(oracle, n).reports| ==> ReportOk(RunTo(oracle, n).reports[j])
  {
    if n == 0 {
      forall i | 1 <= i <= MaxHops
        ensures HopValid(RunTo(oracle, 0).hops[i], i, 0)
      {
        InitialHopValid(i);
      }
    } else {
      RunValid(oracle, n - 1);
      var w := RunTo(oracle, n - 1);
      var w0 := Walk(w.hops, w.reports, 0);
      var r := RunTo(oracle, n);
      assert r == WalkTo(w0, oracle, Step, n, MaxHops);
      WalkShape(w0, oracle, Step, n, MaxHops);
      WalkFrame(w0, oracle, Step, n, MaxHops);
      forall i | 1 <= i <= MaxHops
        ensures HopValid(r.hops[i], i, n)
      {
        StepValid(w0.hops[i], i, n - 1, oracle(n, i));
      }
      forall j | 0 <= j < |r.reports|
        ensures ReportOk(r.reports[j])
      {
        if j < |w.reports| {
          assert r.reports[j] == r.reports[..|w.reports|][j] == w.reports[j];
        } else {
          assert ReportedIn(r.reports[j], w0, oracle, Step, n);
          var t :| 1 <= t <= MaxHops && t in w0.hops && oracle(n, t).Reported()
            && r.reports[j] == Step(w0.hops[t], oracle(n, t));
          StepValid(w0.hops[t], t, n - 1, oracle(n, t));
        }
      }
    }
  }

  /** One cycle does not raise a hop's Best nor lower its Worst. */
  lemma CycleMonotone(w: Walk, oracle: Oracle, cycle: int, i: int)
    requires 1 <= i <= MaxHops
    requires forall u :: 1 <= u <= MaxHops ==> u in w.hops
    ensures CycleOf(w, oracle, cycle).hops[i].best <= w.hops[i].best
    ensures CycleOf(w, oracle, cycle).hops[i].worst >= w.hops[i].worst
  {
    var w0 := Walk(w.hops, w.reports, 0);
    WalkShape(w0, oracle, Step, cycle, MaxHops);
    var s := Step(w.hops[i], oracle(cycle, i));
    assert s.best <= w.hops[i].best && s.worst >= w.hops[i].worst;
  }

  /** Across the life of the trace, Best never rises and Worst never falls. */
  lemma {:induction false} RunMonotone(oracle: Oracle, m: nat, n: nat, i: int)
    requires m <= n && 1 <= i <= MaxHops
    ensures RunTo(oracle, n).hops[i].best <= RunTo(oracle, m).hops[i].best
    ensures RunTo(oracle, n).hops[i].worst >= RunTo(oracle, m).hops[i].worst
    decreases n
  {
    if m < n {
      RunMonotone(oracle, m, n - 1, i);
      CycleMonotone(RunTo(oracle, n - 1), oracle, n, i);
    }
  }

  // ---------------------------------------------------------------------
  // Echo sequence numbers

  /** The echo sequence field (cycle << 8) | ttl, written arithmetically;
      ShiftOrIsAdd shows the two agree for ttl < 256. */
  function EchoSeq(cycle: nat, ttl: nat): int
    requires ttl < 0x100
  {
    cycle * 0x100 + ttl
  }

  /** For a second operand below 256, or-ing it into a value shifted left by
      8 bits is addition. */
  lemma ShiftOrIsAdd(c: bv32, t: bv32)
    requires c < 0x100_0000 && t < 0x100
    ensures (c << 8) | t == c * 0x100 + t
  {
  }

  /** Splits a sequence field back into (cycle, ttl). */
  function DecodeSeq(s: int): (int, int)
  {
    (s / 0x100, s % 0x100)
  }

  lemma SeqRoundTrip(cycle: nat, ttl: nat)
    requires ttl < 0x100
    ensures DecodeSeq(EchoSeq(cycle, ttl)) == (cycle, ttl)
  {
  }

  /** Distinct probes of one trace carry distinct sequence numbers, and each
      fits the 16-bit field of an ICMP echo. */
  lemma SeqInjective(c1: nat, t1: nat, c2: nat, t2: nat)
    requires 1 <= c1 <= Cycles && 1 <= t1 <= MaxHops
    requires 1 <= c2 <= Cycles && 1 <= t2 <= MaxHops
    ensures 0 <= EchoSeq(c1, t1) < 0x1_0000
    ensures EchoSeq(c1, t1) == EchoSeq(c2, t2) ==> c1 == c2 && t1 == t2
  {
  }

  // ---------------------------------------------------------------------
  // The imperative probe

  /** Sum of the RTTs, as the loop at executors.go computes it. */
  method SumRtts(rtts: seq<real>) returns (sum: real)
    ensures sum == Sum(rtts)
  {
    sum := 0.0;
    var i := 0;
    while i < |rtts|
      invariant 0 <= i <= |rtts|
      invariant sum == Sum(rtts[..i])
    {
      assert rtts[..i + 1][..i] == rtts[..i];
      sum := sum + rtts[i];
      i := i + 1;
    }
    assert rtts[..i] == rtts;
  }

  /** Sum of the squared deviations from avg, as the variance loop computes it. */
  method SumSquaredDeviations(rtts: seq<real>, avg: real) returns (variance: real)
    ensures variance == SquaredDeviations(rtts, avg)
  {
    variance := 0.0;
    var i := 0;
    while i < |rtts|
      invariant 0 <= i <= |rtts|
      invariant variance == SquaredDeviations(rtts[..i], avg)
    {
      assert rtts[..i + 1][..i] == rtts[..i];
      variance := variance + (rtts[i] - avg) * (rtts[i] - avg);
      i := i + 1;
    }
    assert rtts[..i] == rtts;
  }

  /** The statistics update for a recognised reply. */
  method RecordReply(h: HopStats, rtt: real, peer: string) returns (r: HopStats)
    requires h.sent >= 1
    ensures r == Record(h, rtt, peer)
  {
    r := h.(ip := peer);
    r := r.(rtts := r.rtts + [rtt]);
    r := r.(last := rtt);
    if rtt < r.best {
      r := r.(best := rtt);
    }
    if rtt > r.worst {
      r := r.(worst := rtt);
    }
    var sum := SumRtts(r.rtts);
    r := r.(avg := sum / |r.rtts| as real);
    if |r.rtts| > 1 {
      var squares := SumSquaredDeviations(r.rtts, r.avg);
      r := r.(variance := squares / (|r.rtts| - 1) as real);
    }
    r := r.(loss := LossPct(r.sent, |r.rtts|));
  }

  /** The hop table of one DoMTR call and the callbacks it has made. */
  class HopTable {
    var hops: map<int, HopStats>
    var reports: seq<HopStats>

    /** Hops 1..MaxHops, each with Best = 999999 and nothing sent. */
    constructor ()
      ensures hops == InitialTable() && reports == []
    {
      var table := map[];
      var i := 1;
      while i <= MaxHops
        invariant 1 <= i <= MaxHops + 1
        invariant table == map j | 1 <= j < i :: NewHop(j)
      {
        table := table[i := NewHop(i)];
        i := i + 1;
      }
      hops := table;
      reports := [];
    }

    /** One iteration of the TTL loop: send, read, classify, update hops[ttl]. */
    method Probe(ttl: int, o: Outcome) returns (echo: bool)
      requires ttl in hops
      modifies this
      ensures hops == old(hops)[ttl := Step(old(hops)[ttl], o)]
      ensures reports == if o.Reported() then old(reports) + [hops[ttl]] else old(reports)
      ensures echo == o.EchoReply?
    {
      echo := false;
      if !o.Sent() {
        return;
      }
      var h := hops[ttl];
      h := h.(sent := h.sent + 1);
      hops := hops[ttl := h];
      match o {
        case ReadFailed =>
          h := h.(loss := LossPct(h.sent, |h.rtts|));
          hops := hops[ttl := h];
          reports := reports + [h];
        case ParseFailed =>
        case OtherType =>
        case TimeExceeded(rtt, peer) =>
          h := RecordReply(h, rtt, peer);
          hops := hops[ttl := h];
          reports := reports + [h];
        case EchoReply(rtt, peer) =>
          h := RecordReply(h, rtt, peer);
          hops := hops[ttl := h];
          reports := reports + [h];
          echo := true;
      }
    }

    /** One cycle: TTL 1..MaxHops, stopping after the TTL that drew an Echo Reply. */
    method RunCycle(cycle: int, oracle: Oracle)
      requires forall i :: 1 <= i <= MaxHops ==> i in hops
      modifies this
      ensures hops == CycleOf(Walk(old(hops), old(reports), 0), oracle, cycle).hops
      ensures reports == CycleOf(Walk(old(hops), old(reports), 0), oracle, cycle).reports
    {
      ghost var w0 := Walk(hops, reports, 0);
      var reached := 0;
      var ttl := 1;
      while ttl <= MaxHops
        invariant 1 <= ttl <= MaxHops + 1
        invariant 0 <= reached < ttl
        invariant Walk(hops, reports, reached) == WalkTo(w0, oracle, Step, cycle, ttl - 1)
      {
        if reached > 0 && ttl > reached {
          WalkStops(w0, oracle, Step, cycle, ttl - 1, MaxHops);
          break;
        }
        WalkToNext(w0, oracle, Step, cycle, ttl);
        var echo := Probe(ttl, oracle(cycle, ttl));
        if echo {
          reached := ttl;
        }
        ttl := ttl + 1;
      }
    }
  }

  /** Why DoMTR returns before probing. */
  datatype MtrError = ResolveFailed | ListenFailed

  /** DoMTR's error result and the hop records passed to its callback. */
  datatype MtrOutcome = MtrOutcome(err: Option<MtrError>, reports: seq<HopStats>)

  /** DoMTR: resolve, open the socket, then run all cycles over a fresh table. */
  method DoMtr(resolves: bool, listens: bool, oracle: Oracle) returns (r: MtrOutcome)
    ensures !resolves ==> r == MtrOutcome(Some(ResolveFailed), [])
    ensures resolves && !listens ==> r == MtrOutcome(Some(ListenFailed), [])
    ensures resolves && listens ==> r == MtrOutcome(None, RunTo(oracle, Cycles).reports)
  {
    if !resolves {
      return MtrOutcome(Some(ResolveFailed), []);
    }
    if !listens {
      return MtrOutcome(Some(ListenFailed), []);
    }
    var table := new HopTable();
    var cycle := 1;
    while cycle <= Cycles
      invariant 1 <= cycle <= Cycles + 1
      invariant table.hops == RunTo(oracle, cycle - 1).hops
      invariant table.reports == RunTo(oracle, cycle - 1).reports
    {
      table.RunCycle(cycle, oracle);
      cycle := cycle + 1;
    }
    r := MtrOutcome(None, table.reports);
  }

  /** Every callback of a completed trace reports a loss in [0, 100] computed
      from Sent >= 1, and Sent never exceeds the number of cycles. */
  lemma TraceReportsOk(oracle: Oracle)
    ensures forall j :: 0 <= j < |RunTo(oracle, Cycles).reports| ==>
      ReportOk(RunTo(oracle, Cycles).reports[j])
    ensures forall i :: 1 <= i <= MaxHops ==>
      |RunTo(oracle, Cycles).hops[i].rtts| <= RunTo(oracle, Cycles).hops[i].sent <= Cycles
  {
    RunValid(oracle, Cycles);
  }
}
