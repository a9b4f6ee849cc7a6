/**
 * Every interleaving of the client's tasks (wosh-client/src/lib.rs): who redials, when a session counts as
 * stalled, and what a liveness verdict rests on.
 */
module ClientMachine {
  import opened Bytes
  import opened TunnelCodec
  import opened ClientSession

  /** A running `resume_loop`: at the top of its loop, or in an attempt. */
  datatype Loop = Loop(generation: nat, dialing: bool)

  datatype Machine = Machine(link: Link, live: Liveness, loops: seq<Loop>)

  /** What `resume_loop` finds when an attempt is answered. */
  datatype Answer = Resumes | ReplayGap | Refuses

  datatype Step =
    | ReadStep(generation: nat, frame: Frame)
    | WritePongStep(generation: nat)
    | WritePingStep(generation: nat)
    | ProbeStep(generation: nat)
    | TickStep(generation: nat)
    | LinkLostStep(generation: nat)
    | LoopTopStep(loop: nat, spent: bool, overflowed: bool)
    | LoopRetryStep(loop: nat)
    | LoopAbandonStep(loop: nat)
    | LoopAnswerStep(loop: nat, answer: Answer)
    | SuspendStep
    | WakeStep
    | DetachStep
    | ReadyStep

  function Without(loops: seq<Loop>, i: nat): seq<Loop>
    requires i < |loops|
  {
    loops[..i] + loops[i + 1..]
  }

  function ReportLost(m: Machine, proto: Proto, generation: nat): Machine {
    match LinkLost(m.link, proto, generation)
    case (k, RetireTask) => m.(link := k)
    case (k, Die) => m.(link := DeclareDead(k))
    case (k, StartResume) => m.(link := k, loops := m.loops + [Loop(generation, false)])
  }

  function LoopTop(m: Machine, i: nat, spent: bool, overflowed: bool): Machine
    requires i < |m.loops|
  {
    var k := m.link;
    if m.loops[i].dialing then m
    else if Abandoned(k, m.loops[i].generation) then m.(loops := Without(m.loops, i))
    else if StandDown(k).1 then m.(link := StandDown(k).0, loops := Without(m.loops, i))
    else if spent || overflowed then m.(link := DeclareDead(k), loops := Without(m.loops, i))
    else m.(loops := m.loops[i := Loop(m.loops[i].generation, true)])
  }

  function LoopAnswer(m: Machine, i: nat, answer: Answer, now: nat): Machine
    requires i < |m.loops|
  {
    if !m.loops[i].dialing || Abandoned(m.link, m.loops[i].generation) then m
    else
      var loops := Without(m.loops, i);
      match answer
      case Resumes => Machine(InstallLink(m.link), InstallLiveness(m.live, now), loops)
      case ReplayGap => m.(link := DeclareDead(m.link), loops := loops)
      case Refuses => m.(link := DeclareDead(m.link), loops := loops)
  }

  /** One stretch of a task between two awaits; a task or loop that is not there takes no step. */
  function Do(m: Machine, proto: Proto, step: Step, now: nat): Machine {
    match step
    case ReadStep(g, f) =>
      if m.link.generation != g then m
      else
        var m1 := m.(live := Hear(m.live, f, proto, now));
        if Violates(f, proto) then ReportLost(m1, proto, g) else m1
    case WritePongStep(g) => if m.link.generation != g then m else m.(live := TakePong(m.live).0)
    case WritePingStep(g) => if m.link.generation != g then m else m.(live := TakePing(m.live, proto, now).0)
    case ProbeStep(g) => if m.link.generation != g then m else m.(live := InteractiveProbe(m.live, proto, now))
    case TickStep(g) =>
      var (l, tick) := KeepaliveTick(m.link, m.live, g, now);
      if tick == Dead then ReportLost(m.(live := l), proto, g) else m.(live := l)
    case LinkLostStep(g) => ReportLost(m, proto, g)
    case LoopTopStep(i, spent, overflowed) => if i < |m.loops| then LoopTop(m, i, spent, overflowed) else m
    case LoopRetryStep(i) =>
      if i < |m.loops| then m.(loops := m.loops[i := Loop(m.loops[i].generation, false)]) else m
    case LoopAbandonStep(i) =>
      if i < |m.loops| && Abandoned(m.link, m.loops[i].generation) then m.(loops := Without(m.loops, i)) else m
    case LoopAnswerStep(i, answer) => if i < |m.loops| then LoopAnswer(m, i, answer, now) else m
    case SuspendStep => m.(link := Suspend(m.link, proto))
    case WakeStep =>
      Machine(WakeLink(m.link), WakeLiveness(m.link, m.live, proto, now),
              if WakesStalled(m.link) then m.loops + [Loop(m.link.generation, false)] else m.loops)
    case DetachStep => m.(link := m.link.(detached := true))
    case ReadyStep => m.(link := m.link.(wasReady := true))
  }

  /** Step `i` of a run happens at `clock[i]`. */
  ghost predicate Clocked(steps: seq<Step>, clock: seq<nat>) {
    |clock| == |steps| && forall i, j :: 0 <= i <= j < |clock| ==> clock[i] <= clock[j]
  }

  function At(proto: Proto, steps: seq<Step>, clock: seq<nat>, n: nat): Machine
    requires n <= |steps| == |clock|
  {
    if n == 0 then Machine(CONNECTED, AliveSince(0), [])
    else Do(At(proto, steps, clock, n - 1), proto, steps[n - 1], clock[n - 1])
  }

  // ---- the resume machine ----

  ghost predicate Live(m: Machine) {
    !m.link.detached && !m.link.linkDown
  }

  ghost predicate Sound(m: Machine) {
    && |m.loops| <= 1
    && (forall i :: 0 <= i < |m.loops| ==> m.loops[i].generation == m.link.generation)
    && (m.loops != [] ==> m.link.resuming)
    && (Live(m) ==> (m.link.resuming <==> m.loops != []))
    && (Live(m) ==> !(m.link.resuming && m.link.stalled))
    && (Live(m) ==> (m.link.stalled ==> m.link.suspended))
  }

  /** The current link was reported lost and nothing has replaced it yet. */
  ghost predicate Waiting(m: Machine) {
    m.link.resuming || m.link.stalled
  }

  lemma ReportLostSound(m: Machine, proto: Proto, generation: nat)
    requires proto != V1 && Sound(m)
    ensures Sound(ReportLost(m, proto, generation))
  {
  }

  lemma LoopTopSound(m: Machine, i: nat, spent: bool, overflowed: bool)
    requires Sound(m) && i < |m.loops|
    ensures Sound(LoopTop(m, i, spent, overflowed))
  {
  }

  lemma LoopAnswerSound(m: Machine, i: nat, answer: Answer, now: nat)
    requires Sound(m) && i < |m.loops|
    ensures Sound(LoopAnswer(m, i, answer, now))
  {
  }

  lemma WakeSound(m: Machine, proto: Proto, now: nat)
    requires Sound(m)
    ensures Sound(Do(m, proto, WakeStep, now))
  {
  }

  lemma StepSound(m: Machine, proto: Proto, step: Step, now: nat)
    requires proto != V1 && Sound(m)
    ensures Sound(Do(m, proto, step, now))
  {
    hide ReportLost, LoopTop, LoopAnswer, Hear;
    match step {
      case ReadStep(g, f) => ReportLostSound(m.(live := Hear(m.live, f, proto, now)), proto, g);
      case TickStep(g) => ReportLostSound(m.(live := KeepaliveTick(m.link, m.live, g, now).0), proto, g);
      case LinkLostStep(g) => ReportLostSound(m, proto, g);
      case LoopTopStep(i, spent, overflowed) =>
        if i < |m.loops| {
          LoopTopSound(m, i, spent, overflowed);
        }
      case LoopAnswerStep(i, answer) =>
        if i < |m.loops| {
          LoopAnswerSound(m, i, answer, now);
        }
      case WakeStep => WakeSound(m, proto, now);
      case _ =>
    }
  }

  lemma {:induction false} RunSound(proto: Proto, steps: seq<Step>, clock: seq<nat>, n: nat)
    requires proto != V1 && n <= |steps| == |clock|
    ensures Sound(At(proto, steps, clock, n))
  {
    if n == 0 {
    } else {
      RunSound(proto, steps, clock, n - 1);
      StepSound(At(proto, steps, clock, n - 1), proto, steps[n - 1], clock[n - 1]);
    }
  }

  /** In every reachable state of a framed session that is neither detached nor down. */
  lemma ResumeMachineIsSound(proto: Proto, steps: seq<Step>, clock: seq<nat>, n: nat)
    requires proto != V1 && n <= |steps| == |clock|
    ensures var m := At(proto, steps, clock, n);
            && |m.loops| <= 1
            && (Live(m) ==>
                  && !(m.link.resuming && m.link.stalled)
                  && (m.link.stalled ==> m.link.suspended)
                  && (m.link.resuming <==> |m.loops| == 1))
  {
    RunSound(proto, steps, clock, n);
  }

  /**
   * The three ways the current link is reported lost: a read or write that failed, a protocol violation the reader
   * met, and the prober's verdict.
   */
  predicate Reports(m: Machine, proto: Proto, step: Step, now: nat) {
    match step
    case LinkLostStep(g) => g == m.link.generation
    case ReadStep(g, f) =>
      g == m.link.generation && (f.HelloFrame? || f.ReplyFrame? || (proto != V3 && (f.Ping? || f.Pong?)))
    case TickStep(g) => KeepaliveTick(m.link, m.live, g, now).1 == Dead
    case _ => false
  }

  lemma WaitingStep(m: Machine, proto: Proto, step: Step, now: nat)
    requires proto != V1 && Sound(m) && Live(m)
    ensures var m1 := Do(m, proto, step, now);
            && m.link.generation <= m1.link.generation <= m.link.generation + 1
            && (m.link.generation < m1.link.generation ==> step.LoopAnswerStep?)
            && (Reports(m, proto, step, now) || Waiting(m) ==>
                  Waiting(m1) || !Live(m1) || m1.link.generation > m.link.generation)
  {
  }

  lemma StepMonotone(m: Machine, proto: Proto, step: Step, now: nat)
    ensures Live(Do(m, proto, step, now)) ==> Live(m)
    ensures m.link.generation <= Do(m, proto, step, now).link.generation
  {
  }

  lemma {:induction false} DownIsForever(proto: Proto, steps: seq<Step>, clock: seq<nat>, i: nat, j: nat)
    requires i <= j <= |steps| == |clock|
    ensures Live(At(proto, steps, clock, j)) ==> Live(At(proto, steps, clock, i))
    ensures At(proto, steps, clock, i).link.generation <= At(proto, steps, clock, j).link.generation
  {
    if i == j {
    } else {
      DownIsForever(proto, steps, clock, i, j - 1);
      StepMonotone(At(proto, steps, clock, j - 1), proto, steps[j - 1], clock[j - 1]);
    }
  }

  /**
   * Once the current link is reported lost, the session stays resuming or stalled until a new connection
   * is installed, it is declared dead, or it detaches.
   */
  lemma {:induction false} LostLinkIsNeverForgotten(proto: Proto, steps: seq<Step>, clock: seq<nat>, i: nat, j: nat)
    requires proto != V1 && i < j <= |steps| == |clock|
    requires Reports(At(proto, steps, clock, i), proto, steps[i], clock[i])
    ensures var m := At(proto, steps, clock, j);
            Waiting(m) || !Live(m) || m.link.generation > At(proto, steps, clock, i).link.generation
    decreases j - i
  {
    hide Do, Sound, Reports;
    var before := At(proto, steps, clock, j - 1);
    if Live(At(proto, steps, clock, j)) {
      DownIsForever(proto, steps, clock, j - 1, j);
      DownIsForever(proto, steps, clock, i, j - 1);
      RunSound(proto, steps, clock, j - 1);
      WaitingStep(before, proto, steps[j - 1], clock[j - 1]);
      if i < j - 1 {
        LostLinkIsNeverForgotten(proto, steps, clock, i, j - 1);
      }
    }
  }

  // ---- liveness verdicts ----

  /** Step `j` put a ping of `generation` on the wire. */
  ghost predicate IssuesPing(proto: Proto, steps: seq<Step>, clock: seq<nat>, j: nat, generation: nat)
    requires |steps| == |clock|
  {
    && j < |steps|
    && steps[j] == WritePingStep(generation)
    && At(proto, steps, clock, j).link.generation == generation
    && TakePing(At(proto, steps, clock, j).live, proto, clock[j]).1.Some?
  }

  /** Step `j` consumed a frame, of any kind, on the current connection. */
  ghost predicate ConsumesFrame(proto: Proto, steps: seq<Step>, clock: seq<nat>, j: nat)
    requires |steps| == |clock|
  {
    && j < |steps|
    && steps[j].ReadStep?
    && steps[j].generation == At(proto, steps, clock, j).link.generation
  }

  /** Step `k` is a wake that finds the session attached on a dialect with liveness. */
  ghost predicate WakeProbes(proto: Proto, steps: seq<Step>, clock: seq<nat>, k: nat)
    requires |steps| == |clock|
  {
    && k < |steps| && steps[k].WakeStep? && proto == V3
    && Live(At(proto, steps, clock, k)) && !Waiting(At(proto, steps, clock, k))
  }

  lemma OutstandingStep(m: Machine, proto: Proto, step: Step, now: nat)
    ensures var m1 := Do(m, proto, step, now);
            m1.live.pingOutstanding.Some? ==>
              && m1.link.generation == m.link.generation
              && if step.WritePingStep? && step.generation == m.link.generation
                    && TakePing(m.live, proto, now).1.Some?
                 then m1.live.pingOutstanding == Some(now)
                 else m1.live.pingOutstanding == m.live.pingOutstanding
                      && !(step.ReadStep? && step.generation == m.link.generation)
                      && !(step.WakeStep? && proto == V3 && Live(m) && !Waiting(m))
  {
  }

  /** An outstanding probe is a ping issued on this generation with nothing heard, and no probing wake, since. */
  lemma {:induction false} OutstandingIsIssued(proto: Proto, steps: seq<Step>, clock: seq<nat>, n: nat)
    returns (j: nat)
    requires n <= |steps| == |clock|
    requires At(proto, steps, clock, n).live.pingOutstanding.Some?
    ensures j < n && IssuesPing(proto, steps, clock, j, At(proto, steps, clock, n).link.generation)
    ensures At(proto, steps, clock, n).live.pingOutstanding.value == clock[j]
    ensures forall k :: j < k < n ==> !ConsumesFrame(proto, steps, clock, k) && !WakeProbes(proto, steps, clock, k)
  {
    var before := At(proto, steps, clock, n - 1);
    OutstandingStep(before, proto, steps[n - 1], clock[n - 1]);
    if steps[n - 1].WritePingStep? && steps[n - 1].generation == before.link.generation
       && TakePing(before.live, proto, clock[n - 1]).1.Some? {
      j := n - 1;
    } else {
      j := OutstandingIsIssued(proto, steps, clock, n - 1);
    }
  }

  /**
   * The prober declares the link dead only if a ping was issued on this generation at least PING_VERDICT_MS earlier
   * and since then no frame of any kind has been consumed and no wake has found the session attached. So a clock that
   * jumped while the page was frozen condemns nothing: every such wake lies at least PING_VERDICT_MS back.
   */
  lemma VerdictIsSound(proto: Proto, steps: seq<Step>, clock: seq<nat>, i: nat) returns (j: nat)
    requires Clocked(steps, clock) && i < |steps| && steps[i].TickStep?
    requires var m := At(proto, steps, clock, i);
             KeepaliveTick(m.link, m.live, steps[i].generation, clock[i]).1 == Dead
    ensures j < i && IssuesPing(proto, steps, clock, j, steps[i].generation)
    ensures clock[i] - clock[j] >= 5_000
    ensures forall k :: j < k < i ==> !ConsumesFrame(proto, steps, clock, k) && !WakeProbes(proto, steps, clock, k)
    ensures forall k :: 0 <= k < i && WakeProbes(proto, steps, clock, k) ==> clock[i] - clock[k] >= 5_000
  {
    j := OutstandingIsIssued(proto, steps, clock, i);
    forall k | 0 <= k < i && WakeProbes(proto, steps, clock, k)
      ensures clock[i] - clock[k] >= 5_000
    {
      assert k != j;
    }
  }
}
