/**
 * What moves the client's resume machine (wosh-client/src/lib.rs), step by step of any run: what starts a resume,
 * what a page that went away holds back, what installs a connection and what ends the session.
 */
module ClientResume {
  import opened Bytes
  import opened TunnelCodec
  import opened ClientSession
  import opened ClientMachine

  /** One more step from a reachable state of a framed session. */
  lemma Reached(proto: Proto, steps: seq<Step>, clock: seq<nat>, i: nat)
    requires proto != V1 && i < |steps| == |clock|
    ensures Sound(At(proto, steps, clock, i))
    ensures At(proto, steps, clock, i + 1) == Do(At(proto, steps, clock, i), proto, steps[i], clock[i])
  {
    hide Sound;
    RunSound(proto, steps, clock, i);
  }

  // ---- what starts a resume ----

  lemma ReportStep(m: Machine, proto: Proto, step: Step, now: nat)
    requires Live(m) && !Waiting(m) && m.loops == []
    ensures var m1 := Do(m, proto, step, now);
            if !Reports(m, proto, step, now) then !Waiting(m1) && m1.loops == m.loops
            else if proto == V1 then m1.link.linkDown && m1.loops == m.loops
            else if m.link.suspended then m1.link == m.link.(stalled := true) && m1.loops == m.loops
            else m1.link == m.link.(resuming := true) && m1.loops == m.loops + [Loop(m.link.generation, false)]
  {
  }

  /**
   * A session with a link starts to wait for a new one exactly when the link it has is reported lost: at once, with
   * one loop, while the page is there, and by standing still while it is away.
   */
  lemma ResumeBeginsIffReported(proto: Proto, steps: seq<Step>, clock: seq<nat>, i: nat)
    requires proto != V1 && i < |steps| == |clock|
    requires Live(At(proto, steps, clock, i)) && !Waiting(At(proto, steps, clock, i))
    ensures var m, m1 := At(proto, steps, clock, i), At(proto, steps, clock, i + 1);
            && (Waiting(m1) <==> Reports(m, proto, steps[i], clock[i]))
            && (Waiting(m1) ==> if m.link.suspended then m1.link == m.link.(stalled := true) && m1.loops == []
                                else m1.link == m.link.(resuming := true)
                                     && m1.loops == [Loop(m.link.generation, false)])
  {
    Reached(proto, steps, clock, i);
    var m := At(proto, steps, clock, i);
    hide Do, Reports, At;
    ReportStep(m, proto, steps[i], clock[i]);
  }

  lemma {:induction false} UnframedHasNoLoops(steps: seq<Step>, clock: seq<nat>, n: nat)
    requires n <= |steps| == |clock|
    ensures var m := At(V1, steps, clock, n); m.loops == [] && !Waiting(m) && !m.link.suspended
  {
    if n == 0 {
    } else {
      UnframedHasNoLoops(steps, clock, n - 1);
      UnframedStep(At(V1, steps, clock, n - 1), steps[n - 1], clock[n - 1]);
    }
  }

  lemma UnframedStep(m: Machine, step: Step, now: nat)
    requires m.loops == [] && !Waiting(m) && !m.link.suspended
    ensures var m1 := Do(m, V1, step, now); m1.loops == [] && !Waiting(m1) && !m1.link.suspended
    ensures Live(m) ==> (Live(Do(m, V1, step, now)) <==> !step.DetachStep? && !Reports(m, V1, step, now))
  {
  }

  /** The dialect without frames has no resume: such a session lives exactly until its link is reported lost. */
  lemma UnframedDiesIffLost(steps: seq<Step>, clock: seq<nat>, i: nat)
    requires i < |steps| == |clock| && Live(At(V1, steps, clock, i))
    ensures Live(At(V1, steps, clock, i + 1)) <==>
            !steps[i].DetachStep? && !Reports(At(V1, steps, clock, i), V1, steps[i], clock[i])
  {
    UnframedHasNoLoops(steps, clock, i);
    UnframedStep(At(V1, steps, clock, i), steps[i], clock[i]);
  }

  // ---- what ends a session ----

  /** The one loop gives up: out of budget or replay at its top, or refused at the end of an attempt. */
  ghost predicate GivesUp(m: Machine, step: Step) {
    match step
    case LoopTopStep(l, spent, overflowed) =>
      l < |m.loops| && !m.loops[l].dialing && !m.link.suspended && (spent || overflowed)
    case LoopAnswerStep(l, answer) => l < |m.loops| && m.loops[l].dialing && (answer.ReplayGap? || answer.Refuses?)
    case _ => false
  }

  lemma EndStep(m: Machine, proto: Proto, step: Step, now: nat)
    requires proto != V1 && Sound(m) && Live(m)
    ensures Live(Do(m, proto, step, now)) <==> !step.DetachStep? && !GivesUp(m, step)
    ensures GivesUp(m, step) ==> Do(m, proto, step, now).link.linkDown && Do(m, proto, step, now).loops == []
  {
  }

  /** A framed session dies exactly when its loop gives up, or the page detaches it; losing the link is no reason. */
  lemma DiesIffGivenUp(proto: Proto, steps: seq<Step>, clock: seq<nat>, i: nat)
    requires proto != V1 && i < |steps| == |clock| && Live(At(proto, steps, clock, i))
    ensures Live(At(proto, steps, clock, i + 1)) <==>
            !steps[i].DetachStep? && !GivesUp(At(proto, steps, clock, i), steps[i])
  {
    hide Do, Sound;
    Reached(proto, steps, clock, i);
    EndStep(At(proto, steps, clock, i), proto, steps[i], clock[i]);
  }

  // ---- what installs a connection ----

  lemma InstallStep(m: Machine, proto: Proto, step: Step, now: nat)
    requires Sound(m)
    ensures var m1 := Do(m, proto, step, now);
            if step.LoopAnswerStep? && step.answer.Resumes? && step.loop < |m.loops| && m.loops[step.loop].dialing
               && Live(m)
            then m1 == Machine(m.link.(resuming := false, generation := m.link.generation + 1),
                               Liveness(now, None, false, [], m.live.pingCounter), [])
            else m1.link.generation == m.link.generation
  {
  }

  /**
   * The generation changes exactly when the loop of a live session is answered `Resumed`. The new connection starts
   * with liveness of its own, and the loop is gone.
   */
  lemma InstalledIffResumed(proto: Proto, steps: seq<Step>, clock: seq<nat>, i: nat)
    requires proto != V1 && i < |steps| == |clock|
    ensures var m, m1, step := At(proto, steps, clock, i), At(proto, steps, clock, i + 1), steps[i];
            if step.LoopAnswerStep? && step.answer.Resumes? && step.loop < |m.loops| && m.loops[step.loop].dialing
               && Live(m)
            then m1 == Machine(m.link.(resuming := false, generation := m.link.generation + 1),
                               Liveness(clock[i], None, false, [], m.live.pingCounter), [])
            else m1.link.generation == m.link.generation
  {
    hide Do, Sound;
    Reached(proto, steps, clock, i);
    InstallStep(At(proto, steps, clock, i), proto, steps[i], clock[i]);
  }

  /** The connection the task behind a step was started for, for tasks that belong to one. */
  function TaskOf(step: Step): Option<nat> {
    match step
    case ReadStep(g, _) => Some(g)
    case WritePongStep(g) => Some(g)
    case WritePingStep(g) => Some(g)
    case ProbeStep(g) => Some(g)
    case TickStep(g) => Some(g)
    case LinkLostStep(g) => Some(g)
    case _ => None
  }

  /** Once a connection is replaced, nothing the reader, writer and prober left over from it do changes anything. */
  lemma SupersededTasksAreInert(proto: Proto, steps: seq<Step>, clock: seq<nat>, i: nat, j: nat)
    requires i <= j < |steps| == |clock| && TaskOf(steps[j]).Some?
    requires TaskOf(steps[j]).value < At(proto, steps, clock, i).link.generation
    ensures At(proto, steps, clock, j + 1) == At(proto, steps, clock, j)
  {
    DownIsForever(proto, steps, clock, i, j);
    StaleStep(At(proto, steps, clock, j), proto, steps[j], clock[j]);
    hide Do;
  }

  lemma StaleStep(m: Machine, proto: Proto, step: Step, now: nat)
    requires TaskOf(step).Some? && TaskOf(step).value != m.link.generation
    ensures Do(m, proto, step, now) == m
  {
  }

  // ---- a page that is away ----

  ghost predicate Dials(m: Machine) {
    m.loops != [] && m.loops[0].dialing
  }

  lemma AwayStep(m: Machine, proto: Proto, step: Step, now: nat)
    requires proto != V1 && Sound(m)
    ensures var m1 := Do(m, proto, step, now);
            && (!Dials(m) ==> (Dials(m1) <==>
                  step == LoopTopStep(0, false, false) && m.loops != [] && Live(m) && !m.link.suspended))
            && (step.LoopTopStep? && step.loop < |m.loops| && !Dials(m) && Live(m) && m.link.suspended ==>
                  m1.link == m.link.(resuming := false, stalled := true) && m1.loops == [])
            && (Live(m) && Live(m1) ==>
                  m1.link.suspended == (step.SuspendStep? || (m.link.suspended && !step.WakeStep?)))
            && (Live(m) && step.WakeStep? ==>
                  if m.link.stalled
                  then m1.link == m.link.(suspended := false, stalled := false, resuming := true)
                       && m1.loops == [Loop(m.link.generation, false)]
                  else m1.link == m.link.(suspended := false) && m1.loops == m.loops)
  {
  }

  /**
   * `suspended` is exactly what the page said last. While it is set no attempt is started and a loop at its top
   * stands down; the wake takes up a session that stood still, with one loop, and no other.
   */
  lemma AwayHoldsBack(proto: Proto, steps: seq<Step>, clock: seq<nat>, i: nat)
    requires proto != V1 && i < |steps| == |clock|
    ensures var m, m1, step := At(proto, steps, clock, i), At(proto, steps, clock, i + 1), steps[i];
            && (!Dials(m) && Dials(m1) ==> Live(m) && !m.link.suspended && step == LoopTopStep(0, false, false))
            && (step == LoopTopStep(0, false, false) && m.loops != [] && !Dials(m) && Live(m) ==>
                  if m.link.suspended then m1.link == m.link.(resuming := false, stalled := true) && m1.loops == []
                  else Dials(m1))
            && (Live(m) && Live(m1) ==>
                  m1.link.suspended == (step.SuspendStep? || (m.link.suspended && !step.WakeStep?)))
            && (Live(m) && step.WakeStep? ==>
                  if m.link.stalled
                  then m1.link == m.link.(suspended := false, stalled := false, resuming := true)
                       && m1.loops == [Loop(m.link.generation, false)]
                  else m1.link == m.link.(suspended := false) && m1.loops == m.loops)
  {
    hide Do, Sound, Dials;
    Reached(proto, steps, clock, i);
    AwayStep(At(proto, steps, clock, i), proto, steps[i], clock[i]);
  }

  lemma LoopStep(m: Machine, proto: Proto, step: Step, now: nat)
    requires Sound(m) && m.loops != []
    ensures var m1 := Do(m, proto, step, now);
            && (step == LoopRetryStep(0) ==> m1 == m.(loops := [Loop(m.link.generation, false)]))
            && (step == LoopAbandonStep(0) ==> m1 == if Live(m) then m else m.(loops := []))
            && (step.LoopTopStep? && step.loop == 0 && !Dials(m) && !Live(m) ==> m1 == m.(loops := []))
  {
  }

  /** A failed attempt brings the loop back to its top, and a loop leaves a session that is over untouched. */
  lemma LoopComesBackOrLeaves(proto: Proto, steps: seq<Step>, clock: seq<nat>, i: nat)
    requires proto != V1 && i < |steps| == |clock| && At(proto, steps, clock, i).loops != []
    ensures var m, m1, step := At(proto, steps, clock, i), At(proto, steps, clock, i + 1), steps[i];
            && (step == LoopRetryStep(0) ==> m1 == m.(loops := [Loop(m.link.generation, false)]))
            && (step == LoopAbandonStep(0) ==> m1 == if Live(m) then m else m.(loops := []))
            && (step.LoopTopStep? && step.loop == 0 && !Dials(m) && !Live(m) ==> m1 == m.(loops := []))
  {
    hide Do, Sound, Dials;
    Reached(proto, steps, clock, i);
    LoopStep(At(proto, steps, clock, i), proto, steps[i], clock[i]);
  }

  // ---- what the page is told at the end ----

  ghost predicate WasReady(steps: seq<Step>, n: nat) {
    exists r :: 0 <= r < n && r < |steps| && steps[r].ReadyStep?
  }

  ghost predicate KindFollows(k: Link, k1: Link, ready: bool) {
    && k1.wasReady == (k.wasReady || ready)
    && (k.linkDown ==> k1.linkDown && k1.closeKind == k.closeKind)
    && (!k.linkDown && k1.linkDown ==> k1.closeKind == Some(if k.wasReady then Lost else Failed) && !k1.resuming)
    && (!k.linkDown && !k1.linkDown ==> k1.closeKind == k.closeKind)
  }

  lemma ReportKind(m: Machine, proto: Proto, generation: nat)
    ensures KindFollows(m.link, ReportLost(m, proto, generation).link, false)
  {
  }

  lemma LoopKind(m: Machine, i: nat, spent: bool, overflowed: bool, answer: Answer, now: nat)
    requires i < |m.loops|
    ensures KindFollows(m.link, LoopTop(m, i, spent, overflowed).link, false)
    ensures KindFollows(m.link, LoopAnswer(m, i, answer, now).link, false)
  {
  }

  lemma KindStep(m: Machine, proto: Proto, step: Step, now: nat)
    ensures KindFollows(m.link, Do(m, proto, step, now).link, step.ReadyStep?)
  {
    hide Hear, ReportLost, LoopTop, LoopAnswer;
    match step {
      case ReadStep(g, f) => ReportKind(m.(live := Hear(m.live, f, proto, now)), proto, g);
      case TickStep(g) => ReportKind(m.(live := KeepaliveTick(m.link, m.live, g, now).0), proto, g);
      case LinkLostStep(g) => ReportKind(m, proto, g);
      case LoopTopStep(i, spent, overflowed) =>
        if i < |m.loops| {
          LoopKind(m, i, spent, overflowed, Resumes, now);
        }
      case LoopAnswerStep(i, answer) =>
        if i < |m.loops| {
          LoopKind(m, i, false, false, answer, now);
        }
      case _ =>
    }
  }

  lemma {:induction false} KindsRun(proto: Proto, steps: seq<Step>, clock: seq<nat>, n: nat)
    requires n <= |steps| == |clock|
    ensures var k := At(proto, steps, clock, n).link;
            && (k.wasReady <==> WasReady(steps, n))
            && (!k.linkDown ==> k.closeKind.None?)
  {
    if n == 0 {
    } else {
      KindsRun(proto, steps, clock, n - 1);
      KindStep(At(proto, steps, clock, n - 1), proto, steps[n - 1], clock[n - 1]);
      hide Do;
    }
  }

  /**
   * The close kind is set by the step that takes the session down and kept from then on: lost if the session had
   * become ready before, failed if not.
   */
  lemma CloseKindTellsReadiness(proto: Proto, steps: seq<Step>, clock: seq<nat>, i: nat)
    requires i < |steps| == |clock|
    ensures var k, k1 := At(proto, steps, clock, i).link, At(proto, steps, clock, i + 1).link;
            if k.linkDown then k1.linkDown && k1.closeKind == k.closeKind
            else if k1.linkDown then
              k1.closeKind == Some(if WasReady(steps, i) then Lost else Failed) && !k1.resuming
            else k1.closeKind == None
  {
    hide Do;
    KindsRun(proto, steps, clock, i);
    KindStep(At(proto, steps, clock, i), proto, steps[i], clock[i]);
  }
}
