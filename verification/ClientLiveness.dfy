/**
 * When the client's prober asks and when it gives up, over every interleaving (wosh-client/src/lib.rs): each answer
 * of `keepalive_task` in terms of what was heard and asked, and the echoes owed to the listener.
 */
module ClientLiveness {
  import opened Bytes
  import opened TunnelCodec
  import opened ClientSession
  import opened ClientMachine

  /** The prober of the current connection has something to decide. */
  ghost predicate Watching(m: Machine, generation: nat) {
    m.link.generation == generation && Live(m) && !m.link.suspended && !m.link.resuming
  }

  function TickAt(proto: Proto, steps: seq<Step>, clock: seq<nat>, i: nat): Tick
    requires i < |steps| == |clock| && steps[i].TickStep?
  {
    var m := At(proto, steps, clock, i);
    KeepaliveTick(m.link, m.live, steps[i].generation, clock[i]).1
  }

  // ---- verdicts ----

  /** The ping of step `j` belongs to the connection of moment `i`, and nothing has taken it back by then. */
  ghost predicate Unanswered(proto: Proto, steps: seq<Step>, clock: seq<nat>, j: nat, i: nat)
    requires i <= |steps| == |clock|
  {
    && j < i && IssuesPing(proto, steps, clock, j, At(proto, steps, clock, i).link.generation)
    && forall k :: j < k < i ==> !ConsumesFrame(proto, steps, clock, k) && !WakeProbes(proto, steps, clock, k)
  }

  lemma OutstandingLasts(m: Machine, proto: Proto, step: Step, now: nat, t: nat)
    requires m.live.pingOutstanding == Some(t) && Do(m, proto, step, now).link.generation == m.link.generation
    requires !(step.ReadStep? && step.generation == m.link.generation)
    requires !(step.WakeStep? && proto == V3 && Live(m) && !Waiting(m))
    ensures Do(m, proto, step, now).live.pingOutstanding == Some(t)
  {
  }

  lemma AtNext(proto: Proto, steps: seq<Step>, clock: seq<nat>, n: nat)
    requires 0 < n <= |steps| == |clock|
    ensures At(proto, steps, clock, n) == Do(At(proto, steps, clock, n - 1), proto, steps[n - 1], clock[n - 1])
  {
  }

  lemma PingTaken(m: Machine, proto: Proto, step: Step, now: nat)
    requires step == WritePingStep(m.link.generation) && TakePing(m.live, proto, now).1.Some?
    ensures Do(m, proto, step, now).live.pingOutstanding == Some(now)
  {
  }

  lemma JustIssued(proto: Proto, steps: seq<Step>, clock: seq<nat>, j: nat, generation: nat)
    requires j < |steps| == |clock| && IssuesPing(proto, steps, clock, j, generation)
    ensures At(proto, steps, clock, j + 1).live.pingOutstanding == Some(clock[j])
    ensures At(proto, steps, clock, j).link.generation == generation
  {
    var m := At(proto, steps, clock, j);
    AtNext(proto, steps, clock, j + 1);
    assert steps[j] == WritePingStep(m.link.generation);
    PingTaken(m, proto, steps[j], clock[j]);
  }

  lemma {:induction false} UnansweredIsOutstanding(proto: Proto, steps: seq<Step>, clock: seq<nat>, j: nat, i: nat)
    requires i <= |steps| == |clock| && Unanswered(proto, steps, clock, j, i)
    ensures At(proto, steps, clock, i).live.pingOutstanding == Some(clock[j])
    decreases i
  {
    hide At, Do, TakePing, IssuesPing;
    JustIssued(proto, steps, clock, j, At(proto, steps, clock, i).link.generation);
    if j + 1 < i {
      var m := At(proto, steps, clock, i - 1);
      AtNext(proto, steps, clock, i);
      DownIsForever(proto, steps, clock, j, i - 1);
      DownIsForever(proto, steps, clock, i - 1, i);
      UnansweredIsOutstanding(proto, steps, clock, j, i - 1);
      assert !ConsumesFrame(proto, steps, clock, i - 1) && !WakeProbes(proto, steps, clock, i - 1);
      OutstandingLasts(m, proto, steps[i - 1], clock[i - 1], clock[j]);
    }
  }

  /**
   * The prober's verdict is exact: a tick declares the current link dead if and only if a ping of this connection
   * went out at least five seconds ago, no frame has come in since, and no wake has found the session attached since.
   */
  lemma VerdictIff(proto: Proto, steps: seq<Step>, clock: seq<nat>, i: nat)
    requires Clocked(steps, clock) && i < |steps| && steps[i].TickStep?
    requires Watching(At(proto, steps, clock, i), steps[i].generation)
    ensures TickAt(proto, steps, clock, i) == Dead <==>
            exists j: nat :: Unanswered(proto, steps, clock, j, i) && clock[i] - clock[j] >= 5_000
  {
    if TickAt(proto, steps, clock, i) == Dead {
      var j := VerdictIsSound(proto, steps, clock, i);
      assert Unanswered(proto, steps, clock, j, i);
    }
    forall j: nat | Unanswered(proto, steps, clock, j, i) && clock[i] - clock[j] >= 5_000
      ensures TickAt(proto, steps, clock, i) == Dead
    {
      UnansweredIsOutstanding(proto, steps, clock, j, i);
    }
  }

  // ---- probes ----

  /** When anything was last heard on the current connection, or it was installed. */
  ghost function LastHeard(proto: Proto, steps: seq<Step>, clock: seq<nat>, n: nat): nat
    requires n <= |steps| == |clock|
  {
    if n == 0 then 0
    else
      var a, b := At(proto, steps, clock, n - 1), At(proto, steps, clock, n);
      if ConsumesFrame(proto, steps, clock, n - 1) || a.link.generation != b.link.generation then clock[n - 1]
      else LastHeard(proto, steps, clock, n - 1)
  }

  lemma QuietStep(m: Machine, proto: Proto, step: Step, now: nat, heard: nat)
    requires m.live.pingDue ==> m.live.pingOutstanding.None?
    requires !m.live.pingDue && m.live.pingOutstanding.None? ==> m.live.lastInbound == heard
    ensures var m1 := Do(m, proto, step, now);
            var heard1 := if (step.ReadStep? && step.generation == m.link.generation)
                             || m.link.generation != m1.link.generation then now else heard;
            && (m1.live.pingDue ==> m1.live.pingOutstanding.None?)
            && (!m1.live.pingDue && m1.live.pingOutstanding.None? ==> m1.live.lastInbound == heard1)
  {
  }

  /** The back-dating a wake does is never mistaken for silence: it matters only while a ping is due or out. */
  lemma {:induction false} QuietMeansLastHeard(proto: Proto, steps: seq<Step>, clock: seq<nat>, n: nat)
    requires n <= |steps| == |clock|
    ensures var l := At(proto, steps, clock, n).live;
            && (l.pingDue ==> l.pingOutstanding.None?)
            && (!l.pingDue && l.pingOutstanding.None? ==> l.lastInbound == LastHeard(proto, steps, clock, n))
  {
    if n == 0 {
    } else {
      hide Do;
      QuietMeansLastHeard(proto, steps, clock, n - 1);
      QuietStep(At(proto, steps, clock, n - 1), proto, steps[n - 1], clock[n - 1],
                LastHeard(proto, steps, clock, n - 1));
    }
  }

  ghost predicate Asking(m: Machine) {
    m.live.pingDue || m.live.pingOutstanding.Some?
  }

  lemma TickProbes(m: Machine, proto: Proto, now: nat)
    requires Watching(m, m.link.generation)
    ensures var g := m.link.generation;
            && (KeepaliveTick(m.link, m.live, g, now).1 == Probe <==> !Asking(m) && m.live.lastInbound + 10_000 <= now)
            && Do(m, proto, TickStep(g), now).live.pingDue
               == (m.live.pingDue || (!Asking(m) && m.live.lastInbound + 10_000 <= now))
  {
  }

  lemma WriteProbes(m: Machine, proto: Proto, now: nat)
    requires m.live.pingDue ==> m.live.pingOutstanding.None?
    ensures Do(m, proto, ProbeStep(m.link.generation), now).live.pingDue
            == (m.live.pingDue || (proto == V3 && !Asking(m) && m.live.lastInbound + 2_000 <= now))
  {
  }

  /**
   * A tick asks exactly when nothing is being asked and nothing was heard for ten seconds; a write into a link that
   * has been quiet for two asks at once.
   */
  lemma ProbesIff(proto: Proto, steps: seq<Step>, clock: seq<nat>, i: nat)
    requires i < |steps| == |clock|
    ensures var m, m1 := At(proto, steps, clock, i), At(proto, steps, clock, i + 1);
            && (steps[i].TickStep? && Watching(m, steps[i].generation) ==>
                  && (TickAt(proto, steps, clock, i) == Probe <==>
                        !Asking(m) && LastHeard(proto, steps, clock, i) + 10_000 <= clock[i])
                  && m1.live.pingDue
                     == (m.live.pingDue || (!Asking(m) && LastHeard(proto, steps, clock, i) + 10_000 <= clock[i])))
            && (steps[i] == ProbeStep(m.link.generation) ==>
                  m1.live.pingDue == (m.live.pingDue || (proto == V3 && !Asking(m)
                                                         && LastHeard(proto, steps, clock, i) + 2_000 <= clock[i])))
  {
    hide Do, KeepaliveTick;
    var m := At(proto, steps, clock, i);
    QuietMeansLastHeard(proto, steps, clock, i);
    if steps[i].TickStep? && Watching(m, steps[i].generation) {
      TickProbes(m, proto, clock[i]);
    }
    WriteProbes(m, proto, clock[i]);
  }

  // ---- silence is noticed ----

  lemma DueStep(m: Machine, proto: Proto, step: Step, now: nat)
    requires m.live.pingDue && m.live.pingOutstanding.None?
    requires Do(m, proto, step, now).link.generation == m.link.generation
    ensures var m1 := Do(m, proto, step, now);
            if proto == V3 && step == WritePingStep(m.link.generation)
            then TakePing(m.live, proto, now).1.Some? && m1.live.pingOutstanding == Some(now) && !m1.live.pingDue
            else m1.live.pingDue && m1.live.pingOutstanding.None?
  {
  }

  /** A ping that is due stays due until the writer of this connection issues it. */
  lemma {:induction false} DuePingIsIssued(proto: Proto, steps: seq<Step>, clock: seq<nat>, i: nat, n: nat)
    requires i <= n <= |steps| == |clock| && proto == V3
    requires At(proto, steps, clock, i).live.pingDue
    requires At(proto, steps, clock, i).link.generation == At(proto, steps, clock, n).link.generation
    ensures At(proto, steps, clock, n).live.pingDue
            || exists j :: i <= j < n && IssuesPing(proto, steps, clock, j, At(proto, steps, clock, i).link.generation)
    decreases n
  {
    if i == n {
    } else {
      hide Do, TakePing;
      var m := At(proto, steps, clock, n - 1);
      DownIsForever(proto, steps, clock, i, n - 1);
      DownIsForever(proto, steps, clock, n - 1, n);
      DuePingIsIssued(proto, steps, clock, i, n - 1);
      QuietMeansLastHeard(proto, steps, clock, n - 1);
      if m.live.pingDue {
        DueStep(m, proto, steps[n - 1], clock[n - 1]);
        if steps[n - 1] == WritePingStep(m.link.generation) {
          assert IssuesPing(proto, steps, clock, n - 1, m.link.generation);
        }
      }
    }
  }

  /**
   * A dead link is found out: once a ping is due, a turn of the writer and a tick five seconds after it declare the
   * link dead if nothing came in meanwhile, whatever else went on.
   */
  lemma SilenceIsNoticed(proto: Proto, steps: seq<Step>, clock: seq<nat>, i: nat, w: nat, k: nat)
    requires Clocked(steps, clock) && proto == V3 && i <= w < k < |steps| && steps[k].TickStep?
    requires At(proto, steps, clock, i).live.pingDue
    requires At(proto, steps, clock, i).link.generation == steps[k].generation
    requires steps[w] == WritePingStep(steps[k].generation)
    requires Watching(At(proto, steps, clock, k), steps[k].generation) && clock[k] >= clock[w] + 5_000
    requires forall n :: i <= n < k ==> !ConsumesFrame(proto, steps, clock, n) && !WakeProbes(proto, steps, clock, n)
    ensures TickAt(proto, steps, clock, k) == Dead
  {
    hide Do, TakePing, KeepaliveTick;
    var g := steps[k].generation;
    DownIsForever(proto, steps, clock, i, w);
    DownIsForever(proto, steps, clock, w, w + 1);
    DownIsForever(proto, steps, clock, w + 1, k);
    DuePingIsIssued(proto, steps, clock, i, w);
    QuietMeansLastHeard(proto, steps, clock, w);
    if At(proto, steps, clock, w).live.pingDue {
      DueStep(At(proto, steps, clock, w), proto, steps[w], clock[w]);
      assert IssuesPing(proto, steps, clock, w, g);
    }
    var j :| i <= j <= w && IssuesPing(proto, steps, clock, j, g);
    assert Unanswered(proto, steps, clock, j, k) && clock[j] <= clock[w];
    VerdictIff(proto, steps, clock, k);
  }

  /** A wake that finds the session attached leaves a ping due and none out, whatever was asked before it. */
  lemma WakeAsksAfresh(proto: Proto, steps: seq<Step>, clock: seq<nat>, i: nat)
    requires i < |steps| == |clock| && WakeProbes(proto, steps, clock, i)
    ensures var l := At(proto, steps, clock, i + 1).live;
            l.pingDue && l.pingOutstanding.None? && l.lastInbound == Monus(clock[i], 10_000)
  {
  }

  /** The prober retires with its connection or its session, and rests while the page is away or a resume is on. */
  lemma ProberRests(proto: Proto, steps: seq<Step>, clock: seq<nat>, i: nat)
    requires i < |steps| == |clock| && steps[i].TickStep?
    ensures var m := At(proto, steps, clock, i);
            && (TickAt(proto, steps, clock, i) == Retire <==> m.link.generation != steps[i].generation || !Live(m))
            && (TickAt(proto, steps, clock, i) == Retire ==> At(proto, steps, clock, i + 1) == m)
            && (Live(m) && m.link.generation == steps[i].generation && (m.link.suspended || m.link.resuming) ==>
                  TickAt(proto, steps, clock, i) == Idle && At(proto, steps, clock, i + 1) == m)
  {
  }

  // ---- echoes ----

  /** What one step adds to the words of the PINGs heard on the current connection. */
  function HeardAfter(m: Machine, proto: Proto, step: Step, m1: Machine, heard: seq<nat>): seq<nat> {
    if m.link.generation != m1.link.generation then []
    else
      match step
      case ReadStep(g, Ping(word)) => if g == m.link.generation && proto == V3 then heard + [word] else heard
      case _ => heard
  }

  ghost function Heard(proto: Proto, steps: seq<Step>, clock: seq<nat>, n: nat): seq<nat>
    requires n <= |steps| == |clock|
  {
    if n == 0 then []
    else HeardAfter(At(proto, steps, clock, n - 1), proto, steps[n - 1], At(proto, steps, clock, n),
                    Heard(proto, steps, clock, n - 1))
  }

  /** And to the words of the PONGs the writer took there. */
  function EchoedAfter(m: Machine, step: Step, m1: Machine, echoed: seq<nat>): seq<nat> {
    if m.link.generation != m1.link.generation then []
    else
      match step
      case WritePongStep(g) =>
        (match TakePong(m.live).1
         case Some(Pong(word)) => if g == m.link.generation then echoed + [word] else echoed
         case _ => echoed)
      case _ => echoed
  }

  ghost function Echoed(proto: Proto, steps: seq<Step>, clock: seq<nat>, n: nat): seq<nat>
    requires n <= |steps| == |clock|
  {
    if n == 0 then []
    else EchoedAfter(At(proto, steps, clock, n - 1), steps[n - 1], At(proto, steps, clock, n),
                     Echoed(proto, steps, clock, n - 1))
  }

  lemma HeardPing(m: Machine, proto: Proto, g: nat, f: Frame, now: nat)
    ensures var m1 := Do(m, proto, ReadStep(g, f), now);
            && m1.link.generation == m.link.generation
            && m1.live.pongDue == if f.Ping? && g == m.link.generation && proto == V3 then m.live.pongDue + [f.word]
                                  else m.live.pongDue
  {
  }

  lemma ReportedStep(m: Machine, proto: Proto, step: Step, now: nat)
    requires step.TickStep? || step.LinkLostStep?
    ensures var m1 := Do(m, proto, step, now);
            m1.live.pongDue == m.live.pongDue && m1.link.generation == m.link.generation
  {
  }

  lemma LoopStep(m: Machine, proto: Proto, step: Step, now: nat)
    requires step.LoopTopStep? || step.LoopRetryStep? || step.LoopAbandonStep? || step.LoopAnswerStep?
    ensures var m1 := Do(m, proto, step, now);
            m1.live.pongDue == if m.link.generation == m1.link.generation then m.live.pongDue else []
  {
  }

  lemma OtherStep(m: Machine, proto: Proto, step: Step, now: nat)
    requires !step.ReadStep? && !step.WritePongStep?
    ensures var m1 := Do(m, proto, step, now);
            m1.live.pongDue == if m.link.generation == m1.link.generation then m.live.pongDue else []
  {
    if step.TickStep? || step.LinkLostStep? {
      ReportedStep(m, proto, step, now);
      hide Do;
    } else if step.LoopTopStep? || step.LoopRetryStep? || step.LoopAbandonStep? || step.LoopAnswerStep? {
      LoopStep(m, proto, step, now);
      hide Do;
    }
  }

  lemma PongStep(m: Machine, proto: Proto, step: Step, now: nat)
    ensures var m1 := Do(m, proto, step, now);
            if m.link.generation != m1.link.generation then m1.live.pongDue == []
            else match step
              case ReadStep(g, Ping(word)) =>
                m1.live.pongDue == if g == m.link.generation && proto == V3 then m.live.pongDue + [word]
                                   else m.live.pongDue
              case WritePongStep(g) =>
                (match TakePong(m.live).1
                 case Some(f) =>
                   f.Pong? && if g == m.link.generation then m.live.pongDue == [f.word] + m1.live.pongDue
                              else m1.live.pongDue == m.live.pongDue
                 case None => m.live.pongDue == m1.live.pongDue == [])
              case _ => m1.live.pongDue == m.live.pongDue
  {
    match step {
      case ReadStep(g, f) =>
        HeardPing(m, proto, g, f, now);
        hide Do;
      case WritePongStep(_) =>
      case _ =>
        OtherStep(m, proto, step, now);
        hide Do;
    }
  }

  lemma EchoStep(m: Machine, proto: Proto, step: Step, now: nat, heard: seq<nat>, echoed: seq<nat>)
    requires heard == echoed + m.live.pongDue
    ensures var m1 := Do(m, proto, step, now);
            HeardAfter(m, proto, step, m1, heard) == EchoedAfter(m, step, m1, echoed) + m1.live.pongDue
  {
    PongStep(m, proto, step, now);
    var due := Do(m, proto, step, now).live.pongDue;
    hide Do, TakePong;
    match step {
      case ReadStep(_, Ping(word)) => assert echoed + m.live.pongDue + [word] == echoed + (m.live.pongDue + [word]);
      case WritePongStep(_) =>
        if TakePong(m.live).1.Some? && TakePong(m.live).1.value.Pong? {
          var word := TakePong(m.live).1.value.word;
          assert echoed + ([word] + due) == echoed + [word] + due;
        }
      case _ =>
    }
  }

  /** Every PING heard on this connection is echoed or will be, in the order of arrival. */
  lemma {:induction false} EveryPingIsEchoed(proto: Proto, steps: seq<Step>, clock: seq<nat>, n: nat)
    requires n <= |steps| == |clock|
    ensures Heard(proto, steps, clock, n)
            == Echoed(proto, steps, clock, n) + At(proto, steps, clock, n).live.pongDue
  {
    if n == 0 {
    } else {
      AtNext(proto, steps, clock, n);
      hide At, Do, HeardAfter, EchoedAfter;
      EveryPingIsEchoed(proto, steps, clock, n - 1);
      EchoStep(At(proto, steps, clock, n - 1), proto, steps[n - 1], clock[n - 1],
               Heard(proto, steps, clock, n - 1), Echoed(proto, steps, clock, n - 1));
    }
  }

  /** How many pings went out in the first `n` steps, on any connection. */
  ghost function Issued(proto: Proto, steps: seq<Step>, clock: seq<nat>, n: nat): nat
    requires n <= |steps| == |clock|
  {
    if n == 0 then 0
    else
      Issued(proto, steps, clock, n - 1)
      + if IssuesPing(proto, steps, clock, n - 1, At(proto, steps, clock, n - 1).link.generation) then 1 else 0
  }

  lemma CounterStep(m: Machine, proto: Proto, step: Step, now: nat)
    ensures Do(m, proto, step, now).live.pingCounter
            == m.live.pingCounter + if step == WritePingStep(m.link.generation) && TakePing(m.live, proto, now).1.Some?
                                    then 1 else 0
    ensures TakePing(m.live, proto, now).1.Some? ==>
              TakePing(m.live, proto, now).1 == Some(Ping(m.live.pingCounter + 1))
  {
  }

  /** Pings are numbered through, across connections: no two carry the same word. */
  lemma {:induction false} PingsAreNumbered(proto: Proto, steps: seq<Step>, clock: seq<nat>, n: nat)
    requires n <= |steps| == |clock|
    ensures At(proto, steps, clock, n).live.pingCounter == Issued(proto, steps, clock, n)
    ensures n < |steps| && IssuesPing(proto, steps, clock, n, At(proto, steps, clock, n).link.generation) ==>
              TakePing(At(proto, steps, clock, n).live, proto, clock[n]).1
              == Some(Ping(Issued(proto, steps, clock, n) + 1))
  {
    if n < |steps| {
      CounterStep(At(proto, steps, clock, n), proto, steps[n], clock[n]);
    }
    if n > 0 {
      PingsAreNumbered(proto, steps, clock, n - 1);
      CounterStep(At(proto, steps, clock, n - 1), proto, steps[n - 1], clock[n - 1]);
      hide Do, TakePing;
    }
  }
}
