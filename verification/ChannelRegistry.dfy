/**
 * The engine's registry of bulk channels and its one way to the terminal state
 * (ssh-core/core/channel.go, ssh-core/core/session.go).
 */
module ChannelRegistry {
  import opened Bytes
  import opened BulkChannel

  datatype Session = Connecting | Ready | Ended

  /** `closeWith` after its own critical section: about to empty the registry, closing what it took, or done. */
  datatype Closer = NotClosing | Emptying | Marking(left: set<nat>) | Finished

  /** `phases` has every channel ever opened; `forgetting` the `forgetChannel` calls still to come. */
  datatype Engine = Engine(
    session: Session,
    connected: bool,
    registered: set<nat>,
    phases: map<nat, Phase>,
    forgetting: set<nat>,
    closer: Closer)

  const NEW: Engine := Engine(Connecting, false, {}, map[], {}, NotClosing)

  datatype Step =
    | SetState(session: Session)
    | Connect
    | OpenChannel(id: nat)
    | CloseWith
    | EmptyRegistry
    | MarkOne(id: nat)
    | AllMarked
    | MarkChannel(id: nat)
    | RemoteEof(id: nat)
    | Forget(id: nat)

  function MarkIn(e: Engine, id: nat): Engine
    requires id in e.phases
  {
    if e.phases[id] == Closed then e
    else e.(phases := e.phases[id := Closed], forgetting := e.forgetting + {id})
  }

  /** `openChannel`: the check and the registration are one critical section. */
  function Open(e: Engine, id: nat): (Engine, bool) {
    if e.session != Ready || !e.connected || id in e.phases then (e, false)
    else (e.(registered := e.registered + {id}, phases := e.phases[id := Phase.Open]), true)
  }

  function Do(e: Engine, step: Step): Engine {
    match step
    case SetState(s) => if e.session == Ended || s == Ended then e else e.(session := s)
    case Connect => e.(connected := true)
    case OpenChannel(id) => Open(e, id).0
    case CloseWith => if e.session == Ended then e else e.(session := Ended, closer := Emptying)
    case EmptyRegistry =>
      if e.closer != Emptying then e else e.(closer := Marking(e.registered), registered := {})
    case MarkOne(id) =>
      if !e.closer.Marking? || id !in e.closer.left || id !in e.phases then e
      else MarkIn(e, id).(closer := Marking(e.closer.left - {id}))
    case AllMarked => if e.closer == Marking({}) then e.(closer := Finished) else e
    case MarkChannel(id) => if id in e.phases then MarkIn(e, id) else e
    case RemoteEof(id) =>
      if id in e.phases && e.phases[id] == Phase.Open then e.(phases := e.phases[id := Eof]) else e
    case Forget(id) =>
      if id !in e.forgetting then e
      else e.(registered := e.registered - {id}, forgetting := e.forgetting - {id})
  }

  function At(steps: seq<Step>, n: nat): Engine
    requires n <= |steps|
  {
    if n == 0 then NEW else Do(At(steps, n - 1), steps[n - 1])
  }

  /** Every channel that is not closed can still be reached by whoever has to close it. */
  ghost predicate Reachable(e: Engine) {
    && (e.session == Ended <==> e.closer != NotClosing)
    && e.registered <= e.phases.Keys && e.forgetting <= e.phases.Keys
    && (e.closer.Marking? ==> e.closer.left <= e.phases.Keys)
    && (e.closer.Marking? || e.closer.Finished? ==> e.registered == {})
    && (forall id :: id in e.forgetting ==> e.phases[id] == Closed)
    && (forall id :: id in e.phases && e.phases[id] != Closed ==>
          id in e.registered || (e.closer.Marking? && id in e.closer.left))
  }

  lemma StepReachable(e: Engine, step: Step)
    requires Reachable(e)
    ensures Reachable(Do(e, step))
  {
  }

  lemma {:induction false} RunReachable(steps: seq<Step>, n: nat)
    requires n <= |steps|
    ensures Reachable(At(steps, n))
  {
    if n == 0 {
    } else {
      RunReachable(steps, n - 1);
      StepReachable(At(steps, n - 1), steps[n - 1]);
    }
  }

  /** A later state: the end of the session is final, and phases only advance. */
  ghost predicate Onward(e: Engine, d: Engine) {
    && (e.session == Ended ==> d.session == Ended && d.phases.Keys == e.phases.Keys && d.registered <= e.registered)
    && (e.closer.Finished? ==> d.closer.Finished?)
    && (forall id :: id in e.phases ==> id in d.phases && Rank(e.phases[id]) <= Rank(d.phases[id]))
  }

  lemma StepOnward(e: Engine, step: Step)
    requires Reachable(e)
    ensures Onward(e, Do(e, step))
  {
  }

  lemma {:induction false} RunOnward(steps: seq<Step>, i: nat, j: nat)
    requires i <= j <= |steps|
    ensures Onward(At(steps, i), At(steps, j))
  {
    if i == j {
    } else {
      hide Do;
      RunOnward(steps, i, j - 1);
      RunReachable(steps, j - 1);
      StepOnward(At(steps, j - 1), steps[j - 1]);
    }
  }

  /**
   * In every interleaving: from the moment the session is closed no channel is registered or opened, a closed
   * channel stays closed, and once `closeAllChannels` has finished every channel ever opened is closed, for good.
   */
  lemma NoChannelOutlivesItsSession(steps: seq<Step>, i: nat, j: nat)
    requires i <= j <= |steps| && At(steps, i).session == Ended
    ensures var e, d := At(steps, i), At(steps, j);
            && d.phases.Keys == e.phases.Keys && d.registered <= e.registered
            && (forall id :: id in e.phases && e.phases[id] == Closed ==> d.phases[id] == Closed)
            && (e.closer.Finished? ==> d.registered == {} && forall id :: id in d.phases ==> d.phases[id] == Closed)
  {
    RunOnward(steps, i, j);
    RunReachable(steps, j);
  }

  /** Even before that, what is still open is exactly within reach: registered, or about to be marked. */
  lemma OpenChannelsAreReachable(steps: seq<Step>, n: nat, id: nat)
    requires n <= |steps| && id in At(steps, n).phases && At(steps, n).phases[id] != Closed
    ensures var e := At(steps, n);
            id in e.registered || (e.closer.Marking? && id in e.closer.left)
  {
    RunReachable(steps, n);
  }

  /** A channel comes into being exactly on a ready, connected session, under a new name, registered and open. */
  lemma OpensIffReady(steps: seq<Step>, i: nat)
    requires i < |steps|
    ensures var e, d := At(steps, i), At(steps, i + 1);
            match steps[i]
            case OpenChannel(id) =>
              if e.session == Ready && e.connected && id !in e.phases
              then d == e.(registered := e.registered + {id}, phases := e.phases[id := Phase.Open])
              else d == e
            case _ => d.phases.Keys == e.phases.Keys && d.registered <= e.registered
  {
  }

  /** The session is as it was last told, until it is closed. */
  lemma SessionFollows(steps: seq<Step>, i: nat)
    requires i < |steps|
    ensures var e, d := At(steps, i), At(steps, i + 1);
            && d.session == (if e.session == Ended || steps[i].CloseWith? then Ended
                             else if steps[i].SetState? && steps[i].session != Ended then steps[i].session
                             else e.session)
            && d.connected == (e.connected || steps[i].Connect?)
            && (steps[i].CloseWith? && e.session != Ended ==> d.closer == Emptying)
  {
  }

  /** What a step does to one channel: closed where it is marked, `eof` where an open one's far end is done. */
  lemma PhaseFollows(steps: seq<Step>, i: nat, id: nat)
    requires i < |steps| && id in At(steps, i).phases
    ensures var e, d := At(steps, i), At(steps, i + 1);
            && id in d.phases
            && d.phases[id] == (if Marks(e, steps[i], id) then Closed
                                else if steps[i] == RemoteEof(id) && e.phases[id] == Phase.Open then Eof
                                else e.phases[id])
            && (id in d.forgetting <==>
                  (Marks(e, steps[i], id) && e.phases[id] != Closed)
                  || (id in e.forgetting && steps[i] != Forget(id)))
            && (steps[i] == Forget(id) && id in e.forgetting ==> id !in d.registered)
  {
  }

  ghost predicate Marks(e: Engine, step: Step, id: nat) {
    step == MarkChannel(id) || (step == MarkOne(id) && e.closer.Marking? && id in e.closer.left)
  }

  lemma TidyStep(e: Engine, step: Step)
    requires Reachable(e)
    requires forall id :: id in e.registered && e.phases[id] == Closed ==> id in e.forgetting
    ensures var d := Do(e, step);
            d.registered <= d.phases.Keys
            && forall id :: id in d.registered && d.phases[id] == Closed ==> id in d.forgetting
  {
  }

  /** Closed channels do not pile up: one that is still registered is about to be forgotten. */
  lemma {:induction false} RegistryIsTidy(steps: seq<Step>, n: nat)
    requires n <= |steps|
    ensures var e := At(steps, n);
            e.registered <= e.phases.Keys
            && forall id :: id in e.registered && e.phases[id] == Closed ==> id in e.forgetting
  {
    if n == 0 {
    } else {
      hide Do;
      RegistryIsTidy(steps, n - 1);
      RunReachable(steps, n - 1);
      TidyStep(At(steps, n - 1), steps[n - 1]);
    }
  }

  function StepsLeft(e: Engine): nat {
    match e.closer
    case Emptying => |e.registered| + 2
    case Marking(left) => |left| + 1
    case _ => 0
  }

  function Drive(e: Engine, steps: seq<Step>): Engine
    decreases |steps|
  {
    if steps == [] then e else Drive(Do(e, steps[0]), steps[1..])
  }

  /** A close that has begun can always be carried through, and then every channel is closed. */
  lemma {:induction false} CloseCanFinish(e: Engine) returns (steps: seq<Step>)
    requires Reachable(e) && e.closer != NotClosing
    ensures var d := Drive(e, steps);
            d.closer.Finished? && d.registered == {} && forall id :: id in d.phases ==> d.phases[id] == Closed
    decreases StepsLeft(e)
  {
    hide Drive;
    steps := [];
    DriveEnds(e, EmptyRegistry, []);
    if !e.closer.Finished? {
      var step := EmptyRegistry;
      if e.closer.Marking? {
        var left := e.closer.left;
        if left == {} {
          step := AllMarked;
        } else {
          var id :| id in left;
          step := MarkOne(id);
          assert Do(e, step).closer == Marking(left - {id}) && |left - {id}| < |left|;
        }
      }
      StepReachable(e, step);
      var more := CloseCanFinish(Do(e, step));
      steps := [step] + more;
      DriveEnds(e, step, more);
    }
  }

  lemma DriveEnds(e: Engine, step: Step, more: seq<Step>)
    ensures Drive(e, []) == e && Drive(e, [step] + more) == Drive(Do(e, step), more)
  {
    assert ([step] + more)[1..] == more;
  }

  // ---- the mutable engine ----

  class Sessions {
    var session: Session
    var closeMsg: string
    var wireReason: string
    var channels: set<Channel>

    constructor ()
      ensures session == Connecting && channels == {} && closeMsg == "" && wireReason == ""
    {
      session, closeMsg, wireReason, channels := Connecting, "", "", {};
    }

    method OpenChannel(connected: bool) returns (c: Option<Channel>)
      modifies this`channels
      ensures c.Some? <==> session == Ready && connected
      ensures c.Some? ==> fresh(c.value) && c.value.View() == BORN && channels == old(channels) + {c.value}
      ensures c.None? ==> channels == old(channels)
    {
      if session != Ready || !connected {
        return None;
      }
      var born := new Channel();
      channels := channels + {born};
      return Some(born);
    }

    method ForgetChannel(c: Channel)
      modifies this`channels
      ensures channels == old(channels) - {c}
    {
      channels := channels - {c};
    }

    /** The snapshot empties the registry first; every channel in it ends closed and no other is touched. */
    method CloseAllChannels(reason: string)
      modifies this`channels, channels
      ensures channels == {}
      ensures forall c :: c in old(channels) ==> c.phase == Closed && c.View() == MarkClosed(old(c.View()))
      ensures forall c :: c in old(channels) && old(c.phase) != Closed ==> c.closeMsg == Reason(reason, c.stderrTail)
    {
      var live := channels;
      channels := {};
      var left := live;
      while left != {}
        invariant left <= live && channels == {}
        invariant forall c :: c in live - left ==> c.View() == MarkClosed(old(c.View()))
        invariant forall c :: c in live - left && old(c.phase) != Closed ==> c.closeMsg == Reason(reason, c.stderrTail)
        invariant forall c :: c in left ==> c.View() == old(c.View())
        modifies live
        decreases |left|
      {
        var c :| c in left;
        left := left - {c};
        c.CloseFor(reason);
      }
    }

    /** The first close wins; a recorded wire failure names the cause. */
    method CloseWith(msg: string)
      modifies this, channels
      ensures session == Ended
      ensures old(session) == Ended ==> closeMsg == old(closeMsg) && channels == old(channels)
      ensures old(session) != Ended ==>
                closeMsg == (if old(wireReason) != "" then old(wireReason) else msg) && channels == {}
      ensures forall c :: c in old(channels) ==>
                c.View() == if old(session) == Ended then old(c.View()) else MarkClosed(old(c.View()))
    {
      if session == Ended {
        return;
      }
      session := Ended;
      closeMsg := if wireReason != "" then wireReason else msg;
      CloseAllChannels("session closed: " + closeMsg);
    }
  }
}
