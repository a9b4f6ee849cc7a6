/** Stretches of a run in which one task works off what it has. */
module TunnelPumps {
  import opened Bytes
  import opened TunnelCodec
  import opened TunnelSystem
  import opened TunnelInvariant
  import ClientSession

  /** `steps` one after the other. */
  function After(s: System, steps: seq<Step>, grace: nat): System
    decreases |steps|
  {
    if steps == [] then s else After(Do(s, steps[0], grace), steps[1..], grace)
  }

  /** Ordinary progress: no attach, no end, no park, no cut, and no octets read along with a reply. */
  predicate Plain(step: Step) {
    match step
    case SshdRead(_) => true
    case TakeJob => true
    case JobWritten(_) => true
    case ReadAnswer(held) => held == 0
    case HandOver => true
    case ClientWrite(_) => true
    case ClientRead => true
    case ListenerRead(_) => true
    case _ => false
  }

  /** A run of ordinary progress under the two hypotheses that are not about attaching. */
  ghost predicate Ordinary(s: System, steps: seq<Step>, grace: nat)
    decreases |steps|
  {
    steps == []
    || (&& Plain(steps[0]) && Clean(s, steps[0]) && Narrow(s, steps[0])
        && Ordinary(Do(s, steps[0], grace), steps[1..], grace))
  }

  lemma {:induction false} AfterAppend(s: System, a: seq<Step>, b: seq<Step>, grace: nat)
    ensures After(s, a + b, grace) == After(After(s, a, grace), b, grace)
    ensures Ordinary(s, a, grace) && Ordinary(After(s, a, grace), b, grace) ==> Ordinary(s, a + b, grace)
    decreases |a|
  {
    hide Do, Plain, Clean, Narrow;
    if a == [] {
      assert a + b == b;
    } else {
      assert (a + b)[1..] == a[1..] + b;
      AfterAppend(Do(s, a[0], grace), a[1..], b, grace);
    }
  }

  lemma AfterCons(s: System, step: Step, rest: seq<Step>, grace: nat)
    ensures After(s, [step] + rest, grace) == After(Do(s, step, grace), rest, grace)
    ensures Plain(step) && Clean(s, step) && Narrow(s, step) && Ordinary(Do(s, step, grace), rest, grace) ==>
              Ordinary(s, [step] + rest, grace)
  {
    hide Do, Plain, Clean, Narrow;
    assert ([step] + rest)[1..] == rest;
  }

  /** A run, attaches included, under the hypotheses on attaching and handing over. */
  ghost predicate Lawful(s: System, steps: seq<Step>, grace: nat)
    decreases |steps|
  {
    steps == [] || (Quiet(s, steps[0]) && Clean(s, steps[0]) && Lawful(Do(s, steps[0], grace), steps[1..], grace))
  }

  lemma {:induction false} LawfulAppend(s: System, a: seq<Step>, b: seq<Step>, grace: nat)
    requires Lawful(s, a, grace) && Lawful(After(s, a, grace), b, grace)
    ensures Lawful(s, a + b, grace)
    decreases |a|
  {
    hide Do, Quiet, Clean;
    if a == [] {
      assert a + b == b;
    } else {
      assert (a + b)[1..] == a[1..] + b;
      LawfulAppend(Do(s, a[0], grace), a[1..], b, grace);
    }
  }

  lemma {:induction false} OrdinaryIsLawful(s: System, steps: seq<Step>, grace: nat)
    requires Ordinary(s, steps, grace)
    ensures Lawful(s, steps, grace)
    decreases |steps|
  {
    hide Do, Clean, Narrow;
    if steps == [] {
    } else {
      OrdinaryIsLawful(Do(s, steps[0], grace), steps[1..], grace);
    }
  }

  lemma {:induction false} LawfulAt(s: System, steps: seq<Step>, i: nat, grace: nat)
    requires Lawful(s, steps, grace) && i < |steps|
    ensures Quiet(After(s, steps[..i], grace), steps[i]) && Clean(After(s, steps[..i], grace), steps[i])
    decreases |steps|
  {
    hide Do, Quiet, Clean;
    if i == 0 {
      assert steps[..0] == [];
    } else {
      assert steps[..i][1..] == steps[1..][..i - 1];
      LawfulAt(Do(s, steps[0], grace), steps[1..], i - 1, grace);
    }
  }

  lemma {:induction false} AtIsAfter(steps: seq<Step>, n: nat, grace: nat)
    requires n <= |steps|
    ensures At(steps, n, grace) == After(INITIAL, steps[..n], grace)
  {
    hide Do;
    if n == 0 {
      assert steps[..0] == [];
    } else {
      AtIsAfter(steps, n - 1, grace);
      assert steps[..n] == steps[..n - 1] + [steps[n - 1]];
      AfterAppend(INITIAL, steps[..n - 1], [steps[n - 1]], grace);
      AfterOne(At(steps, n - 1, grace), steps[n - 1], grace);
    }
  }

  lemma AfterOne(s: System, step: Step, grace: nat)
    ensures After(s, [step], grace) == Do(s, step, grace)
  {
    hide Do;
    AfterCons(s, step, [], grace);
    assert [step] + [] == [step];
  }

  // ---- the client's writer ----

  function Flushed(s: System, k: nat): System
    requires k in s.conns
  {
    s.(conns := s.conns[k := s.conns[k].(pending := [], up := s.conns[k].up + s.conns[k].pending)])
  }

  lemma FlushOne(s: System, k: nat)
    requires k in s.conns && s.conns[k].upOpen && s.conns[k].pending != []
    ensures var t := DoClientWrite(s, k);
            k in t.conns && t.conns[k].upOpen && t.conns[k].pending == s.conns[k].pending[1..]
            && Flushed(t, k) == Flushed(s, k)
  {
    var c := s.conns[k];
    assert c.up + [c.pending[0]] + c.pending[1..] == c.up + c.pending;
  }

  lemma {:induction false} FlushPending(s: System, k: nat, grace: nat) returns (steps: seq<Step>)
    requires k in s.conns && s.conns[k].upOpen
    ensures Ordinary(s, steps, grace)
    ensures After(s, steps, grace) == Flushed(s, k)
    decreases |s.conns[k].pending|
  {
    if s.conns[k].pending == [] {
      steps := [];
      assert s.conns[k].up + s.conns[k].pending == s.conns[k].up;
    } else {
      var t := DoClientWrite(s, k);
      assert t == Do(s, ClientWrite(k), grace);
      FlushOne(s, k);
      hide Do, DoClientWrite, Flushed;
      var rest := FlushPending(t, k, grace);
      steps := [ClientWrite(k)] + rest;
      AfterCons(s, ClientWrite(k), rest, grace);
    }
  }

  // ---- the listener's reader ----

  ghost predicate AllData(fs: seq<Frame>) {
    forall i :: 0 <= i < |fs| ==> fs[i].Data?
  }

  ghost predicate ReadsAll(s: System, k: nat) {
    k in s.conns && s.conns[k].attachedAs == Some(s.listener.generation) && AllData(s.conns[k].up)
  }

  lemma DrainOne(s: System, k: nat, grace: nat)
    requires ReadsAll(s, k) && s.conns[k].up != []
    ensures var t := DoListenerRead(s, k, grace);
            && ReadsAll(t, k) && t.conns[k].up == s.conns[k].up[1..]
            && t.pushed == s.pushed + Payload([s.conns[k].up[0]])
            && t.sentByClient == s.sentByClient
  {
    hide Payload;
  }

  lemma {:induction false} DrainUp(s: System, k: nat, grace: nat) returns (steps: seq<Step>)
    requires ReadsAll(s, k)
    ensures Ordinary(s, steps, grace)
    ensures var t := After(s, steps, grace);
            t.pushed == s.pushed + Payload(s.conns[k].up) && t.sentByClient == s.sentByClient
    decreases |s.conns[k].up|
  {
    if s.conns[k].up == [] {
      steps := [];
      assert s.pushed + [] == s.pushed;
    } else {
      var t := DoListenerRead(s, k, grace);
      assert t == Do(s, ListenerRead(k), grace);
      DrainOne(s, k, grace);
      HeadPayload(s.conns[k].up);
      hide Do, DoListenerRead, Payload, ReadsAll;
      var rest := DrainUp(t, k, grace);
      steps := [ListenerRead(k)] + rest;
      AfterCons(s, ListenerRead(k), rest, grace);
    }
  }

  // ---- the listener's writer ----

  ghost predicate Writes(s: System, k: nat) {
    s.job.None? && s.listener.attached && s.listener.send == Some(k) && k in s.conns && s.conns[k].downOpen
  }

  function Delivered(s: System, k: nat): System
    requires k in s.conns
  {
    s.(listener := s.listener.(outq := []),
       conns := s.conns[k := s.conns[k].(down := s.conns[k].down + s.listener.outq)])
  }

  lemma SendOne(s: System, k: nat, grace: nat)
    requires Writes(s, k) && s.listener.outq != []
    ensures var t := DoJobWritten(DoTakeJob(s), true, grace);
            Writes(t, k) && t.listener.outq == s.listener.outq[1..] && Delivered(t, k) == Delivered(s, k)
  {
    var c, outq := s.conns[k], s.listener.outq;
    assert c.down + [outq[0]] + outq[1..] == c.down + outq;
  }

  lemma {:induction false} FlushOutq(s: System, k: nat, grace: nat) returns (steps: seq<Step>)
    requires Writes(s, k)
    ensures Ordinary(s, steps, grace)
    ensures After(s, steps, grace) == Delivered(s, k)
    decreases |s.listener.outq|
  {
    if s.listener.outq == [] {
      steps := [];
      assert s.conns[k].down + s.listener.outq == s.conns[k].down;
    } else {
      var t := DoJobWritten(DoTakeJob(s), true, grace);
      assert t == Do(Do(s, TakeJob, grace), JobWritten(true), grace);
      SendOne(s, k, grace);
      hide Do, DoJobWritten, DoTakeJob, Delivered, Writes;
      var rest := FlushOutq(t, k, grace);
      steps := [TakeJob] + ([JobWritten(true)] + rest);
      AfterCons(s, TakeJob, [JobWritten(true)] + rest, grace);
      AfterCons(Do(s, TakeJob, grace), JobWritten(true), rest, grace);
    }
  }

  // ---- the client's reader ----

  ghost predicate Hears(s: System, k: nat) {
    s.current == Some(k) && k in s.conns && !s.conns[k].closedByClient && s.conns[k].reader == Steady
    && AllData(s.conns[k].down)
  }

  function Heard(s: System, k: nat): System
    requires k in s.conns
  {
    var p := Payload(s.conns[k].down);
    s.(client := ClientSession.Feed(s.client, p),
       conns := s.conns[k := s.conns[k].(down := [], downAt := s.conns[k].downAt + |p|)])
  }

  lemma HearOne(s: System, k: nat)
    requires Hears(s, k) && s.conns[k].down != []
    ensures var t := DoClientRead(s);
            Hears(t, k) && t.conns[k].down == s.conns[k].down[1..] && Heard(t, k) == Heard(s, k)
  {
    var c := s.conns[k];
    HeadPayload(c.down);
    PayloadOfOne(c.down[0]);
    hide Payload;
    assert s.client.fed + Payload([c.down[0]]) + Payload(c.down[1..]) == s.client.fed + Payload(c.down);
  }

  lemma {:induction false} DrainDown(s: System, k: nat, grace: nat) returns (steps: seq<Step>)
    requires Hears(s, k)
    ensures Ordinary(s, steps, grace)
    ensures After(s, steps, grace) == Heard(s, k)
    decreases |s.conns[k].down|
  {
    if s.conns[k].down == [] {
      steps := [];
      assert s.client.fed + [] == s.client.fed;
    } else {
      var t := DoClientRead(s);
      assert t == Do(s, ClientRead, grace);
      HearOne(s, k);
      hide Do, DoClientRead, Hears, Heard;
      var rest := DrainDown(t, k, grace);
      steps := [ClientRead] + rest;
      AfterCons(s, ClientRead, rest, grace);
    }
  }
}
