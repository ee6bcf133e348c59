/**
 A station in kernel MAB is announced by a locked entry. Unlocking the port drops the locked entries, and a
 dropped entry frees its station; so the entry is replaced by an unlocked one first.
 */
module WiredSurvival {
  import opened WiredKernel
  import opened WiredSpec
  import opened WiredSafety

  /** Nothing that de-authorizes, re-locks the port or ages the entry of this station. */
  predicate Quiet(s: State, step: Step, m: Mac) {
    match step
    case Handle(e) => Verdict(s.host, e) >= 0 && !(e.NewLink? && s.host.running && !e.running)
    case Expire(x) => x != m
    case End => false
    case _ => true
  }

  ghost predicate QuietRun(s: State, steps: seq<Step>, s': State, m: Mac)
    decreases |steps|
  {
    if steps == [] then s' == s
    else exists mid :: QuietBy(s, steps, mid, m) && s' == Next(mid, steps[|steps| - 1])
  }

  ghost predicate QuietBy(s: State, steps: seq<Step>, mid: State, m: Mac)
    requires steps != []
    decreases |steps|, 0
  {
    var last := steps[|steps| - 1];
    QuietRun(s, steps[..|steps| - 1], mid, m) && Enabled(mid, last) && Quiet(mid, last, m)
  }

  ghost predicate NotGone(k: Kernel, m: Mac) {
    forall i :: 0 <= i < |k.queue| && k.queue[i].Gone? ==> m !in k.queue[i].macs
  }

  ghost predicate StaysAuthorized(s: State, m: Mac) {
    m in s.host.stas && s.host.stas[m].authorized
  }

  /** The entry is unlocked or about to be, and no request that is left removes it. */
  ghost predicate Safe(s: State, m: Mac) {
    && s.phase == Running && StaysAuthorized(s, m) && NotGone(s.kernel, m)
    && (forall c <- s.todo :: c.AddNeigh? || c == LockCall(s.cfg, false))
    && (s.kernel.Opened(m) || (s.todo != [] && s.todo[0] == AddNeigh(m)))
  }

  lemma ExecSafe(s: State, m: Mac)
    requires Safe(s, m) && s.todo != []
    ensures Safe(Next(s, Carry), m)
  {}

  lemma KernelSafe(s: State, step: Step, m: Mac)
    requires Safe(s, m) && (step.Arrive? || (step.Expire? && step.mac != m))
    ensures Safe(Next(s, step), m)
  {}

  lemma HandleSafe(s: State, e: Input, m: Mac)
    requires Safe(s, m) && s.todo == [] && Possible(s.host, e)
    requires Verdict(s.host, e) >= 0 && !(e.NewLink? && s.host.running && !e.running) && e != GoneNeigh(m)
    ensures Safe(Handled(s, e), m)
  {}

  lemma DeliverSafe(s: State, x: Mac, m: Mac)
    requires Safe(s, m) && Enabled(s, Deliver(x))
    ensures Safe(Next(s, Deliver(x)), m)
  {
    var s' := s.(kernel := Take(s.kernel, x));
    assert Safe(s', m) by {
      forall i | 0 <= i < |s'.kernel.queue| && s'.kernel.queue[i].Gone? ensures m !in s'.kernel.queue[i].macs {
        if s'.kernel.queue == s.kernel.queue[1..] {
          assert s'.kernel.queue[i] == s.kernel.queue[i + 1];
        }
      }
    }
    if Next(s, Deliver(x)) != s' {
      HandleSafe(s', NoticeInput(s.kernel, x), m);
    }
  }

  lemma StepSafe(s: State, step: Step, m: Mac)
    requires Safe(s, m) && Enabled(s, step) && Quiet(s, step, m)
    ensures Safe(Next(s, step), m)
  {
    match step
    case Carry => ExecSafe(s, m);
    case Handle(e) => HandleSafe(s, e, m);
    case Deliver(x) => DeliverSafe(s, x, m);
    case _ => KernelSafe(s, step, m);
  }

  lemma {:induction false} RunSafe(s: State, steps: seq<Step>, s': State, m: Mac)
    requires Safe(s, m) && QuietRun(s, steps, s', m)
    ensures Safe(s', m)
    decreases |steps|
  {
    hide Safe, Next;
    if steps != [] {
      var mid :| QuietBy(s, steps, mid, m) && s' == Next(mid, steps[|steps| - 1]);
      RunSafe(s, steps[..|steps| - 1], mid, m);
      StepSafe(mid, steps[|steps| - 1], m);
    }
  }

  /**
   A station that is authorized in kernel MAB stays in the table and authorized, through the unlocking of the port
   and the delivery of every notice, until it is de-authorized, the port is locked again, or its entry ages.
   */
  lemma AuthorizedSurvives(s: State, e: Input, m: Mac, steps: seq<Step>, s': State)
    requires s.phase == Running && s.cfg.macAuth == EnableKernelMab
    requires Enabled(s, Handle(e)) && Verdict(s.host, e) == 1 && e.mac == m
    requires NotGone(s.kernel, m)
    requires QuietRun(Next(s, Handle(e)), steps, s', m)
    ensures StaysAuthorized(s', m)
    ensures s'.todo == [] ==> s'.kernel.Passes(m)
  {
    assert Safe(Next(s, Handle(e)), m);
    RunSafe(Next(s, Handle(e)), steps, s', m);
  }

  /** Unlocking alone, without replacing the entry, loses the station as soon as the notice arrives. */
  lemma UnlockAloneLoses(s: State, m: Mac)
    requires s.phase == Running && s.cfg.macAuth == EnableKernelMab && s.todo == [LockCall(s.cfg, false)]
    requires s.kernel.mab && s.kernel.queue == [] && StaysAuthorized(s, m)
    requires m in s.kernel.fdb && s.kernel.fdb[m]
    ensures var s1 := Next(s, Carry);
            Enabled(s1, Deliver(m)) && m !in Next(s1, Deliver(m)).host.stas && !Next(s1, Deliver(m)).kernel.locked
  {
    assert m in LockedOnes(s.kernel.fdb);
  }
}
