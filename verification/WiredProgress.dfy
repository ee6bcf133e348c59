/**
 What the authenticator does get done, over all runs: a silent station falls back to MAB and, accepted, gets
 through; verdicts reach the records; and the port's flags are those of the configuration.
 */
module WiredProgress {
  import opened WiredKernel
  import opened WiredSpec
  import opened WiredSafety

  // -------------------------------------------------------------------------
  // Flags of the port
  // -------------------------------------------------------------------------

  datatype Flags = Flags(up: bool, locked: bool, mab: bool)

  /** The flags once these requests are carried out. */
  function Settled(f: Flags, todo: seq<Call>): Flags
    decreases |todo|
  {
    if todo == [] then f
    else
      Settled(match todo[0]
              case SetLocked(locked, mab) => f.(locked := locked, mab := mab)
              case SetUp(up) => f.(up := up)
              case _ => f, todo[1..])
  }

  function FlagsOf(k: Kernel): Flags {
    Flags(k.up, k.locked, k.mab)
  }

  function Wanted(phase: Phase, cfg: Config, locked: bool): Flags {
    Flags(phase == Running, locked, locked && cfg.macAuth == EnableKernelMab)
  }

  ghost predicate FlagsOk(s: State) {
    && Settled(FlagsOf(s.kernel), s.todo) == Wanted(s.phase, s.cfg, s.host.locked)
    && (SetUp(true) in s.todo ==> s.past.granted == map[])
    && (s.phase == Stopped ==> !s.host.locked)
    && (s.phase == Stopped ==> (
          || s.todo == [] || s.todo == [Flush] || s.todo == [LockCall(s.cfg, false), Flush]
          || s.todo == [SetUp(false), LockCall(s.cfg, false), Flush]))
  }

  /** Lists of requests with one that locks or unlocks. */
  lemma SettledBy(f: Flags, c: Call, m: Mac)
    requires c.SetLocked?
    ensures Settled(f, [AddNeigh(m)]) == f && Settled(f, [DelNeigh(m)]) == f && Settled(f, [Flush]) == f
    ensures Settled(f, [c]) == Settled(f, [c, Flush]) == Settled(f, [AddNeigh(m), c]) ==
            f.(locked := c.locked, mab := c.mab)
  {
    assert [c][1..] == [] && [c, Flush][1..] == [Flush] && [Flush][1..] == [] && [AddNeigh(m), c][1..] == [c];
    assert Settled(f.(locked := c.locked, mab := c.mab), [Flush]) == f.(locked := c.locked, mab := c.mab);
  }

  lemma SettledAtEnds(f: Flags, c: Call)
    requires c.SetLocked?
    ensures Settled(f, [c, Flush, SetUp(true)]) == Flags(true, c.locked, c.mab)
    ensures Settled(f, [SetUp(false), c, Flush]) == Flags(false, c.locked, c.mab)
  {
    SettledBy(f.(up := false), c, 0);
    assert [c, Flush, SetUp(true)][1..] == [Flush, SetUp(true)] && [Flush, SetUp(true)][1..] == [SetUp(true)];
    assert [SetUp(false), c, Flush][1..] == [c, Flush];
    var g := f.(locked := c.locked, mab := c.mab);
    assert Settled(g, [SetUp(true)]) == Settled(g.(up := true), []);
    assert Settled(g, [Flush, SetUp(true)]) == Settled(g, [SetUp(true)]);
  }

  lemma VerdictFlagsOk(s: State, e: Input, m: Mac, ok: bool)
    requires FlagsOk(s) && s.todo == [] && s.phase == Running && Possible(s.host, e)
    requires e == Pae(m, ok) || (e == Reply(m, ok) && m in s.host.stas && s.host.stas[m].mab)
    ensures FlagsOk(Handled(s, e))
  {
    SettledBy(FlagsOf(s.kernel), LockCall(s.cfg, !ok), m);
  }

  lemma HandledFlagsOk(s: State, e: Input)
    requires FlagsOk(s) && s.todo == [] && s.phase == Running && Possible(s.host, e)
    ensures FlagsOk(Handled(s, e))
  {
    match e
    case Reply(m, ok) => if m in s.host.stas && s.host.stas[m].mab { VerdictFlagsOk(s, e, m, ok); }
    case Pae(m, ok) => VerdictFlagsOk(s, e, m, ok);
    case NewLink(_) => SettledBy(FlagsOf(s.kernel), LockCall(s.cfg, true), 0);
    case _ =>
  }

  lemma EndsFlagsOk(s: State, step: Step)
    requires Enabled(s, step) && (step.Begin? || step.End?)
    requires s.phase == Fresh ==> Initial(s)
    ensures FlagsOk(Next(s, step))
  {
    SettledAtEnds(FlagsOf(s.kernel), LockCall(s.cfg, step.Begin?));
  }

  lemma StepFlagsOk(s: State, step: Step)
    requires Enabled(s, step) && (s.phase == Fresh ==> Initial(s)) && (s.phase != Fresh ==> FlagsOk(s))
    ensures var t := Next(s, step); t.phase != Fresh ==> FlagsOk(t)
  {
    match step
    case Handle(e) => HandledFlagsOk(s, e);
    case Deliver(m) =>
      var s' := s.(kernel := Take(s.kernel, m));
      HandledFlagsOk(s', NoticeInput(s.kernel, m));
    case Begin => EndsFlagsOk(s, step);
    case End => EndsFlagsOk(s, step);
    case _ =>
  }

  lemma {:induction false} RunFlagsOk(states: seq<State>, steps: seq<Step>)
    requires Run(states, steps)
    ensures Last(states).phase != Fresh ==> FlagsOk(Last(states))
  {
    if steps == [] {
      assert Initial(states[0]);
    } else {
      hide FlagsOk, Next, Enabled, Initial;
      var n := |steps| - 1;
      RunPrefix(states, steps);
      RunFlagsOk(states[..n + 1], steps[..n]);
      RunInv(states[..n + 1], steps[..n]);
      InvFresh(states[n]);
      StepFlagsOk(states[n], steps[n]);
    }
  }

  lemma InvFresh(s: State)
    requires Inv(s)
    ensures s.phase == Fresh ==> Initial(s)
  {}

  /**
   Whenever the authenticator is idle, the port is up, and it is a MAB port exactly if it is locked and kernel MAB is
   configured.
   */
  lemma IdleFlags(states: seq<State>, steps: seq<Step>)
    requires Run(states, steps) && Last(states).phase == Running && Last(states).todo == []
    ensures var k := Last(states).kernel;
            k.up && (k.mab <==> k.locked && Last(states).cfg.macAuth == EnableKernelMab)
  {
    RunFlagsOk(states, steps);
  }

  /** Initialisation brings the port up only when it is locked and nothing opens it. */
  lemma BroughtUpLocked(states: seq<State>, steps: seq<Step>)
    requires Run(states, steps) && Last(states).phase == Running && Last(states).todo != []
    requires Last(states).todo[0] == SetUp(true)
    ensures Last(states).kernel.locked && NoneOpened(Last(states).kernel)
  {
    RunFlagsOk(states, steps);
    RunInv(states, steps);
    AdmittedWithGrants(states, steps);
  }

  lemma AdmittedWithGrants(states: seq<State>, steps: seq<Step>)
    requires Run(states, steps)
    ensures !Last(states).cfg.multiAuth ==> (Last(states).past.admitted <==> Last(states).past.granted != map[])
  {
    if !Last(states).cfg.multiAuth {
      AdmittedIff(states, steps);
    }
  }

  /** Shutdown ends with a port that is down, unlocked and without MAB, and with no entry left. */
  lemma ShutDown(states: seq<State>, steps: seq<Step>)
    requires Run(states, steps) && steps != [] && steps[|steps| - 1] == Carry
    requires Last(states).phase == Stopped && Last(states).todo == []
    ensures var k := Last(states).kernel; !k.up && !k.locked && !k.mab && k.fdb == map[]
  {
    RunFlagsOk(states, steps);
    var n := |steps| - 1;
    RunPrefix(states, steps);
    RunFlagsOk(states[..n + 1], steps[..n]);
    assert states[n].todo == [Flush];
  }

  /** Initialisation starts with no station, and takes the link for down. */
  lemma Begins(s: State)
    requires Enabled(s, Begin)
    ensures Next(s, Begin).host == Host(true, false, map[], {})
  {}

  // -------------------------------------------------------------------------
  // New stations
  // -------------------------------------------------------------------------

  /** How a station makes itself known: by DHCP, by a frame that the kernel reports as locked, or by EAPOL. */
  predicate Shows(e: Input, m: Mac) {
    e == NewStation(m) || e == NewNeigh(m, true) || e == Eapol(m)
  }

  /** An unknown station gets a record, and a timer exactly if MAB is configured and it did not send EAPOL. */
  lemma NewRecord(s: State, e: Input, m: Mac)
    requires Shows(e, m) && m !in s.host.stas && m !in s.host.timers
    ensures var t := Handled(s, e);
            && m in t.host.stas && t.host.stas[m] == Sta(e.Eapol?, false, false) && t.todo == []
            && (m in t.host.timers <==> s.cfg.macAuth != DisableMab && !e.Eapol?)
            && (forall x :: x != m ==> (x in t.host.stas <==> x in s.host.stas))
  {}

  /** A known station's record is not made anew, and unlocked entries are nothing new. */
  lemma NoNewRecord(s: State, e: Input, m: Mac)
    requires (Shows(e, m) && !e.Eapol? && m in s.host.stas) || e == NewNeigh(m, false)
    ensures Handled(s, e) == s.(todo := [])
  {}

  /** In kernel MAB a locked port reports every address that it does not know. */
  lemma UnknownReported(states: seq<State>, steps: seq<Step>, m: Mac)
    requires Run(states, steps) && Last(states).phase == Running && Last(states).todo == []
    requires Last(states).cfg.macAuth == EnableKernelMab && Last(states).kernel.locked && m !in Last(states).kernel.fdb
    ensures Next(Last(states), Arrive(m)).kernel.queue == Last(states).kernel.queue + [Learned(m, true)]
  {
    IdleFlags(states, steps);
  }

  /** A station that is told to have left is forgotten, and its timer with it. */
  lemma GoneForgotten(s: State, m: Mac)
    ensures var t := Handled(s, GoneNeigh(m)); m !in t.host.stas && (m in s.host.stas ==> m !in t.host.timers)
  {}

  // -------------------------------------------------------------------------
  // Verdicts
  // -------------------------------------------------------------------------

  /** The record of a station says what the last verdict on it was. */
  lemma VerdictRecorded(s: State, e: Input, m: Mac, ok: bool)
    requires Possible(s.host, e)
    requires e == Pae(m, ok) || (e == Reply(m, ok) && m in s.host.stas && s.host.stas[m].mab)
    ensures var t := Handled(s, e);
            && m in t.host.stas && t.host.stas[m] == s.host.stas[m].(authorized := ok)
            && t.host.stas.Keys == s.host.stas.Keys && t.host.timers == s.host.timers
  {}

  /** Replies about stations that are not in MAB change nothing here. */
  lemma OtherReplies(s: State, m: Mac, accept: bool)
    requires !(m in s.host.stas && s.host.stas[m].mab)
    ensures Handled(s, Reply(m, accept)) == s.(todo := [])
  {}

  /** Without kernel MAB, whole-port mode leaves the database to the kernel's learning. */
  lemma WholePortNamesNobody(s: State, e: Input)
    requires !s.cfg.multiAuth && s.cfg.macAuth != EnableKernelMab && Possible(s.host, e)
    ensures forall c <- Handled(s, e).todo :: !c.AddNeigh? && !c.DelNeigh?
  {}

  // -------------------------------------------------------------------------
  // The fallback
  // -------------------------------------------------------------------------

  /** A step of the authenticator that is about this station. */
  predicate About(step: Step, m: Mac) {
    match step
    case Handle(NewLink(_)) => false
    case Handle(e) => e.mac == m
    case Deliver(x) => x == m
    case _ => false
  }

  lemma OthersKeep(cfg: Config, h: Host, e: Input, m: Mac)
    requires Possible(h, e) && m in h.stas
    requires e.NewNeigh? || e.NewLink? || e.mac != m
    ensures var r := Respond(cfg, h, e).host;
            m in r.stas && r.stas[m] == h.stas[m] && (m in h.timers ==> m in r.timers)
  {}

  lemma RecordKept(s: State, step: Step, m: Mac)
    requires Enabled(s, step) && s.phase != Fresh && !About(step, m)
    requires m in s.host.stas
    ensures m in Next(s, step).host.stas && Next(s, step).host.stas[m] == s.host.stas[m]
    ensures m in s.host.timers ==> m in Next(s, step).host.timers
    ensures Next(s, step).phase != Fresh
  {
    hide Respond, Remember, Take, Exec;
    match step
    case Handle(e) => OthersKeep(s.cfg, s.host, e, m);
    case Deliver(x) => OthersKeep(s.cfg, s.host, NoticeInput(s.kernel, x), m);
    case _ =>
  }

  /** From step i to step j nothing is about this station. */
  ghost predicate Silent(steps: seq<Step>, i: nat, j: nat, m: Mac) {
    i <= j <= |steps| && forall k :: i <= k < j ==> !About(steps[k], m)
  }

  lemma {:induction false} RecordStays(states: seq<State>, steps: seq<Step>, i: nat, j: nat, m: Mac)
    requires Run(states, steps) && Silent(steps, i, j, m)
    requires states[i].phase != Fresh && m in states[i].host.stas
    ensures states[j].phase != Fresh && m in states[j].host.stas && states[j].host.stas[m] == states[i].host.stas[m]
    ensures m in states[i].host.timers ==> m in states[j].host.timers
    decreases j
  {
    if i < j {
      RecordStays(states, steps, i, j - 1, m);
      RecordKept(states[j - 1], steps[j - 1], m);
    }
  }

  /** A station that is silent from its first sign on can fall back to MAB, if MAB is configured. */
  lemma SilentFallsBack(states: seq<State>, steps: seq<Step>, i: nat, j: nat, m: Mac)
    requires Run(states, steps) && i < j <= |steps| && Silent(steps, i + 1, j, m)
    requires steps[i] == Handle(NewStation(m)) && m !in states[i].host.stas
    requires states[i].cfg.macAuth != DisableMab
    requires states[j].phase == Running && states[j].todo == []
    ensures Enabled(states[j], Handle(Timeout(m)))
  {
    hide About, Respond;
    RunPrefixes(states, steps, i);
    RunInv(states[..i + 1], steps[..i]);
    TimersKnown(states[i]);
    NewRecord(states[i], NewStation(m), m);
    RecordStays(states, steps, i + 1, j, m);
  }

  lemma TimersKnown(s: State)
    requires Inv(s)
    ensures forall m <- s.host.timers :: m in s.host.stas
  {}

  lemma {:induction false} RunPrefixes(states: seq<State>, steps: seq<Step>, n: nat)
    requires Run(states, steps) && n <= |steps|
    ensures Run(states[..n + 1], steps[..n])
  {}

  /**
   A station falls back to MAB when its timer expires. If the server then accepts it, with nothing about this station
   in between, it is admitted and its record says so.
   */
  lemma FallbackAdmits(states: seq<State>, steps: seq<Step>, i: nat, j: nat, m: Mac)
    requires Run(states, steps) && i < j < |steps| && Silent(steps, i + 1, j, m)
    requires steps[i] == Handle(Timeout(m)) && steps[j] == Handle(Reply(m, true))
    ensures Admits(states[j], steps[j], m)
    ensures m in states[j + 1].host.stas && states[j + 1].host.stas[m].authorized && states[j + 1].host.stas[m].mab
    ensures states[j + 1].cfg.multiAuth ==> states[j + 1].todo == [AddNeigh(m)]
  {
    hide About, Respond, Remember;
    MabBegins(states[i], m);
    RecordStays(states, steps, i + 1, j, m);
    VerdictRecorded(states[j], Reply(m, true), m, true);
    AcceptRequests(states[j], m);
  }

  lemma MabBegins(s: State, m: Mac)
    requires Enabled(s, Handle(Timeout(m)))
    ensures var t := Next(s, Handle(Timeout(m)));
            && m in t.host.stas && t.host.stas[m] == s.host.stas[m].(mab := true)
            && m !in t.host.timers && t.phase == Running
  {}

  lemma AcceptRequests(s: State, m: Mac)
    requires m in s.host.stas && s.host.stas[m].mab
    ensures s.cfg.multiAuth ==> Handled(s, Reply(m, true)).todo == [AddNeigh(m)]
    ensures Verdict(s.host, Reply(m, true)) == 1
  {}

  // -------------------------------------------------------------------------
  // From admission to passage
  // -------------------------------------------------------------------------

  /** Until its entry ages, an admitted address has a fresh entry, or is about to. */
  lemma EntryComes(s: State, step: Step, m: Mac)
    requires Enabled(s, step) && step != Expire(m) && s.phase == Running
    requires AddNeigh(m) in s.todo || m !in s.past.aged
    ensures AddNeigh(m) in Next(s, step).todo || m !in Next(s, step).past.aged
  {
    hide Respond, Take, Exec;
    if step.Carry? {
      assert s.todo == [s.todo[0]] + s.todo[1..];
    }
  }

  lemma {:induction false} EntryStays(states: seq<State>, steps: seq<Step>, j: nat, n: nat, m: Mac)
    requires Run(states, steps) && j <= n <= |steps|
    requires forall k :: j <= k < n ==> steps[k] != Expire(m) && states[k].phase == Running
    requires AddNeigh(m) in states[j].todo || m !in states[j].past.aged
    ensures AddNeigh(m) in states[n].todo || m !in states[n].past.aged
    decreases n
  {
    hide Next, Enabled;
    if j < n {
      EntryStays(states, steps, j, n - 1, m);
      EntryComes(states[n - 1], steps[n - 1], m);
    }
  }

  lemma {:induction false} StillRunning(states: seq<State>, steps: seq<Step>, n: nat)
    requires Run(states, steps) && n <= |steps| && Last(states).phase == Running
    requires states[n].phase != Fresh
    ensures forall k :: n <= k <= |steps| ==> states[k].phase == Running
    decreases |steps| - n
  {
    if n < |steps| {
      PhaseMoves(states[n], steps[n]);
      StillRunning(states, steps, n + 1);
      PhaseMoves(states[n], steps[n]);
    }
  }

  lemma PhaseMoves(s: State, step: Step)
    requires Enabled(s, step) && s.phase != Fresh
    ensures Next(s, step).phase != Fresh && (Next(s, step).phase == Running ==> s.phase == Running)
  {
    hide Respond, Take;
  }

  /**
   A station that stays silent falls back to MAB; accepted by the server it gets through as soon as the authenticator
   is idle, and for as long as it is not de-authorized, the link does not go down and its entry does not age.
   */
  lemma FallbackPasses(states: seq<State>, steps: seq<Step>, i: nat, j: nat, m: Mac)
    requires Run(states, steps) && i < j < |steps| && Silent(steps, i + 1, j, m)
    requires steps[i] == Handle(Timeout(m)) && steps[j] == Handle(Reply(m, true))
    requires forall k :: j < k < |steps| ==> steps[k] != Expire(m) && !Revokes(states[k], steps[k], m)
    requires Last(states).phase == Running && Last(states).todo == []
    ensures Admitted(states, steps, m)
    ensures Last(states).kernel.Passes(m)
  {
    hide Revokes, Admits, Respond, Next;
    FallbackAdmits(states, steps, i, j, m);
    assert Admitted(states, steps, m);
    if Last(states).cfg.multiAuth {
      MultiAdmission(states, steps);
      SameConfig(states, steps, j + 1);
      assert states[j].phase == Running;
      StillRunning(states, steps, j);
      EntryStays(states, steps, j + 1, |steps|, m);
    } else {
      SingleAdmission(states, steps);
    }
  }

  lemma SameConfig(states: seq<State>, steps: seq<Step>, n: nat)
    requires Run(states, steps) && n <= |steps|
    ensures states[n].cfg == Last(states).cfg
  {
    RunPrefixes(states, steps, n);
    GrantedIff(states, steps, 0);
    GrantedIff(states[..n + 1], steps[..n], 0);
  }
}
