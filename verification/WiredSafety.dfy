/**
 All runs of the authenticator with the kernel: its requests are carried out one by one, and between any two
 of them frames arrive and entries age. Who gets through the port is exactly who was admitted.
 */
module WiredSafety {
  import opened WiredKernel
  import opened WiredSpec

  // -------------------------------------------------------------------------
  // The machine
  // -------------------------------------------------------------------------

  datatype Phase = Fresh | Running | Stopped

  /** How an address came to be authorized, and whether its station had sent EAPOL by then. */
  datatype Grant = Grant(byMab: bool, eapol: bool)

  /**
   The past, as an outside observer records it: who was authorized with no de-authorization or link-down since,
   whose database entry has aged since then, whether the last verdict or link event was an authorization, and
   which stations have sent EAPOL since their record was made.
   */
  datatype Past = Past(granted: map<Mac, Grant>, aged: set<Mac>, admitted: bool, eapol: set<Mac>)

  /** The requests in `todo` were issued and not yet carried out; the authenticator waits for them. */
  datatype State = State(cfg: Config, phase: Phase, host: Host, kernel: Kernel, todo: seq<Call>, past: Past)

  datatype Step =
    | Begin
    | Carry
    | Handle(input: Input)
    | Deliver(mac: Mac)
    | Arrive(mac: Mac)
    | Expire(mac: Mac)
    | End

  /** The calls that put an address into the database make its ageing start anew. */
  function Noted(past: Past, c: Call): Past {
    if c.AddNeigh? then past.(aged := past.aged - {c.mac}) else past
  }

  /** The verdict of an event, if it has one. */
  function Verdict(h: Host, e: Input): int {
    match e
    case Reply(m, accept) => if m in h.stas && h.stas[m].mab then (if accept then 1 else -1) else 0
    case Pae(_, ok) => if ok then 1 else -1
    case _ => 0
  }

  function Remember(past: Past, h: Host, e: Input, multi: bool): Past {
    match e
    case NewLink(up) =>
      if h.running && !up then past.(granted := map[], admitted := false) else past
    case Eapol(m) => past.(eapol := past.eapol + {m})
    case GoneNeigh(m) => past.(eapol := past.eapol - {m})
    case Reply(m, _) => Judged(past, h, e, m, true, multi)
    case Pae(m, _) => Judged(past, h, e, m, false, multi)
    case _ => past
  }

  function Judged(past: Past, h: Host, e: Input, m: Mac, byMab: bool, multi: bool): Past {
    if Verdict(h, e) == 1 then
      past.(granted := past.granted[m := Grant(byMab, m in past.eapol)], admitted := true)
    else if Verdict(h, e) == -1 then
      past.(granted := if multi then past.granted - {m} else map[], admitted := false)
    else past
  }

  function Handled(s: State, e: Input): State
    requires Possible(s.host, e)
  {
    var r := Respond(s.cfg, s.host, e);
    s.(host := r.host, todo := r.calls, past := Remember(s.past, s.host, e, s.cfg.multiAuth))
  }

  /** The notice at the head of the queue, one address at a time. */
  function Take(k: Kernel, m: Mac): Kernel
    requires k.queue != []
  {
    match k.queue[0]
    case Learned(_, _) => k.(queue := k.queue[1..])
    case Gone(macs) =>
      if macs <= {m} then k.(queue := k.queue[1..]) else k.(queue := [Gone(macs - {m})] + k.queue[1..])
  }

  /** Notices reach the authenticator only in kernel MAB. */
  function NoticeInput(k: Kernel, m: Mac): Input
    requires k.queue != []
  {
    match k.queue[0]
    case Learned(x, locked) => NewNeigh(x, locked)
    case Gone(_) => GoneNeigh(m)
  }

  predicate Enabled(s: State, step: Step) {
    match step
    case Begin => s.phase == Fresh
    case Carry => s.todo != []
    case Handle(e) => s.phase == Running && s.todo == [] && Possible(s.host, e) && !e.NewNeigh? && !e.GoneNeigh?
    case Deliver(m) => s.phase == Running && s.todo == [] && s.kernel.queue != [] &&
                       (s.kernel.queue[0].Gone? && s.kernel.queue[0].macs != {} ==> m in s.kernel.queue[0].macs)
    case Arrive(_) => true
    case Expire(_) => true
    case End => s.phase == Running && s.todo == []
  }

  function Next(s: State, step: Step): State
    requires Enabled(s, step)
  {
    match step
    case Begin =>
      var r := Start(s.cfg);
      s.(phase := Running, host := r.host, todo := r.calls)
    case Carry => s.(kernel := Exec(s.kernel, s.todo[0]), todo := s.todo[1..], past := Noted(s.past, s.todo[0]))
    case Handle(e) => Handled(s, e)
    case Deliver(m) =>
      var s' := s.(kernel := Take(s.kernel, m));
      if s.cfg.macAuth == EnableKernelMab && !(s.kernel.queue[0].Gone? && s.kernel.queue[0].macs == {})
      then Handled(s', NoticeInput(s.kernel, m)) else s'
    case Arrive(m) => s.(kernel := Learn(s.kernel, m))
    case Expire(m) =>
      s.(kernel := Age(s.kernel, m),
         past := if m in s.kernel.fdb && s.phase == Running then s.past.(aged := s.past.aged + {m}) else s.past)
    case End =>
      var r := Stop(s.cfg, s.host);
      s.(phase := Stopped, host := r.host, todo := r.calls)
  }

  predicate Initial(s: State) {
    s.phase == Fresh && s.host == BLANK_HOST && s.todo == [] && s.past == Past(map[], {}, false, {})
  }

  /** A run: the states before and after each step. */
  ghost predicate Run(states: seq<State>, steps: seq<Step>) {
    && |states| == |steps| + 1
    && Initial(states[0])
    && forall i :: 0 <= i < |steps| ==> Enabled(states[i], steps[i]) && states[i + 1] == Next(states[i], steps[i])
  }

  function Last(states: seq<State>): State
    requires states != []
  {
    states[|states| - 1]
  }

  lemma RunPrefix(states: seq<State>, steps: seq<Step>)
    requires Run(states, steps) && steps != []
    ensures Run(states[..|states| - 1], steps[..|steps| - 1])
  {}

  // -------------------------------------------------------------------------
  // Who was admitted
  // -------------------------------------------------------------------------

  predicate Admits(s: State, step: Step, m: Mac) {
    step.Handle? && Verdict(s.host, step.input) == 1 && step.input.mac == m
  }

  /** A de-authorization, which concerns everybody unless addresses are admitted one by one, or a link-down. */
  predicate Revokes(s: State, step: Step, m: Mac) {
    step.Handle? &&
    ((step.input == NewLink(false) && s.host.running) ||
     (Verdict(s.host, step.input) == -1 && (s.cfg.multiAuth ==> step.input.mac == m)))
  }

  /** This address was authorized, and not de-authorized since. */
  ghost predicate Admitted(states: seq<State>, steps: seq<Step>, m: Mac)
    requires |states| == |steps| + 1
  {
    exists i :: 0 <= i < |steps| && Admits(states[i], steps[i], m) &&
                forall j :: i < j < |steps| ==> !Revokes(states[j], steps[j], m)
  }

  lemma AdmittedOne(states: seq<State>, steps: seq<Step>, m: Mac)
    requires |states| == |steps| + 1 && steps != []
    ensures var n := |steps| - 1;
            Admitted(states, steps, m) <==>
            Admits(states[n], steps[n], m) ||
            (Admitted(states[..n + 1], steps[..n], m) && !Revokes(states[n], steps[n], m))
  {
    var n := |steps| - 1;
    if Admitted(states, steps, m) && !Admits(states[n], steps[n], m) {
      var i :| 0 <= i < |steps| && Admits(states[i], steps[i], m) &&
               forall j :: i < j < |steps| ==> !Revokes(states[j], steps[j], m);
      assert Admits(states[..n + 1][i], steps[..n][i], m);
      assert i < n;
    }
    if Admitted(states[..n + 1], steps[..n], m) && !Revokes(states[n], steps[n], m) {
      var i :| 0 <= i < n && Admits(states[..n + 1][i], steps[..n][i], m) &&
               forall j :: i < j < n ==> !Revokes(states[..n + 1][j], steps[..n][j], m);
      forall j | i < j < |steps| ensures !Revokes(states[j], steps[j], m) {
        if j < n { assert !Revokes(states[..n + 1][j], steps[..n][j], m); }
      }
      assert Admits(states[i], steps[i], m);
    }
  }

  lemma GrantedOne(s: State, step: Step, m: Mac)
    requires Enabled(s, step)
    ensures var t := Next(s, step);
            && t.cfg == s.cfg
            && (m in t.past.granted <==> Admits(s, step, m) || (m in s.past.granted && !Revokes(s, step, m)))
  {
    hide Respond, Take;
  }

  /** The record of grants says what the run did. */
  lemma {:induction false} GrantedIff(states: seq<State>, steps: seq<Step>, m: Mac)
    requires Run(states, steps)
    ensures m in Last(states).past.granted <==> Admitted(states, steps, m)
    ensures Last(states).cfg == states[0].cfg
  {
    hide Admits, Revokes, Admitted, Next, Enabled;
    if steps == [] {
      assert !Admitted(states, steps, m) by { NotAdmitted(states, steps, m); }
    } else {
      var n := |steps| - 1;
      RunPrefix(states, steps);
      GrantedIff(states[..n + 1], steps[..n], m);
      GrantedOne(states[n], steps[n], m);
      AdmittedOne(states, steps, m);
    }
  }

  lemma NotAdmitted(states: seq<State>, steps: seq<Step>, m: Mac)
    requires |states| == 1 && steps == []
    ensures !Admitted(states, steps, m)
  {}

  // -------------------------------------------------------------------------
  // Stations
  // -------------------------------------------------------------------------

  /**
   A timer runs only for a known station that has sent no EAPOL and has not fallen back to MAB; no station does
   both; and who was let in by MAB had not sent EAPOL.
   */
  ghost predicate StationsOk(cfg: Config, h: Host, past: Past) {
    && (cfg.macAuth == DisableMab ==> h.timers == {})
    && (forall m <- h.timers :: m in h.stas && !h.stas[m].pae && !h.stas[m].mab)
    && (forall m <- h.stas :: !(h.stas[m].pae && h.stas[m].mab))
    && (forall m <- h.stas :: h.stas[m].pae <==> m in past.eapol)
    && (forall m <- past.eapol :: m in h.stas)
    && (forall m <- past.granted :: past.granted[m].byMab <==> !past.granted[m].eapol)
  }

  lemma AddedStationsOk(cfg: Config, h: Host, past: Past, m: Mac)
    requires StationsOk(cfg, h, past)
    ensures StationsOk(cfg, AddStation(cfg, h, m), past) && m in AddStation(cfg, h, m).stas
  {}

  lemma EapolStationsOk(cfg: Config, h: Host, past: Past, m: Mac)
    requires StationsOk(cfg, h, past) && m in h.stas
    ensures StationsOk(cfg, ReceiveEapol(cfg, h, m), past.(eapol := past.eapol + {m}))
  {}

  lemma JudgedStationsOk(cfg: Config, h: Host, past: Past, e: Input, m: Mac, ok: bool)
    requires StationsOk(cfg, h, past) && Possible(h, e)
    requires e == Pae(m, ok) || (e == Reply(m, ok) && m in h.stas && h.stas[m].mab)
    ensures StationsOk(cfg, SetAuthorized(cfg, h, m, ok).host, Judged(past, h, e, m, e.Reply?, cfg.multiAuth))
  {}

  lemma HandledStationsOk(s: State, e: Input)
    requires StationsOk(s.cfg, s.host, s.past) && Possible(s.host, e)
    ensures var t := Handled(s, e); StationsOk(t.cfg, t.host, t.past)
  {
    hide SetAuthorized, AddStation, ReceiveEapol, Judged;
    match e
    case Reply(m, ok) =>
      if m in s.host.stas && s.host.stas[m].mab {
        JudgedStationsOk(s.cfg, s.host, s.past, e, m, ok);
      } else {
        assert Judged(s.past, s.host, e, m, true, s.cfg.multiAuth) == s.past by { Unjudged(s, e, m); }
      }
    case Pae(m, ok) => JudgedStationsOk(s.cfg, s.host, s.past, e, m, ok);
    case Eapol(m) =>
      AddedStationsOk(s.cfg, s.host, s.past, m);
      EapolStationsOk(s.cfg, AddStation(s.cfg, s.host, m), s.past, m);
    case NewStation(m) => AddedStationsOk(s.cfg, s.host, s.past, m);
    case NewNeigh(m, _) => AddedStationsOk(s.cfg, s.host, s.past, m);
    case _ =>
  }

  lemma Unjudged(s: State, e: Input, m: Mac)
    requires e.Reply? && !(e.mac in s.host.stas && s.host.stas[e.mac].mab)
    ensures Judged(s.past, s.host, e, m, true, s.cfg.multiAuth) == s.past
  {}

  lemma StepStationsOk(s: State, step: Step)
    requires StationsOk(s.cfg, s.host, s.past) && Enabled(s, step) && (s.phase == Fresh ==> Initial(s))
    ensures var t := Next(s, step); StationsOk(t.cfg, t.host, t.past)
  {
    hide Respond, Remember, Take;
    match step
    case Handle(e) => HandledStationsOk(s, e);
    case Deliver(m) =>
      var s' := s.(kernel := Take(s.kernel, m));
      HandledStationsOk(s', NoticeInput(s.kernel, m));
    case _ =>
  }

  // -------------------------------------------------------------------------
  // The port
  // -------------------------------------------------------------------------

  /** What may be left to carry out while the port is in service. */
  ghost predicate TodoOk(cfg: Config, todo: seq<Call>) {
    var lock := LockCall(cfg, true);
    var unlock := LockCall(cfg, false);
    || todo == [] || todo == [Flush] || (!cfg.multiAuth && todo == [lock, Flush])
    || todo == [SetUp(true)] || todo == [Flush, SetUp(true)] || todo == [lock, Flush, SetUp(true)]
    || (|todo| == 1 && (todo[0].AddNeigh? || (todo[0].DelNeigh? && cfg.multiAuth)))
    || (!cfg.multiAuth && todo == [unlock])
    || (!cfg.multiAuth && |todo| == 2 && todo[0].AddNeigh? && todo[1] == unlock)
  }

  /** The port's lock once everything issued is carried out. */
  function Destined(locked: bool, todo: seq<Call>): bool
    decreases |todo|
  {
    if todo == [] then locked
    else Destined(if todo[0].SetLocked? then todo[0].locked else locked, todo[1..])
  }

  ghost predicate Standing(past: Past, m: Mac) {
    m in past.granted && m !in past.aged
  }

  /** Per-address admission: the lock holds from the first request on, and the unlocked entries are the grants. */
  ghost predicate MultiOk(s: State) {
    && (s.kernel.locked || (s.todo != [] && s.todo[0] == LockCall(s.cfg, true)))
    && (forall m: Mac :: s.kernel.Opened(m) ==> Standing(s.past, m) || Flush in s.todo || DelNeigh(m) in s.todo)
    && (forall m: Mac :: Standing(s.past, m) ==> s.kernel.Opened(m) || AddNeigh(m) in s.todo)
    && (forall m: Mac :: AddNeigh(m) in s.todo ==> m in s.past.granted)
    && (forall m: Mac :: DelNeigh(m) in s.todo ==> m !in s.past.granted)
    && (Flush in s.todo ==> s.past.granted == map[])
  }

  ghost predicate NoneOpened(k: Kernel) {
    forall m: Mac :: !k.Opened(m)
  }

  /** Whole-port admission: the lock is down only for a verdict that still stands; a locked port has no openings. */
  ghost predicate SingleOk(s: State) {
    && s.host.locked == !s.past.admitted
    && Destined(s.kernel.locked, s.todo) == s.host.locked
    && (s.host.locked ==> (s.kernel.locked && NoneOpened(s.kernel)) ||
                          (Flush in s.todo && (s.kernel.locked || s.todo[0] == LockCall(s.cfg, true))))
    && (forall m: Mac :: AddNeigh(m) in s.todo ==> s.past.admitted)
  }

  ghost predicate PortOk(s: State) {
    && TodoOk(s.cfg, s.todo)
    && (if s.cfg.multiAuth then MultiOk(s) else SingleOk(s))
  }

  lemma BeginPortOk(s: State)
    requires Initial(s)
    ensures PortOk(Next(s, Begin))
  {}

  lemma LearnOpens(k: Kernel, m: Mac)
    ensures Learn(k, m).locked == k.locked
    ensures forall x: Mac :: Learn(k, m).Opened(x) <==> k.Opened(x) || (x == m && m !in k.fdb && !k.locked)
    ensures k.locked && NoneOpened(k) ==> NoneOpened(Learn(k, m))
  {}

  lemma AgeOpens(k: Kernel, m: Mac)
    ensures Age(k, m).locked == k.locked
    ensures forall x: Mac :: Age(k, m).Opened(x) <==> k.Opened(x) && x != m
    ensures NoneOpened(k) ==> NoneOpened(Age(k, m))
  {}

  lemma ArrivePortOk(s: State, m: Mac)
    requires PortOk(s)
    ensures PortOk(Next(s, Arrive(m)))
  {
    hide Learn, NoneOpened;
    LearnOpens(s.kernel, m);
  }

  lemma ExpirePortOk(s: State, m: Mac)
    requires PortOk(s) && s.phase == Running
    ensures PortOk(Next(s, Expire(m)))
  {
    hide Age, NoneOpened;
    AgeOpens(s.kernel, m);
  }

  lemma CarryPortOk(s: State)
    requires PortOk(s) && Enabled(s, Carry)
    ensures PortOk(Next(s, Carry))
  {
    if s.todo[0].SetUp? {
      assert forall m: Mac :: Next(s, Carry).kernel.Opened(m) <==> s.kernel.Opened(m);
    }
  }

  lemma JudgedPortOk(s: State, e: Input, m: Mac, ok: bool)
    requires PortOk(s) && s.todo == [] && Possible(s.host, e)
    requires e == Pae(m, ok) || (e == Reply(m, ok) && m in s.host.stas && s.host.stas[m].mab)
    ensures PortOk(Handled(s, e))
  {
    var h := s.host.(stas := s.host.stas[m := s.host.stas[m].(authorized := ok)]);
    assert Handled(s, e).host.locked ==
           (if ok then Authorize(s.cfg, h, m) else Deauthorize(s.cfg, h, m)).host.locked;
    if !s.cfg.multiAuth {
      DestinedUnchanged(s.kernel.locked, m);
      DestinedChanged(s.kernel.locked, m, LockCall(s.cfg, !ok));
    }
  }

  lemma DestinedUnchanged(locked: bool, m: Mac)
    ensures Destined(locked, []) == locked && Destined(locked, [AddNeigh(m)]) == locked
  {}

  lemma DestinedChanged(locked: bool, m: Mac, c: Call)
    requires c.SetLocked?
    ensures Destined(locked, [c]) == c.locked
    ensures Destined(locked, [c, Flush]) == c.locked
    ensures Destined(locked, [AddNeigh(m), c]) == c.locked
  {
    assert [c, Flush][1..] == [Flush] && [Flush][1..] == [];
    assert [AddNeigh(m), c][1..] == [c] && [c][1..] == [];
    assert Destined(c.locked, [Flush]) == Destined(c.locked, []);
  }

  lemma HandlePortOk(s: State, e: Input)
    requires PortOk(s) && s.todo == [] && Possible(s.host, e)
    ensures PortOk(Handled(s, e))
  {
    match e
    case Reply(m, ok) =>
      if m in s.host.stas && s.host.stas[m].mab {
        JudgedPortOk(s, e, m, ok);
      } else {
        assert Handled(s, e) == s;
      }
    case Pae(m, ok) => JudgedPortOk(s, e, m, ok);
    case NewLink(up) => LinkPortOk(s, up);
    case _ => UnjudgedPortOk(s, e);
  }

  lemma LinkPortOk(s: State, up: bool)
    requires PortOk(s) && s.todo == []
    ensures PortOk(Handled(s, NewLink(up)))
  {
    DestinedChanged(s.kernel.locked, 0, LockCall(s.cfg, true));
  }

  lemma UnjudgedPortOk(s: State, e: Input)
    requires PortOk(s) && s.todo == [] && Possible(s.host, e)
    requires !e.Reply? && !e.Pae? && !e.NewLink?
    ensures PortOk(Handled(s, e))
  {}

  // -------------------------------------------------------------------------
  // Main results
  // -------------------------------------------------------------------------

  ghost predicate Inv(s: State) {
    && StationsOk(s.cfg, s.host, s.past)
    && (s.phase == Fresh ==> Initial(s))
    && (s.phase == Running ==> PortOk(s))
    && (s.cfg.multiAuth && Unlocking(s) ==> StoppingOk(s))
  }

  /** Shutdown has begun, and the request that unlocks the port is still to come. */
  predicate Unlocking(s: State) {
    s.phase == Stopped && LockCall(s.cfg, false) in s.todo
  }

  ghost predicate StoppingOk(s: State) {
    var unlock := LockCall(s.cfg, false);
    && (s.todo == [SetUp(false), unlock, Flush] || s.todo == [unlock, Flush])
    && s.kernel.locked
    && forall m: Mac :: s.kernel.Opened(m) ==> m in s.past.granted
  }

  lemma EndStoppingOk(s: State)
    requires PortOk(s) && s.cfg.multiAuth && Enabled(s, End)
    ensures StoppingOk(Next(s, End))
  {}

  lemma StepStoppingOk(s: State, step: Step)
    requires StoppingOk(s) && s.phase == Stopped && Enabled(s, step) && Unlocking(Next(s, step))
    ensures StoppingOk(Next(s, step))
  {
    match step
    case Carry =>
    case Arrive(m) => LearnOpens(s.kernel, m);
    case Expire(m) => AgeOpens(s.kernel, m);
    case _ =>
  }

  lemma DeliverPortOk(s: State, m: Mac)
    requires PortOk(s) && Enabled(s, Deliver(m))
    ensures PortOk(Next(s, Deliver(m)))
  {
    var s' := s.(kernel := Take(s.kernel, m));
    assert PortOk(s') by { SameTable(s, s'); }
    if Next(s, Deliver(m)) != s' {
      HandlePortOk(s', NoticeInput(s.kernel, m));
    }
  }

  lemma SameTable(s: State, s': State)
    requires PortOk(s) && s' == s.(kernel := s'.kernel)
    requires s'.kernel.fdb == s.kernel.fdb && s'.kernel.locked == s.kernel.locked
    ensures PortOk(s')
  {
    assert forall m: Mac :: s'.kernel.Opened(m) <==> s.kernel.Opened(m);
  }

  lemma StepStopping(s: State, step: Step)
    requires Inv(s) && Enabled(s, step) && s.cfg.multiAuth && Unlocking(Next(s, step))
    ensures StoppingOk(Next(s, step))
  {
    hide StationsOk, PortOk, StoppingOk, Respond, Remember, Exec, Learn, Age;
    if step.End? {
      EndStoppingOk(s);
    } else {
      assert Unlocking(s) by {
        if step.Carry? { assert s.todo == [s.todo[0]] + s.todo[1..]; }
      }
      StepStoppingOk(s, step);
    }
  }

  lemma StepInv(s: State, step: Step)
    requires Inv(s) && Enabled(s, step)
    ensures Inv(Next(s, step))
  {
    hide StationsOk, PortOk, StoppingOk, Respond, Remember, Exec, Learn, Age;
    StepStationsOk(s, step);
    if s.cfg.multiAuth && Unlocking(Next(s, step)) {
      StepStopping(s, step);
    }
    if s.phase == Running {
      match step
      case Carry => CarryPortOk(s);
      case Handle(e) => HandlePortOk(s, e);
      case Deliver(m) => DeliverPortOk(s, m);
      case Arrive(m) => ArrivePortOk(s, m);
      case Expire(m) => ExpirePortOk(s, m);
      case _ =>
    } else if step.Begin? {
      BeginPortOk(s);
    }
  }

  lemma {:induction false} RunInv(states: seq<State>, steps: seq<Step>)
    requires Run(states, steps)
    ensures Inv(Last(states))
  {
    hide Inv, Next, Enabled, Initial;
    if steps == [] {
      InitialInv(states[0]);
    } else {
      RunPrefix(states, steps);
      RunInv(states[..|steps|], steps[..|steps| - 1]);
      StepInv(states[|steps| - 1], steps[|steps| - 1]);
    }
  }

  lemma InitialInv(s: State)
    requires Initial(s)
    ensures Inv(s)
  {}

  /**
   Per-address mode, over all runs: the port is locked from the first request of initialisation until shutdown
   unlocks it; an entry that opens it was admitted, unless the request that removes it is under way; and whenever
   the authenticator is idle, the addresses that get through are exactly the admitted ones whose entry has not aged.
   */
  lemma MultiAdmission(states: seq<State>, steps: seq<Step>)
    requires Run(states, steps) && Last(states).cfg.multiAuth
    requires Last(states).phase == Running || Unlocking(Last(states))
    ensures var s := Last(states);
            s.kernel.locked || s.todo == [LockCall(s.cfg, true), Flush, SetUp(true)]
    ensures var s := Last(states);
            forall m: Mac :: s.kernel.Opened(m) ==>
              Admitted(states, steps, m) || (s.phase == Running && Flush in s.todo) || s.todo == [DelNeigh(m)]
    ensures var s := Last(states);
            s.todo == [] ==>
              forall m: Mac :: s.kernel.Passes(m) <==> Admitted(states, steps, m) && m !in s.past.aged
  {
    RunInv(states, steps);
    var s := Last(states);
    forall m: Mac ensures m in s.past.granted <==> Admitted(states, steps, m) {
      GrantedIff(states, steps, m);
    }
    hide Admitted, Run;
  }

  /**
   Whole-port mode, over all runs: whenever the authenticator is idle, everybody gets through if the last verdict
   or link event was an authorization, and nobody otherwise.
   */
  lemma SingleAdmission(states: seq<State>, steps: seq<Step>)
    requires Run(states, steps) && Last(states).phase == Running && !Last(states).cfg.multiAuth
    ensures var s := Last(states);
            s.todo == [] ==> forall m: Mac :: s.kernel.Passes(m) <==> exists x: Mac :: Admitted(states, steps, x)
    ensures var s := Last(states);
            s.todo == [] && !s.past.admitted ==> s.kernel.locked && NoneOpened(s.kernel)
    ensures var s := Last(states);
            !s.kernel.locked ==>
              (exists x: Mac :: Admitted(states, steps, x)) || (s.todo != [] && s.todo[0] == LockCall(s.cfg, true))
  {
    RunInv(states, steps);
    AdmittedIff(states, steps);
    var s := Last(states);
    forall m: Mac ensures m in s.past.granted <==> Admitted(states, steps, m) {
      GrantedIff(states, steps, m);
    }
    hide Admitted, Run;
  }

  /** In whole-port mode the flag says whether there is any grant. */
  lemma {:induction false} AdmittedIff(states: seq<State>, steps: seq<Step>)
    requires Run(states, steps) && !Last(states).cfg.multiAuth
    ensures Last(states).past.admitted <==> Last(states).past.granted != map[]
  {
    hide Next, Enabled;
    if steps != [] {
      var n := |steps| - 1;
      RunPrefix(states, steps);
      AdmittedKept(states[n], steps[n]);
      AdmittedIff(states[..n + 1], steps[..n]);
    }
  }

  lemma AdmittedKept(s: State, step: Step)
    requires Enabled(s, step)
    ensures Next(s, step).cfg == s.cfg
    ensures !s.cfg.multiAuth && (s.past.admitted <==> s.past.granted != map[]) ==>
      (Next(s, step).past.admitted <==> Next(s, step).past.granted != map[])
  {
    hide Respond, Take;
    if step.Handle? && Verdict(s.host, step.input) == 1 {
      assert step.input.mac in Next(s, step).past.granted;
    }
  }

  /** The MAB machine, over all runs. */
  lemma MabMachine(states: seq<State>, steps: seq<Step>)
    requires Run(states, steps)
    ensures var s := Last(states);
            && (forall m <- s.host.timers :: m in s.host.stas && m !in s.past.eapol)
            && (forall m <- s.host.stas :: !(s.host.stas[m].pae && s.host.stas[m].mab))
            && (forall m <- s.host.stas :: s.host.stas[m].mab ==> m !in s.past.eapol && m !in s.host.timers)
            && (forall m <- s.past.granted :: s.past.granted[m].byMab <==> !s.past.granted[m].eapol)
  {
    RunInv(states, steps);
  }
}
