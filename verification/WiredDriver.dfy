/** The authenticator for one port: the wired driver of hostapd, and the station records it acts on. */
module WiredDriver {
  import opened WiredKernel
  import opened WiredSpec

  class Authenticator {
    const cfg: Config
    var locked: bool
    var running: bool
    var stas: map<Mac, Sta>
    var timers: set<Mac>
    var sent: seq<Call>

    ghost function View(): Host
      reads this
    {
      Host(locked, running, stas, timers)
    }

    /** The response to the state before and to the calls already sent. */
    twostate predicate Did(r: Response)
      reads this
    {
      View() == r.host && sent == old(sent) + r.calls
    }

    constructor (cfg: Config)
      ensures this.cfg == cfg && View() == Host(false, false, map[], {}) && sent == []
    {
      this.cfg := cfg;
      locked, running, stas, timers, sent := false, false, map[], {}, [];
    }

    // -----------------------------------------------------------------------
    // Requests to the kernel
    // -----------------------------------------------------------------------

    method Send(c: Call)
      modifies this`sent
      ensures sent == old(sent) + [c]
    {
      sent := sent + [c];
    }

    method SetPortLocked(lock: bool)
      modifies this`sent, this`locked
      ensures sent == old(sent) + [LockCall(cfg, lock)] && locked == lock
    {
      Send(SetLocked(lock, lock && cfg.macAuth == EnableKernelMab));
      locked := lock;
    }

    // -----------------------------------------------------------------------
    // Driver operations
    // -----------------------------------------------------------------------

    /** The sockets are set up and the bridge is attached when the port is locked. */
    method Init()
      requires View() == BLANK_HOST
      modifies this`sent, this`locked
      ensures Did(Start(cfg))
    {
      SetPortLocked(true);
      Send(Flush);
      Send(SetUp(true));
    }

    method Deinit()
      modifies this`sent, this`locked
      ensures Did(Stop(cfg, old(View())))
    {
      Send(SetUp(false));
      SetPortLocked(false);
      Send(Flush);
    }

    /** Of the station flags only the authorized one matters; clearing it wins. */
    method SetStaAuthorized(m: Mac, orFlag: bool, andFlag: bool)
      modifies this`sent, this`locked
      ensures Did(if !andFlag then Deauthorize(cfg, old(View()), m)
                  else if orFlag then Authorize(cfg, old(View()), m)
                  else Response(old(View()), []))
    {
      var authorized := -1;
      if orFlag {
        authorized := 1;
      }
      if !andFlag {
        authorized := 0;
      }
      if authorized < 0 {
        return;
      }
      if authorized == 1 {
        if cfg.multiAuth || cfg.macAuth == EnableKernelMab {
          Send(AddNeigh(m));
        }
        if !cfg.multiAuth && locked {
          SetPortLocked(false);
        }
      } else if cfg.multiAuth {
        Send(DelNeigh(m));
      } else if !locked {
        SetPortLocked(true);
        Send(Flush);
      }
    }

    method RtmNewlink(up: bool)
      modifies this`sent, this`locked, this`running
      ensures Did(Respond(cfg, old(View()), NewLink(up)))
    {
      if running && !up {
        if !cfg.multiAuth {
          SetPortLocked(true);
        }
        Send(Flush);
      }
      running := up;
    }

    /** Unlocked entries are not reported. */
    method RtmNewneigh(m: Mac, lockedEntry: bool)
      modifies this`stas, this`timers
      ensures Did(Respond(cfg, old(View()), NewNeigh(m, lockedEntry)))
    {
      if !lockedEntry {
        return;
      }
      EventNewSta(m);
    }

    /** The station has left, authorized or not. */
    method RtmDelneigh(m: Mac)
      modifies this`stas, this`timers
      ensures Did(Respond(cfg, old(View()), GoneNeigh(m)))
    {
      if m !in stas {
        return;
      }
      stas := stas - {m};
      timers := timers - {m};
    }

    // -----------------------------------------------------------------------
    // Stations
    // -----------------------------------------------------------------------

    method EventNewSta(m: Mac)
      modifies this`stas, this`timers
      ensures Did(Respond(cfg, old(View()), NewStation(m)))
    {
      if m in stas {
        return;
      }
      stas := stas[m := Sta(false, false, false)];
      if cfg.macAuth != DisableMab {
        timers := timers + {m};
      }
    }

    /** An EAPOL frame first makes the sender a station. */
    method ReceiveFrame(m: Mac)
      modifies this`stas, this`timers
      ensures Did(Respond(cfg, old(View()), Eapol(m)))
    {
      EventNewSta(m);
      if !stas[m].pae {
        if cfg.macAuth != DisableMab {
          timers := timers - {m};
        }
        stas := stas[m := stas[m].(mab := false)];
        stas := stas[m := stas[m].(pae := true)];
      }
    }

    method HandleEapRxTimeout(m: Mac)
      requires Possible(View(), Timeout(m))
      modifies this`stas, this`timers
      ensures Did(Respond(cfg, old(View()), Timeout(m)))
    {
      timers := timers - {m};
      stas := stas[m := stas[m].(mab := true)];
    }

    method SetStationAuthorized(m: Mac, ok: bool)
      requires m in stas
      modifies this`sent, this`locked, this`stas
      ensures Did(SetAuthorized(cfg, old(View()), m, ok))
    {
      stas := stas[m := stas[m].(authorized := ok)];
      SetStaAuthorized(m, ok, ok);
    }

    /** Replies about stations that are not in MAB only feed the EAPOL state machine. */
    method ReceiveAuth(m: Mac, accept: bool)
      modifies this`sent, this`locked, this`stas
      ensures Did(Respond(cfg, old(View()), Reply(m, accept)))
    {
      if m !in stas {
        return;
      }
      if stas[m].mab {
        SetStationAuthorized(m, accept);
      }
    }
  }
}
