/** What the authenticator does on each event: its new state and the requests it sends to the kernel. */
module WiredSpec {
  import opened WiredKernel

  datatype MacAuth = DisableMab | EnableKernelMab | EnableSoftwareMab

  datatype Config = Config(multiAuth: bool, macAuth: MacAuth)

  /** A station record: EAPOL was received from it, it fell back to MAB, it is authorized. */
  datatype Sta = Sta(pae: bool, mab: bool, authorized: bool)

  /** `timers` holds the stations that will fall back to MAB unless they send EAPOL first. */
  datatype Host = Host(locked: bool, running: bool, stas: map<Mac, Sta>, timers: set<Mac>)

  datatype Input =
    | NewStation(mac: Mac)         // a DHCP broadcast
    | NewNeigh(mac: Mac, locked: bool)
    | GoneNeigh(mac: Mac)
    | NewLink(running: bool)
    | Eapol(mac: Mac)
    | Timeout(mac: Mac)
    | Reply(mac: Mac, accept: bool)  // of the RADIUS server
    | Pae(mac: Mac, ok: bool)        // the verdict of the EAPOL state machine

  datatype Response = Response(host: Host, calls: seq<Call>)

  const BLANK_HOST := Host(false, false, map[], {})

  function LockCall(cfg: Config, locked: bool): Call {
    SetLocked(locked, locked && cfg.macAuth == EnableKernelMab)
  }

  function Start(cfg: Config): Response {
    Response(BLANK_HOST.(locked := true), [LockCall(cfg, true), Flush, SetUp(true)])
  }

  function Stop(cfg: Config, h: Host): Response {
    Response(h.(locked := false), [SetUp(false), LockCall(cfg, false), Flush])
  }

  /** The driver's part of authorizing. */
  function Authorize(cfg: Config, h: Host, m: Mac): Response {
    var unlock := !cfg.multiAuth && h.locked;
    Response(h.(locked := h.locked && !unlock),
             (if cfg.multiAuth || cfg.macAuth == EnableKernelMab then [AddNeigh(m)] else []) +
             (if unlock then [LockCall(cfg, false)] else []))
  }

  /** The driver's part of de-authorizing. */
  function Deauthorize(cfg: Config, h: Host, m: Mac): Response {
    if cfg.multiAuth then Response(h, [DelNeigh(m)])
    else if !h.locked then Response(h.(locked := true), [LockCall(cfg, true), Flush])
    else Response(h, [])
  }

  function SetAuthorized(cfg: Config, h: Host, m: Mac, ok: bool): Response
    requires m in h.stas
  {
    var h' := h.(stas := h.stas[m := h.stas[m].(authorized := ok)]);
    if ok then Authorize(cfg, h', m) else Deauthorize(cfg, h', m)
  }

  function AddStation(cfg: Config, h: Host, m: Mac): Host {
    if m in h.stas then h
    else h.(stas := h.stas[m := Sta(false, false, false)],
            timers := if cfg.macAuth == DisableMab then h.timers else h.timers + {m})
  }

  function FreeStation(h: Host, m: Mac): Host {
    h.(stas := h.stas - {m}, timers := h.timers - {m})
  }

  function ReceiveEapol(cfg: Config, h: Host, m: Mac): Host
    requires m in h.stas
  {
    if h.stas[m].pae then h
    else h.(stas := h.stas[m := h.stas[m].(mab := false, pae := true)],
            timers := if cfg.macAuth == DisableMab then h.timers else h.timers - {m})
  }

  function LinkChange(cfg: Config, h: Host, running: bool): Response {
    var h' := h.(running := running);
    if h.running && !running then
      Response(if cfg.multiAuth then h' else h'.(locked := true),
               (if cfg.multiAuth then [] else [LockCall(cfg, true)]) + [Flush])
    else Response(h', [])
  }

  /** Events that can happen: timers that run, verdicts on stations that take part. */
  predicate Possible(h: Host, e: Input) {
    match e
    case Timeout(m) => m in h.timers && m in h.stas
    case Pae(m, ok) => m in h.stas && (ok ==> h.stas[m].pae)
    case _ => true
  }

  function Respond(cfg: Config, h: Host, e: Input): Response
    requires Possible(h, e)
  {
    match e
    case NewStation(m) => Response(AddStation(cfg, h, m), [])
    case NewNeigh(m, locked) => Response(if locked then AddStation(cfg, h, m) else h, [])
    case GoneNeigh(m) => Response(if m in h.stas then FreeStation(h, m) else h, [])
    case NewLink(running) => LinkChange(cfg, h, running)
    case Eapol(m) => Response(ReceiveEapol(cfg, AddStation(cfg, h, m), m), [])
    case Timeout(m) => Response(h.(stas := h.stas[m := h.stas[m].(mab := true)], timers := h.timers - {m}), [])
    case Reply(m, accept) =>
      if m in h.stas && h.stas[m].mab then SetAuthorized(cfg, h, m, accept) else Response(h, [])
    case Pae(m, ok) => SetAuthorized(cfg, h, m, ok)
  }
}
