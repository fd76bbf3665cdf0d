/**
 * Reserving a loopback port for the sandboxed service
 * (internal/cli/opencode_v2_service.go): the host's own service ports, the
 * picks of the kernel, and who holds which listener.
 */
module ServicePort {
  import opened Wrappers

  const DEFAULT_SERVICE_PORT: int := 49374
  const TRIES: nat := 16

  datatype Reason = Default | Configured(dir: nat) | Registered

  datatype PortError = NotAPort | Excluded(reason: Reason) | InUse | PickFailed | NoFreePort | CloseFailed

  // ---- the host's own ports ----

  /**
   * hostOpenCodeServicePorts: the ports in the service.json files of the two
   * config folders and of the state folder, where present.
   */
  method HostServicePorts(configured: seq<Option<int>>, registered: Option<int>) returns (ports: map<int, Reason>)
    requires |configured| == 2
    ensures ports == HostPorts(configured, registered)
  {
    ports := map[DEFAULT_SERVICE_PORT := Default];
    for i := 0 to 2
      invariant ports == ConfiguredPorts(configured, i)
    {
      if configured[i].Some? && configured[i].value > 0 {
        ports := ports[configured[i].value := Configured(i)];
      }
    }
    if registered.Some? && registered.value > 0 {
      ports := ports[registered.value := Registered];
    }
  }

  /** The default port and those of the first n config folders. */
  function ConfiguredPorts(configured: seq<Option<int>>, n: nat): map<int, Reason>
    requires n <= |configured|
  {
    if n == 0 then map[DEFAULT_SERVICE_PORT := Default]
    else
      var ports, c := ConfiguredPorts(configured, n - 1), configured[n - 1];
      if c.Some? && c.value > 0 then ports[c.value := Configured(n - 1)] else ports
  }

  function HostPorts(configured: seq<Option<int>>, registered: Option<int>): map<int, Reason>
    requires |configured| == 2
  {
    var ports := ConfiguredPorts(configured, 2);
    if registered.Some? && registered.value > 0 then ports[registered.value := Registered] else ports
  }

  /**
   * The host's ports are the default one and every configured or registered one,
   * so at most four. Where several name one port, the registered service gives
   * the reason, then the later config folder.
   */
  lemma HostPortsAre(configured: seq<Option<int>>, registered: Option<int>, p: int)
    requires |configured| == 2
    ensures var ports := HostPorts(configured, registered);
            && |ports| <= 4
            && (p in ports <==>
                  p == DEFAULT_SERVICE_PORT
                  || (p > 0 && (configured[0] == Some(p) || configured[1] == Some(p) || registered == Some(p))))
    ensures var ports := HostPorts(configured, registered);
            if p !in ports then true
            else if p > 0 && registered == Some(p) then ports[p] == Registered
            else if p > 0 && configured[1] == Some(p) then ports[p] == Configured(1)
            else if p > 0 && configured[0] == Some(p) then ports[p] == Configured(0)
            else ports[p] == Default
  {
    var none, one, two := ConfiguredPorts(configured, 0), ConfiguredPorts(configured, 1), ConfiguredPorts(configured, 2);
    assert |none| == 1;
    if configured[0].Some? {
      AddOne(none, configured[0].value, Configured(0));
    }
    if configured[1].Some? {
      AddOne(one, configured[1].value, Configured(1));
    }
    if registered.Some? {
      AddOne(two, registered.value, Registered);
    }
  }

  lemma AddOne(m: map<int, Reason>, p: int, r: Reason)
    ensures |m[p := r]| <= |m| + 1
  {}

  // ---- the loopback interface ----

  /** The port of the k-th pick, which depends on the ports bound at that time; None when the bind fails. */
  type Picks = (nat, set<int>) -> Option<int>

  /**
   * What the kernel answers to the binds and connects of one launch, in order,
   * and the listeners that are open.
   */
  class Loopback {
    const picks: Picks
    const answers: nat -> bool
    const binds: nat -> bool
    const closes: nat -> bool
    var picked: nat
    var dialled: nat
    var bound: nat
    var closed: nat
    var created: nat
    var listeners: map<nat, int>

    ghost predicate Valid()
      reads this
    {
      forall l <- listeners :: l < created
    }

    constructor (picks: Picks, answers: nat -> bool, binds: nat -> bool, closes: nat -> bool)
      ensures Valid() && listeners == map[] && picked == 0
      ensures this.picks == picks && this.answers == answers && this.binds == binds && this.closes == closes
    {
      this.picks, this.answers, this.binds, this.closes := picks, answers, binds, closes;
      picked, dialled, bound, closed, created, listeners := 0, 0, 0, 0, 0, map[];
    }

    /** A listener on a port that the kernel chooses. */
    method ListenAny() returns (l: Option<nat>)
      requires Valid()
      modifies this`picked, this`created, this`listeners
      ensures Valid() && picked == old(picked) + 1
      ensures match old(picks(picked, listeners.Values))
              case None => l == None && listeners == old(listeners)
              case Some(p) => l.Some? && l.value !in old(listeners) && listeners == old(listeners)[l.value := p]
    {
      var p := picks(picked, listeners.Values);
      picked := picked + 1;
      l := None;
      if p.Some? {
        l := Some(created);
        listeners := listeners[created := p.value];
        created := created + 1;
      }
    }

    /** portAnswers: whether something accepts connections on the port. */
    method Answers(port: int) returns (yes: bool)
      modifies this`dialled
      ensures yes == answers(old(dialled)) && dialled == old(dialled) + 1
    {
      yes := answers(dialled);
      dialled := dialled + 1;
    }

    /** A listener on a given port. */
    method Listen(port: int) returns (l: Option<nat>)
      requires Valid()
      modifies this`bound, this`created, this`listeners
      ensures Valid() && bound == old(bound) + 1
      ensures if binds(old(bound)) then l.Some? && l.value !in old(listeners) && listeners == old(listeners)[l.value := port]
              else l == None && listeners == old(listeners)
    {
      l := None;
      if binds(bound) {
        l := Some(created);
        listeners := listeners[created := port];
        created := created + 1;
      }
      bound := bound + 1;
    }

    /** The listener is gone even when closing it reports an error. */
    method Close(l: nat) returns (ok: bool)
      requires Valid()
      modifies this`closed, this`listeners
      ensures Valid() && listeners == old(listeners) - {l}
      ensures ok == closes(old(closed)) && closed == old(closed) + 1
    {
      ok := closes(closed);
      closed := closed + 1;
      listeners := listeners - {l};
    }
  }

  // ---- reserving a port ----

  /** The environment variable that forces a port: not set, or a text that may not be a number. */
  datatype Forced = Unset | Text(value: Option<int>)

  /**
   * What up to tries picks come to when each skipped one stays bound: the first
   * port that is not the host's, or why there is none.
   */
  function FirstFree(picks: Picks, from: nat, bound: set<int>, host: map<int, Reason>, tries: nat): Result<int, PortError>
    decreases tries
  {
    if tries == 0 then Err(NoFreePort)
    else match picks(from, bound)
      case None => Err(PickFailed)
      case Some(p) => if p in host then FirstFree(picks, from + 1, bound + {p}, host, tries - 1) else Ok(p)
  }

  // ---- why sixteen tries are enough ----

  /** The kernel never hands out a port that is bound. */
  ghost predicate Exclusive(picks: Picks) {
    forall k: nat, bound: set<int>, p: int :: picks(k, bound) == Some(p) ==> p !in bound
  }

  /** One of the next picks fails. */
  ghost predicate FailsWithin(picks: Picks, from: nat, n: nat) {
    exists k, bound :: from <= k < from + n && picks(k, bound) == None
  }

  /**
   * One try more than there are unbound host ports settles it: the picks never
   * run out, and only a failing pick keeps them from giving a port.
   */
  lemma {:induction false} PickedInTime(picks: Picks, from: nat, bound: set<int>, host: map<int, Reason>, n: nat, tries: nat)
    requires Exclusive(picks) && |host.Keys - bound| < n <= tries
    ensures var r := FirstFree(picks, from, bound, host, tries);
            && r == FirstFree(picks, from, bound, host, n)
            && (r.Ok? || (r == Err(PickFailed) && FailsWithin(picks, from, n)))
    decreases tries
  {
    var pick := picks(from, bound);
    if pick.Some? && pick.value in host {
      var p := pick.value;
      assert host.Keys - bound == host.Keys - (bound + {p}) + {p};
      PickedInTime(picks, from + 1, bound + {p}, host, n - 1, tries - 1);
    }
  }

  /** A launch with at most four host ports takes its fifth pick at the latest. */
  lemma {:induction false} FifthTryAtLatest(picks: Picks, from: nat, bound: set<int>, host: map<int, Reason>)
    requires |host| <= 4 && Exclusive(picks)
    ensures var r := FirstFree(picks, from, bound, host, TRIES);
            && r == FirstFree(picks, from, bound, host, 5)
            && (r.Ok? || (r == Err(PickFailed) && FailsWithin(picks, from, 5)))
  {
    FewerKeys(host.Keys, bound);
    assert |host.Keys| == |host|;
    PickedInTime(picks, from, bound, host, 5, TRIES);
  }

  lemma FewerKeys(keys: set<int>, bound: set<int>)
    ensures |keys - bound| <= |keys|
  {}

  // ---- the loops ----

  method ReserveServicePort(net: Loopback, host: map<int, Reason>, forced: Forced) returns (r: Result<(int, nat), PortError>)
    requires net.Valid()
    modifies net
    ensures net.Valid()
    ensures match r
            case Err(_) => net.listeners == old(net.listeners)
            case Ok((port, l)) =>
              port !in host && l !in old(net.listeners) && net.listeners == old(net.listeners)[l := port]
    ensures forced == Unset ==>
              match FirstFree(net.picks, old(net.picked), old(net.listeners.Values), host, TRIES)
              case Ok(port) => r.Ok? && r.value.0 == port
              case Err(e) => r == Err(e)
    ensures forced.Text? ==> ForcedOutcome(net, forced.value, host, old(net.dialled), old(net.bound), r)
  {
    if forced.Text? {
      r := ReserveForced(net, host, forced.value);
      return;
    }
    r := PickPort(net, host);
  }

  /** The picking loop; excluded picks stay bound until it ends, so the kernel does not hand them out again. */
  method PickPort(net: Loopback, host: map<int, Reason>) returns (r: Result<(int, nat), PortError>)
    requires net.Valid()
    modifies net
    ensures net.Valid()
    ensures match r
            case Err(_) => net.listeners == old(net.listeners)
            case Ok((port, l)) => l !in old(net.listeners) && net.listeners == old(net.listeners)[l := port]
    ensures match FirstFree(net.picks, old(net.picked), old(net.listeners.Values), host, TRIES)
            case Ok(port) => r.Ok? && r.value.0 == port && port !in host
            case Err(e) => r == Err(e)
  {
    var skipped: seq<nat>;
    r, skipped := Pick(net, host);
    CloseAll(net, skipped);
  }

  method Pick(net: Loopback, host: map<int, Reason>) returns (r: Result<(int, nat), PortError>, skipped: seq<nat>)
    requires net.Valid()
    modifies net
    ensures net.Valid()
    ensures net.listeners - Ids(skipped) == if r.Ok? then old(net.listeners)[r.value.1 := r.value.0] else old(net.listeners)
    ensures r.Ok? ==> r.value.1 !in old(net.listeners) && r.value.0 !in host
    ensures match FirstFree(net.picks, old(net.picked), old(net.listeners.Values), host, TRIES)
            case Ok(port) => r.Ok? && r.value.0 == port
            case Err(e) => r == Err(e)
  {
    ghost var before := net.listeners;
    skipped := [];
    r := Err(NoFreePort);
    assert Restored(net.listeners, Ids(skipped), before);
    hide Restored, Ids, FirstFree;
    for i := 0 to TRIES
      invariant net.Valid() && net.picked == old(net.picked) + i
      invariant FirstFree(net.picks, net.picked, net.listeners.Values, host, TRIES - i)
             == FirstFree(net.picks, old(net.picked), old(net.listeners.Values), host, TRIES)
      invariant Restored(net.listeners, Ids(skipped), before)
    {
      FreeStep(net.picks, net.picked, net.listeners.Values, host, TRIES - i);
      ghost var listeners := net.listeners;
      var l := net.ListenAny();
      if l.None? {
        RestoredIs(listeners, Ids(skipped), before);
        return Err(PickFailed), skipped;
      }
      var port := net.listeners[l.value];
      BoundToo(listeners, l.value, port);
      RestoredPick(listeners, Ids(skipped), before, l.value, port);
      if port !in host {
        return Ok((port, l.value)), skipped;
      }
      IdsSnoc(skipped, l.value);
      skipped := skipped + [l.value];
    }
    FreeStep(net.picks, net.picked, net.listeners.Values, host, 0);
    RestoredIs(net.listeners, Ids(skipped), before);
  }

  lemma FreeStep(picks: Picks, from: nat, bound: set<int>, host: map<int, Reason>, tries: nat)
    ensures var r := FirstFree(picks, from, bound, host, tries);
            if tries == 0 then r == Err(NoFreePort)
            else match picks(from, bound)
              case None => r == Err(PickFailed)
              case Some(p) => r == if p in host then FirstFree(picks, from + 1, bound + {p}, host, tries - 1) else Ok(p)
  {}

  lemma RestoredIs(listeners: map<nat, int>, skipped: set<nat>, before: map<nat, int>)
    requires Restored(listeners, skipped, before)
    ensures listeners - skipped == before
  {}

  lemma BoundToo(listeners: map<nat, int>, l: nat, port: int)
    requires l !in listeners
    ensures listeners[l := port].Values == listeners.Values + {port}
  {
    var after := listeners[l := port];
    assert after[l] == port && forall i <- listeners :: after[i] == listeners[i];
  }

  function Ids(s: seq<nat>): set<nat> {
    set l | l in s
  }

  lemma IdsSnoc(s: seq<nat>, l: nat)
    ensures Ids(s + [l]) == Ids(s) + {l}
  {}

  /** The skipped listeners are open, and without them these are the listeners of before. */
  predicate Restored(listeners: map<nat, int>, skipped: set<nat>, before: map<nat, int>) {
    skipped <= listeners.Keys && listeners - skipped == before && skipped !! before.Keys
  }

  lemma RestoredPick(listeners: map<nat, int>, skipped: set<nat>, before: map<nat, int>, l: nat, port: int)
    requires Restored(listeners, skipped, before) && l !in listeners
    ensures Restored(listeners[l := port], skipped + {l}, before)
    ensures listeners[l := port] - skipped == before[l := port] && l !in before
  {}

  /** The deferred closing of every skipped pick. */
  method CloseAll(net: Loopback, skipped: seq<nat>)
    requires net.Valid()
    modifies net`closed, net`listeners
    ensures net.Valid() && net.listeners == old(net.listeners) - Ids(skipped)
  {
    for i := 0 to |skipped|
      invariant net.Valid() && net.listeners == old(net.listeners) - Ids(skipped[..i])
    {
      var _ := net.Close(skipped[i]);
      IdsSnoc(skipped[..i], skipped[i]);
      assert skipped[..i + 1] == skipped[..i] + [skipped[i]];
    }
    assert skipped[..|skipped|] == skipped;
  }

  /** What comes of a forced port, given the next answer and the next bind: the first check that fails, or the port. */
  predicate ForcedOutcome(
      net: Loopback, value: Option<int>, host: map<int, Reason>, dialled: nat, bound: nat, r: Result<(int, nat), PortError>) {
    if value.None? || value.value < 1 || value.value > 65535 then r == Err(NotAPort)
    else if value.value in host then r == Err(Excluded(host[value.value]))
    else if net.answers(dialled) || !net.binds(bound) then r == Err(InUse)
    else r.Ok? && r.value.0 == value.value
  }

  /** A forced port gets the checks a picked one passes by being picked. */
  method ReserveForced(net: Loopback, host: map<int, Reason>, value: Option<int>) returns (r: Result<(int, nat), PortError>)
    requires net.Valid()
    modifies net
    ensures net.Valid()
    ensures r.Ok? ==> net.listeners == old(net.listeners)[r.value.1 := r.value.0] && r.value.1 !in old(net.listeners)
    ensures r.Err? ==> net.listeners == old(net.listeners)
    ensures ForcedOutcome(net, value, host, old(net.dialled), old(net.bound), r)
  {
    if value.None? || value.value < 1 || value.value > 65535 {
      return Err(NotAPort);
    }
    var port := value.value;
    if port in host {
      return Err(Excluded(host[port]));
    }
    var taken := net.Answers(port);
    if taken {
      return Err(InUse);
    }
    var l := net.Listen(port);
    if l.None? {
      return Err(InUse);
    }
    return Ok((port, l.value));
  }

  // ---- holding the port ----

  /** checkServicePortFree: nothing stays open. */
  method CheckServicePortFree(net: Loopback, port: int, host: map<int, Reason>) returns (e: Option<PortError>)
    requires net.Valid()
    modifies net
    ensures net.Valid() && net.listeners == old(net.listeners)
    ensures e == if port in host then Some(Excluded(host[port]))
                 else if net.answers(old(net.dialled)) || !net.binds(old(net.bound)) then Some(InUse)
                 else if !net.closes(old(net.closed)) then Some(CloseFailed)
                 else None
  {
    if port in host {
      return Some(Excluded(host[port]));
    }
    var taken := net.Answers(port);
    if taken {
      return Some(InUse);
    }
    var l := net.Listen(port);
    if l.None? {
      return Some(InUse);
    }
    var ok := net.Close(l.value);
    return if ok then None else Some(CloseFailed);
  }

  /** openCodeServicePin: the pinned port and the listener that holds it. */
  class Pin {
    const net: Loopback
    const port: int
    var hold: Option<nat>

    constructor (net: Loopback, port: int, hold: nat)
      ensures this.net == net && this.port == port && this.hold == Some(hold)
    {
      this.net, this.port, this.hold := net, port, Some(hold);
    }

    /** What this pin keeps open. */
    ghost function Held(): set<nat>
      reads this
    {
      if hold.Some? then {hold.value} else {}
    }

    /** release: does nothing the second time. */
    method Release()
      requires net.Valid()
      modifies this, net`closed, net`listeners
      ensures net.Valid() && hold == None && net.listeners == old(net.listeners) - old(Held())
      ensures net.closed == old(net.closed) + |old(Held())|
    {
      if hold.None? {
        return;
      }
      var _ := net.Close(hold.value);
      hold := None;
    }

    /** handOff: the port is let go before the last check, and free when the check passes. */
    method HandOff(host: map<int, Reason>) returns (e: Option<PortError>)
      requires net.Valid()
      modifies this, net
      ensures net.Valid() && hold == None && net.listeners == old(net.listeners) - old(Held())
      ensures e == None <==>
                && port !in host && !net.answers(old(net.dialled)) && net.binds(old(net.bound))
                && net.closes(old(net.closed) + |old(Held())|)
    {
      Release();
      e := CheckServicePortFree(net, port, host);
    }
  }

  /**
   * The end of pinOpenCodeV2Service, with the ports the host's files name;
   * seeded says whether the private configuration could be written. Without a
   * forced port only a failing pick or that configuration can stop the launch.
   */
  method PinService(net: Loopback, configured: seq<Option<int>>, registered: Option<int>, forced: Forced, seeded: bool)
    returns (pin: Result<Pin, Option<PortError>>)
    requires net.Valid() && |configured| == 2
    modifies net
    ensures net.Valid()
    ensures pin.Err? ==> net.listeners == old(net.listeners)
    ensures pin.Ok? ==>
              var p := pin.value;
              && fresh(p) && p.net == net && p.hold.Some? && seeded && p.port !in HostPorts(configured, registered)
              && p.hold.value !in old(net.listeners) && net.listeners == old(net.listeners)[p.hold.value := p.port]
    ensures pin == Err(None) ==> !seeded
    ensures forced == Unset ==>
              match FirstFree(net.picks, old(net.picked), old(net.listeners.Values), HostPorts(configured, registered), TRIES)
              case Ok(port) => if seeded then pin.Ok? && pin.value.port == port else pin == Err(None)
              case Err(e) => pin == Err(Some(e))
    ensures forced.Text? ==>
              exists r: Result<(int, nat), PortError> ::
                && ForcedOutcome(net, forced.value, HostPorts(configured, registered), old(net.dialled), old(net.bound), r)
                && match r
                   case Ok((port, _)) => if seeded then pin.Ok? && pin.value.port == port else pin == Err(None)
                   case Err(e) => pin == Err(Some(e))
    ensures forced == Unset && Exclusive(net.picks) ==>
              && (pin.Ok? || pin == Err(Some(PickFailed)) || (pin == Err(None) && !seeded))
              && (pin == Err(Some(PickFailed)) ==> FailsWithin(net.picks, old(net.picked), 5))
  {
    var host := HostServicePorts(configured, registered);
    HostPortsAre(configured, registered, 0);
    if forced == Unset && Exclusive(net.picks) {
      FifthTryAtLatest(net.picks, net.picked, net.listeners.Values, host);
    }
    var r := ReserveServicePort(net, host, forced);
    if r.Err? {
      return Err(Some(r.error));
    }
    var (port, l) := r.value;
    if !seeded {
      var _ := net.Close(l);
      return Err(None);
    }
    var p := new Pin(net, port, l);
    return Ok(p);
  }
}
