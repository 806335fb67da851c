/**
 The guard's effect on the page. When the host is not allowed, the script
 logs an error, overwrites every own enumerable entry of the tag-manager
 registry with
 a disabled stand-in container, replaces the data-layer queue by an empty
 one whose `push` only warns and returns 0, and sends one beacon naming the
 host if the browser offers `sendBeacon`. When the host is allowed, it only
 logs. The page's globals are the fields of a `Window`; what a run of the
 guard does to them is stated once, by `GuardSpec` on an `Env` snapshot.
 */
module Guard {
  import opened Domains

  datatype Option<T> = None | Some(value: T)

  /** An entry pushed on a data-layer queue; the guard never looks inside one. */
  type Event = string

  /** A registry entry: a container the tag-manager library installed (its
      behaviour belongs to that library, so it is only a handle here), or
      the stand-in the guard writes, `{dataLayer: {reset, push}}`. */
  datatype Container = Installed(handle: nat) | Disabled
  {
    /** The stand-in's `dataLayer.reset()`: does nothing. */
    function Reset(): (c: Container)
      requires Disabled?
      ensures c == Disabled
    {
      this
    }

    /** The stand-in's `dataLayer.push(...)`: returns 0, whatever it is given. */
    function Push(events: seq<Event>): (count: int)
      requires Disabled?
      ensures count == 0
    {
      0
    }
  }

  /** What the script writes to the console, by level. */
  datatype LogEntry =
    | BlockedError(host: string)     // console.error on the refused branch
    | DisabledWarning                // console.warn from the replaced push
    | AuthorizedInfo(host: string)   // console.log on the allowed branch

  /** A snapshot of the page state the guard reads and writes.
      registry: the own enumerable string-keyed entries of
        window.google_tag_manager, None when the page has none;
      dataLayer: the entries of window.dataLayer;
      pushDisabled: whether window.dataLayer.push is the guard's replacement;
      beaconAvailable: whether navigator.sendBeacon exists;
      reports: the unauthorizedDomain of every beacon sent, in order;
      log: the console output, in order. */
  datatype Env = Env(
    registry: Option<map<string, Container>>,
    dataLayer: seq<Event>,
    pushDisabled: bool,
    beaconAvailable: bool,
    reports: seq<string>,
    log: seq<LogEntry>)

  /** The registry after the `for...in` loop: the same container ids, each
      bound to the stand-in. */
  function DisableAll(registry: map<string, Container>): (disabled: map<string, Container>)
    ensures disabled.Keys == registry.Keys
    ensures forall id :: id in disabled ==> disabled[id] == Disabled
  {
    map id | id in registry :: Disabled
  }

  /** The refused branch, in the script's order: error log, registry
      (skipped when absent), fresh empty queue with the replaced push,
      beacon (skipped when unavailable). */
  function Block(e: Env, host: string): (r: Env)
    ensures r.registry.Some? <==> e.registry.Some?
    ensures r.registry.Some? ==> r.registry.value.Keys == e.registry.value.Keys
    ensures r.registry.Some? ==> forall id :: id in r.registry.value ==> r.registry.value[id] == Disabled
    ensures r.dataLayer == [] && r.pushDisabled
    ensures r.log == e.log + [BlockedError(host)]
    ensures r.reports == if e.beaconAvailable then e.reports + [host] else e.reports
    ensures r.beaconAvailable == e.beaconAvailable
  {
    var registry := match e.registry
      case None => None
      case Some(m) => Some(DisableAll(m));
    e.(registry := registry,
       dataLayer := [],
       pushDisabled := true,
       reports := if e.beaconAvailable then e.reports + [host] else e.reports,
       log := e.log + [BlockedError(host)])
  }

  /** One run of the guard on a page whose hostname is `host`. What it
      promises is stated by AllowedPageUntouched and RefusedPageStaysDisabled. */
  function GuardSpec(e: Env, host: string): (r: Env)
    ensures IsAllowed(host, AllowedDomains) ==> r == e.(log := e.log + [AuthorizedInfo(host)])
    ensures !IsAllowed(host, AllowedDomains) ==> r == Block(e, host)
  {
    if IsAllowed(host, AllowedDomains) then e.(log := e.log + [AuthorizedInfo(host)])
    else Block(e, host)
  }

  /** `window.dataLayer.push(...events)`: once replaced, it warns, returns 0
      and leaves the queue alone; before that it is the array's own push,
      which appends and returns the new length. DisabledPushesAreInert
      states what any series of replaced pushes does. */
  function PushSpec(e: Env, events: seq<Event>): (r: (Env, int))
    ensures e.pushDisabled ==> r.1 == 0 && r.0 == e.(log := e.log + [DisabledWarning])
    ensures !e.pushDisabled ==> r.0 == e.(dataLayer := e.dataLayer + events) && r.1 == |r.0.dataLayer|
  {
    if e.pushDisabled then (e.(log := e.log + [DisabledWarning]), 0)
    else (e.(dataLayer := e.dataLayer + events), |e.dataLayer| + |events|)
  }

  /** On an allowed host the guard leaves the registry, the queue, its push
      and the reports exactly as they were; it only adds one info entry to
      the log. */
  lemma {:induction false} AllowedPageUntouched(e: Env, host: string)
    requires IsAllowed(host, AllowedDomains)
    ensures var r := GuardSpec(e, host);
            && r.registry == e.registry
            && r.dataLayer == e.dataLayer
            && r.pushDisabled == e.pushDisabled
            && r.reports == e.reports
            && r.log == e.log + [AuthorizedInfo(host)]
  {
  }

  /** A series of later `push` calls, one argument list per call: the state
      after them and what each returned. */
  function PushAll(e: Env, calls: seq<seq<Event>>): (r: (Env, seq<int>))
    ensures |r.1| == |calls|
    decreases |calls|
  {
    if |calls| == 0 then (e, [])
    else
      var (e1, n) := PushSpec(e, calls[0]);
      var (e2, ns) := PushAll(e1, calls[1..]);
      (e2, [n] + ns)
  }

  /** Once push is replaced, any series of calls returns 0 every time and
      changes nothing but the log, which keeps what it had and gains one
      warning per call. */
  lemma {:induction false} DisabledPushesAreInert(e: Env, calls: seq<seq<Event>>)
    requires e.pushDisabled
    ensures var (e', counts) := PushAll(e, calls);
            && e' == e.(log := e.log + seq(|calls|, _ => DisabledWarning))
            && forall i :: 0 <= i < |calls| ==> counts[i] == 0
    decreases |calls|
  {
    if |calls| > 0 {
      var (e1, n) := PushSpec(e, calls[0]);
      DisabledPushesAreInert(e1, calls[1..]);
      assert [DisabledWarning] + seq(|calls| - 1, _ => DisabledWarning) == seq(|calls|, _ => DisabledWarning);
    }
  }

  /** After the guard refuses a host, the queue is empty and stays empty
      whatever is pushed, every push returns 0, every registry entry that
      existed is the stand-in (whose push returns 0), and exactly one
      beacon naming the host was sent if the browser could send one. */
  lemma {:induction false} RefusedPageStaysDisabled(e: Env, host: string, calls: seq<seq<Event>>)
    requires !IsAllowed(host, AllowedDomains)
    ensures var (e', counts) := PushAll(GuardSpec(e, host), calls);
            && e'.dataLayer == []
            && (forall i :: 0 <= i < |calls| ==> counts[i] == 0)
            && (e.registry.Some? ==> e'.registry.Some? && e'.registry.value.Keys == e.registry.value.Keys)
            && (e'.registry.Some? ==> forall id :: id in e'.registry.value ==> e'.registry.value[id].Disabled?)
            && e'.reports == if e.beaconAvailable then e.reports + [host] else e.reports
  {
    DisabledPushesAreInert(GuardSpec(e, host), calls);
  }

  /** The page globals the script touches, updated in place. */
  class Window {
    var registry: Option<map<string, Container>>
    var dataLayer: seq<Event>
    var pushDisabled: bool
    const beaconAvailable: bool
    var reports: seq<string>
    var log: seq<LogEntry>

    function State(): Env
      reads this
    {
      Env(registry, dataLayer, pushDisabled, beaconAvailable, reports, log)
    }

    /** A page as the tag manager leaves it, before the guard runs. */
    constructor (registry: Option<map<string, Container>>, dataLayer: seq<Event>, beaconAvailable: bool)
      ensures State() == Env(registry, dataLayer, false, beaconAvailable, [], [])
    {
      this.registry := registry;
      this.dataLayer := dataLayer;
      this.pushDisabled := false;
      this.beaconAvailable := beaconAvailable;
      this.reports := [];
      this.log := [];
    }

    /** The script body, run once with the page's hostname. */
    method Guard(host: string)
      modifies this
      ensures State() == GuardSpec(old(State()), host)
    {
      var allowed := IsAllowed(host, AllowedDomains);
      if !allowed {
        log := log + [BlockedError(host)];
        if registry.Some? {
          ghost var original := registry.value;
          var pending := registry.value.Keys;
          while pending != {}
            modifies this`registry
            invariant registry.Some? && registry.value.Keys == original.Keys
            invariant pending <= original.Keys
            invariant forall id :: id in original && id !in pending ==> registry.value[id] == Disabled
            decreases pending
          {
            var id :| id in pending;
            registry := Some(registry.value[id := Disabled]);
            pending := pending - {id};
          }
          assert registry.value == DisableAll(original);
        }
        dataLayer := [];
        pushDisabled := true;
        if beaconAvailable {
          reports := reports + [host];
        }
      } else {
        log := log + [AuthorizedInfo(host)];
      }
    }

    /** A later call of `window.dataLayer.push(...events)`. */
    method Push(events: seq<Event>) returns (count: int)
      modifies this
      ensures (State(), count) == PushSpec(old(State()), events)
    {
      if pushDisabled {
        log := log + [DisabledWarning];
        count := 0;
      } else {
        dataLayer := dataLayer + events;
        count := |dataLayer|;
      }
    }
  }
}
