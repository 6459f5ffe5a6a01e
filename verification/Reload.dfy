/** The reload protocol of the load balancer extension (ext/lb/lb.go): events set a cache entry,
    the cache's reaper hands an expired entry to the update handler, and the handler skips when
    a new entry is already present. */
module Reload {
  import opened Wrappers
  import opened Lists

  // ---- The event handler ----

  /** A Docker event; the attributes matter for network events only. */
  datatype Message = Message(
    id: string,
    status: string,
    action: string,
    container: Option<string>,
    network: Option<string>)

  /** The answer to whether a container is connected to a network yet. */
  datatype Probe = Connected | NotYet | ProbeError

  predicate NetworkAction(m: Message) {
    m.action == "connect" || m.action == "disconnect"
  }

  /** One of at most five probes fails before the first that finds the container connected. */
  predicate ProbesFail(probe: nat -> Probe) {
    exists i: nat :: i < 5 && probe(i) == ProbeError && forall j: nat :: j < i ==> probe(j) == NotYet
  }

  /** Whether a message asks for a reload, or why it cannot be handled. */
  function Wants(m: Message, exposed: string -> bool, probe: nat -> Probe): Result<bool, string> {
    if NetworkAction(m) then
      if m.container.None? then Failure("unable to detect container id for network event")
      else if m.network.None? then Failure("unable to detect container network name for network event")
      else if ProbesFail(probe) then Failure("unable to inspect network")
      else Success(exposed(m.container.value))
    else
      Success(m.status in {"interlock-start", "interlock-restart", "destroy"}
              || (m.status in {"start", "stop"} && exposed(m.id)))
  }

  class LoadBalancer {
    /** Whether the cache holds the "reload" key. */
    var entry: bool

    constructor ()
      ensures !entry
    {
      entry := false;
    }

    method HandleEvent(m: Message, exposed: string -> bool, probe: nat -> Probe) returns (r: Result<(), string>)
      modifies this
      ensures r.Failure? <==>
              (m.action == "connect" || m.action == "disconnect")
              && (m.container.None? || m.network.None?
                  || exists i: nat :: i < 5 && probe(i) == ProbeError && forall j: nat :: j < i ==> probe(j) == NotYet)
      ensures r.Failure? ==> entry == old(entry)
      ensures m.action == "connect" || m.action == "disconnect" ==>
              r.Failure? || entry == (old(entry) || exposed(m.container.value))
      ensures m.action != "connect" && m.action != "disconnect" && (m.status == "start" || m.status == "stop") ==>
              entry == (old(entry) || exposed(m.id))
      ensures m.action != "connect" && m.action != "disconnect"
              && (m.status == "interlock-start" || m.status == "interlock-restart" || m.status == "destroy") ==>
              entry
      ensures m.action != "connect" && m.action != "disconnect"
              && m.status !in {"start", "stop", "interlock-start", "interlock-restart", "destroy"} ==>
              entry == old(entry)
      ensures r.Failure? <==> Wants(m, exposed, probe).Failure?
      ensures entry == (old(entry) || Wants(m, exposed, probe) == Success(true))
    {
      var reload := false;
      if m.status == "start" {
        reload := exposed(m.id);
      } else if m.status == "stop" {
        reload := exposed(m.id);
      } else if m.status == "interlock-start" || m.status == "interlock-restart" || m.status == "destroy" {
        reload := true;
      }
      if m.action == "connect" || m.action == "disconnect" {
        if m.container.None? {
          return Failure("unable to detect container id for network event");
        }
        if m.network.None? {
          return Failure("unable to detect container network name for network event");
        }
        var i := 0;
        while i < 5
          invariant 0 <= i <= 5 && entry == old(entry)
          invariant forall j: nat :: j < i ==> probe(j) == NotYet
          decreases 5 - i
        {
          if probe(i) == ProbeError {
            return Failure("unable to inspect network");
          }
          if probe(i) == Connected {
            break;
          }
          i := i + 1;
        }
        reload := exposed(m.container.value);
      }
      if reload {
        entry := true;
      }
      r := Success(());
    }
  }

  /** The message that the poller posts. */
  function PollMessage(id: string): Message {
    Message(id, "interlock-restart", "", None, None)
  }

  /** It always asks for a reload and never fails. */
  lemma {:induction false} PollMessageReloads(id: string, exposed: string -> bool, probe: nat -> Probe)
    ensures Wants(PollMessage(id), exposed, probe) == Success(true)
  {
  }

  // ---- The protocol as a state machine ----

  /** The cache's reaper: Condemned once it has found the entry expired, Sending once it has
      deleted the entry and runs the callback, which sends on the update channel. */
  datatype Reaper = Resting | Condemned | Sending

  /** The update handler: Checking before its skip test, Listing between the skip test and the
      container listing, Updating after it, Reporting while it sends an error. */
  datatype Handler = Receiving | Checking | Listing | Updating | Reporting

  /** logging: the error channel's reader is busy with an error. */
  datatype State = State(entry: bool, reaper: Reaper, handler: Handler, logging: bool)

  /** Request is a cache Set by the event handler. ListOk and ListFail are the container listing. */
  datatype Event =
    | Request
    | Condemn | Delete | Handoff
    | Skip | Pass
    | ListOk | ListFail
    | Done | Fail
    | Report | Log

  const INIT := State(false, Resting, Receiving, false)

  /** The step of an event, None when it is not possible. Channels are unbuffered: Handoff and
      Report are steps of both sides. */
  function Step(s: State, e: Event): Option<State> {
    match e
    case Request => Some(s.(entry := true))
    case Condemn => if s.entry && s.reaper.Resting? then Some(s.(reaper := Condemned)) else None
    case Delete => if s.reaper.Condemned? then Some(s.(entry := false, reaper := Sending)) else None
    case Handoff =>
      if s.reaper.Sending? && s.handler.Receiving? then Some(s.(reaper := Resting, handler := Checking)) else None
    case Skip => if s.handler.Checking? && s.entry then Some(s.(handler := Receiving)) else None
    case Pass => if s.handler.Checking? && !s.entry then Some(s.(handler := Listing)) else None
    case ListOk => if s.handler.Listing? then Some(s.(handler := Updating)) else None
    case ListFail => if s.handler.Listing? then Some(s.(handler := Reporting)) else None
    case Done => if s.handler.Updating? then Some(s.(handler := Receiving)) else None
    case Fail => if s.handler.Updating? then Some(s.(handler := Reporting)) else None
    case Report =>
      if s.handler.Reporting? && !s.logging then Some(s.(handler := Receiving, logging := true)) else None
    case Log => if s.logging then Some(s.(logging := false)) else None
  }

  function Run(s: State, es: seq<Event>): Option<State> {
    if es == [] then
      Some(s)
    else
      match Run(s, es[..|es| - 1])
      case None => None
      case Some(t) => Step(t, Last(es))
  }

  predicate IsListing(e: Event) {
    e.ListOk? || e.ListFail?
  }

  /** Some request of the run is not followed by a listing. */
  ghost predicate Unserved(es: seq<Event>) {
    exists i :: 0 <= i < |es| && es[i] == Request && forall j :: i < j < |es| ==> !IsListing(es[j])
  }

  /** The request is not forgotten: a live cache entry, a waiting callback, or a handler that has
      been woken and has not listed yet. */
  predicate Covered(s: State) {
    s.entry || s.reaper.Sending? || s.handler.Checking? || s.handler.Listing?
  }

  /** Only the reaper deletes the entry, and only after condemning it. */
  predicate Consistent(s: State) {
    s.reaper.Condemned? ==> s.entry
  }

  /** A step forgets a covered request only by listing. */
  lemma {:induction false} CoverKept(s: State, e: Event)
    requires Covered(s) && Step(s, e).Some?
    ensures IsListing(e) || Covered(Step(s, e).value)
  {
  }

  lemma {:induction false} RunConsistent(es: seq<Event>)
    requires Run(INIT, es).Some?
    ensures Consistent(Run(INIT, es).value)
  {
    if es != [] {
      RunConsistent(es[..|es| - 1]);
    }
  }

  /** No reload request is lost: in every reachable state an unserved request is covered. */
  lemma {:induction false} NoRequestLost(es: seq<Event>)
    requires Run(INIT, es).Some? && Unserved(es)
    ensures Covered(Run(INIT, es).value)
  {
    var i :| 0 <= i < |es| && es[i] == Request && forall j :: i < j < |es| ==> !IsListing(es[j]);
    if i < |es| - 1 {
      var init := es[..|es| - 1];
      assert init[i] == Request && forall j :: i < j < |init| ==> !IsListing(init[j]);
      NoRequestLost(init);
      CoverKept(Run(INIT, init).value, Last(es));
    }
  }

  /** No goroutine has anything left to do. */
  predicate Quiescent(s: State) {
    !s.entry && s.reaper.Resting? && s.handler.Receiving? && !s.logging
  }

  /** In a quiescent state every request has been followed by a listing. */
  lemma {:induction false} QuiescentServed(es: seq<Event>, i: nat)
    requires Run(INIT, es).Some? && Quiescent(Run(INIT, es).value)
    requires i < |es| && es[i] == Request
    ensures exists j :: i < j < |es| && IsListing(es[j])
  {
    if forall j :: i < j < |es| ==> !IsListing(es[j]) {
      NoRequestLost(es);
    }
  }

  // ---- Progress ----

  /** An internal step that is possible outside quiescence. */
  function NextStep(s: State): Event {
    if s.logging then Log
    else match s.handler
      case Checking => if s.entry then Skip else Pass
      case Listing => ListOk
      case Updating => Done
      case Reporting => Report
      case Receiving =>
        match s.reaper
        case Resting => Condemn
        case Condemned => Delete
        case Sending => Handoff
  }

  lemma {:induction false} NoDeadlock(s: State)
    requires !Quiescent(s)
    ensures NextStep(s) != Request && Step(s, NextStep(s)).Some?
  {
  }

  /** The number of internal steps left without new requests. */
  function Work(s: State): nat {
    (if s.entry then if s.reaper.Condemned? then 8 else 9 else 0)
    + (if s.reaper.Sending? then 7 else 0)
    + (match s.handler
       case Receiving => 0
       case Checking => 6
       case Listing => 5
       case Updating => 4
       case Reporting => 3)
    + (if s.logging then 1 else 0)
  }

  lemma {:induction false} WorkDecreases(s: State, e: Event)
    requires Consistent(s) && e != Request && Step(s, e).Some?
    ensures Work(Step(s, e).value) < Work(s)
  {
  }

  lemma {:induction false} RunAppend(s: State, a: seq<Event>, b: seq<Event>)
    ensures Run(s, a + b) == match Run(s, a) { case None => None case Some(t) => Run(t, b) }
  {
    if b == [] {
      assert a + b == a;
    } else {
      assert (a + b)[..|a + b| - 1] == a + b[..|b| - 1];
      RunAppend(s, a, b[..|b| - 1]);
    }
  }

  lemma {:induction false} InternalRunBounded(s: State, es: seq<Event>)
    requires Consistent(s) && Run(s, es).Some? && Request !in es
    ensures Consistent(Run(s, es).value) && Work(Run(s, es).value) + |es| <= Work(s)
  {
    if es != [] {
      InternalRunBounded(s, es[..|es| - 1]);
      assert Last(es) in es;
      WorkDecreases(Run(s, es[..|es| - 1]).value, Last(es));
    }
  }

  /** Once requests stop, every run is short, and when it cannot go on each request made before
      has been followed by a listing, whatever listings and updates failed. */
  lemma {:induction false} EveryRequestServed(es: seq<Event>, fs: seq<Event>, i: nat)
    requires Run(INIT, es).Some? && i < |es| && es[i] == Request
    requires Run(INIT, es + fs).Some? && Request !in fs
    ensures |fs| <= Work(Run(INIT, es).value) <= 23
    ensures (forall e :: e != Request ==> Step(Run(INIT, es + fs).value, e).None?) ==>
            exists j :: i < j < |es + fs| && IsListing((es + fs)[j])
  {
    RunConsistent(es);
    RunAppend(INIT, es, fs);
    InternalRunBounded(Run(INIT, es).value, fs);
    var s := Run(INIT, es + fs).value;
    if forall e :: e != Request ==> Step(s, e).None? {
      if !Quiescent(s) {
        NoDeadlock(s);
      }
      QuiescentServed(es + fs, i);
    }
  }
}
