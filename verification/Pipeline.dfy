/** From the poller to the container listing: the server's goroutines in polling mode with one
    load balancer extension among the n extensions. */
module Pipeline {
  import opened Wrappers
  import opened Lists
  import Net = ServerNetwork
  import LB = Reload

  /** lb is the position of the load balancer in the list of extensions; exposed and probe are
      what Docker answers to its event handler. */
  datatype Config = Config(n: nat, lb: nat, exposed: string -> bool, probe: nat -> LB.Probe)

  datatype State = State(net: Net.State, reload: LB.State)

  /** Notified: the load balancer's event handler gets the poller's message. The event loop drops
      messages with neither ID nor type; the poller's ID is the time. */
  datatype Event = Server(net: Net.Event) | Balancer(reload: LB.Event) | Notified(id: string)

  const INIT := State(Net.INIT, LB.INIT)

  predicate AtBalancer(c: Config, s: Net.State) {
    s.loop.Notifying? && s.loop.i == c.lb
  }

  function Step(c: Config, s: State, e: Event): Option<State> {
    match e
    case Server(n) =>
      if (n.Notify? || n.NotifyFails?) && AtBalancer(c, s.net) then None
      else (match Net.Step(c.n, s.net, n) case None => None case Some(t) => Some(s.(net := t)))
    case Balancer(r) =>
      if r.Request? then None
      else (match LB.Step(s.reload, r) case None => None case Some(t) => Some(s.(reload := t)))
    case Notified(id) => if id != "" && AtBalancer(c, s.net) then Handle(c, s, id) else None
  }

  /** What the event handler makes of the message: an error, a request for a reload, or nothing. */
  function Handle(c: Config, s: State, id: string): Option<State> {
    match LB.Wants(LB.PollMessage(id), c.exposed, c.probe)
    case Failure(_) =>
      (match Net.Step(c.n, s.net, Net.NotifyFails(false)) case None => None case Some(t) => Some(s.(net := t)))
    case Success(wanted) =>
      (match (Net.Step(c.n, s.net, Net.Notify), LB.Step(s.reload, LB.Request))
       case (Some(t), Some(u)) => Some(State(t, if wanted then u else s.reload))
       case _ => None)
  }

  function Run(c: Config, es: seq<Event>): Option<State> {
    if es == [] then
      Some(INIT)
    else
      match Run(c, es[..|es| - 1])
      case None => None
      case Some(s) => Step(c, s, Last(es))
  }

  predicate IsPost(e: Event) {
    e.Server? && e.net.Post?
  }

  predicate IsListing(e: Event) {
    e.Balancer? && LB.IsListing(e.reload)
  }

  /** The change is on its way: the poller is posting it, the event loop has not come to the load
      balancer yet, or the load balancer's own protocol covers it. */
  predicate OnItsWay(c: Config, s: State) {
    || s.net.poller.Posting?
    || (s.net.loop.Notifying? && s.net.loop.i <= c.lb)
    || (s.net.loop.Failing? && s.net.loop.i < c.lb)
    || LB.Covered(s.reload)
  }

  /** The poller's message always becomes a request: the event handler neither fails nor drops it. */
  lemma {:induction false} MessageIsRequest(c: Config, s: State, id: string)
    requires c.lb < c.n && AtBalancer(c, s.net)
    ensures Net.Step(c.n, s.net, Net.Notify).Some?
    ensures Handle(c, s, id)
         == Some(State(Net.Step(c.n, s.net, Net.Notify).value, LB.Step(s.reload, LB.Request).value))
  {
    LB.PollMessageReloads(id, c.exposed, c.probe);
  }

  lemma {:induction false} StepKeeps(c: Config, s: State, e: Event)
    requires c.lb < c.n && OnItsWay(c, s) && Step(c, s, e).Some?
    ensures IsListing(e) || OnItsWay(c, Step(c, s, e).value)
  {
    if e.Balancer? && LB.Covered(s.reload) {
      LB.CoverKept(s.reload, e.reload);
    }
    if e.Notified? {
      MessageIsRequest(c, s, e.id);
    }
  }

  /** A change that the poller has posted and that no listing has followed is on its way. */
  lemma {:induction false} ChangeOnItsWay(c: Config, es: seq<Event>, i: nat)
    requires c.lb < c.n && Run(c, es).Some? && i < |es| && IsPost(es[i])
    requires forall j :: i < j < |es| ==> !IsListing(es[j])
    ensures OnItsWay(c, Run(c, es).value)
  {
    if i < |es| - 1 {
      var init := es[..|es| - 1];
      assert forall j :: i < j < |init| ==> !IsListing(init[j]);
      ChangeOnItsWay(c, init, i);
      StepKeeps(c, Run(c, init).value, Last(es));
    }
  }

  predicate Quiescent(s: State) {
    Net.AllIdle(s.net) && LB.Quiescent(s.reload)
  }

  lemma {:induction false} RunConsistent(c: Config, es: seq<Event>)
    requires Run(c, es).Some?
    ensures LB.Consistent(Run(c, es).value.reload)
  {
    if es != [] {
      RunConsistent(c, es[..|es| - 1]);
    }
  }

  /** Outside quiescence the system can take a step that is not a new change. */
  lemma {:induction false} NoDeadlock(c: Config, s: State)
    requires c.lb < c.n && !Quiescent(s)
    ensures exists e :: !IsPost(e) && Step(c, s, e).Some?
  {
    if !LB.Quiescent(s.reload) {
      LB.NoDeadlock(s.reload);
      assert Step(c, s, Balancer(LB.NextStep(s.reload))).Some?;
    } else if AtBalancer(c, s.net) {
      MessageIsRequest(c, s, "0");
      assert Step(c, s, Notified("0")).Some?;
    } else {
      Net.NoDeadlock(c.n, s.net);
      var e := Server(Net.NextStep(c.n, s.net));
      assert !IsPost(e) && Step(c, s, e).Some?;
    }
  }

  /** One step of work in the server may cost the load balancer a whole reload. */
  function Work(c: Config, s: State): nat {
    Net.Work(c.n, s.net) * 10 + LB.Work(s.reload)
  }

  lemma {:induction false} WorkDecreases(c: Config, s: State, e: Event)
    requires LB.Consistent(s.reload) && !IsPost(e) && Step(c, s, e).Some?
    ensures Work(c, Step(c, s, e).value) < Work(c, s)
  {
    match e
    case Server(n) => Net.WorkDecreases(c.n, s.net, n);
    case Balancer(r) => LB.WorkDecreases(s.reload, r);
    case Notified(id) =>
      MessageIsRequest(c, s, id);
      Net.WorkDecreases(c.n, s.net, Net.Notify);
      RequestWork(s.reload);
  }

  lemma {:induction false} RequestWork(s: LB.State)
    ensures LB.Work(LB.Step(s, LB.Request).value) <= LB.Work(s) + 9
  {
  }

  lemma {:induction false} RunBounded(c: Config, es: seq<Event>, fs: seq<Event>)
    requires Run(c, es).Some? && Run(c, es + fs).Some? && forall e :: e in fs ==> !IsPost(e)
    ensures Work(c, Run(c, es + fs).value) + |fs| <= Work(c, Run(c, es).value)
  {
    if fs == [] {
      assert es + fs == es;
    } else {
      var init := es + fs[..|fs| - 1];
      assert (es + fs)[..|es + fs| - 1] == init && Last(es + fs) == Last(fs) && Last(fs) in fs;
      assert forall e :: e in fs[..|fs| - 1] ==> e in fs;
      RunBounded(c, es, fs[..|fs| - 1]);
      RunConsistent(c, init);
      WorkDecreases(c, Run(c, init).value, Last(fs));
    }
  }

  /** Every change that the poller finds reaches the load balancer: once no new changes are found
      every run is bounded, and when it cannot go on each change has been followed by a container
      listing, whatever the other extensions and the updates fail with. */
  lemma {:induction false} EveryChangeIsListed(c: Config, es: seq<Event>, fs: seq<Event>, i: nat)
    requires c.lb < c.n && Run(c, es).Some? && i < |es| && IsPost(es[i])
    requires Run(c, es + fs).Some? && forall e :: e in fs ==> !IsPost(e)
    ensures |fs| <= Work(c, Run(c, es).value)
    ensures (forall e :: !IsPost(e) ==> Step(c, Run(c, es + fs).value, e).None?) ==>
            exists j :: i < j < |es + fs| && IsListing((es + fs)[j])
  {
    RunBounded(c, es, fs);
    var s := Run(c, es + fs).value;
    if forall e :: !IsPost(e) ==> Step(c, s, e).None? {
      if !Quiescent(s) {
        NoDeadlock(c, s);
      }
      if forall j :: i < j < |es + fs| ==> !IsListing((es + fs)[j]) {
        ChangeOnItsWay(c, es + fs, i);
      }
    }
  }
}
