/** The goroutines of the server in polling mode (server/server.go), joined by unbuffered
    channels: main, the poller, the event loop, the error handler and the restart handler. */
module ServerNetwork {
  import opened Wrappers
  import opened Lists

  /** Starting: main is sending the first restart signal. The poller is started after that. */
  datatype Main = Starting | Started

  /** Posting: the poller is sending a message on the event channel. */
  datatype Poller = Waiting | Posting

  /** Notifying(i): about to hand the event to extension i. Failing(i): sending the error of
      extension i, which reports a Swarm error or another one. */
  datatype Loop = Receiving | Notifying(i: nat) | Failing(i: nat, swarm: bool)

  datatype ErrorHandler = Ready | Classifying(swarm: bool) | AwaitingSwarm | Restarting

  datatype RestartHandler = Idle | Preparing

  datatype State = State(main: Main, poller: Poller, loop: Loop, err: ErrorHandler, restart: RestartHandler)

  /** Post is the poller finding a change. The other events are internal. Take, SendError,
      FirstRestart and SendRestart are steps of a sender and a receiver. */
  datatype Event =
    | Post
    | FirstRestart
    | Take
    | Notify | NotifyFails(swarm: bool) | SendError | EventDone
    | Classify | SwarmReady | SendRestart
    | Prepared

  const INIT := State(Starting, Waiting, Receiving, Ready, Idle)

  /** The step of an event with n extensions, None when it is not possible. */
  function Step(n: nat, s: State, e: Event): Option<State> {
    match e
    case Post => if s.main.Started? && s.poller.Waiting? then Some(s.(poller := Posting)) else None
    case FirstRestart =>
      if s.main.Starting? && s.restart.Idle? then Some(s.(main := Started, restart := Preparing)) else None
    case Take =>
      if s.poller.Posting? && s.loop.Receiving? then Some(s.(poller := Waiting, loop := Notifying(0))) else None
    case Notify =>
      if s.loop.Notifying? && s.loop.i < n then Some(s.(loop := Notifying(s.loop.i + 1))) else None
    case NotifyFails(swarm) =>
      if s.loop.Notifying? && s.loop.i < n then Some(s.(loop := Failing(s.loop.i, swarm))) else None
    case SendError =>
      if s.loop.Failing? && s.err.Ready? then
        Some(s.(loop := Notifying(s.loop.i + 1), err := Classifying(s.loop.swarm)))
      else
        None
    case EventDone =>
      if s.loop.Notifying? && s.loop.i >= n then Some(s.(loop := Receiving)) else None
    case Classify =>
      if s.err.Classifying? then Some(s.(err := if s.err.swarm then AwaitingSwarm else Ready)) else None
    case SwarmReady => if s.err.AwaitingSwarm? then Some(s.(err := Restarting)) else None
    case SendRestart =>
      if s.err.Restarting? && s.restart.Idle? then Some(s.(err := Ready, restart := Preparing)) else None
    case Prepared => if s.restart.Preparing? then Some(s.(restart := Idle)) else None
  }

  function Run(n: nat, es: seq<Event>): Option<State> {
    if es == [] then
      Some(INIT)
    else
      match Run(n, es[..|es| - 1])
      case None => None
      case Some(s) => Step(n, s, Last(es))
  }

  /** Some goroutine is blocked in a send. */
  predicate SendBlocked(s: State) {
    s.main.Starting? || s.poller.Posting? || s.loop.Failing? || s.err.Restarting?
  }

  predicate AllIdle(s: State) {
    s.main.Started? && s.poller.Waiting? && s.loop.Receiving? && s.err.Ready? && s.restart.Idle?
  }

  /** An internal step that is possible unless all goroutines are idle. */
  function NextStep(n: nat, s: State): Event {
    if s.restart.Preparing? then Prepared
    else if s.main.Starting? then FirstRestart
    else match s.err
      case Classifying(_) => Classify
      case AwaitingSwarm => SwarmReady
      case Restarting => SendRestart
      case Ready =>
        match s.loop
        case Failing(_, _) => SendError
        case Notifying(i) => if i < n then Notify else EventDone
        case Receiving => Take
  }

  /** Whoever is blocked, somebody can step: there is no deadlock. */
  lemma {:induction false} NoDeadlock(n: nat, s: State)
    ensures SendBlocked(s) ==> !AllIdle(s)
    ensures !AllIdle(s) ==> NextStep(n, s) != Post && Step(n, s, NextStep(n, s)).Some?
  {
  }

  function LoopWork(n: nat, loop: Loop): nat {
    match loop
    case Receiving => 0
    case Notifying(i) => 1 + if i < n then (n - i) * 8 else 0
    case Failing(i, _) => 7 + if i + 1 < n then (n - i - 1) * 8 else 0
  }

  /** An upper bound on the internal steps left when the poller posts nothing new. */
  function Work(n: nat, s: State): nat {
    (if s.main.Starting? then 2 else 0)
    + (if s.poller.Posting? then n * 8 + 3 else 0)
    + LoopWork(n, s.loop)
    + (match s.err
       case Ready => 0
       case Classifying(_) => 5
       case AwaitingSwarm => 4
       case Restarting => 3)
    + (if s.restart.Preparing? then 1 else 0)
  }

  lemma {:induction false} WorkDecreases(n: nat, s: State, e: Event)
    requires e != Post && Step(n, s, e).Some?
    ensures Work(n, Step(n, s, e).value) < Work(n, s)
  {
  }

  /** Without new posts the work bounds every run; whatever errors the extensions return, a run
      that cannot go on has all goroutines idle. */
  lemma {:induction false} RunsEndIdle(n: nat, es: seq<Event>, fs: seq<Event>)
    requires Run(n, es).Some? && Run(n, es + fs).Some? && Post !in fs
    ensures Work(n, Run(n, es + fs).value) + |fs| <= Work(n, Run(n, es).value)
    ensures (forall e :: e != Post ==> Step(n, Run(n, es + fs).value, e).None?) <==> AllIdle(Run(n, es + fs).value)
  {
    if fs == [] {
      assert es + fs == es;
    } else {
      var init := es + fs[..|fs| - 1];
      assert (es + fs)[..|es + fs| - 1] == init && Last(es + fs) == Last(fs) && Last(fs) in fs;
      RunsEndIdle(n, es, fs[..|fs| - 1]);
      WorkDecreases(n, Run(n, init).value, Last(fs));
    }
    NoDeadlock(n, Run(n, es + fs).value);
  }

  /** The Swarm errors of the extensions that the error handler has not answered yet. */
  function Unanswered(s: State): nat {
    (if s.loop.Failing? && s.loop.swarm then 1 else 0)
    + (match s.err
       case Ready => 0
       case Classifying(swarm) => if swarm then 1 else 0
       case AwaitingSwarm => 1
       case Restarting => 1)
  }

  /** The error handler answers Swarm errors, and no others, with one restart each: restarts and
      unanswered errors are the Swarm errors of the run, so all are answered when all are idle. */
  lemma {:induction false} RestartsAnswerSwarmErrors(n: nat, es: seq<Event>)
    requires Run(n, es).Some?
    ensures Count(es, NotifyFails(true)) == Count(es, SendRestart) + Unanswered(Run(n, es).value)
    ensures AllIdle(Run(n, es).value) ==> Count(es, SendRestart) == Count(es, NotifyFails(true))
  {
    if es != [] {
      RestartsAnswerSwarmErrors(n, es[..|es| - 1]);
    }
  }

  /** Every error is sent to the error handler, at most one being in flight. */
  lemma {:induction false} ErrorsAreSent(n: nat, es: seq<Event>)
    requires Run(n, es).Some?
    ensures Count(es, NotifyFails(true)) + Count(es, NotifyFails(false))
         == Count(es, SendError) + if Run(n, es).value.loop.Failing? then 1 else 0
  {
    if es != [] {
      ErrorsAreSent(n, es[..|es| - 1]);
    }
  }

  /** The restart handler prepares once for each restart, the first one included. */
  lemma {:induction false} RestartsArePrepared(n: nat, es: seq<Event>)
    requires Run(n, es).Some?
    ensures Count(es, FirstRestart) == if Run(n, es).value.main.Started? then 1 else 0
    ensures Count(es, FirstRestart) + Count(es, SendRestart)
         == Count(es, Prepared) + if Run(n, es).value.restart.Preparing? then 1 else 0
  {
    if es != [] {
      RestartsArePrepared(n, es[..|es| - 1]);
    }
  }

  /** Posted messages are the ones the event loop took, and at most one in flight. */
  lemma {:induction false} PostsAreTaken(n: nat, es: seq<Event>)
    requires Run(n, es).Some?
    ensures Count(es, Post) == Count(es, Take) + if Run(n, es).value.poller.Posting? then 1 else 0
  {
    if es != [] {
      PostsAreTaken(n, es[..|es| - 1]);
    }
  }
}
