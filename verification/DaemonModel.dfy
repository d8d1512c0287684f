/** The run protocol of the client daemon (client/server/server.go with the retry operation of
    client/internal/connect.go): RPCs under one mutex and the connectWithRetryRuns goroutines,
    as atomic steps that interleave freely. */
module DaemonModel {
  import opened Prelude

  /** One connectWithRetryRuns goroutine and what it was started with. `finished` means that its
      retry loop is over and only the deferred reset of clientRunning is left. */
  datatype Activation = Activation(ctx: nat, running: nat, giveUp: nat, autoConnect: bool, finished: bool)

  /** Contexts, channels and goroutines are numbered by `next`. `closes` counts how often each
      channel was closed; `panicked` records a close of a closed channel. */
  datatype Daemon = Daemon(
    clientRunning: bool,
    runningChan: Option<nat>,
    giveUpChan: Option<nat>,
    actCancel: Option<nat>,
    connectClient: Option<nat>,
    live: map<nat, Activation>,
    closes: multiset<nat>,
    cancelled: set<nat>,
    next: nat,
    panicked: bool)

  const INIT: Daemon := Daemon(false, None, None, None, None, map[], multiset{}, {}, 0, false)

  /** How far Start or Up got: refused at once, returned after installing its context, or
      launched the goroutine. While a client runs, Up is refused or it waits. */
  datatype Progress = Refused | Prepared | Launched

  datatype Step =
    | StartRpc(progress: Progress, autoConnect: bool)
    | UpRpc(progress: Progress, autoConnect: bool, needsLogin: bool)
    | LoginRpc
    | StatusRpc(cancels: bool)
    | StatusTick(cancels: bool)
    | DownRpc(stopOk: bool)
    | Connect(id: nat)
    | EngineStarted(id: nat)
    | Finish(id: nat)
    | Reset(id: nat)

  function Cancel(d: Daemon): Daemon {
    if d.actCancel.Some? then d.(cancelled := d.cancelled + {d.actCancel.value}) else d
  }

  function CloseChan(d: Daemon, c: nat): Daemon {
    d.(panicked := d.panicked || c in d.closes, closes := d.closes + multiset{c})
  }

  /** Installs a new context as the one that actCancel cancels. */
  function NewContext(d: Daemon): Daemon {
    d.(actCancel := Some(d.next), next := d.next + 1)
  }

  /** Marks the client as running and starts the goroutine under the newest context. */
  function Launch(d: Daemon, ctx: nat, autoConnect: bool): Daemon {
    var r, g, id := d.next, d.next + 1, d.next + 2;
    d.(clientRunning := true, runningChan := Some(r), giveUpChan := Some(g), next := d.next + 3,
       live := d.live[id := Activation(ctx, r, g, autoConnect, false)])
  }

  function Begin(d: Daemon, progress: Progress, autoConnect: bool): Daemon {
    match progress
    case Refused => d
    case Prepared => NewContext(d)
    case Launched => Launch(NewContext(d), d.next, autoConnect)
  }

  function Up(d: Daemon, progress: Progress, autoConnect: bool, needsLogin: bool): Daemon {
    if d.clientRunning then (if progress != Refused && needsLogin then Cancel(d) else d)
    else Begin(if progress == Refused then d else Cancel(d), progress, autoConnect)
  }

  /** `cleanupConnection`; without a context there is nothing to shut down. */
  function CleanupConnection(d: Daemon, stopOk: bool): Daemon {
    if d.actCancel.None? then d
    else
      var d1 := Cancel(d);
      if d1.connectClient.None? || !stopOk then d1 else d1.(connectClient := None)
  }

  /** The retry operation closes the running channel unless it is closed already. */
  function SignalRunning(d: Daemon, a: Activation): Daemon {
    if a.running in d.closes then d else CloseChan(d, a.running)
  }

  function FinishRun(d: Daemon, id: nat): Daemon
    requires id in d.live
  {
    var a := d.live[id];
    var d1 := if a.autoConnect then CloseChan(d, a.giveUp) else d;
    d1.(live := d1.live[id := a.(finished := true)])
  }

  function Next(d: Daemon, s: Step): Daemon {
    match s
    case StartRpc(progress, autoConnect) => if d.clientRunning then d else Begin(d, progress, autoConnect)
    case UpRpc(progress, autoConnect, needsLogin) => Up(d, progress, autoConnect, needsLogin)
    case LoginRpc => NewContext(Cancel(d))
    case StatusRpc(cancels) => if d.clientRunning && cancels then Cancel(d) else d
    case StatusTick(cancels) => if cancels then Cancel(d) else d
    case DownRpc(stopOk) => CleanupConnection(d, stopOk)
    case Connect(id) => if id in d.live && !d.live[id].finished then d.(connectClient := Some(id)) else d
    case EngineStarted(id) => if id in d.live && !d.live[id].finished then SignalRunning(d, d.live[id]) else d
    case Finish(id) => if id in d.live && !d.live[id].finished then FinishRun(d, id) else d
    case Reset(id) =>
      if id in d.live && d.live[id].finished then d.(clientRunning := false, live := d.live - {id}) else d
  }

  function Run(d: Daemon, steps: seq<Step>): Daemon {
    if steps == [] then d else Next(Run(d, steps[..|steps| - 1]), steps[|steps| - 1])
  }

  // -------------------------------------------------------------------- invariant

  predicate Sane(d: Daemon, id: nat, a: Activation) {
    && a.ctx < d.next && a.running < d.next && a.giveUp < d.next && id < d.next
    && a.running != a.giveUp
    && d.runningChan == Some(a.running) && d.giveUpChan == Some(a.giveUp)
    && (a.giveUp in d.closes <==> a.finished && a.autoConnect)
    && (a.ctx in d.cancelled || d.actCancel == Some(a.ctx))
  }

  ghost predicate Inv(d: Daemon) {
    && !d.panicked
    && (forall c :: d.closes[c] <= 1)
    && (forall c :: c in d.closes ==> c < d.next)
    && (forall i, j :: i in d.live && j in d.live ==> i == j)
    && (d.clientRunning <==> d.live != map[])
    && (forall id :: id in d.live ==> Sane(d, id, d.live[id]))
  }

  lemma EmptyIffNoKey(d: Daemon)
    ensures d.live == map[] <==> forall id :: id !in d.live
  {
    if d.live != map[] {
      assert d.live.Keys != {};
    }
  }

  lemma CancelKeeps(d: Daemon)
    requires Inv(d)
    ensures Inv(Cancel(d))
  {
  }

  lemma NewContextKeeps(d: Daemon)
    requires Inv(d) && (d.live == map[] || d.actCancel.None? || d.actCancel.value in d.cancelled)
    ensures Inv(NewContext(d))
  {
    var d' := NewContext(d);
    forall id | id in d'.live ensures Sane(d', id, d'.live[id]) {
      assert Sane(d, id, d.live[id]);
    }
  }

  lemma LaunchKeeps(d: Daemon, autoConnect: bool)
    requires Inv(d) && !d.clientRunning
    ensures Inv(Launch(NewContext(d), d.next, autoConnect))
  {
    EmptyIffNoKey(d);
    var d' := Launch(NewContext(d), d.next, autoConnect);
    assert d'.live.Keys == {d.next + 3};
    assert d'.live != map[] by { assert d.next + 3 in d'.live; }
  }

  lemma BeginKeeps(d: Daemon, progress: Progress, autoConnect: bool)
    requires Inv(d) && !d.clientRunning
    ensures Inv(Begin(d, progress, autoConnect))
  {
    if progress == Prepared { NewContextKeeps(d); }
    if progress == Launched { LaunchKeeps(d, autoConnect); }
  }

  lemma CloseKeeps(d: Daemon, c: nat)
    requires c !in d.closes && forall x :: d.closes[x] <= 1
    ensures var d' := CloseChan(d, c);
      && d'.panicked == d.panicked && (forall x :: d'.closes[x] <= 1)
      && (forall x :: x in d'.closes <==> x in d.closes || x == c)
  {
  }

  lemma SignalKeeps(d: Daemon, id: nat)
    requires Inv(d) && id in d.live
    ensures Inv(SignalRunning(d, d.live[id]))
  {
    var a := d.live[id];
    assert Sane(d, id, a);
    if a.running !in d.closes {
      CloseKeeps(d, a.running);
      var d' := CloseChan(d, a.running);
      forall i | i in d'.live ensures Sane(d', i, d'.live[i]) {
        assert i == id;
      }
    }
  }

  lemma FinishKeeps(d: Daemon, id: nat)
    requires Inv(d) && id in d.live && !d.live[id].finished
    ensures Inv(FinishRun(d, id))
  {
    var a := d.live[id];
    assert Sane(d, id, a);
    if a.autoConnect { CloseKeeps(d, a.giveUp); }
    var d' := FinishRun(d, id);
    assert d'.live.Keys == d.live.Keys;
    assert d'.live != map[] by { assert id in d'.live; }
    forall i | i in d'.live ensures Sane(d', i, d'.live[i]) {
      assert i == id;
    }
  }

  lemma ResetKeeps(d: Daemon, id: nat)
    requires Inv(d) && id in d.live
    ensures Inv(d.(clientRunning := false, live := d.live - {id}))
  {
    assert d.live - {id} == map[];
  }

  lemma StepKeeps(d: Daemon, s: Step)
    requires Inv(d)
    ensures Inv(Next(d, s))
  {
    CancelKeeps(d);
    match s {
      case StartRpc(progress, autoConnect) =>
        if !d.clientRunning { BeginKeeps(d, progress, autoConnect); }
      case UpRpc(progress, autoConnect, _) =>
        if !d.clientRunning { BeginKeeps(if progress == Refused then d else Cancel(d), progress, autoConnect); }
      case LoginRpc => NewContextKeeps(Cancel(d));
      case StatusRpc(_) | StatusTick(_) =>
      case DownRpc(_) =>
      case Connect(_) =>
      case EngineStarted(id) => if id in d.live { SignalKeeps(d, id); }
      case Finish(id) => if id in d.live && !d.live[id].finished { FinishKeeps(d, id); }
      case Reset(id) => if id in d.live { ResetKeeps(d, id); }
    }
  }

  /** Over every interleaving: at most one goroutine is alive, clientRunning is true exactly
      while one has not run its deferred reset, and no channel is ever closed twice. */
  lemma {:induction false} RunSafe(steps: seq<Step>)
    ensures var d := Run(INIT, steps);
      && Inv(d)
      && |d.live| <= 1
      && (d.clientRunning <==> |d.live| == 1)
      && !d.panicked && (forall c :: d.closes[c] <= 1)
  {
    if steps != [] {
      RunSafe(steps[..|steps| - 1]);
      StepKeeps(Run(INIT, steps[..|steps| - 1]), steps[|steps| - 1]);
    }
    AtMostOne(Run(INIT, steps));
  }

  lemma AtMostOne(d: Daemon)
    requires Inv(d)
    ensures |d.live| <= 1 && (d.clientRunning <==> |d.live| == 1)
  {
    if d.live != map[] {
      EmptyIffNoKey(d);
      var id :| id in d.live;
      assert d.live.Keys == {id};
    }
  }

  // ---------------------------------------------------------------- consequences

  /** Whatever happened before, Down reaches the goroutine that is alive: its context is
      cancelled, even when a Login replaced actCancel meanwhile. */
  lemma DownCancelsTheClient(steps: seq<Step>, stopOk: bool)
    ensures var d := Run(INIT, steps);
      forall id :: id in d.live ==> d.live[id].ctx in Next(d, DownRpc(stopOk)).cancelled
  {
    RunSafe(steps);
    var d := Run(INIT, steps);
    forall id | id in d.live ensures d.live[id].ctx in Next(d, DownRpc(stopOk)).cancelled {
      assert Sane(d, id, d.live[id]);
    }
  }

  /** The step calls actCancel: an Up that is not turned away and finds the client waiting for a
      login, a Login, a Status that finds a running client in need of attention or a round of its
      wait that does, and a Down. */
  predicate Stops(d: Daemon, s: Step) {
    match s
    case UpRpc(progress, _, needsLogin) => d.live != map[] && progress != Refused && needsLogin
    case LoginRpc => true
    case StatusRpc(cancels) => d.live != map[] && cancels
    case StatusTick(cancels) => cancels
    case DownRpc(_) => true
    case _ => false
  }

  /** Whatever happened before, the context of the goroutine that is alive is cancelled by exactly
      these steps, even when a Login has replaced actCancel meanwhile. */
  lemma CancelledIff(steps: seq<Step>, s: Step, id: nat)
    requires id in Run(INIT, steps).live && id in Next(Run(INIT, steps), s).live
    ensures var d := Run(INIT, steps); var d' := Next(d, s);
      && d'.live[id].ctx == d.live[id].ctx
      && (d'.live[id].ctx in d'.cancelled <==> d.live[id].ctx in d.cancelled || Stops(d, s))
  {
    RunSafe(steps);
    CancelledFromInv(Run(INIT, steps), s, id);
  }

  lemma CancelledFromInv(d: Daemon, s: Step, id: nat)
    requires Inv(d) && id in d.live && id in Next(d, s).live
    ensures var d' := Next(d, s);
      && d'.live[id].ctx == d.live[id].ctx
      && (d'.live[id].ctx in d'.cancelled <==> d.live[id].ctx in d.cancelled || Stops(d, s))
  {
    assert d.live != map[];
    assert Sane(d, id, d.live[id]);
  }

  /** A step that does not stop the client leaves the cancelled contexts alone while one is alive. */
  lemma NothingCancelled(steps: seq<Step>, s: Step)
    requires Run(INIT, steps).live != map[] && !Stops(Run(INIT, steps), s)
    ensures Next(Run(INIT, steps), s).cancelled == Run(INIT, steps).cancelled
  {
    RunSafe(steps);
  }

  /** The goroutines after a step: a Start or Up that reaches the launch with none alive adds one,
      Finish marks one whose loop was not over, Reset removes one whose loop was. */
  lemma LiveIff(steps: seq<Step>, s: Step, id: nat)
    ensures var d := Run(INIT, steps); var d' := Next(d, s);
      && (id in d.live ==> (id in d'.live <==> !(s == Reset(id) && d.live[id].finished)))
      && (id in d.live && id in d'.live ==>
            d'.live[id] == d.live[id].(finished := d.live[id].finished || s == Finish(id)))
      && (id !in d.live && id in d'.live ==>
            d.live == map[] && (s.StartRpc? || s.UpRpc?) && s.progress == Launched)
      && (d.live == map[] && (s.StartRpc? || s.UpRpc?) && s.progress == Launched ==> d'.live != map[])
  {
    RunSafe(steps);
    LiveFromInv(Run(INIT, steps), s, id);
  }

  lemma LiveFromInv(d: Daemon, s: Step, id: nat)
    requires Inv(d)
    ensures var d' := Next(d, s);
      && (id in d.live ==> (id in d'.live <==> !(s == Reset(id) && d.live[id].finished)))
      && (id in d.live && id in d'.live ==>
            d'.live[id] == d.live[id].(finished := d.live[id].finished || s == Finish(id)))
      && (id !in d.live && id in d'.live ==>
            d.live == map[] && (s.StartRpc? || s.UpRpc?) && s.progress == Launched)
      && (d.live == map[] && (s.StartRpc? || s.UpRpc?) && s.progress == Launched ==> d'.live != map[])
  {
    if d.live == map[] && (s.StartRpc? || s.UpRpc?) && s.progress == Launched {
      assert d.next + 3 in Next(d, s).live;
    }
  }

  /** A goroutine starts with a context of its own that is not cancelled, with open channels, which
      are the ones that a waiting Up looks at, and with the caller's automatic connection. */
  lemma LaunchedFresh(steps: seq<Step>, s: Step, id: nat)
    requires id !in Run(INIT, steps).live && id in Next(Run(INIT, steps), s).live
    ensures (s.StartRpc? || s.UpRpc?) && Pristine(Next(Run(INIT, steps), s), id, s.autoConnect)
  {
    RunSafe(steps);
    CancelledAreOld(steps);
    LaunchedFromInv(Run(INIT, steps), s, id);
  }

  predicate Pristine(d: Daemon, id: nat, autoConnect: bool)
    requires id in d.live
  {
    var a := d.live[id];
    && a.autoConnect == autoConnect && !a.finished
    && a.ctx !in d.cancelled && a.running !in d.closes && a.giveUp !in d.closes
    && d.runningChan == Some(a.running) && d.giveUpChan == Some(a.giveUp) && d.actCancel == Some(a.ctx)
  }

  lemma LaunchedFromInv(d: Daemon, s: Step, id: nat)
    requires Inv(d) && ContextsOld(d) && id !in d.live && id in Next(d, s).live
    ensures (s.StartRpc? || s.UpRpc?) && Pristine(Next(d, s), id, s.autoConnect)
  {
    LiveFromInv(d, s, id);
    var d0 := if s.UpRpc? then Cancel(d) else d;
    assert Next(d, s) == Launch(NewContext(d0), d0.next, s.autoConnect);
  }

  predicate ContextsOld(d: Daemon) {
    (forall c :: c in d.cancelled ==> c < d.next) && (d.actCancel.Some? ==> d.actCancel.value < d.next)
  }

  lemma {:induction false} CancelledAreOld(steps: seq<Step>)
    ensures ContextsOld(Run(INIT, steps))
  {
    if steps != [] {
      CancelledAreOld(steps[..|steps| - 1]);
      ContextsStayOld(Run(INIT, steps[..|steps| - 1]), steps[|steps| - 1]);
    }
  }

  lemma ContextsStayOld(d: Daemon, s: Step)
    requires ContextsOld(d)
    ensures ContextsOld(Next(d, s))
  {
  }

  /** The step installs a new context: a Login, or a Start or Up that gets that far with no client. */
  predicate Installs(d: Daemon, s: Step) {
    s.LoginRpc? || ((s.StartRpc? || s.UpRpc?) && d.live == map[] && s.progress != Refused)
  }

  /** Exactly these steps replace the context that Down and Login cancel, by a new one that is not
      cancelled; without any of them before it, Down reports that the service is not up. */
  lemma ContextInstalled(steps: seq<Step>, s: Step)
    ensures var d := Run(INIT, steps); var d' := Next(d, s);
      if Installs(d, s) then
        d'.actCancel.Some? && d'.actCancel.value >= d.next && d'.actCancel.value !in d'.cancelled
      else d'.actCancel == d.actCancel
  {
    RunSafe(steps);
    CancelledAreOld(steps);
    InstalledFromInv(Run(INIT, steps), s);
  }

  lemma InstalledFromInv(d: Daemon, s: Step)
    requires Inv(d) && ContextsOld(d)
    ensures var d' := Next(d, s);
      if Installs(d, s) then
        d'.actCancel.Some? && d'.actCancel.value >= d.next && d'.actCancel.value !in d'.cancelled
      else d'.actCancel == d.actCancel
  {
  }

  /** Which connect client is published: the latest that connected, until a Down that stops it. */
  lemma ConnectClientIff(steps: seq<Step>, s: Step)
    ensures var d := Run(INIT, steps); var d' := Next(d, s);
      d'.connectClient ==
        if s.Connect? && s.id in d.live && !d.live[s.id].finished then Some(s.id)
        else if s.DownRpc? && s.stopOk && d.actCancel.Some? then None
        else d.connectClient
  {
  }

  /** The give-up channel of a goroutine whose retry loop is over is closed exactly when
      auto-connect was enabled, contrary to the comment on the field. */
  lemma GiveUpIff(steps: seq<Step>, id: nat)
    requires id in Run(INIT, steps).live && Run(INIT, steps).live[id].finished
    ensures var d := Run(INIT, steps);
      d.live[id].giveUp in d.closes <==> d.live[id].autoConnect
  {
    RunSafe(steps);
    var d := Run(INIT, steps);
    assert Sane(d, id, d.live[id]);
  }

  /** Up launches a goroutine exactly when none is alive and it is not turned away. */
  lemma UpLaunchesIff(steps: seq<Step>, progress: Progress, autoConnect: bool, needsLogin: bool)
    ensures var d := Run(INIT, steps);
      Next(d, UpRpc(progress, autoConnect, needsLogin)).live != d.live <==> d.live == map[] && progress == Launched
  {
    RunSafe(steps);
    UpFromInv(Run(INIT, steps), progress, autoConnect, needsLogin);
  }

  lemma UpFromInv(d: Daemon, progress: Progress, autoConnect: bool, needsLogin: bool)
    requires d.clientRunning <==> d.live != map[]
    ensures Up(d, progress, autoConnect, needsLogin).live != d.live <==> d.live == map[] && progress == Launched
  {
    if !d.clientRunning && progress == Launched {
      assert d.next + 3 in Up(d, progress, autoConnect, needsLogin).live;
    }
  }

  // ------------------------------------------------------- what a waiting Up is told

  /** The select of waitForUp may take the branch that reports success. */
  predicate CanSucceed(d: Daemon) {
    d.runningChan.Some? && d.runningChan.value in d.closes
  }

  /** The select of waitForUp may take the branch that reports that the client gave up. */
  predicate CanGiveUp(d: Daemon) {
    d.giveUpChan.Some? && d.giveUpChan.value in d.closes
  }

  /** Up goes on to waitForUp unless it has returned an error. */
  predicate Waits(d: Daemon, s: Step) {
    s.UpRpc? && if d.clientRunning then s.progress != Refused else s.progress == Launched
  }

  /** The engine of goroutine `id` has started at some point of the run. */
  ghost predicate Started(steps: seq<Step>, id: nat) {
    exists n :: 0 <= n < |steps| && StartsAt(steps, n, id)
  }

  predicate StartsAt(steps: seq<Step>, n: nat, id: nat)
    requires n < |steps|
  {
    var d := Run(INIT, steps[..n]);
    steps[n] == EngineStarted(id) && id in d.live && !d.live[id].finished
  }

  lemma StartedSnoc(front: seq<Step>, s: Step, id: nat)
    ensures var d := Run(INIT, front);
      Started(front + [s], id) <==> Started(front, id) || (s == EngineStarted(id) && id in d.live && !d.live[id].finished)
  {
    var steps := front + [s];
    assert steps[..|front|] == front;
    forall n | 0 <= n < |front| ensures StartsAt(steps, n, id) <==> StartsAt(front, n, id) {
      assert steps[..n] == front[..n];
    }
    if StartsAt(steps, |front|, id) {
      assert Started(steps, id);
    }
  }

  lemma NextGrows(d: Daemon, s: Step)
    ensures d.next <= Next(d, s).next
  {
  }

  /** Goroutine numbers are never reused. */
  lemma {:induction false} StartedIsOld(steps: seq<Step>, id: nat)
    requires Started(steps, id)
    ensures id < Run(INIT, steps).next
  {
    var front, s := steps[..|steps| - 1], steps[|steps| - 1];
    assert steps == front + [s];
    StartedSnoc(front, s, id);
    NextGrows(Run(INIT, front), s);
    RunSafe(front);
    if Started(front, id) {
      StartedIsOld(front, id);
    } else {
      assert Sane(Run(INIT, front), id, Run(INIT, front).live[id]);
    }
  }

  /** The running channel of a live goroutine is closed exactly when its engine has started. */
  lemma {:induction false} RunningClosedIff(steps: seq<Step>, id: nat)
    requires id in Run(INIT, steps).live
    ensures Run(INIT, steps).live[id].running in Run(INIT, steps).closes <==> Started(steps, id)
  {
    var front, s := steps[..|steps| - 1], steps[|steps| - 1];
    var d, d' := Run(INIT, front), Run(INIT, steps);
    assert steps == front + [s];
    StartedSnoc(front, s, id);
    RunSafe(front);
    if id in d.live {
      RunningClosedIff(front, id);
      assert Sane(d, id, d.live[id]);
      LiveStep(d, s, id);
    } else {
      FreshStep(d, s, id);
      if Started(front, id) {
        StartedIsOld(front, id);
      }
    }
  }

  lemma LiveStep(d: Daemon, s: Step, id: nat)
    requires Inv(d) && id in d.live && id in Next(d, s).live
    ensures var d' := Next(d, s); var a := d.live[id];
      && d'.live[id].running == a.running
      && (a.running in d'.closes <==> a.running in d.closes || (s == EngineStarted(id) && !a.finished))
  {
    assert Sane(d, id, d.live[id]);
  }

  lemma FreshStep(d: Daemon, s: Step, id: nat)
    requires Inv(d) && id !in d.live && id in Next(d, s).live
    ensures id >= d.next && Next(d, s).live[id].running !in Next(d, s).closes
  {
  }

  /** For every run: an Up that waits may be told at once that the client gave up exactly when a
      goroutine with auto-connect is between the end of its retry loop and its deferred reset. */
  lemma UpGivesUpIff(steps: seq<Step>, s: Step)
    requires Waits(Run(INIT, steps), s)
    ensures var d := Run(INIT, steps);
      && (d.live != map[] ==> Next(d, s).live == d.live)
      && (CanGiveUp(Next(d, s)) <==> exists id :: id in d.live && d.live[id].finished && d.live[id].autoConnect)
  {
    RunSafe(steps);
    var d := Run(INIT, steps);
    EmptyIffNoKey(d);
    if d.live != map[] {
      var id :| id in d.live;
      assert Sane(d, id, d.live[id]);
    }
  }

  /** For every run: an Up that waits may be told success at once exactly when the engine of the
      goroutine that is alive has started. */
  lemma UpSucceedsIff(steps: seq<Step>, s: Step)
    requires Waits(Run(INIT, steps), s)
    ensures var d := Run(INIT, steps);
      CanSucceed(Next(d, s)) <==> exists id :: id in d.live && Started(steps, id)
  {
    RunSafe(steps);
    var d := Run(INIT, steps);
    EmptyIffNoKey(d);
    if d.live != map[] {
      var id :| id in d.live;
      assert Sane(d, id, d.live[id]);
      RunningClosedIff(steps, id);
    }
  }

  /** The goroutine is being torn down: its context is cancelled or its retry loop is over. */
  predicate TornDown(d: Daemon, id: nat) {
    id in d.live && (d.live[id].ctx in d.cancelled || d.live[id].finished)
  }

  /** Up may report success while the client is being torn down exactly when that client's engine
      had started before. */
  lemma StaleSuccessIff(steps: seq<Step>, s: Step)
    requires Waits(Run(INIT, steps), s)
    ensures var d := Run(INIT, steps);
      CanSucceed(Next(d, s)) && (exists id :: TornDown(d, id))
      <==> exists id :: TornDown(d, id) && Started(steps, id)
  {
    UpSucceedsIff(steps, s);
    RunSafe(steps);
    var d := Run(INIT, steps);
    if CanSucceed(Next(d, s)) && exists id :: TornDown(d, id) {
      var id :| TornDown(d, id);
      assert Started(steps, id);
    }
  }

  const UP := UpRpc(Launched, true, false)

  /** After an Up, the start of the engine and a Down, another Up is told success although the
      connect client is gone; once the retry loop is over it may be told either. */
  lemma DownThenUpIsStale()
    ensures var d := Next(Run(INIT, [UP, Connect(3), EngineStarted(3), DownRpc(true)]), UP);
      CanSucceed(d) && !CanGiveUp(d) && d.connectClient == None && TornDown(d, 3)
    ensures var d := Next(Run(INIT, [UP, EngineStarted(3), DownRpc(true), Finish(3)]), UP);
      CanSucceed(d) && CanGiveUp(d)
  {
    var d1 := Next(INIT, UP);
    assert d1.live == map[3 := Activation(0, 1, 2, true, false)];
    Unfold4(UP, Connect(3), EngineStarted(3), DownRpc(true));
    Unfold4(UP, EngineStarted(3), DownRpc(true), Finish(3));
  }

  /** Without the start of the engine, an Up after Up and Down can only be told a give-up. */
  lemma DownThenUpGivesUp()
    ensures var d := Next(Run(INIT, [UP, Connect(3), DownRpc(true), Finish(3)]), UP);
      !CanSucceed(d) && CanGiveUp(d)
  {
    var d1 := Next(INIT, UP);
    assert d1.live == map[3 := Activation(0, 1, 2, true, false)];
    Unfold4(UP, Connect(3), DownRpc(true), Finish(3));
  }

  /** A client without auto-connect ends and its give-up channel stays open. */
  lemma ManualClientLeavesChannelOpen()
    ensures var d := Run(INIT, [UpRpc(Launched, false, false), Finish(3)]);
      3 in d.live && d.live[3].finished && d.live[3].giveUp !in d.closes
  {
    var up, fin := UpRpc(Launched, false, false), Finish(3);
    RunSnoc(INIT, [], up);
    RunSnoc(INIT, [up], fin);
    assert [] + [up] == [up] && [up] + [fin] == [up, fin];
    assert Next(INIT, up).live == map[3 := Activation(0, 1, 2, false, false)];
  }

  lemma Unfold4(a: Step, b: Step, c: Step, e: Step)
    ensures Run(INIT, [a, b, c, e]) == Next(Next(Next(Next(INIT, a), b), c), e)
  {
    RunSnoc(INIT, [], a);
    RunSnoc(INIT, [a], b);
    RunSnoc(INIT, [a, b], c);
    RunSnoc(INIT, [a, b, c], e);
    assert [] + [a] == [a] && [a] + [b] == [a, b] && [a, b] + [c] == [a, b, c] && [a, b, c] + [e] == [a, b, c, e];
  }

  lemma RunSnoc(d: Daemon, steps: seq<Step>, s: Step)
    ensures Run(d, steps + [s]) == Next(Run(d, steps), s)
  {
    assert (steps + [s])[..|steps|] == steps;
  }
}
