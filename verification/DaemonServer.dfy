/** The daemon server's fields and critical sections. Each method is one atomic step of
    DaemonModel: an RPC up to its unlock, or one action of the goroutine. */
module DaemonServer {
  import opened Prelude
  import opened DaemonModel

  datatype Answer = GaveUp | Succeeded | CallerGone | TimedOut

  class Server {
    var clientRunning: bool
    var clientRunningChan: Option<nat>
    var clientGiveUpChan: Option<nat>
    var actCancel: Option<nat>
    var connectClient: Option<nat>
    var live: map<nat, Activation>
    var closes: multiset<nat>
    var cancelled: set<nat>
    var next: nat
    var panicked: bool

    function State(): Daemon
      reads this
    {
      Daemon(clientRunning, clientRunningChan, clientGiveUpChan, actCancel, connectClient,
             live, closes, cancelled, next, panicked)
    }

    /** The invariant of the protocol; in particular no closed channel was ever closed again. */
    ghost predicate Valid()
      reads this
    {
      Inv(State())
    }

    constructor ()
      ensures Valid() && State() == INIT
    {
      clientRunning, panicked, next := false, false, 0;
      clientRunningChan, clientGiveUpChan, actCancel, connectClient := None, None, None, None;
      live, closes, cancelled := map[], multiset{}, {};
    }

    method CancelAct()
      modifies this`cancelled
      ensures State() == Cancel(old(State()))
    {
      if actCancel.Some? {
        cancelled := cancelled + {actCancel.value};
      }
    }

    /** Closing a closed channel panics, so callers must show that this one is open. */
    method CloseChannel(c: nat)
      requires c !in closes
      modifies this`closes
      ensures State() == CloseChan(old(State()), c)
    {
      closes := closes + multiset{c};
    }

    method WithCancel() returns (ctx: nat)
      modifies this`actCancel, this`next
      ensures ctx == old(next) && State() == NewContext(old(State()))
    {
      ctx := next;
      actCancel := Some(ctx);
      next := next + 1;
    }

    method LaunchClient(ctx: nat, autoConnect: bool)
      modifies this
      ensures State() == Launch(old(State()), ctx, autoConnect)
    {
      clientRunning := true;
      var r, g := next, next + 1;
      clientRunningChan, clientGiveUpChan := Some(r), Some(g);
      live := live[next + 2 := Activation(ctx, r, g, autoConnect, false)];
      next := next + 3;
    }

    method Start(progress: Progress, autoConnect: bool)
      requires Valid()
      modifies this
      ensures Valid() && State() == Next(old(State()), StartRpc(progress, autoConnect))
    {
      StepKeeps(State(), StartRpc(progress, autoConnect));
      if clientRunning || progress == Refused {
        return;
      }
      var ctx := WithCancel();
      if progress == Launched {
        LaunchClient(ctx, autoConnect);
      }
    }

    /** `waits` says that the call goes on to waitForUp; otherwise it has returned an error. */
    method Up(progress: Progress, autoConnect: bool, needsLogin: bool) returns (waits: bool)
      requires Valid()
      modifies this
      ensures Valid() && State() == Next(old(State()), UpRpc(progress, autoConnect, needsLogin))
      ensures waits == Waits(old(State()), UpRpc(progress, autoConnect, needsLogin))
    {
      StepKeeps(State(), UpRpc(progress, autoConnect, needsLogin));
      if progress == Refused {
        return false;
      }
      if clientRunning {
        if needsLogin {
          CancelAct();
        }
        return true;
      }
      CancelAct();
      var ctx := WithCancel();
      if progress == Launched {
        LaunchClient(ctx, autoConnect);
      }
      waits := progress == Launched;
    }

    /** The answers among which the select chooses without waiting any longer; none means that it
        waits. The deadline's context ends with the caller's. */
    method WaitForUp(callerDone: bool, deadline: bool) returns (ready: set<Answer>)
      ensures GaveUp in ready <==> CanGiveUp(State())
      ensures Succeeded in ready <==> CanSucceed(State())
      ensures CallerGone in ready <==> callerDone
      ensures TimedOut in ready <==> callerDone || deadline
    {
      ready := {};
      if clientGiveUpChan.Some? && clientGiveUpChan.value in closes {
        ready := ready + {GaveUp};
      }
      if clientRunningChan.Some? && clientRunningChan.value in closes {
        ready := ready + {Succeeded};
      }
      if callerDone {
        ready := ready + {CallerGone};
      }
      if callerDone || deadline {
        ready := ready + {TimedOut};
      }
    }

    method Login()
      requires Valid()
      modifies this
      ensures Valid() && State() == Next(old(State()), LoginRpc)
    {
      StepKeeps(State(), LoginRpc);
      CancelAct();
      var _ := WithCancel();
    }

    method Status(cancels: bool)
      requires Valid()
      modifies this`cancelled
      ensures Valid() && State() == Next(old(State()), StatusRpc(cancels))
    {
      StepKeeps(State(), StatusRpc(cancels));
      if clientRunning && cancels {
        CancelAct();
      }
    }

    /** One round of a waiting Status, which no longer looks at the flag. */
    method StatusTick(cancels: bool)
      requires Valid()
      modifies this`cancelled
      ensures Valid() && State() == Next(old(State()), Step.StatusTick(cancels))
    {
      StepKeeps(State(), Step.StatusTick(cancels));
      if cancels {
        CancelAct();
      }
    }

    /** Returns false for the "service is not up" error and for a failing engine stop. Either way
        the client that is alive has lost its context. */
    method Down(stopOk: bool) returns (ok: bool)
      requires Valid()
      modifies this
      ensures Valid() && State() == Next(old(State()), DownRpc(stopOk))
      ensures ok == (old(actCancel).Some? && (old(connectClient).None? || stopOk))
      ensures forall id :: id in live ==> live[id].ctx in cancelled
    {
      StepKeeps(State(), DownRpc(stopOk));
      forall id | id in live ensures live[id].ctx in cancelled || actCancel == Some(live[id].ctx) {
        assert Sane(State(), id, live[id]);
      }
      if actCancel.None? {
        return false;
      }
      CancelAct();
      if connectClient.None? {
        return true;
      }
      if !stopOk {
        return false;
      }
      connectClient := None;
      ok := true;
    }

    method GoConnect(id: nat)
      requires Valid() && id in live && !live[id].finished
      modifies this`connectClient
      ensures Valid() && State() == Next(old(State()), Connect(id))
    {
      StepKeeps(State(), Connect(id));
      connectClient := Some(id);
    }

    /** The select on the running channel followed by its close. */
    method GoEngineStarted(id: nat)
      requires Valid() && id in live && !live[id].finished
      modifies this`closes
      ensures Valid() && State() == Next(old(State()), EngineStarted(id))
    {
      StepKeeps(State(), EngineStarted(id));
      if live[id].running in closes {
        return;
      }
      CloseChannel(live[id].running);
    }

    /** The close is unconditional in the code; the invariant shows that it happens once. */
    method GoFinish(id: nat)
      requires Valid() && id in live && !live[id].finished
      modifies this`closes, this`live
      ensures Valid() && State() == Next(old(State()), Finish(id))
    {
      StepKeeps(State(), Finish(id));
      assert Sane(State(), id, live[id]);
      if live[id].autoConnect {
        CloseChannel(live[id].giveUp);
      }
      live := live[id := live[id].(finished := true)];
    }

    /** Afterwards no client is alive and the next Up may launch one. */
    method GoDeferredReset(id: nat)
      requires Valid() && id in live && live[id].finished
      modifies this`clientRunning, this`live
      ensures Valid() && State() == Next(old(State()), Reset(id))
      ensures live == map[]
    {
      StepKeeps(State(), Reset(id));
      clientRunning := false;
      live := live - {id};
    }

    /** One step of a schedule; a goroutine that is not there, or not that far, does nothing. */
    method Perform(s: Step)
      requires Valid()
      modifies this
      ensures Valid() && State() == Next(old(State()), s)
    {
      match s {
        case StartRpc(progress, autoConnect) => Start(progress, autoConnect);
        case UpRpc(progress, autoConnect, needsLogin) => var _ := Up(progress, autoConnect, needsLogin);
        case LoginRpc => Login();
        case StatusRpc(cancels) => Status(cancels);
        case StatusTick(cancels) => StatusTick(cancels);
        case DownRpc(stopOk) => var _ := Down(stopOk);
        case Connect(id) => if id in live && !live[id].finished { GoConnect(id); }
        case EngineStarted(id) => if id in live && !live[id].finished { GoEngineStarted(id); }
        case Finish(id) => if id in live && !live[id].finished { GoFinish(id); }
        case Reset(id) => if id in live && live[id].finished { GoDeferredReset(id); }
      }
    }

    /** Any schedule of RPCs and goroutine actions: no channel is closed twice, at most one client
        is alive, and the flag is set exactly while one is. */
    method RunSchedule(steps: seq<Step>)
      requires Valid()
      modifies this
      ensures Valid() && State() == Run(old(State()), steps)
      ensures !panicked && forall c :: closes[c] <= 1
      ensures |live| <= 1 && (clientRunning <==> |live| == 1)
    {
      for i := 0 to |steps|
        invariant Valid() && State() == Run(old(State()), steps[..i])
      {
        assert steps[..i + 1][..i] == steps[..i];
        Perform(steps[i]);
      }
      assert steps[..|steps|] == steps;
      AtMostOne(State());
    }
  }
}
