/** What the login handlers guarantee over whole runs, proved about the step
    functions of LoginModel.

    - The device side keeps its heartbeat toward the server running in Service
      and stopped in WaitLogout, and destruction from either leaves it stopped.
    - On the server side, over any sequence of events delivered to any number of
      tasks that share one registry, a device URI is registered exactly while a
      task for it is in Service, and the registry points at that task.
    - A device-side task sharing that registry erases its own session on
      destruction: harmless when no server-side task owns that key, and breaking
      the invariant above when one does. */
module LoginInvariants {
  import opened LoginModel

  // ---------------------------------------------------------------------------
  // Effect sequences

  /** The last heartbeat action of a concatenation is the second part's, if it has one. */
  lemma {:induction false} LastHeartbeatAppend(a: seq<Effect>, b: seq<Effect>, peer: string)
    ensures LastHeartbeat(a + b, peer) ==
      if LastHeartbeat(b, peer).Some? then LastHeartbeat(b, peer) else LastHeartbeat(a, peer)
  {
    if a == [] {
      assert a + b == b;
    } else {
      assert (a + b)[1..] == a[1..] + b;
      LastHeartbeatAppend(a[1..], b, peer);
    }
  }

  /** Replaying a concatenation replays the first part, then the second. */
  lemma {:induction false} ApplyRegistryAppend(reg: Registry, a: seq<Effect>, b: seq<Effect>)
    ensures ApplyRegistry(reg, a + b) == ApplyRegistry(ApplyRegistry(reg, a), b)
    decreases |a|
  {
    if a != [] {
      assert (a + b)[1..] == a[1..] + b;
      ApplyRegistryAppend(RegistryStep(reg, a[0]), a[1..], b);
    } else {
      assert a + b == b;
    }
  }

  // ---------------------------------------------------------------------------
  // Device side: the heartbeat follows the state

  /** In Service the heartbeat toward the server runs; in WaitLogout it is stopped. */
  ghost predicate SenderHeartbeatInv(t: Task, log: seq<Effect>) {
    && (t.state == Service ==> HeartbeatRunning(log, t.serverUri))
    && (t.state == WaitLogout ==> LastHeartbeat(log, t.serverUri) == Some(false))
  }

  /** One event the device-side task can receive from outside. */
  datatype SenderEvent =
    | SenderMsg(msg: Message)        // a message or error message, through the state table
    | SenderTick(holdTime: nat)      // a timer poll, with the current state's hold time
    | SenderLogout                   // StartLogout, called by the owner of the task

  /** The task, its log and whether the framework must now delete it, after `ev`. */
  datatype SenderAfter = SenderAfter(task: Task, log: seq<Effect>, delete: bool)

  function SenderApply(t: Task, log: seq<Effect>, ev: SenderEvent, timeout: nat): (a: SenderAfter)
    ensures a.task.serverUri == t.serverUri
  {
    match ev
    case SenderMsg(msg) =>
      var s := SenderProcMsg(t, msg);
      SenderAfter(s.task, log + s.effects, s.verdict == ProcMsgDel)
    case SenderTick(h) =>
      var s := SenderTimerPoll(t, h, timeout);
      SenderAfter(s.task, log + s.effects, s.verdict == TimerPollDel)
    case SenderLogout =>
      var u := SenderStartLogout(t);
      SenderAfter(u.task, log + u.effects, false)
  }

  /** Every event keeps the heartbeat invariant. */
  lemma SenderEventKeepsHeartbeatInv(t: Task, log: seq<Effect>, ev: SenderEvent, timeout: nat)
    requires SenderHeartbeatInv(t, log)
    ensures SenderHeartbeatInv(SenderApply(t, log, ev, timeout).task, SenderApply(t, log, ev, timeout).log)
  {
    var p := t.serverUri;
    match ev
    case SenderMsg(msg) =>
      LastHeartbeatAppend(log, SenderProcMsg(t, msg).effects, p);
    case SenderTick(h) =>
      LastHeartbeatAppend(log, SenderTimerPoll(t, h, timeout).effects, p);
    case SenderLogout =>
      LastHeartbeatAppend(log, SenderStartLogout(t).effects, p);
  }

  /** The task and log after a sequence of events, stopping at the first event
      after which the framework deletes the task. */
  function SenderRun(t: Task, log: seq<Effect>, evs: seq<SenderEvent>, timeout: nat): (a: SenderAfter)
    decreases |evs|
  {
    if evs == [] then SenderAfter(t, log, false)
    else
      var a := SenderApply(t, log, evs[0], timeout);
      if a.delete then a else SenderRun(a.task, a.log, evs[1..], timeout)
  }

  /** From a fresh task, the heartbeat invariant holds after any run. */
  lemma {:induction false} SenderRunKeepsHeartbeatInv(t: Task, log: seq<Effect>, evs: seq<SenderEvent>, timeout: nat)
    requires SenderHeartbeatInv(t, log)
    ensures SenderHeartbeatInv(SenderRun(t, log, evs, timeout).task, SenderRun(t, log, evs, timeout).log)
    decreases |evs|
  {
    if evs != [] {
      var a := SenderApply(t, log, evs[0], timeout);
      SenderEventKeepsHeartbeatInv(t, log, evs[0], timeout);
      if !a.delete {
        SenderRunKeepsHeartbeatInv(a.task, a.log, evs[1..], timeout);
      }
    }
  }

  /** Destroying a task that got past WaitLogin leaves its heartbeat stopped. */
  lemma SenderReleaseStopsHeartbeat(t: Task, log: seq<Effect>)
    requires SenderHeartbeatInv(t, log)
    requires t.state != WaitLogin
    ensures LastHeartbeat(log + SenderRelease(t), t.serverUri) == Some(false)
  {
    LastHeartbeatAppend(log, SenderRelease(t), t.serverUri);
    // a release never starts the heartbeat, and stops it only from Service
    match LastHeartbeat(SenderRelease(t), t.serverUri)
    case None => assert t.state == WaitLogout;
    case Some(running) => assert !running && t.state == Service;
  }

  /** A disconnect in Service returns to WaitLogin without stopping the heartbeat,
      and destruction in WaitLogin stops nothing: the task itself never stops that
      heartbeat, which is left to the heartbeat subsystem that reported the
      disconnect. */
  lemma SenderDisconnectLeavesHeartbeat(t: Task, log: seq<Effect>)
    requires t.state == Service && HeartbeatRunning(log, t.serverUri)
    ensures
      var s := SenderProcMsg(t, OspSipDisconnect);
      && s.task.state == WaitLogin
      && HeartbeatRunning(log + s.effects + SenderRelease(s.task), t.serverUri)
  {
    var s := SenderProcMsg(t, OspSipDisconnect);
    LastHeartbeatAppend(log, s.effects, t.serverUri);
    LastHeartbeatAppend(log + s.effects, SenderRelease(s.task), t.serverUri);
  }

  // ---------------------------------------------------------------------------
  // Server side: the registry follows the tasks in Service

  /** All server-side tasks alive at one moment and the registry they share. */
  datatype World = World(registry: Registry, recvers: map<TaskId, Task>)

  /** The registry holds a key exactly for the tasks in Service, under their session,
      which is their device URI; no server-side task is in WaitLogout. */
  ghost predicate RegistryTracksService(w: World) {
    && (forall k :: k in w.registry ==>
          && w.registry[k] in w.recvers
          && w.recvers[w.registry[k]].state == Service
          && w.recvers[w.registry[k]].session == k)
    && (forall id :: id in w.recvers && w.recvers[id].state == Service ==>
          && w.recvers[id].session in w.registry
          && w.registry[w.recvers[id].session] == id
          && w.recvers[id].session == w.recvers[id].devUri)
    && (forall id :: id in w.recvers ==> w.recvers[id].state != WaitLogout)
  }

  /** One event of the server's task framework. */
  datatype RecverEvent =
    | Accept(id: TaskId)                                   // a new task for an inbound login
    | Deliver(id: TaskId, msg: Message, localUri: string)  // a message to task `id`
    | Tick(id: TaskId)                                     // a timer poll of task `id`

  /** Deleting task `id` after its handler: ReleaseResource, then it is gone. */
  function Destroy(w: World, id: TaskId, t: Task, reg: Registry): World {
    World(ApplyRegistry(reg, RecverRelease(t)), w.recvers - {id})
  }

  /** The world after one event.  An event for an unknown task, or a new task
      under an identity already in use, changes nothing. */
  function RecverWorldStep(w: World, ev: RecverEvent, isValidUri: string -> bool): World {
    match ev
    case Accept(id) =>
      if id in w.recvers then w
      else w.(recvers := w.recvers[id := NewTask([], [], [], [])])
    case Deliver(id, msg, localUri) =>
      if id !in w.recvers then w
      else
        var s := RecverProcMsg(w.recvers[id], w.registry, id, msg, localUri, isValidUri);
        var reg := ApplyRegistry(w.registry, s.effects);
        if s.verdict == ProcMsgDel then Destroy(w, id, s.task, reg)
        else World(reg, w.recvers[id := s.task])
    case Tick(id) =>
      if id !in w.recvers then w
      else
        var s := RecverTimerPoll(w.recvers[id]);
        if s.verdict == TimerPollDel then Destroy(w, id, s.task, w.registry)
        else w.(recvers := w.recvers[id := s.task])
  }

  /** Destroying a task that is not in Service leaves the invariant alone. */
  lemma DestroyOutsideService(w: World, id: TaskId, t: Task)
    requires RegistryTracksService(w) && id in w.recvers
    requires w.recvers[id].state != Service && t.state != Service
    ensures RegistryTracksService(Destroy(w, id, t, w.registry))
  {
    var w' := Destroy(w, id, t, w.registry);
    assert w'.registry == w.registry;
    forall k | k in w'.registry
      ensures w'.registry[k] in w'.recvers
    {
      assert w.registry[k] != id;
    }
  }

  /** A successful login keeps the invariant. */
  lemma LoginKeeps(w: World, id: TaskId, transId: nat, uri: string, ty: string,
                   addrs: seq<string>, localUri: string, isValidUri: string -> bool)
    requires RegistryTracksService(w) && id in w.recvers && w.recvers[id].state == WaitLogin
    requires LoginCheck(uri, w.registry, isValidUri) == CmsSuccess
    ensures
      var s := RecverLogin(w.recvers[id], w.registry, id, transId, uri, ty, addrs, localUri, isValidUri);
      RegistryTracksService(World(ApplyRegistry(w.registry, s.effects), w.recvers[id := s.task]))
  {
    var s := RecverLogin(w.recvers[id], w.registry, id, transId, uri, ty, addrs, localUri, isValidUri);
    var w' := World(ApplyRegistry(w.registry, s.effects), w.recvers[id := s.task]);
    assert w'.registry == w.registry[uri := id];
    forall k | k in w'.registry
      ensures w'.registry[k] in w'.recvers && w'.recvers[w'.registry[k]].state == Service
      ensures w'.recvers[w'.registry[k]].session == k
    {
      if k != uri {
        assert w.registry[k] != id;
      }
    }
  }

  /** Deleting a task in Service after its logout or disconnect keeps the invariant. */
  lemma LogoutKeeps(w: World, id: TaskId, msg: Message)
    requires RegistryTracksService(w) && id in w.recvers && w.recvers[id].state == Service
    requires msg.DevLogoutReq? || msg.OspSipDisconnect?
    ensures
      var s := RecverOnService(w.recvers[id], msg);
      RegistryTracksService(Destroy(w, id, s.task, ApplyRegistry(w.registry, s.effects)))
  {
    var t := w.recvers[id];
    var s := RecverOnService(t, msg);
    var w' := Destroy(w, id, s.task, ApplyRegistry(w.registry, s.effects));
    assert w'.registry == w.registry - {t.session};
    forall k | k in w'.registry
      ensures w'.registry[k] in w'.recvers
    {
      assert w.registry[k] != id;
    }
    forall j | j in w'.recvers && w'.recvers[j].state == Service
      ensures w'.recvers[j].session in w'.registry
    {
      assert w.registry[w.recvers[j].session] == j;
    }
  }

  /** Every event keeps the invariant. */
  lemma RecverWorldStepKeeps(w: World, ev: RecverEvent, isValidUri: string -> bool)
    requires RegistryTracksService(w)
    ensures RegistryTracksService(RecverWorldStep(w, ev, isValidUri))
  {
    match ev
    case Accept(id) =>
      if id !in w.recvers {
        var w' := RecverWorldStep(w, ev, isValidUri);
        forall k | k in w'.registry
          ensures w'.registry[k] != id
        {
          assert w.registry[k] in w.recvers;
        }
      }
    case Deliver(id, msg, localUri) =>
      if id in w.recvers {
        var t := w.recvers[id];
        var s := RecverProcMsg(t, w.registry, id, msg, localUri, isValidUri);
        match t.state
        case WaitLogin =>
          if msg.DevLoginReq? {
            if LoginCheck(msg.devUri, w.registry, isValidUri) == CmsSuccess {
              LoginKeeps(w, id, msg.transId, msg.devUri, msg.devType, msg.devAddrList, localUri, isValidUri);
            } else {
              DestroyOutsideService(w, id, s.task);
            }
          }
        case Service =>
          if msg.DevLogoutReq? || msg.OspSipDisconnect? {
            LogoutKeeps(w, id, msg);
          }
        case WaitLogout =>
      }
    case Tick(id) =>
  }

  /** The world after a sequence of events. */
  function RecverRun(w: World, evs: seq<RecverEvent>, isValidUri: string -> bool): World
    decreases |evs|
  {
    if evs == [] then w else RecverRun(RecverWorldStep(w, evs[0], isValidUri), evs[1..], isValidUri)
  }

  /** From an empty registry with no tasks, after any sequence of events, a device
      URI is registered exactly while a server-side task for it is in Service. */
  lemma {:induction false} RecverRunKeeps(w: World, evs: seq<RecverEvent>, isValidUri: string -> bool)
    requires RegistryTracksService(w)
    ensures RegistryTracksService(RecverRun(w, evs, isValidUri))
    decreases |evs|
  {
    if evs != [] {
      RecverWorldStepKeeps(w, evs[0], isValidUri);
      RecverRunKeeps(RecverWorldStep(w, evs[0], isValidUri), evs[1..], isValidUri);
    }
  }

  /** A second login for a registered device URI is refused with ErrAlreadyConn, and
      deleting the refused task leaves the registry and the task that owns the
      entry untouched. */
  lemma DuplicateLoginRefused(w: World, id: TaskId, transId: nat, uri: string, ty: string,
                              addrs: seq<string>, localUri: string, isValidUri: string -> bool)
    requires RegistryTracksService(w) && id in w.recvers && w.recvers[id].state == WaitLogin
    requires isValidUri(uri) && uri in w.registry
    ensures
      var msg := DevLoginReq(transId, uri, ty, addrs);
      var s := RecverProcMsg(w.recvers[id], w.registry, id, msg, localUri, isValidUri);
      && Messages(s.effects) == [SendLoginRsp(transId, uri, ErrAlreadyConn)]
      && s.verdict == ProcMsgDel
      && RecverWorldStep(w, Deliver(id, msg, localUri), isValidUri) == World(w.registry, w.recvers - {id})
      && w.registry[uri] in w.recvers - {id}
  {
    assert w.registry[uri] != id;
  }

  // ---------------------------------------------------------------------------
  // Both roles on one registry

  /** A device-side task destroyed outside WaitLogin erases its server-issued session
      from the shared registry.  When no server-side task owns that key, the
      invariant survives. */
  lemma SenderReleaseHarmless(w: World, sender: Task)
    requires RegistryTracksService(w)
    requires sender.session !in w.registry
    ensures RegistryTracksService(w.(registry := ApplyRegistry(w.registry, SenderRelease(sender))))
  {
    assert ApplyRegistry(w.registry, SenderRelease(sender)) == w.registry;
  }

  /** When a server-side task in Service owns the sender's session key, the
      sender's destruction removes that task's entry while the task stays in
      Service: the roles are not isolated on a shared registry. */
  lemma SenderReleaseErasesRecverEntry(w: World, sender: Task)
    requires RegistryTracksService(w)
    requires sender.state != WaitLogin && sender.session in w.registry
    ensures
      var w' := w.(registry := ApplyRegistry(w.registry, SenderRelease(sender)));
      && w.registry[sender.session] in w'.recvers
      && w'.recvers[w.registry[sender.session]].state == Service
      && sender.session !in w'.registry
      && !RegistryTracksService(w')
  {
    var w' := w.(registry := ApplyRegistry(w.registry, SenderRelease(sender)));
    var owner := w.registry[sender.session];
    assert w'.recvers[owner].session == sender.session;
  }
}
