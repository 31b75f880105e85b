/** The global login list (g_cGeneralLoginList).  Its container class is not part
    of this model; it is a map from session key to the registered task. */
module LoginList {
  import opened LoginModel

  class GeneralLoginList {
    var entries: Registry

    constructor ()
      ensures entries == map[]
    {
      entries := map[];
    }

    /** Exist: is a session registered under `key`? */
    method Exist(key: string) returns (found: bool)
      ensures found <==> key in entries
    {
      found := key in entries;
    }

    /** Insert: register `task` under `key`. */
    method Insert(key: string, task: TaskId)
      modifies this
      ensures entries == RegistryStep(old(entries), RegistryInsert(key, task))
      ensures key in entries && entries[key] == task
    {
      entries := entries[key := task];
    }

    /** Erase: drop `key`; erasing an absent key changes nothing. */
    method Erase(key: string)
      modifies this
      ensures entries == RegistryStep(old(entries), RegistryErase(key))
      ensures key !in entries
      ensures forall k :: k in old(entries) && k != key ==> k in entries && entries[k] == old(entries)[k]
    {
      entries := entries - {key};
    }

    /** GetSize: the number of registered sessions. */
    method GetSize() returns (n: nat)
      ensures n == |entries|
    {
      n := |entries|;
    }
  }
}

/** The two task classes of devlogintask.cpp.  Each class keeps the fields of
    CLoginTask it uses, a reference to the shared login list, and a ghost log of
    the effects it has performed.  Each handler is a method that changes those
    fields step by step as the source does, proved to agree with its step
    function in LoginModel. */
module LoginTasks {
  import opened LoginModel
  import opened LoginList

  /** CLoginSenderTask: the device side. */
  class LoginSenderTask {
    const id: TaskId
    const registry: GeneralLoginList
    /** DEV_LOGIN_TIMEOUT */
    const loginTimeout: nat

    var state: State
    var devUri: string
    var devType: string
    var devAddrList: seq<string>
    var serverUri: string
    var session: string
    ghost var log: seq<Effect>

    /** The task's fields as a value. */
    function Fields(): Task
      reads this
    {
      Task(state, devUri, devType, devAddrList, serverUri, session)
    }

    /** Construction and InitStateMachine: WaitLogin, no session, nothing done yet. */
    constructor (id: TaskId, registry: GeneralLoginList, loginTimeout: nat,
                 devUri: string, devType: string, devAddrList: seq<string>, serverUri: string)
      ensures this.id == id && this.registry == registry && this.loginTimeout == loginTimeout
      ensures Fields() == NewTask(devUri, devType, devAddrList, serverUri)
      ensures log == []
    {
      this.id := id;
      this.registry := registry;
      this.loginTimeout := loginTimeout;
      this.state := WaitLogin;
      this.devUri := devUri;
      this.devType := devType;
      this.devAddrList := devAddrList;
      this.serverUri := serverUri;
      this.session := [];
      this.log := [];
    }

    /** NextState: change state and restart the hold-time clock. */
    method NextState(s: State)
      modifies this
      ensures Fields() == old(Fields()).(state := s)
      ensures log == old(log) + [EnterState(s)]
    {
      state := s;
      log := log + [EnterState(s)];
    }

    /** Hand one effect to the collaborator it names (transport, heartbeat, child tasks). */
    method Perform(e: Effect)
      modifies this
      ensures Fields() == old(Fields())
      ensures log == old(log) + [e]
    {
      log := log + [e];
    }

    /** g_cGeneralLoginList.Erase(key), recorded in the log. */
    method EraseSession(key: string)
      modifies this, registry
      ensures Fields() == old(Fields())
      ensures log == old(log) + [RegistryErase(key)]
      ensures registry.entries == RegistryStep(old(registry.entries), RegistryErase(key))
    {
      registry.Erase(key);
      log := log + [RegistryErase(key)];
    }

    /** ReleaseResource, run by the destructor: what is released depends on the state. */
    method ReleaseResource()
      modifies this, registry
      ensures Fields() == old(Fields())
      ensures log == old(log) + SenderRelease(old(Fields()))
      ensures registry.entries == ApplyRegistry(old(registry.entries), SenderRelease(old(Fields())))
    {
      ghost var es := SenderRelease(Fields());
      match state
      case WaitLogin =>
      case Service =>
        Perform(DestroyChildTasks);
        Perform(StopHeartbeat(serverUri));
        EraseSession(session);
        assert log == old(log) + es;
      case WaitLogout =>
        Perform(DestroyChildTasks);
        EraseSession(session);
        assert log == old(log) + es;
    }

    /** StartLogin: enter WaitLogin and send a login request to the server. */
    method StartLogin()
      modifies this
      ensures Fields() == SenderStartLogin(old(Fields())).task
      ensures log == old(log) + SenderStartLogin(old(Fields())).effects
    {
      NextState(WaitLogin);
      Perform(SendLoginReq(devUri, devType, devAddrList, serverUri));
    }

    /** StartLogout: ignored outside Service; otherwise send the logout request,
        stop the heartbeat and wait for the answer. */
    method StartLogout()
      modifies this
      ensures Fields() == SenderStartLogout(old(Fields())).task
      ensures log == old(log) + SenderStartLogout(old(Fields())).effects
    {
      if state != Service {
        return;
      }
      Perform(SendLogoutReq(session, devUri, serverUri));
      Perform(StopHeartbeat(serverUri));
      NextState(WaitLogout);
    }

    /** OnWaitLogin (device). */
    method OnWaitLogin(msg: Message) returns (r: ProcMsgResult)
      modifies this
      ensures Fields() == SenderOnWaitLogin(old(Fields()), msg).task
      ensures log == old(log) + SenderOnWaitLogin(old(Fields()), msg).effects
      ensures r == SenderOnWaitLogin(old(Fields()), msg).verdict
    {
      r := ProcMsgFail;
      match msg
      case DevLoginRsp(code, rspSession) =>
        if code == CmsSuccess {
          session := rspSession;
          Perform(StartHeartbeat(serverUri));
          NextState(Service);
          r := ProcMsgOk;
        } else {
          r := ProcMsgOk;
        }
      case OspSipMsgProcFail(_) =>
        r := ProcMsgOk;
      case _ =>
    }

    /** OnWaitLoginTimer: log in again once the hold time passes the timeout. */
    method OnWaitLoginTimer(holdTime: nat) returns (r: TimerPollResult)
      modifies this
      ensures Fields() == SenderOnWaitLoginTimer(old(Fields()), holdTime, loginTimeout).task
      ensures log == old(log) + SenderOnWaitLoginTimer(old(Fields()), holdTime, loginTimeout).effects
      ensures r == TimerPollDone
    {
      if holdTime > loginTimeout {
        StartLogin();
      }
      r := TimerPollDone;
    }

    /** OnService (device). */
    method OnService(msg: Message) returns (r: ProcMsgResult)
      modifies this
      ensures Fields() == SenderOnService(old(Fields()), msg).task
      ensures log == old(log) + SenderOnService(old(Fields()), msg).effects
      ensures r == SenderOnService(old(Fields()), msg).verdict
    {
      r := ProcMsgFail;
      match msg
      case OspSipDisconnect =>
        StartLogin();
        r := ProcMsgOk;
      case _ =>
    }

    /** OnServiceTimer: nothing to do. */
    method OnServiceTimer() returns (r: TimerPollResult)
      ensures r == SenderOnServiceTimer(Fields()).verdict
    {
      r := TimerPollDone;
    }

    /** OnWaitLogout (device): every answer ends the task. */
    method OnWaitLogout(msg: Message) returns (r: ProcMsgResult)
      ensures r == SenderOnWaitLogout(Fields(), msg).verdict
    {
      r := ProcMsgFail;
      match msg
      case DevLogoutRsp(code) =>
        r := ProcMsgDel;
      case OspSipMsgProcFail(_) =>
        r := ProcMsgDel;
      case _ =>
    }

    /** OnWaitLogoutTimer: end the task once the hold time passes the timeout. */
    method OnWaitLogoutTimer(holdTime: nat) returns (r: TimerPollResult)
      ensures r == SenderOnWaitLogoutTimer(Fields(), holdTime, loginTimeout).verdict
    {
      if holdTime > loginTimeout {
        return TimerPollDel;
      }
      return TimerPollDone;
    }

    /** The state table of InitStateMachine: a message (or error message) goes to
        the current state's handler. */
    method ProcMsg(msg: Message) returns (r: ProcMsgResult)
      modifies this
      ensures Fields() == SenderProcMsg(old(Fields()), msg).task
      ensures log == old(log) + SenderProcMsg(old(Fields()), msg).effects
      ensures r == SenderProcMsg(old(Fields()), msg).verdict
    {
      match state
      case WaitLogin => r := OnWaitLogin(msg);
      case Service => r := OnService(msg);
      case WaitLogout => r := OnWaitLogout(msg);
    }

    /** The state table of InitStateMachine: a timer tick goes to the current
        state's timer handler. */
    method TimerPoll(holdTime: nat) returns (r: TimerPollResult)
      modifies this
      ensures Fields() == SenderTimerPoll(old(Fields()), holdTime, loginTimeout).task
      ensures log == old(log) + SenderTimerPoll(old(Fields()), holdTime, loginTimeout).effects
      ensures r == SenderTimerPoll(old(Fields()), holdTime, loginTimeout).verdict
    {
      match state
      case WaitLogin => r := OnWaitLoginTimer(holdTime);
      case Service => r := OnServiceTimer();
      case WaitLogout => r := OnWaitLogoutTimer(holdTime);
    }
  }

  /** CLoginRecverTask: the server side. */
  class LoginRecverTask {
    const id: TaskId
    const registry: GeneralLoginList

    var state: State
    var devUri: string
    var devType: string
    var devAddrList: seq<string>
    var serverUri: string
    var session: string
    ghost var log: seq<Effect>

    /** The task's fields as a value. */
    function Fields(): Task
      reads this
    {
      Task(state, devUri, devType, devAddrList, serverUri, session)
    }

    /** Construction and InitStateMachine: WaitLogin with nothing known yet. */
    constructor (id: TaskId, registry: GeneralLoginList)
      ensures this.id == id && this.registry == registry
      ensures Fields() == NewTask([], [], [], [])
      ensures log == []
    {
      this.id := id;
      this.registry := registry;
      this.state := WaitLogin;
      this.devUri := [];
      this.devType := [];
      this.devAddrList := [];
      this.serverUri := [];
      this.session := [];
      this.log := [];
    }

    /** NextState: change state and restart the hold-time clock. */
    method NextState(s: State)
      modifies this
      ensures Fields() == old(Fields()).(state := s)
      ensures log == old(log) + [EnterState(s)]
    {
      state := s;
      log := log + [EnterState(s)];
    }

    /** Hand one effect to the collaborator it names (transport, heartbeat, child tasks). */
    method Perform(e: Effect)
      modifies this
      ensures Fields() == old(Fields())
      ensures log == old(log) + [e]
    {
      log := log + [e];
    }

    /** ReleaseResource, run by the destructor. */
    method ReleaseResource()
      modifies this, registry
      ensures Fields() == old(Fields())
      ensures log == old(log) + RecverRelease(old(Fields()))
      ensures registry.entries == ApplyRegistry(old(registry.entries), RecverRelease(old(Fields())))
    {
      ghost var es := RecverRelease(Fields());
      match state
      case Service =>
        Perform(DestroyChildTasks);
        registry.Erase(session);
        log := log + [RegistryErase(session)];
        assert log == old(log) + es;
      case _ =>
    }

    /** The DEV_LOGIN_REQ branch of OnWaitLogin (server). */
    method Login(transId: nat, reqUri: string, reqType: string, reqAddrs: seq<string>,
                 localUri: string, isValidUri: string -> bool) returns (r: ProcMsgResult)
      modifies this, registry
      ensures Fields() == RecverLogin(old(Fields()), old(registry.entries), id, transId, reqUri, reqType, reqAddrs, localUri, isValidUri).task
      ensures log == old(log) + RecverLogin(old(Fields()), old(registry.entries), id, transId, reqUri, reqType, reqAddrs, localUri, isValidUri).effects
      ensures r == RecverLogin(old(Fields()), old(registry.entries), id, transId, reqUri, reqType, reqAddrs, localUri, isValidUri).verdict
      ensures registry.entries == ApplyRegistry(old(registry.entries),
        RecverLogin(old(Fields()), old(registry.entries), id, transId, reqUri, reqType, reqAddrs, localUri, isValidUri).effects)
    {
      ghost var s := RecverLogin(Fields(), registry.entries, id, transId, reqUri, reqType, reqAddrs, localUri, isValidUri);
      var code := CmsSuccess;
      devUri := reqUri;
      devType := reqType;
      devAddrList := reqAddrs;
      serverUri := localUri;
      if !isValidUri(devUri) {
        code := ErrInvalidCmuUri;
      } else {
        var duplicate := registry.Exist(devUri);
        if duplicate {
          code := ErrAlreadyConn;
        }
      }
      assert code == LoginCheck(reqUri, old(registry.entries), isValidUri);
      session := devUri;
      Perform(SendLoginRsp(transId, session, code));
      if code == CmsSuccess {
        registry.Insert(devUri, id);
        log := log + [RegistryInsert(devUri, id)];
        Perform(StartHeartbeat(devUri));
        NextState(Service);
        r := ProcMsgOk;
        assert s.effects == [SendLoginRsp(transId, reqUri, code), RegistryInsert(reqUri, id), StartHeartbeat(reqUri), EnterState(Service)];
        Unfold(s.effects); Unfold(s.effects[1..]); Unfold(s.effects[2..]); Unfold(s.effects[3..]);
      } else {
        r := ProcMsgDel;
        Unfold(s.effects);
      }
    }

    /** OnWaitLogin (server): the device URI is checked with `isValidUri`, the
        local URI is what the transport reports as its own. */
    method OnWaitLogin(msg: Message, localUri: string, isValidUri: string -> bool)
      returns (r: ProcMsgResult)
      modifies this, registry
      ensures Fields() == RecverOnWaitLogin(old(Fields()), old(registry.entries), id, msg, localUri, isValidUri).task
      ensures log == old(log) + RecverOnWaitLogin(old(Fields()), old(registry.entries), id, msg, localUri, isValidUri).effects
      ensures r == RecverOnWaitLogin(old(Fields()), old(registry.entries), id, msg, localUri, isValidUri).verdict
      ensures registry.entries ==
        ApplyRegistry(old(registry.entries), RecverOnWaitLogin(old(Fields()), old(registry.entries), id, msg, localUri, isValidUri).effects)
    {
      r := ProcMsgFail;
      match msg
      case DevLoginReq(transId, reqUri, reqType, reqAddrs) =>
        r := Login(transId, reqUri, reqType, reqAddrs, localUri, isValidUri);
      case _ =>
    }

    /** OnService (server). */
    method OnService(msg: Message) returns (r: ProcMsgResult)
      modifies this
      ensures Fields() == RecverOnService(old(Fields()), msg).task
      ensures log == old(log) + RecverOnService(old(Fields()), msg).effects
      ensures r == RecverOnService(old(Fields()), msg).verdict
    {
      r := ProcMsgFail;
      match msg
      case DevLogoutReq(transId, _, _) =>
        Perform(SendLogoutRsp(transId, CmsSuccess));
        Perform(StopHeartbeat(devUri));
        r := ProcMsgDel;
      case OspSipDisconnect =>
        r := ProcMsgDel;
      case _ =>
    }

    /** OnWaitLoginTimer and OnServiceTimer: nothing to do. */
    method TimerPoll() returns (r: TimerPollResult)
      ensures r == RecverTimerPoll(Fields()).verdict
    {
      r := TimerPollDone;
    }

    /** The state table of InitStateMachine. */
    method ProcMsg(msg: Message, localUri: string, isValidUri: string -> bool)
      returns (r: ProcMsgResult)
      modifies this, registry
      ensures Fields() == RecverProcMsg(old(Fields()), old(registry.entries), id, msg, localUri, isValidUri).task
      ensures log == old(log) + RecverProcMsg(old(Fields()), old(registry.entries), id, msg, localUri, isValidUri).effects
      ensures r == RecverProcMsg(old(Fields()), old(registry.entries), id, msg, localUri, isValidUri).verdict
      ensures registry.entries ==
        ApplyRegistry(old(registry.entries), RecverProcMsg(old(Fields()), old(registry.entries), id, msg, localUri, isValidUri).effects)
    {
      match state
      case WaitLogin => r := OnWaitLogin(msg, localUri, isValidUri);
      case Service =>
        r := OnService(msg);
      case WaitLogout => r := ProcMsgFail;
    }
  }
}
