/** The device login/logout protocol of devlogintask.cpp as pure step functions.

    A task's fields (those of CLoginTask the handlers read and write) are the
    value `Task`.  Every handler is a function from the task (and, for the
    server side, the shared registry's contents) and one delivered event to the
    new task, the effects the handler performed, in order, and the verdict it
    returns to the task framework.  The classes in login_tasks.dfy are proved
    against these functions; the lemmas in login_invariants.dfy are proved
    about them. */
module LoginModel {

  /** Identity of a task instance: the registry keeps it as a non-owning reference. */
  type TaskId = nat

  /** The protocol states; the server side only ever uses WaitLogin and Service. */
  datatype State = WaitLogin | Service | WaitLogout

  /** What a message handler tells the framework: keep, keep after an error, delete. */
  datatype ProcMsgResult = ProcMsgOk | ProcMsgFail | ProcMsgDel

  /** What a timer handler tells the framework. */
  datatype TimerPollResult = TimerPollDone | TimerPollDel

  /** Error codes carried in responses.  The numeric values live in a header that
      is not part of this model, so the codes the handlers name are constructors
      and every other code is `ErrOther`. */
  datatype ErrorCode = CmsSuccess | ErrInvalidCmuUri | ErrAlreadyConn | ErrOther(code: nat)

  /** An event delivered to a task, with the decoded message body it carries. */
  datatype Message =
    | DevLoginReq(transId: nat, devUri: string, devType: string, devAddrList: seq<string>)
    | DevLoginRsp(errorCode: ErrorCode, session: string)
    | DevLogoutReq(transId: nat, session: string, devUri: string)
    | DevLogoutRsp(errorCode: ErrorCode)
    | OspSipMsgProcFail(sipErrorCode: nat)
    | OspSipDisconnect
    | OtherEvent(event: nat)

  /** What a handler does beyond its own fields, in the order it does it. */
  datatype Effect =
    | EnterState(state: State)   // NextState: also restarts the state hold-time clock
    | SendLoginReq(devUri: string, devType: string, devAddrList: seq<string>, to: string)
    | SendLogoutReq(session: string, devUri: string, to: string)
    | SendLoginRsp(transId: nat, session: string, errorCode: ErrorCode)
    | SendLogoutRsp(transId: nat, errorCode: ErrorCode)
    | StartHeartbeat(peer: string)
    | StopHeartbeat(peer: string)
    | DestroyChildTasks
    | RegistryInsert(key: string, task: TaskId)
    | RegistryErase(key: string)
  {
    /** A request or response handed to the transport. */
    predicate IsMessage() {
      SendLoginReq? || SendLogoutReq? || SendLoginRsp? || SendLogoutRsp?
    }
  }

  /** The fields of a login task. */
  datatype Task = Task(state: State, devUri: string, devType: string,
                       devAddrList: seq<string>, serverUri: string, session: string)

  /** The global login list: session key to the task registered under it. */
  type Registry = map<string, TaskId>

  /** A task's fields together with the effects a handler performed. */
  datatype Update = Update(task: Task, effects: seq<Effect>)

  /** The result of a message handler. */
  datatype MsgStep = MsgStep(task: Task, effects: seq<Effect>, verdict: ProcMsgResult)

  /** The result of a timer handler. */
  datatype TimerStep = TimerStep(task: Task, effects: seq<Effect>, verdict: TimerPollResult)

  /** A fresh task, as InitStateMachine leaves it: WaitLogin and no session. */
  function NewTask(devUri: string, devType: string, devAddrList: seq<string>, serverUri: string): (t: Task)
    ensures t.state == WaitLogin && t.session == []
    ensures t.devUri == devUri && t.serverUri == serverUri
  {
    Task(WaitLogin, devUri, devType, devAddrList, serverUri, [])
  }

  // ---------------------------------------------------------------------------
  // Observing an effect sequence

  datatype Option<T> = None | Some(value: T)

  /** `[e]` when `e` is a request or response, `[]` otherwise. */
  function MessageOf(e: Effect): seq<Effect> {
    if e.IsMessage() then [e] else []
  }

  /** The requests and responses among `es`, in order. */
  function Messages(es: seq<Effect>): (ms: seq<Effect>)
    ensures |ms| <= |es|
    ensures forall e :: e in ms ==> e in es && e.IsMessage()
  {
    if es == [] then [] else MessageOf(es[0]) + Messages(es[1..])
  }

  /** What one effect does to the registry's contents: Insert overwrites, Erase of
      an absent key is a no-op. */
  function RegistryStep(reg: Registry, e: Effect): Registry {
    match e
    case RegistryInsert(k, id) => reg[k := id]
    case RegistryErase(k) => reg - {k}
    case _ => reg
  }

  /** The registry after replaying the inserts and erases among `es`. */
  function ApplyRegistry(reg: Registry, es: seq<Effect>): Registry
    decreases |es|
  {
    if es == [] then reg else ApplyRegistry(RegistryStep(reg, es[0]), es[1..])
  }

  /** What one effect does to the heartbeat toward `peer`: start, stop or nothing. */
  function HeartbeatOf(e: Effect, peer: string): Option<bool> {
    if e == StartHeartbeat(peer) then Some(true)
    else if e == StopHeartbeat(peer) then Some(false)
    else None
  }

  /** The last heartbeat action toward `peer` among `es`: Some(true) for a start,
      Some(false) for a stop, None when `es` has neither. */
  function LastHeartbeat(es: seq<Effect>, peer: string): (r: Option<bool>)
    ensures r == Some(true) ==> StartHeartbeat(peer) in es
    ensures r == Some(false) ==> StopHeartbeat(peer) in es
    ensures r == None ==> StartHeartbeat(peer) !in es && StopHeartbeat(peer) !in es
  {
    if es == [] then None
    else
      var later := LastHeartbeat(es[1..], peer);
      if later.Some? then later else HeartbeatOf(es[0], peer)
  }

  /** The heartbeat toward `peer` is running after the effects `es`. */
  predicate HeartbeatRunning(es: seq<Effect>, peer: string) {
    LastHeartbeat(es, peer) == Some(true)
  }

  /** How the three observations of a non-empty effect sequence unfold at its
      first effect (one unfolding of each definition, for a concrete sequence). */
  lemma Unfold(es: seq<Effect>)
    requires es != []
    ensures Messages(es) == MessageOf(es[0]) + Messages(es[1..])
    ensures forall reg :: ApplyRegistry(reg, es) == ApplyRegistry(RegistryStep(reg, es[0]), es[1..])
    ensures forall peer :: (LastHeartbeat(es, peer) ==
      if LastHeartbeat(es[1..], peer).Some? then LastHeartbeat(es[1..], peer) else HeartbeatOf(es[0], peer))
  {
  }

  // ---------------------------------------------------------------------------
  // Device side: CLoginSenderTask

  /** The login request the device sends: its URI, type and address list, to the server. */
  function LoginRequest(t: Task): Effect {
    SendLoginReq(t.devUri, t.devType, t.devAddrList, t.serverUri)
  }

  /** StartLogin: (re-)enter WaitLogin, restarting its clock, and send one login request. */
  function SenderStartLogin(t: Task): (u: Update)
    ensures u.task == t.(state := WaitLogin)
    ensures Messages(u.effects) == [LoginRequest(t)]
    ensures EnterState(WaitLogin) in u.effects
    ensures LastHeartbeat(u.effects, t.serverUri) == None
  {
    var es := [EnterState(WaitLogin), LoginRequest(t)];
    Unfold(es); Unfold(es[1..]);
    Update(t.(state := WaitLogin), es)
  }

  /** StartLogout: only from Service, send one logout request with the session and the
      device URI, stop the heartbeat toward the server and enter WaitLogout;
      outside Service nothing happens. */
  function SenderStartLogout(t: Task): (u: Update)
    ensures t.state != Service ==> u == Update(t, [])
    ensures t.state == Service ==>
      && u.task == t.(state := WaitLogout)
      && Messages(u.effects) == [SendLogoutReq(t.session, t.devUri, t.serverUri)]
      && LastHeartbeat(u.effects, t.serverUri) == Some(false)
      && EnterState(WaitLogout) in u.effects
  {
    if t.state != Service then Update(t, [])
    else
      var es := [SendLogoutReq(t.session, t.devUri, t.serverUri), StopHeartbeat(t.serverUri), EnterState(WaitLogout)];
      Unfold(es); Unfold(es[1..]); Unfold(es[2..]);
      Update(t.(state := WaitLogout), es)
  }

  /** OnWaitLogin (device): a successful login response stores the server-issued
      session, starts the heartbeat toward the server and enters Service; an error
      response or a transport failure only waits for the timer.  Each of these is
      ProcMsgOk; any other event is ProcMsgFail and changes nothing. */
  function SenderOnWaitLogin(t: Task, msg: Message): (s: MsgStep)
    ensures Messages(s.effects) == []
    ensures forall reg :: ApplyRegistry(reg, s.effects) == reg
    ensures s.verdict == ProcMsgOk <==> msg.DevLoginRsp? || msg.OspSipMsgProcFail?
    ensures s.verdict != ProcMsgDel
    ensures msg.DevLoginRsp? && msg.errorCode == CmsSuccess ==>
      && s.task == t.(session := msg.session, state := Service)
      && HeartbeatRunning(s.effects, t.serverUri)
    ensures !(msg.DevLoginRsp? && msg.errorCode == CmsSuccess) ==> s.task == t && s.effects == []
  {
    match msg
    case DevLoginRsp(code, session) =>
      if code == CmsSuccess then
        var es := [StartHeartbeat(t.serverUri), EnterState(Service)];
        Unfold(es); Unfold(es[1..]);
        MsgStep(t.(session := session, state := Service), es, ProcMsgOk)
      else MsgStep(t, [], ProcMsgOk)
    case OspSipMsgProcFail(_) => MsgStep(t, [], ProcMsgOk)
    case _ => MsgStep(t, [], ProcMsgFail)
  }

  /** OnWaitLoginTimer: once the hold time is strictly past the timeout, log in again;
      always TimerPollDone. */
  function SenderOnWaitLoginTimer(t: Task, holdTime: nat, timeout: nat): (s: TimerStep)
    ensures s.verdict == TimerPollDone
    ensures s.task == t.(state := WaitLogin) || s.task == t
    ensures |Messages(s.effects)| == (if holdTime > timeout then 1 else 0)
    ensures holdTime > timeout ==>
      Messages(s.effects) == [LoginRequest(t)] && EnterState(WaitLogin) in s.effects
    ensures holdTime <= timeout ==> s.task == t && s.effects == []
  {
    if holdTime > timeout then
      var u := SenderStartLogin(t);
      TimerStep(u.task, u.effects, TimerPollDone)
    else TimerStep(t, [], TimerPollDone)
  }

  /** OnService (device): a disconnect logs in again and is ProcMsgOk; anything else
      is ProcMsgFail and changes nothing. */
  function SenderOnService(t: Task, msg: Message): (s: MsgStep)
    ensures s.verdict != ProcMsgDel
    ensures msg.OspSipDisconnect? ==>
      && s.verdict == ProcMsgOk
      && s.task == t.(state := WaitLogin)
      && Messages(s.effects) == [LoginRequest(t)]
      && LastHeartbeat(s.effects, t.serverUri) == None
    ensures !msg.OspSipDisconnect? ==> s == MsgStep(t, [], ProcMsgFail)
  {
    match msg
    case OspSipDisconnect =>
      var u := SenderStartLogin(t);
      MsgStep(u.task, u.effects, ProcMsgOk)
    case _ => MsgStep(t, [], ProcMsgFail)
  }

  /** OnServiceTimer (device): nothing to do. */
  function SenderOnServiceTimer(t: Task): (s: TimerStep)
    ensures s == TimerStep(t, [], TimerPollDone)
  {
    TimerStep(t, [], TimerPollDone)
  }

  /** OnWaitLogout (device): any logout response, successful or not, and a transport
      failure end the task (ProcMsgDel); anything else is ProcMsgFail. */
  function SenderOnWaitLogout(t: Task, msg: Message): (s: MsgStep)
    ensures s.task == t && s.effects == []
    ensures s.verdict == ProcMsgDel <==> msg.DevLogoutRsp? || msg.OspSipMsgProcFail?
    ensures s.verdict != ProcMsgOk
  {
    match msg
    case DevLogoutRsp(_) => MsgStep(t, [], ProcMsgDel)
    case OspSipMsgProcFail(_) => MsgStep(t, [], ProcMsgDel)
    case _ => MsgStep(t, [], ProcMsgFail)
  }

  /** OnWaitLogoutTimer: delete the task exactly when the hold time is strictly past
      the timeout. */
  function SenderOnWaitLogoutTimer(t: Task, holdTime: nat, timeout: nat): (s: TimerStep)
    ensures s.task == t && s.effects == []
    ensures s.verdict == TimerPollDel <==> holdTime > timeout
  {
    TimerStep(t, [], if holdTime > timeout then TimerPollDel else TimerPollDone)
  }

  /** The device task's state-to-handler table, for messages and error messages alike. */
  function SenderProcMsg(t: Task, msg: Message): MsgStep {
    match t.state
    case WaitLogin => SenderOnWaitLogin(t, msg)
    case Service => SenderOnService(t, msg)
    case WaitLogout => SenderOnWaitLogout(t, msg)
  }

  /** The device task's state-to-timer-handler table. */
  function SenderTimerPoll(t: Task, holdTime: nat, timeout: nat): TimerStep {
    match t.state
    case WaitLogin => SenderOnWaitLoginTimer(t, holdTime, timeout)
    case Service => SenderOnServiceTimer(t)
    case WaitLogout => SenderOnWaitLogoutTimer(t, holdTime, timeout)
  }

  /** ReleaseResource (device), run on destruction: in Service destroy the children,
      stop the heartbeat and erase the session; in WaitLogout the same without a
      second heartbeat stop; in WaitLogin nothing. */
  function SenderRelease(t: Task): (es: seq<Effect>)
    ensures Messages(es) == []
    ensures t.state == WaitLogin ==> es == []
    ensures t.state != WaitLogin ==>
      DestroyChildTasks in es && forall reg :: ApplyRegistry(reg, es) == reg - {t.session}
    ensures (StopHeartbeat(t.serverUri) in es) <==> t.state == Service
    ensures StartHeartbeat(t.serverUri) !in es
  {
    match t.state
    case WaitLogin => []
    case Service =>
      var es := [DestroyChildTasks, StopHeartbeat(t.serverUri), RegistryErase(t.session)];
      Unfold(es); Unfold(es[1..]); Unfold(es[2..]);
      es
    case WaitLogout =>
      var es := [DestroyChildTasks, RegistryErase(t.session)];
      Unfold(es); Unfold(es[1..]);
      es
  }

  // ---------------------------------------------------------------------------
  // Server side: CLoginRecverTask

  /** The validation of an inbound login, in the source's order: the URI check
      first, the duplicate check only for a valid URI. */
  function LoginCheck(devUri: string, reg: Registry, isValidUri: string -> bool): (code: ErrorCode)
    ensures code == ErrInvalidCmuUri <==> !isValidUri(devUri)
    ensures code == ErrAlreadyConn <==> isValidUri(devUri) && devUri in reg
    ensures code == CmsSuccess <==> isValidUri(devUri) && devUri !in reg
  {
    if !isValidUri(devUri) then ErrInvalidCmuUri
    else if devUri in reg then ErrAlreadyConn
    else CmsSuccess
  }

  /** The server's handling of one inbound login request (the DEV_LOGIN_REQ branch
      of OnWaitLogin): take the device's fields and the local URI from the request,
      use the device URI as the session, validate, and always answer with exactly
      one login response carrying the check's code and that session.  On success
      register this task under the device URI, start the heartbeat toward the
      device and enter Service (ProcMsgOk); on failure leave the registry and the
      state alone and ask to be deleted (ProcMsgDel). */
  function RecverLogin(t: Task, reg: Registry, self: TaskId, transId: nat, devUri: string,
                       devType: string, devAddrList: seq<string>, localUri: string,
                       isValidUri: string -> bool): (s: MsgStep)
    ensures Messages(s.effects) == [SendLoginRsp(transId, devUri, LoginCheck(devUri, reg, isValidUri))]
    ensures s.task.devUri == devUri && s.task.session == devUri
    ensures s.task.devType == devType && s.task.devAddrList == devAddrList
    ensures s.task.serverUri == localUri
    ensures s.verdict == ProcMsgOk <==> LoginCheck(devUri, reg, isValidUri) == CmsSuccess
    ensures s.verdict == ProcMsgOk ==>
      && s.task.state == Service
      && ApplyRegistry(reg, s.effects) == reg[devUri := self]
      && HeartbeatRunning(s.effects, devUri)
    ensures s.verdict != ProcMsgOk ==>
      && s.verdict == ProcMsgDel && s.task.state == t.state
      && ApplyRegistry(reg, s.effects) == reg
      && LastHeartbeat(s.effects, devUri) == None
  {
    var t1 := t.(devUri := devUri, devType := devType, devAddrList := devAddrList,
                 serverUri := localUri, session := devUri);
    var code := LoginCheck(devUri, reg, isValidUri);
    var rsp := SendLoginRsp(transId, devUri, code);
    if code == CmsSuccess then
      var es := [rsp, RegistryInsert(devUri, self), StartHeartbeat(devUri), EnterState(Service)];
      Unfold(es); Unfold(es[1..]); Unfold(es[2..]); Unfold(es[3..]);
      MsgStep(t1.(state := Service), es, ProcMsgOk)
    else
      Unfold([rsp]);
      MsgStep(t1, [rsp], ProcMsgDel)
  }

  /** OnWaitLogin (server): a login request is handled by RecverLogin; any other
      event is ProcMsgFail and changes nothing. */
  function RecverOnWaitLogin(t: Task, reg: Registry, self: TaskId, msg: Message,
                             localUri: string, isValidUri: string -> bool): (s: MsgStep)
    ensures !msg.DevLoginReq? ==> s == MsgStep(t, [], ProcMsgFail)
    ensures msg.DevLoginReq? ==> s.verdict != ProcMsgFail
  {
    match msg
    case DevLoginReq(transId, devUri, devType, devAddrList) =>
      RecverLogin(t, reg, self, transId, devUri, devType, devAddrList, localUri, isValidUri)
    case _ => MsgStep(t, [], ProcMsgFail)
  }

  /** OnService (server): a logout request is answered with one success response,
      the heartbeat toward the device is stopped and the task asks to be deleted; a
      disconnect only asks to be deleted; anything else is ProcMsgFail. */
  function RecverOnService(t: Task, msg: Message): (s: MsgStep)
    ensures s.task == t
    ensures s.verdict == ProcMsgDel <==> msg.DevLogoutReq? || msg.OspSipDisconnect?
    ensures s.verdict != ProcMsgOk
    ensures msg.DevLogoutReq? ==>
      && Messages(s.effects) == [SendLogoutRsp(msg.transId, CmsSuccess)]
      && LastHeartbeat(s.effects, t.devUri) == Some(false)
    ensures !msg.DevLogoutReq? ==> s.effects == []
    ensures forall reg :: ApplyRegistry(reg, s.effects) == reg
  {
    match msg
    case DevLogoutReq(transId, _, _) =>
      var es := [SendLogoutRsp(transId, CmsSuccess), StopHeartbeat(t.devUri)];
      Unfold(es); Unfold(es[1..]);
      MsgStep(t, es, ProcMsgDel)
    case OspSipDisconnect => MsgStep(t, [], ProcMsgDel)
    case _ => MsgStep(t, [], ProcMsgFail)
  }

  /** The server task's state-to-handler table.  It registers no handler for
      WaitLogout, a state the server side never enters. */
  function RecverProcMsg(t: Task, reg: Registry, self: TaskId, msg: Message,
                         localUri: string, isValidUri: string -> bool): MsgStep {
    match t.state
    case WaitLogin => RecverOnWaitLogin(t, reg, self, msg, localUri, isValidUri)
    case Service => RecverOnService(t, msg)
    case WaitLogout => MsgStep(t, [], ProcMsgFail)
  }

  /** OnWaitLoginTimer and OnServiceTimer (server): both do nothing. */
  function RecverTimerPoll(t: Task): (s: TimerStep)
    ensures s == TimerStep(t, [], TimerPollDone)
  {
    TimerStep(t, [], TimerPollDone)
  }

  /** ReleaseResource (server), run on destruction: in Service destroy the children
      and erase the session; in any other state nothing. */
  function RecverRelease(t: Task): (es: seq<Effect>)
    ensures Messages(es) == []
    ensures LastHeartbeat(es, t.devUri) == None
    ensures t.state != Service ==> es == []
    ensures t.state == Service ==>
      DestroyChildTasks in es && forall reg :: ApplyRegistry(reg, es) == reg - {t.session}
  {
    match t.state
    case Service =>
      var es := [DestroyChildTasks, RegistryErase(t.session)];
      Unfold(es); Unfold(es[1..]);
      es
    case _ => []
  }
}
