# Device login tasks and the pooled deque, in Dafny

This project models two components of the CMS code base and proves properties of
them.

**The device login/logout protocol** (`devlogintask.cpp`). A device-side task
(`CLoginSenderTask`) logs in to a server. It retries on a timer and keeps a
heartbeat toward the server while in `Service`. On request it logs out. A
server-side task (`CLoginRecverTask`) handles one inbound login:
- it validates the device URI, then checks the shared login list
  `g_cGeneralLoginList` for a duplicate;
- it always answers, using the device URI as the session;
- on success it registers itself under that session.

Both tasks release their resources on destruction according to their state.

The model has three layers:
- `login_model.dfy`: every handler as a pure step function (module
  `LoginModel`). A step maps the task's fields, the registry and one event to
  the new fields, the effects performed in order, and the verdict returned to
  the task framework. Effects are sent requests and responses, heartbeat
  start/stop, child-task destruction, registry insert/erase, and state entry.
- `login_tasks.dfy`: the two task classes and the login list as classes whose
  methods change their fields step by step, as the source does. A ghost `log`
  records the effects. Each method is proved equal to its step function.
- `login_invariants.dfy`: properties over whole runs:
  - the device side's heartbeat follows its state;
  - over any sequence of events delivered to any number of server-side tasks
    sharing one registry, a device URI is registered exactly while a task for it
    is in `Service`, and the entry points at that task;
  - the device side erases its own session from that same registry on
    destruction, although it never inserts into it. The model states exactly
    what that erase removes.

**The pooled double-ended queue** (`xdeque.h`, `xdeque.dfy`). `CXDeque<T>` is a
doubly linked list whose nodes come from a free list that grows when exhausted.
- The naming is inverted: `PushBack`/`PopBack` work at the head and
  `PushFront`/`PopFront` at the tail.
- Nodes are slots of a pool (`seq<Link<T>>`). A slot index stands for a `CLink*`
  and `-1` for NULL. Allocating a node appends a slot; `Empty` deletes
  them all.
- The ghost `Contents` (head to tail), `Nodes` and `FreeNodes` are tied to the
  links by the representation invariant `Valid()`:
  - both lists are well formed and share no slot;
  - live nodes plus free nodes equal the capacity.
- Lemmas about pool snapshots (the `Step…` lemmas) carry the linking
  reasoning, one per way an operation relinks the pool.

## Model

| member | source | states |
|---|---|---|
| LoginModel.SenderStartLogin | cmu/stubtest/cmustubtest/source/devlogintask.cpp:84-99 | enters WaitLogin (restarting its clock) and sends exactly one login request with the device URI, type and address list to the server; touches no heartbeat |
| LoginModel.SenderStartLogout | cmu/stubtest/cmustubtest/source/devlogintask.cpp:101-123 | outside Service: no change and no effect; in Service: exactly one logout request carrying session and device URI, the heartbeat toward the server ends stopped, the state becomes WaitLogout |
| LoginModel.SenderOnWaitLogin | cmu/stubtest/cmustubtest/source/devlogintask.cpp:125-189 | PROCMSG_OK exactly for a login response or a SIP failure; a success response stores the session, leaves the heartbeat running and enters Service; every other case changes nothing and sends nothing; never PROCMSG_DEL |
| LoginModel.SenderOnWaitLoginTimer | cmu/stubtest/cmustubtest/source/devlogintask.cpp:191-203 | always TIMERPOLL_DONE; exactly one login request (and re-entry of WaitLogin) when hold time > timeout, none otherwise |
| LoginModel.SenderOnService | cmu/stubtest/cmustubtest/source/devlogintask.cpp:205-230 | a disconnect returns to WaitLogin with one new login request and PROCMSG_OK; anything else is PROCMSG_FAIL with no change |
| LoginModel.SenderOnServiceTimer | cmu/stubtest/cmustubtest/source/devlogintask.cpp:232-235 | no change, no effect, TIMERPOLL_DONE |
| LoginModel.SenderOnWaitLogout | cmu/stubtest/cmustubtest/source/devlogintask.cpp:237-292 | PROCMSG_DEL exactly for a logout response (any code) or a SIP failure, PROCMSG_FAIL otherwise; never changes the task or sends anything |
| LoginModel.SenderOnWaitLogoutTimer | cmu/stubtest/cmustubtest/source/devlogintask.cpp:294-305 | TIMERPOLL_DEL exactly when hold time > timeout |
| LoginModel.SenderRelease | cmu/stubtest/cmustubtest/source/devlogintask.cpp:18-59 | nothing in WaitLogin; otherwise child tasks destroyed and exactly the session key erased from the registry; a heartbeat stop exactly in Service; never a message or a heartbeat start |
| LoginModel.LoginCheck | cmu/stubtest/cmustubtest/source/devlogintask.cpp:388-407 | invalid URI code exactly when the URI is invalid; already-connected exactly when valid and registered; success exactly when valid and unregistered |
| LoginModel.RecverLogin | cmu/stubtest/cmustubtest/source/devlogintask.cpp:370-444 | exactly one login response with the check's code and session = device URI; device fields and local URI stored; OK iff the check succeeds, then registry gains device URI → this task, heartbeat running, Service; otherwise PROCMSG_DEL, state and registry unchanged, no heartbeat |
| LoginModel.RecverOnWaitLogin | cmu/stubtest/cmustubtest/source/devlogintask.cpp:365-454 | a login request is never PROCMSG_FAIL; any other event is PROCMSG_FAIL with no change |
| LoginModel.RecverOnService | cmu/stubtest/cmustubtest/source/devlogintask.cpp:461-509 | PROCMSG_DEL exactly for a logout request or a disconnect; a logout request gets one success response and stops the heartbeat; a disconnect has no effect; the registry is never touched |
| LoginModel.RecverTimerPoll | cmu/stubtest/cmustubtest/source/devlogintask.cpp:456-459 | both server timers (also 511-514) change nothing and return TIMERPOLL_DONE |
| LoginModel.RecverRelease | cmu/stubtest/cmustubtest/source/devlogintask.cpp:318-346 | in Service child tasks destroyed and exactly the session erased; in any other state nothing; never a message or heartbeat action |
| LoginList.GeneralLoginList.constructor | cmu/stubtest/cmustubtest/source/devlogintask.cpp:7 | the global login list starts empty |
| LoginList.GeneralLoginList.Exist | cmu/stubtest/cmustubtest/source/devlogintask.cpp:399 | true exactly when the key is registered |
| LoginList.GeneralLoginList.Insert | cmu/stubtest/cmustubtest/source/devlogintask.cpp:425 | the key now maps to the task, nothing else changes |
| LoginList.GeneralLoginList.Erase | cmu/stubtest/cmustubtest/source/devlogintask.cpp:336 | the key is gone, every other entry is kept |
| LoginList.GeneralLoginList.GetSize | cmu/stubtest/cmustubtest/source/devlogintask.cpp:524 | the number of registered sessions |
| LoginTasks.LoginSenderTask.constructor | cmu/stubtest/cmustubtest/source/devlogintask.cpp:61-82 | a new device task is in WaitLogin with no session and an empty log |
| LoginTasks.LoginSenderTask.ReleaseResource | cmu/stubtest/cmustubtest/source/devlogintask.cpp:18-59 | fields unchanged; log and registry changed exactly as SenderRelease says |
| LoginTasks.LoginSenderTask.StartLogin | cmu/stubtest/cmustubtest/source/devlogintask.cpp:84-99 | new fields and log are those of SenderStartLogin |
| LoginTasks.LoginSenderTask.StartLogout | cmu/stubtest/cmustubtest/source/devlogintask.cpp:101-123 | new fields and log are those of SenderStartLogout |
| LoginTasks.LoginSenderTask.OnWaitLogin | cmu/stubtest/cmustubtest/source/devlogintask.cpp:125-189 | fields, log and verdict are those of SenderOnWaitLogin |
| LoginTasks.LoginSenderTask.OnWaitLoginTimer | cmu/stubtest/cmustubtest/source/devlogintask.cpp:191-203 | fields and log are those of SenderOnWaitLoginTimer; TIMERPOLL_DONE |
| LoginTasks.LoginSenderTask.OnService | cmu/stubtest/cmustubtest/source/devlogintask.cpp:205-230 | fields, log and verdict are those of SenderOnService |
| LoginTasks.LoginSenderTask.OnServiceTimer | cmu/stubtest/cmustubtest/source/devlogintask.cpp:232-235 | TIMERPOLL_DONE, as SenderOnServiceTimer |
| LoginTasks.LoginSenderTask.OnWaitLogout | cmu/stubtest/cmustubtest/source/devlogintask.cpp:237-292 | verdict of SenderOnWaitLogout, nothing changed |
| LoginTasks.LoginSenderTask.OnWaitLogoutTimer | cmu/stubtest/cmustubtest/source/devlogintask.cpp:294-305 | verdict of SenderOnWaitLogoutTimer against DEV_LOGIN_TIMEOUT |
| LoginTasks.LoginSenderTask.ProcMsg | cmu/stubtest/cmustubtest/source/devlogintask.cpp:61-82 | a message or error message goes to the current state's handler: the result is SenderProcMsg's |
| LoginTasks.LoginSenderTask.TimerPoll | cmu/stubtest/cmustubtest/source/devlogintask.cpp:61-82 | a timer poll goes to the current state's timer handler: the result is SenderTimerPoll's |
| LoginTasks.LoginRecverTask.constructor | cmu/stubtest/cmustubtest/source/devlogintask.cpp:348-363 | a new server task is in WaitLogin with nothing known and an empty log |
| LoginTasks.LoginRecverTask.ReleaseResource | cmu/stubtest/cmustubtest/source/devlogintask.cpp:318-346 | fields unchanged; log and registry changed exactly as RecverRelease says |
| LoginTasks.LoginRecverTask.Login | cmu/stubtest/cmustubtest/source/devlogintask.cpp:370-444 | fields, log, verdict and the shared registry are those of RecverLogin on the registry's old contents |
| LoginTasks.LoginRecverTask.OnWaitLogin | cmu/stubtest/cmustubtest/source/devlogintask.cpp:365-454 | fields, log, verdict and registry are those of RecverOnWaitLogin |
| LoginTasks.LoginRecverTask.OnService | cmu/stubtest/cmustubtest/source/devlogintask.cpp:461-509 | fields, log and verdict are those of RecverOnService |
| LoginTasks.LoginRecverTask.TimerPoll | cmu/stubtest/cmustubtest/source/devlogintask.cpp:456-459 | TIMERPOLL_DONE in both states, as RecverTimerPoll |
| LoginTasks.LoginRecverTask.ProcMsg | cmu/stubtest/cmustubtest/source/devlogintask.cpp:348-363 | dispatch on state: the result is RecverProcMsg's, with no handler for WaitLogout |
| LoginInvariants.SenderEventKeepsHeartbeatInv | cmu/stubtest/cmustubtest/source/devlogintask.cpp:84-305 | every message, timer poll or logout keeps: heartbeat running in Service, stopped in WaitLogout |
| LoginInvariants.SenderRunKeepsHeartbeatInv | cmu/stubtest/cmustubtest/source/devlogintask.cpp:61-305 | the same invariant after any sequence of events up to deletion |
| LoginInvariants.SenderReleaseStopsHeartbeat | cmu/stubtest/cmustubtest/source/devlogintask.cpp:18-59 | destroying a device task past WaitLogin leaves its heartbeat stopped |
| LoginInvariants.SenderDisconnectLeavesHeartbeat | cmu/stubtest/cmustubtest/source/devlogintask.cpp:210-219 | a disconnect in Service goes to WaitLogin without stopping the heartbeat, and a later destruction does not stop it either |
| LoginInvariants.DestroyOutsideService | cmu/stubtest/cmustubtest/source/devlogintask.cpp:323-328 | deleting a server task outside Service keeps the registry invariant |
| LoginInvariants.LoginKeeps | cmu/stubtest/cmustubtest/source/devlogintask.cpp:418-434 | a successful login keeps the registry invariant |
| LoginInvariants.LogoutKeeps | cmu/stubtest/cmustubtest/source/devlogintask.cpp:466-498 | deletion after a logout or disconnect (with release) keeps the registry invariant |
| LoginInvariants.RecverWorldStepKeeps | cmu/stubtest/cmustubtest/source/devlogintask.cpp:365-509 | any one event for any server task keeps the registry invariant |
| LoginInvariants.RecverRunKeeps | cmu/stubtest/cmustubtest/source/devlogintask.cpp:318-514 | after any sequence of events the registry holds a device URI exactly while a task for it is in Service |
| LoginInvariants.DuplicateLoginRefused | cmu/stubtest/cmustubtest/source/devlogintask.cpp:399-405 | a second login for a registered URI is answered with already-connected, deleted, and leaves the registry and the owning task untouched |
| LoginInvariants.SenderReleaseHarmless | cmu/stubtest/cmustubtest/source/devlogintask.cpp:39-49 | the device side's erase keeps the registry invariant when no server task owns its session key |
| LoginInvariants.SenderReleaseErasesRecverEntry | cmu/stubtest/cmustubtest/source/devlogintask.cpp:36-49 | when a server task in Service owns that key, the device side's destruction removes its entry and the registry invariant breaks |
| XDequeModel.XDeque.constructor | include/cms/container/xdeque.h:37-43 | empty, size 0, capacity max(nCapacity, 1), all nodes free |
| XDequeModel.XDeque.CopyOf | include/cms/container/xdeque.h:50-53 | same elements in the same order and the same capacity as the source |
| XDequeModel.XDeque.Assign | include/cms/container/xdeque.h:55-64 | afterwards holds the other's elements and capacity; self-assignment changes nothing |
| XDequeModel.XDeque.PushBack | include/cms/container/xdeque.h:68-87 | returns true; contents become [x] + old contents; size + 1; capacity doubles (or becomes 1) exactly when no node was free |
| XDequeModel.XDeque.PushFront | include/cms/container/xdeque.h:89-109 | returns true; contents become old contents + [x]; size + 1; same capacity growth |
| XDequeModel.XDeque.PopBack | include/cms/container/xdeque.h:111-127 | succeeds iff non-empty, returning the head element and dropping it (size − 1); the freed node heads the free list and holds T(); on empty returns false and changes nothing |
| XDequeModel.XDeque.PopFront | include/cms/container/xdeque.h:129-145 | succeeds iff non-empty, returning the tail element and dropping it; otherwise as PopBack |
| XDequeModel.XDeque.GetSize | include/cms/container/xdeque.h:147-150 | the number of elements |
| XDequeModel.XDeque.Empty | include/cms/container/xdeque.h:152-160 | no elements, size 0, capacity 0 |
| XDequeModel.XDeque.IsEmpty | include/cms/container/xdeque.h:162-165 | true exactly when there are no elements |
| XDequeModel.XDeque.CreateFreeList | include/cms/container/xdeque.h:168-191 | with free nodes left: no change; otherwise max(n, 1) new free nodes and capacity grows by as many; elements untouched |
| XDequeModel.XDeque.DestroyNodeList | include/cms/container/xdeque.h:193-208 | walking a chain to null lowers capacity by the chain's length |
| XDequeModel.XDeque.CreateNode | include/cms/container/xdeque.h:210-224 | returns a node taken off the free list (its first one when there was one), linked as asked, counted in size and in neither list; grows the pool first when exhausted |
| XDequeModel.XDeque.FreeNode | include/cms/container/xdeque.h:226-235 | a detached node gets T() as data and heads the free list; size − 1; null is ignored |
| XDequeModel.XDeque.Copy | include/cms/container/xdeque.h:237-257 | from a source of capacity > 0: same elements in order and same capacity; from capacity 0: no change |
| XDequeModel.PushBackThenPopBack | include/cms/container/xdeque.h:68-127 | PopBack after PushBack(x) returns x and restores the contents |
| XDequeModel.PushBackThenPopFront | include/cms/container/xdeque.h:68-145 | PushBack then PopFront is FIFO: the oldest element comes out, x only from an empty deque |
| XDequeModel.ChainNoRepeat | include/cms/container/xdeque.h:193-208 | a list followed along next to null never visits a node twice |
| XDequeModel.ChainDistinct | include/cms/container/xdeque.h:193-208 | every node list of the pool is free of repeats |
| XDequeModel.LiveEnds | include/cms/container/xdeque.h:113-123 | head (tail) is null exactly when empty; head == tail exactly for one element; head holds the first element and links to the second |
| XDequeModel.StepAddFree | include/cms/container/xdeque.h:176-186 | a new node pushed on the free list keeps the invariant with capacity + 1 |
| XDequeModel.StepCreate | include/cms/container/xdeque.h:217-221 | taking the first free node keeps both lists well formed; the node is in neither list and still holds T() |
| XDequeModel.StepFree | include/cms/container/xdeque.h:228-234 | returning a detached node to the free list keeps the invariant |
| XDequeModel.StepPushHead | include/cms/container/xdeque.h:73-85 | linking a new node before the head gives a live list of [x] + nodes holding [v] + contents |
| XDequeModel.StepPushTail | include/cms/container/xdeque.h:94-107 | linking a new node after the tail gives nodes + [x] holding contents + [v] |
| XDequeModel.StepPopHead | include/cms/container/xdeque.h:117-123 | unlinking the head leaves the rest as the live list, the old head detached |
| XDequeModel.StepPopTail | include/cms/container/xdeque.h:135-141 | unlinking the tail leaves the rest as the live list, the old tail detached |

## Left out

- Logging (`TASKLOG`, `OspPrintf`) and `CGeneralLoginList::PrintData` (devlogintask.cpp:518-542): printing only.
- SIP transport: `PostMsgReq` and `PostMsgRsp` are recorded as sent-message effects. The result of `PostMsgReq` is only logged by the source, so it is dropped.
- Message decoding: `GetMsgBody` and `GetSipTransID` become the fields of the `Message` datatype. The response header copied by `SetHeadFromReq` is represented by the transaction id only.
- `OspSipGetLocalURI` is an input (`localUri`). `IsValidURI` is an input predicate (`isValidUri`). `GetCurStateHoldTime` is an input (`holdTime`).
- `DEV_LOGIN_TIMEOUT` is a constant given at construction (`loginTimeout`): its value is defined in a header that is not part of this model.
- The numeric values of the error codes live in `cms_errorcode.h`, which is not part of this model. The codes the handlers use are named constructors.
- Heartbeats (`SetHBParam`, `StopHB`) and `DestroyChildTasks` are logged effects. Their subsystems are not part of this model.
- The handler tables built by `InitStateMachine` become a match on the state. Error messages go to the same handler as messages.
- The class of `g_cGeneralLoginList` is not part of this model. The list is a map from session to task identity, and its iteration is not modelled.
- Destructors run `ReleaseResource`: the model calls it explicitly. The task framework's deletion is `Destroy` in the server-side run model.
- The state-entry clock restarted by `NextState` is recorded as an `EnterState` effect. The clock itself is the `holdTime` input.
- Concurrency: events are delivered one at a time. Concurrent access to the global list is not modelled.
- Allocation failure in the deque (`new CLink` returning 0, and the clean-up path after it): not modelled. `CreateFreeList` therefore has no failure result.
- XDequeModel.XDeque.PushBack: always returns true, because allocation failure is not modelled.
- XDequeModel.XDeque.PushFront: always returns true, for the same reason.
- XDequeModel.XDeque.CopyOf: requires a source of non-zero capacity. With capacity 0 the copy constructor returns before initialising any member, so the result is undefined.
- `size_t` wrap-around of the deque's counters is not modelled: counts are unbounded naturals.
- The value returned by `operator=` (`*this`) is not modelled.
- The deque's destructor (`Empty`) is not modelled separately. There are no destructors.
- Nodes are slots of one pool rather than separately allocated objects:
  - `DestroyNodeList` counts the nodes it deletes, and `Empty` then drops the whole pool at once;
  - no node address is exposed outside the deque, so aliasing from outside is not a concern.
- `T()` is the value `blank` given at construction; a copy takes the source's.
