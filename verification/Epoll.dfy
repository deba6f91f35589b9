/** The I/O manager's registered events, beside the kernel's interest list. */
module Epoll {
  import opened Text

  datatype Event = Read | Write

  type Mask = set<Event>
  type Waiter = nat

  /** Who is to be woken. A callback goes before a handle, a handle before a ticket. */
  datatype EventContext = EventContext(cb: Option<Waiter>, handle: Option<Waiter>, ticket: Option<Waiter>)

  const NO_CONTEXT := EventContext(None, None, None)

  datatype FdContext = FdContext(events: Mask, read: EventContext, write: EventContext)

  const NEW_FD := FdContext({}, NO_CONTEXT, NO_CONTEXT)

  datatype Registration = ByCallback(w: Waiter) | ByHandle(w: Waiter) | ByTicket(w: Waiter)

  function ContextOf(c: FdContext, e: Event): EventContext {
    if e == Read then c.read else c.write
  }

  function WithContext(c: FdContext, e: Event, ctx: EventContext): FdContext {
    if e == Read then c.(read := ctx) else c.(write := ctx)
  }

  function Registered(ctx: EventContext, reg: Registration): EventContext {
    match reg
    case ByCallback(w) => ctx.(cb := Some(w))
    case ByHandle(w) => ctx.(handle := Some(w))
    case ByTicket(w) => ctx.(ticket := Some(w))
  }

  function Wakee(ctx: EventContext): Option<Waiter> {
    if ctx.cb.Some? then ctx.cb else if ctx.handle.Some? then ctx.handle else ctx.ticket
  }

  /** triggerContext takes the callback out and leaves the rest in place. */
  function Triggered(c: FdContext, e: Event): FdContext {
    WithContext(c, e, ContextOf(c, e).(cb := None)).(events := c.events - {e})
  }

  function Woken(c: FdContext, e: Event): seq<Waiter> {
    if Wakee(ContextOf(c, e)).Some? then [Wakee(ContextOf(c, e)).value] else []
  }

  // ---------- the kernel ----------

  datatype Op = Add | Mod | Del

  /** EPOLL_CTL_ADD wants a descriptor that is not on the list, the others one that is. */
  predicate Legal(kernel: map<int, Mask>, op: Op, fd: int) {
    op == Add <==> fd !in kernel
  }

  function Ctl(kernel: map<int, Mask>, op: Op, fd: int, mask: Mask): map<int, Mask> {
    if op == Del then kernel - {fd} else kernel[fd := mask]
  }

  // ---------- totals over all descriptors ----------

  function Having(m: map<int, Mask>, e: Event): set<int> {
    set fd | fd in m && e in m[fd]
  }

  /** The number of event bits over all descriptors. */
  function Bits(m: map<int, Mask>): int {
    |Having(m, Read)| + |Having(m, Write)|
  }

  lemma EitherEvent(e: Event)
    ensures e in {Read, Write}
  {
  }

  lemma MaskSize(mask: Mask)
    ensures |mask| == (if Read in mask then 1 else 0) + (if Write in mask then 1 else 0)
  {
    var both := (if Read in mask then {Read} else {}) + (if Write in mask then {Write} else {});
    forall e | e in mask
      ensures e in both
    {
      EitherEvent(e);
    }
    assert mask == both;
  }

  lemma HavingWithout(m: map<int, Mask>, fd: int, e: Event)
    ensures |Having(m - {fd}, e)| == |Having(m, e)| - (if fd in m && e in m[fd] then 1 else 0)
  {
    var all, rest := Having(m, e), Having(m - {fd}, e);
    assert rest == all - {fd};
    assert fd in all <==> fd in m && e in m[fd];
  }

  lemma HavingChange(m: map<int, Mask>, fd: int, mask: Mask, e: Event)
    ensures |Having(m[fd := mask], e)| == |Having(m - {fd}, e)| + (if e in mask then 1 else 0)
    ensures |Having(m - {fd}, e)| == |Having(m, e)| - (if fd in m && e in m[fd] then 1 else 0)
  {
    hide Having;
    HavingWithout(m, fd, e);
    HavingWithout(m[fd := mask], fd, e);
    assert m[fd := mask] - {fd} == m - {fd};
  }

  lemma BitsChange(m: map<int, Mask>, fd: int, mask: Mask)
    ensures Bits(m[fd := mask]) == Bits(m - {fd}) + |mask|
    ensures Bits(m - {fd}) == Bits(m) - (if fd in m then |m[fd]| else 0)
  {
    hide Having;
    HavingChange(m, fd, mask, Read);
    HavingChange(m, fd, mask, Write);
    MaskSize(mask);
    if fd in m {
      MaskSize(m[fd]);
    }
  }

  /** The kernel watches exactly the registered events, their number is the counter, and
      an event that is not registered holds no callback. */
  ghost predicate Consistent(ctxs: map<int, FdContext>, kernel: map<int, Mask>, pending: int) {
    && (forall fd :: fd in kernel ==> fd in ctxs && ctxs[fd].events == kernel[fd])
    && (forall fd :: fd in ctxs && fd !in kernel ==> ctxs[fd].events == {})
    && (forall fd :: fd in kernel ==> kernel[fd] != {})
    && pending == Bits(kernel)
    && (forall fd, e :: fd in ctxs && e !in ctxs[fd].events ==> ContextOf(ctxs[fd], e).cb == None)
  }

  function EventsOf(ctxs: map<int, FdContext>, fd: int): Mask {
    if fd in ctxs then ctxs[fd].events else {}
  }

  /** All of one descriptor's change: its context, the kernel's list and the counter. */
  lemma ConsistentChange(ctxs: map<int, FdContext>, kernel: map<int, Mask>, pending: int, fd: int, c: FdContext, op: Op)
    requires Consistent(ctxs, kernel, pending)
    requires RightOp(EventsOf(ctxs, fd), c.events, op)
    requires forall e :: e !in c.events ==> ContextOf(c, e).cb == None
    ensures Legal(kernel, op, fd)
    ensures Consistent(ctxs[fd := c], Ctl(kernel, op, fd, c.events), pending + |c.events| - |EventsOf(ctxs, fd)|)
  {
    hide Bits, ContextOf;
    BitsChange(kernel, fd, c.events);
  }

  class IOManager {
    var contexts: map<int, FdContext>
    var kernel: map<int, Mask>
    var pending: int
    var stopping: bool
    /** What has been handed to the scheduler, in order. */
    var woken: seq<Waiter>

    ghost predicate Valid()
      reads this
    {
      Consistent(contexts, kernel, pending)
    }

    constructor ()
      ensures Valid() && contexts == map[] && pending == 0 && woken == [] && !stopping
    {
      contexts, kernel, pending, stopping, woken := map[], map[], 0, false, [];
    }

    function Context(fd: int): FdContext
      reads this
    {
      if fd in contexts then contexts[fd] else NEW_FD
    }

    /** epoll_ctl: refused when the kernel's list does not fit, or for reasons of its own. */
    method Control(op: Op, fd: int, mask: Mask, fails: bool) returns (ok: bool)
      modifies this`kernel
      ensures ok ==> Legal(old(kernel), op, fd) && !fails && kernel == Ctl(old(kernel), op, fd, mask)
      ensures !ok ==> (fails || !Legal(old(kernel), op, fd)) && kernel == old(kernel)
    {
      ok := Legal(kernel, op, fd) && !fails;
      if ok {
        kernel := Ctl(kernel, op, fd, mask);
      }
    }

    /** epoll_ctl, and the bookkeeping when it succeeds. Illegal calls never happen, so only
        a failure of the kernel's own stops it. */
    method Update(fd: int, c: FdContext, op: Op, fails: bool) returns (ok: bool)
      requires Valid() && fd in contexts && RightOp(contexts[fd].events, c.events, op)
      requires forall e :: e !in c.events ==> ContextOf(c, e).cb == None
      modifies this`contexts, this`kernel, this`pending
      ensures Valid() && (ok <==> !fails)
      ensures ok ==> contexts == old(contexts)[fd := c] && pending == old(pending) + |c.events| - |old(contexts)[fd].events|
      ensures !ok ==> contexts == old(contexts) && pending == old(pending)
    {
      hide Consistent, ContextOf, Ctl;
      ConsistentChange(contexts, kernel, pending, fd, c, op);
      ok := Control(op, fd, c.events, fails);
      if ok {
        pending := pending + |c.events| - |contexts[fd].events|;
        contexts := contexts[fd := c];
      }
    }

    method FindOrCreate(fd: int) returns (c: FdContext)
      requires Valid()
      modifies this`contexts
      ensures Valid() && fd in contexts && contexts[fd] == c == old(Context(fd))
      ensures contexts == old(contexts) || contexts == old(contexts)[fd := NEW_FD]
    {
      hide Consistent;
      if fd !in contexts {
        NewContext(contexts, kernel, pending, fd);
        contexts := contexts[fd := NEW_FD];
      }
      c := contexts[fd];
    }

    /** Registration succeeds exactly for a new event of a valid descriptor. */
    method AddEvent(fd: int, e: Event, reg: Registration, fails: bool) returns (rc: int)
      requires Valid()
      modifies this`contexts, this`kernel, this`pending
      ensures Valid()
      ensures rc == 0 <==> !stopping && fd >= 0 && e !in old(Context(fd)).events && !fails
      ensures rc == 0 ==> Context(fd) == Added(old(Context(fd)), e, reg) && pending == old(pending) + 1
      ensures rc != 0 ==> Context(fd) == old(Context(fd)) && pending == old(pending)
      ensures forall x :: x != fd ==> Context(x) == old(Context(x))
    {
      hide Consistent, Added;
      rc := -1;
      if stopping || fd < 0 {
        return;
      }
      var c := FindOrCreate(fd);
      if e in c.events {
        return;
      }
      IdleContexts(contexts, kernel, pending, fd);
      AddedContext(c, e, reg);
      var ok := Update(fd, Added(c, e, reg), if c.events != {} then Mod else Add, fails);
      if ok {
        rc := 0;
      }
    }

    method DelEvent(fd: int, e: Event, fails: bool) returns (ok: bool)
      requires Valid()
      modifies this`contexts, this`kernel, this`pending
      ensures Valid()
      ensures ok <==> !stopping && fd >= 0 && e in old(Context(fd)).events && !fails
      ensures ok ==> Context(fd) == Deleted(old(Context(fd)), e) && pending == old(pending) - 1
      ensures !ok ==> Context(fd) == old(Context(fd)) && pending == old(pending)
      ensures forall x :: x != fd ==> Context(x) == old(Context(x))
    {
      hide Consistent, Deleted;
      if stopping || fd < 0 || fd !in contexts || e !in contexts[fd].events {
        return false;
      }
      var c := contexts[fd];
      IdleContexts(contexts, kernel, pending, fd);
      DeletedContext(c, e);
      ok := Update(fd, Deleted(c, e), if c.events - {e} != {} then Mod else Del, fails);
    }

    method CancelEvent(fd: int, e: Event, fails: bool) returns (ok: bool)
      requires Valid()
      modifies this`contexts, this`kernel, this`pending, this`woken
      ensures Valid()
      ensures ok <==> !stopping && fd >= 0 && e in old(Context(fd)).events && !fails
      ensures ok ==> Context(fd) == Triggered(old(Context(fd)), e) && pending == old(pending) - 1
      ensures woken == old(woken) + if ok then Woken(old(Context(fd)), e) else []
      ensures woken == old(woken) + if ok then One(Wakee(ContextOf(old(Context(fd)), e))) else []
      ensures ok ==> LeftOrSame(old(Context(fd)), Context(fd), e, true)
      ensures ok ==> forall x :: x != e ==> LeftOrSame(old(Context(fd)), Context(fd), x, false)
      ensures !ok ==> Context(fd) == old(Context(fd)) && pending == old(pending)
      ensures forall x :: x != fd ==> Context(x) == old(Context(x))
    {
      hide Consistent, TriggeredAll, WokenAll;
      if stopping || fd < 0 || fd !in contexts || e !in contexts[fd].events {
        return false;
      }
      var c := contexts[fd];
      IdleContexts(contexts, kernel, pending, fd);
      TriggeredContext(c, {e});
      OneTriggered(c, e);
      AllTriggered(c, {e});
      ok := Update(fd, TriggeredAll(c, {e}), if c.events - {e} != {} then Mod else Del, fails);
      if ok {
        woken := woken + Woken(c, e);
      }
    }

    /** ENOENT, the kernel's answer to a descriptor it does not have, would be let through;
        it cannot occur. */
    method CancelAll(fd: int, fails: bool) returns (ok: bool)
      requires Valid()
      modifies this`contexts, this`kernel, this`pending, this`woken
      ensures Valid()
      ensures ok <==> !stopping && fd >= 0 && old(Context(fd)).events != {} && !fails
      ensures ok ==>
        && Context(fd) == TriggeredAll(old(Context(fd)), {Read, Write}) && Context(fd).events == {}
        && pending == old(pending) - |old(Context(fd)).events|
      ensures woken == old(woken) + if ok then WokenAll(old(Context(fd)), {Read, Write}) else []
      ensures ok ==> woken == old(woken) + Wakees(old(Context(fd)), Read in old(Context(fd)).events, Write in old(Context(fd)).events)
      ensures ok ==> forall e :: LeftOrSame(old(Context(fd)), Context(fd), e, e in old(Context(fd)).events)
      ensures !ok ==> Context(fd) == old(Context(fd)) && pending == old(pending)
      ensures forall x :: x != fd ==> Context(x) == old(Context(x))
    {
      hide Consistent, TriggeredAll, WokenAll;
      if stopping || fd < 0 || fd !in contexts || contexts[fd].events == {} {
        return false;
      }
      var c := contexts[fd];
      IdleContexts(contexts, kernel, pending, fd);
      TriggeredContext(c, {Read, Write});
      NothingLeft(c.events);
      AllTriggered(c, c.events);
      OnlyRegistered(c, {Read, Write});
      ok := Update(fd, TriggeredAll(c, {Read, Write}), Del, fails);
      if ok {
        woken := woken + WokenAll(c, {Read, Write});
      }
    }

    /** One entry of epoll_wait's answer: an error or hang-up counts as both events; what
        is not registered is ignored. */
    method Dispatch(fd: int, ready: Mask, error: bool, fails: bool) returns (ok: bool)
      requires Valid()
      modifies this`contexts, this`kernel, this`pending, this`woken
      ensures Valid()
      ensures ok <==> Active(old(Context(fd)), ready, error) != {} && !fails
      ensures ok ==>
        && Context(fd) == TriggeredAll(old(Context(fd)), Active(old(Context(fd)), ready, error))
        && pending == old(pending) - |Active(old(Context(fd)), ready, error)|
      ensures woken == old(woken)
        + if ok then WokenAll(old(Context(fd)), Active(old(Context(fd)), ready, error)) else []
      ensures ok <==> !fails && exists e :: e in old(Context(fd)).events && (error || e in ready)
      ensures ok ==> woken == old(woken) + Wakees(old(Context(fd)), Read in old(Context(fd)).events && (error || Read in ready),
                                                  Write in old(Context(fd)).events && (error || Write in ready))
      ensures ok ==> forall e ::
        LeftOrSame(old(Context(fd)), Context(fd), e, e in old(Context(fd)).events && (error || e in ready))
      ensures !ok ==> Context(fd) == old(Context(fd)) && pending == old(pending)
      ensures forall x :: x != fd ==> Context(x) == old(Context(x))
    {
      hide Consistent, TriggeredAll, WokenAll;
      if fd !in contexts {
        return false;
      }
      var c := contexts[fd];
      var active := Active(c, ready, error);
      ActiveIs(c, ready, error);
      AllTriggered(c, active);
      if active == {} {
        return false;
      }
      IdleContexts(contexts, kernel, pending, fd);
      TriggeredContext(c, active);
      ok := Update(fd, TriggeredAll(c, active), if c.events - active != {} then Mod else Del, fails);
      if ok {
        woken := woken + WokenAll(c, active);
      }
    }
  }

  predicate RightOp(before: Mask, after: Mask, op: Op) {
    (before != {} || after != {}) && op == if after == {} then Del else if before == {} then Add else Mod
  }

  function Added(c: FdContext, e: Event, reg: Registration): FdContext {
    WithContext(c, e, Registered(ContextOf(c, e), reg)).(events := c.events + {e})
  }

  function Deleted(c: FdContext, e: Event): FdContext {
    WithContext(c, e, NO_CONTEXT).(events := c.events - {e})
  }

  function Active(c: FdContext, ready: Mask, error: bool): Mask {
    c.events * (if error then {Read, Write} else ready)
  }

  /** Read before write. */
  function TriggeredAll(c: FdContext, events: Mask): FdContext {
    var c1 := if Read in events && Read in c.events then Triggered(c, Read) else c;
    if Write in events && Write in c.events then Triggered(c1, Write) else c1
  }

  function WokenAll(c: FdContext, events: Mask): seq<Waiter> {
    (if Read in events && Read in c.events then Woken(c, Read) else [])
    + (if Write in events && Write in c.events then Woken(c, Write) else [])
  }

  function One(o: Option<Waiter>): seq<Waiter> {
    if o.Some? then [o.value] else []
  }

  /** The reader and then the writer of a descriptor, as far as they leave. */
  function Wakees(c: FdContext, read: bool, write: bool): seq<Waiter> {
    (if read then One(Wakee(c.read)) else []) + (if write then One(Wakee(c.write)) else [])
  }

  /** Event e has left, its callback with it, or everything about it is as before. */
  predicate LeftOrSame(before: FdContext, after: FdContext, e: Event, left: bool) {
    && (e in after.events <==> e in before.events && !left)
    && ContextOf(after, e) == (if left then ContextOf(before, e).(cb := None) else ContextOf(before, e))
  }

  lemma AllTriggered(c: FdContext, events: Mask)
    requires events <= c.events
    ensures forall e :: LeftOrSame(c, TriggeredAll(c, events), e, e in events)
    ensures WokenAll(c, events) == Wakees(c, Read in events, Write in events)
  {
    forall e
      ensures LeftOrSame(c, TriggeredAll(c, events), e, e in events)
    {
      EitherEvent(e);
    }
  }

  ghost predicate IdleOk(c: FdContext) {
    forall e :: e !in c.events ==> ContextOf(c, e).cb == None
  }

  lemma IdleContexts(ctxs: map<int, FdContext>, kernel: map<int, Mask>, pending: int, fd: int)
    requires Consistent(ctxs, kernel, pending) && fd in ctxs
    ensures IdleOk(ctxs[fd])
  {
  }

  lemma AddedContext(c: FdContext, e: Event, reg: Registration)
    requires IdleOk(c) && e !in c.events
    ensures IdleOk(Added(c, e, reg)) && Added(c, e, reg).events == c.events + {e}
    ensures |c.events + {e}| == |c.events| + 1 && e in c.events + {e}
  {
  }

  lemma DeletedContext(c: FdContext, e: Event)
    requires IdleOk(c) && e in c.events
    ensures IdleOk(Deleted(c, e)) && Deleted(c, e).events == c.events - {e}
    ensures |c.events - {e}| == |c.events| - 1
  {
  }

  lemma TriggeredContext(c: FdContext, events: Mask)
    requires IdleOk(c)
    ensures IdleOk(TriggeredAll(c, events)) && TriggeredAll(c, events).events == c.events - events
    ensures |c.events - events| == |c.events| - |c.events * events|
  {
    forall e
      ensures e in TriggeredAll(c, events).events <==> e in c.events - events
    {
      EitherEvent(e);
    }
    assert TriggeredAll(c, events).events == c.events - events;
    assert c.events == (c.events - events) + (c.events * events);
  }

  lemma OneTriggered(c: FdContext, e: Event)
    requires e in c.events
    ensures TriggeredAll(c, {e}) == Triggered(c, e) && c.events * {e} == {e}
  {
  }

  lemma ActiveIs(c: FdContext, ready: Mask, error: bool)
    ensures Active(c, ready, error) <= c.events
    ensures forall e :: e in Active(c, ready, error) <==> e in c.events && (error || e in ready)
  {
    forall e | e in c.events
      ensures e in {Read, Write}
    {
      EitherEvent(e);
    }
  }

  /** Events that are not registered are not triggered. */
  lemma OnlyRegistered(c: FdContext, events: Mask)
    ensures TriggeredAll(c, events) == TriggeredAll(c, c.events * events) && WokenAll(c, events) == WokenAll(c, c.events * events)
  {
  }

  lemma NothingLeft(events: Mask)
    ensures events - {Read, Write} == {} && events * {Read, Write} == events
  {
    forall e | e in events
      ensures e in {Read, Write}
    {
      EitherEvent(e);
    }
  }

  // ---------- who is woken ----------

  /** A trigger wakes the one who registered, exactly unless a ticket was registered where a
      handle of an earlier registration is still in place. */
  lemma WakesRegisteredIff(c: FdContext, e: Event, reg: Registration)
    requires IdleOk(c) && e !in c.events
    ensures Woken(Added(c, e, reg), e) == [reg.w]
       <==> (reg.ByTicket? ==> ContextOf(c, e).handle in {None, Some(reg.w)})
  {
    assert ContextOf(c, e).cb == None;
  }

  /** Nothing but deletion clears an old handle. */
  lemma HandleStays(c: FdContext, e: Event, w: Waiter)
    requires IdleOk(c) && e !in c.events
    ensures var again := Triggered(Added(c, e, ByHandle(w)), e);
      e !in again.events && ContextOf(again, e).handle == Some(w)
    ensures ContextOf(Deleted(Added(c, e, ByHandle(w)), e), e).handle == None
  {
  }

  // ---------- one descriptor over any number of calls ----------

  datatype Step = Register(e: Event, reg: Registration) | Remove(e: Event) | Trigger(e: Event)

  function Take(c: FdContext, step: Step): FdContext {
    match step
    case Register(e, reg) => Added(c, e, reg)
    case Remove(e) => Deleted(c, e)
    case Trigger(e) => Triggered(c, e)
  }

  function After(steps: seq<Step>): FdContext {
    if steps == [] then NEW_FD else Take(After(steps[..|steps| - 1]), steps[|steps| - 1])
  }

  /** An event is registered only when it is not, removed and triggered only when it is. */
  predicate Possible(steps: seq<Step>) {
    steps == [] ||
    var before, step := steps[..|steps| - 1], steps[|steps| - 1];
    Possible(before) && (step.Register? <==> step.e !in After(before).events)
  }

  /** The registration that is waiting for e. */
  function Current(steps: seq<Step>, e: Event): Option<Registration> {
    if steps == [] then None
    else
      var step := steps[|steps| - 1];
      if step.e != e then Current(steps[..|steps| - 1], e)
      else if step.Register? then Some(step.reg) else None
  }

  /** The last handle registered for e since e was last removed. */
  function OldHandle(steps: seq<Step>, e: Event): Option<Waiter> {
    if steps == [] then None
    else
      var before, step := steps[..|steps| - 1], steps[|steps| - 1];
      if step.e != e then OldHandle(before, e)
      else if step.Remove? then None
      else if step.Register? && step.reg.ByHandle? then Some(step.reg.w)
      else OldHandle(before, e)
  }

  ghost predicate Tracks(c: FdContext, steps: seq<Step>, e: Event) {
    var reg, ctx := Current(steps, e), ContextOf(c, e);
    && (e in c.events <==> reg.Some?)
    && ctx.handle == OldHandle(steps, e)
    && ctx.cb == (if reg.Some? && reg.value.ByCallback? then Some(reg.value.w) else None)
    && (reg.Some? && reg.value.ByTicket? ==> ctx.ticket == Some(reg.value.w))
  }

  lemma {:induction false} RunTracks(steps: seq<Step>, e: Event)
    requires Possible(steps)
    ensures Tracks(After(steps), steps, e)
  {
    if steps != [] {
      RunTracks(steps[..|steps| - 1], e);
    }
  }

  /** Over any calls on a descriptor: a trigger wakes the one whose registration is waiting,
      exactly unless that is by ticket and another waiter's handle, registered since the event
      was last removed, is still in place. */
  lemma WakesWaitingIff(steps: seq<Step>, e: Event)
    requires Possible(steps) && e in After(steps).events
    ensures Current(steps, e).Some?
    ensures var reg := Current(steps, e).value;
      Woken(After(steps), e) == [reg.w] <==> (reg.ByTicket? ==> OldHandle(steps, e) in {None, Some(reg.w)})
  {
    RunTracks(steps, e);
    hide After, Current, OldHandle, Possible;
    if Current(steps, e).value.ByHandle? {
      HandleIsOld(steps, e);
    }
  }

  lemma {:induction false} HandleIsOld(steps: seq<Step>, e: Event)
    requires Current(steps, e).Some? && Current(steps, e).value.ByHandle?
    ensures OldHandle(steps, e) == Some(Current(steps, e).value.w)
  {
    if steps[|steps| - 1].e != e {
      HandleIsOld(steps[..|steps| - 1], e);
    }
  }

  lemma NewContext(ctxs: map<int, FdContext>, kernel: map<int, Mask>, pending: int, fd: int)
    requires Consistent(ctxs, kernel, pending) && fd !in ctxs
    ensures Consistent(ctxs[fd := NEW_FD], kernel, pending)
  {
    hide Bits;
  }
}
