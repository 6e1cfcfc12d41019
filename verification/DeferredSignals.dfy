/** Deferred signals, src/lisp/interrupt.c, as a state machine whose steps are the arrival of a signal or of a trap, the
    changes of the Lisp code's state that matter to the handlers, and the return of a handler. The ports are those whose
    Lisp code runs outside of foreign calls, all but the x86 ones. */
module DeferredSignals {

  const MAX_INTERRUPTS := 4096

  datatype Handler = Ignored | Default | LispFunction | CFunction

  /** The signals of FILLBLOCKSET, and the handlers that Lisp has installed. */
  datatype Config = Config(blockable: set<int>, handlers: int -> Handler)

  /** An interrupted context: its signal mask, whether Lisp was running and in a pseudo-atomic section, whether that has
      to trap when it ends, and, for the statements, what the state was. */
  datatype Frame = Frame(mask: set<int>, inLisp: bool, pa: bool, paInterrupted: bool, enabled: bool, index: nat)

  datatype Deferral = Deferral(signal: int, mask: set<int>)

  /** saved is the binding stack, as far as the index of free contexts is bound; deferred and resumed are the histories
      of the signals that were deferred and of those that were handled later. */
  datatype State = State(mask: set<int>, enabled: bool, interruptPending: bool, pa: bool, paInterrupted: bool,
                         foreign: bool, pendingSignal: int, pendingMask: set<int>, frames: seq<Frame>, index: nat,
                         saved: seq<nat>, contexts: map<nat, nat>, exited: bool, deferred: seq<Deferral>,
                         resumed: seq<Deferral>)

  /** A signal arrives; a Lisp error traps; interrupts are disabled or enabled again; a pseudo-atomic section or a
      foreign call begins or ends; the handler that was called last returns. */
  datatype Event =
    Deliver(signal: int) | Error | Disable | Enable | EnterAtomic | LeaveAtomic | CallOut | CallBack | Return

  // --- What the functions of the runtime do

  /** fake_foreign_function_call, in the frame at position |frames|: the index is bound to the next one. */
  function FakeForeignFunctionCall(s: State): State {
    if s.index >= MAX_INTERRUPTS then s.(exited := true)
    else s.(saved := s.saved + [s.index], contexts := s.contexts[s.index := |s.frames|], index := s.index + 1,
        foreign := true)
  }

  /** undo_fake_foreign_function_call, with unbind */
  function UndoFakeForeignFunctionCall(c: Config, s: State): State
    requires s.saved != []
  {
    s.(mask := s.mask + c.blockable, foreign := false, index := s.saved[|s.saved| - 1],
        saved := s.saved[..|s.saved| - 1])
  }

  /** interrupt_handle_now until the handler has been called; mask is that of the interrupted context. */
  function HandleNow(c: Config, s: State, signal: int, mask: set<int>): State {
    var h := c.handlers(signal);
    if h == Ignored then s.(mask := mask)
    else
      var s1 := if s.foreign then s else FakeForeignFunctionCall(s);
      if s1.exited || h == Default then s1.(exited := true)
      else
        s1.(frames := s.frames + [Frame(mask, !s.foreign, s.pa, s.paInterrupted, s.enabled, s.index)], mask := mask,
            foreign := h == CFunction, pa := false, paInterrupted := false)
  }

  /** setup_pending_signal; the context continues with all blockable signals blocked. */
  function SetupPendingSignal(c: Config, s: State, signal: int, mask: set<int>): State {
    s.(pendingSignal := signal, pendingMask := mask, mask := mask + c.blockable,
       deferred := s.deferred + [Deferral(signal, mask)])
  }

  /** maybe_now_maybe_later defers the signal. */
  predicate Defers(s: State) {
    !s.enabled || (!s.foreign && s.pa)
  }

  /** maybe_now_maybe_later */
  function MaybeNowMaybeLater(c: Config, s: State, signal: int, mask: set<int>): State {
    if !s.enabled then SetupPendingSignal(c, s, signal, mask).(interruptPending := true)
    else if !s.foreign && s.pa then SetupPendingSignal(c, s, signal, mask).(paInterrupted := true)
    else HandleNow(c, s, signal, mask)
  }

  /** interrupt_handle_pending */
  function HandlePending(c: Config, s: State): State {
    var s1 := s.(interruptPending := false, pendingMask := {}, mask := s.pendingMask);
    if s.pendingSignal == 0 then s1
    else
      HandleNow(c, s1.(pendingSignal := 0, resumed := s.resumed + [Deferral(s.pendingSignal, s.pendingMask)]),
                s.pendingSignal, s.pendingMask)
  }

  // --- The steps

  /** Signals arrive if they are not blocked; Lisp code does not call out or change whether interrupts are enabled in a
      pseudo-atomic section, and a handler returns when it has left all that it entered. */
  predicate Enabled(c: Config, s: State, e: Event) {
    !s.exited
    && match e
       case Deliver(signal) => signal > 0 && signal !in s.mask
       case Error => !s.foreign
       case Disable => !s.foreign && !s.pa && s.enabled
       case Enable => !s.foreign && !s.pa && !s.enabled
       case EnterAtomic => !s.foreign && !s.pa
       case LeaveAtomic => !s.foreign && s.pa
       case CallOut => !s.foreign && !s.pa
       case CallBack => s.foreign
       case Return => s.frames != [] && !s.pa && s.enabled == s.frames[|s.frames| - 1].enabled
                      && (s.frames[|s.frames| - 1].inLisp ==> s.saved != [])
  }

  function Step(c: Config, s: State, e: Event): State
    requires Enabled(c, s, e)
  {
    match e
    case Deliver(signal) =>
      if signal in c.blockable then MaybeNowMaybeLater(c, s, signal, s.mask) else HandleNow(c, s, signal, s.mask)
    case Error =>
      // interrupt_internal_error, which calls Lisp again
      var s1 := FakeForeignFunctionCall(s);
      if s1.exited then s1
      else
        s1.(frames := s.frames + [Frame(s.mask, true, s.pa, s.paInterrupted, s.enabled, s.index)],
            foreign := false, pa := false, paInterrupted := false)
    case Disable => s.(enabled := false)
    case Enable => if s.interruptPending then HandlePending(c, s.(enabled := true)) else s.(enabled := true)
    case EnterAtomic => s.(pa := true, paInterrupted := false)
    case LeaveAtomic =>
      if s.paInterrupted then HandlePending(c, s.(pa := false, paInterrupted := false)) else s.(pa := false)
    case CallOut => s.(foreign := true)
    case CallBack => s.(foreign := false)
    case Return =>
      var f := s.frames[|s.frames| - 1];
      var s1 := s.(foreign := true);
      var s2 := if f.inLisp then UndoFakeForeignFunctionCall(c, s1) else s1;
      s2.(frames := s.frames[..|s.frames| - 1], mask := f.mask, pa := f.pa, paInterrupted := f.paInterrupted)
  }

  // --- Invariants

  /** A frame interrupted where the trap that handles the pending signal is still to come. */
  ghost predicate FrameOk(c: Config, s: State, k: nat)
    requires k < |s.frames|
  {
    var f := s.frames[k];
    && (f.paInterrupted ==> f.pa && f.enabled && c.blockable <= f.mask && s.pendingSignal != 0)
    && (f.paInterrupted ==> c.blockable <= s.mask && forall j :: k < j < |s.frames| ==> c.blockable <= s.frames[j].mask)
    && (f.pa ==> f.inLisp)
    && (f.paInterrupted ==> !s.interruptPending && !s.paInterrupted)
    && (f.paInterrupted ==> forall j :: 0 <= j < |s.frames| && j != k ==> !s.frames[j].paInterrupted)
  }

  /** While a signal is pending all blockable ones are blocked, and the trap that handles it is due: when interrupts are
      enabled again, or when a pseudo-atomic section ends that is running or interrupted. */
  ghost predicate PendingOk(c: Config, s: State) {
    && (s.pendingSignal != 0 ==> c.blockable <= s.mask)
    && (s.interruptPending ==> s.pendingSignal != 0 && !s.enabled)
    && (s.pa ==> !s.foreign)
    && (s.paInterrupted ==> s.pendingSignal != 0 && s.pa && s.enabled && !s.interruptPending)
    && (s.pendingSignal != 0 ==> s.interruptPending || s.paInterrupted || Interrupted(s))
    && (forall k :: 0 <= k < |s.frames| ==> FrameOk(c, s, k))
  }

  ghost predicate Interrupted(s: State) {
    exists k :: 0 <= k < |s.frames| && s.frames[k].paInterrupted
  }

  /** Every deferred signal was handled later, once, in order and with the mask that it had, but for the one that is
      pending. */
  ghost predicate HistoryOk(s: State) {
    s.deferred == s.resumed + if s.pendingSignal == 0 then [] else [Deferral(s.pendingSignal, s.pendingMask)]
  }

  /** The index of free contexts before frame k. */
  ghost function IndexBefore(frames: seq<Frame>, k: nat): nat
    requires k <= |frames|
  {
    if k == 0 then 0 else IndexBefore(frames, k - 1) + (if frames[k - 1].inLisp then 1 else 0)
  }

  ghost predicate ContextAt(s: State, k: nat)
    requires k < |s.frames|
  {
    && s.frames[k].index == IndexBefore(s.frames, k)
    && (s.frames[k].inLisp ==> s.frames[k].index in s.contexts && s.contexts[s.frames[k].index] == k)
  }

  /** Bindings and contexts match the frames. */
  ghost predicate ContextsOk(s: State) {
    && s.index == |s.saved| == IndexBefore(s.frames, |s.frames|)
    && (forall i :: 0 <= i < |s.saved| ==> s.saved[i] == i)
    && (forall k :: 0 <= k < |s.frames| ==> ContextAt(s, k))
  }

  ghost predicate Inv(c: Config, s: State) {
    0 !in c.blockable && (!s.exited ==> PendingOk(c, s) && HistoryOk(s) && ContextsOk(s))
  }

  lemma {:induction false} IndexPrefix(frames: seq<Frame>, f: Frame, k: nat)
    requires k <= |frames|
    ensures IndexBefore(frames + [f], k) == IndexBefore(frames, k)
    decreases k
  {
    if k > 0 {
      IndexPrefix(frames, f, k - 1);
    }
  }

  lemma {:induction false} IndexBounded(frames: seq<Frame>, j: nat, k: nat)
    requires j < k <= |frames|
    ensures IndexBefore(frames, j) + (if frames[j].inLisp then 1 else 0) <= IndexBefore(frames, k)
    decreases k
  {
    if j < k - 1 {
      IndexBounded(frames, j, k - 1);
    }
  }

  // --- Calling a handler

  /** A frame is pushed, and the index bound if Lisp was running. */
  ghost predicate Pushed(s: State, t: State, f: Frame) {
    && t.frames == s.frames + [f] && f.index == s.index
    && (if f.inLisp then t.index == s.index + 1 && t.saved == s.saved + [s.index] &&
        t.contexts == s.contexts[s.index := |s.frames|]
        else t.index == s.index && t.saved == s.saved && t.contexts == s.contexts)
  }

  lemma PushedContexts(s: State, t: State, f: Frame)
    requires ContextsOk(s) && Pushed(s, t, f)
    ensures ContextsOk(t)
  {
    forall k | 0 <= k < |t.frames| ensures ContextAt(t, k) {
      IndexPrefix(s.frames, f, k);
      if k < |s.frames| {
        assert ContextAt(s, k);
        IndexBounded(s.frames, k, |s.frames|);
      }
    }
    IndexPrefix(s.frames, f, |s.frames|);
  }

  lemma PushedPending(c: Config, s: State, t: State, f: Frame)
    requires PendingOk(c, s) && t.frames == s.frames + [f] && t.mask == s.mask == f.mask
    requires t.enabled == s.enabled == f.enabled
    requires t.interruptPending == s.interruptPending && t.pendingSignal == s.pendingSignal
    requires !t.pa && !t.paInterrupted && f.pa == s.pa && (f.inLisp <==> !s.foreign)
    requires f.paInterrupted == s.paInterrupted
    ensures PendingOk(c, t)
  {
    forall k | 0 <= k < |s.frames| ensures s.frames[k].paInterrupted ==> !s.paInterrupted {
      assert FrameOk(c, s, k);
    }
    forall k | 0 <= k < |t.frames| ensures FrameOk(c, t, k) {
      if k < |s.frames| {
        assert FrameOk(c, s, k);
      }
    }
    if s.paInterrupted {
      assert t.frames[|s.frames|].paInterrupted;
    } else if Interrupted(s) {
      var k :| 0 <= k < |s.frames| && s.frames[k].paInterrupted;
      assert t.frames[k].paInterrupted;
    }
  }

  lemma HandleNowOk(c: Config, s: State, signal: int, mask: set<int>)
    requires !s.exited && PendingOk(c, s.(mask := mask)) && HistoryOk(s) && ContextsOk(s)
    ensures var t := HandleNow(c, s, signal, mask); !t.exited ==> PendingOk(c, t) && HistoryOk(t) && ContextsOk(t)
  {
    hide PendingOk, ContextsOk;
    var t := HandleNow(c, s, signal, mask);
    if c.handlers(signal) == Ignored {
      ContextsSame(s, t);
    } else if !t.exited {
      var f := Frame(mask, !s.foreign, s.pa, s.paInterrupted, s.enabled, s.index);
      PushedContexts(s, t, f);
      PushedPending(c, s.(mask := mask), t, f);
    }
  }

  lemma ContextsSame(s: State, t: State)
    requires ContextsOk(s) && t.frames == s.frames && t.index == s.index && t.saved == s.saved
    requires t.contexts == s.contexts
    ensures ContextsOk(t)
  {
    forall k | 0 <= k < |t.frames| ensures ContextAt(t, k) {
      assert ContextAt(s, k);
    }
  }

  // --- What becomes of a signal

  /** The handler of a signal is called in a new frame: f has the mask of the interrupted context, which the handler
      runs with; it runs as foreign exactly if it is a C function. */
  ghost predicate Called(s: State, t: State, h: Handler, mask: set<int>) {
    && !t.exited && |t.frames| == |s.frames| + 1 && t.frames[..|s.frames|] == s.frames
    && t.frames[|s.frames|].mask == mask && t.mask == mask
    && t.frames[|s.frames|].inLisp == !s.foreign && t.frames[|s.frames|].index == s.index
    && t.foreign == (h == CFunction) && !t.pa && !t.paInterrupted
    && t.index == (if s.foreign then s.index else s.index + 1)
  }

  /** Nothing is pending that was not, and no deferred signal has been handled. */
  ghost predicate SamePending(s: State, t: State) {
    && t.pendingSignal == s.pendingSignal && t.pendingMask == s.pendingMask && t.interruptPending == s.interruptPending
    && t.deferred == s.deferred && t.resumed == s.resumed
  }

  /** The frame says what the handler interrupted. */
  ghost predicate Interrupts(s: State, f: Frame) {
    f.pa == s.pa && f.paInterrupted == s.paInterrupted && f.enabled == s.enabled
  }

  lemma HandledNow(c: Config, s: State, signal: int, mask: set<int>)
    requires !s.exited
    ensures var t, h := HandleNow(c, s, signal, mask), c.handlers(signal);
            && ((h == LispFunction || h == CFunction) && (s.foreign || s.index < 4096) ==>
                  Called(s, t, h, mask) && Interrupts(s, t.frames[|s.frames|]))
            && (h == Ignored ==> t == s.(mask := mask))
            && (h == Default || (h != Ignored && !s.foreign && s.index >= 4096) ==> t.exited)
            && SamePending(s, t) && t.enabled == s.enabled
  {
  }

  /** A signal that is not blockable, or arrives with interrupts enabled outside of pseudo-atomic sections, is handled
      now. */
  lemma DeliveredNow(c: Config, s: State, signal: int)
    requires Enabled(c, s, Deliver(signal))
    requires signal !in c.blockable || (s.enabled && (s.foreign || !s.pa))
    ensures var t, h := Step(c, s, Deliver(signal)), c.handlers(signal);
            && ((h == LispFunction || h == CFunction) && (s.foreign || s.index < 4096) ==>
                  Called(s, t, h, s.mask) && Interrupts(s, t.frames[|s.frames|]))
            && (h == Ignored ==> t == s)
            && (h == Default || (h != Ignored && !s.foreign && s.index >= 4096) ==> t.exited)
            && SamePending(s, t) && t.enabled == s.enabled
  {
    hide HandleNow, Called, Interrupts;
    HandledNow(c, s, signal, s.mask);
    assert s.(mask := s.mask) == s;
  }

  /** Any other signal is deferred: with interrupts disabled until they are enabled, in a pseudo-atomic section until
      that ends. */
  lemma DeliveredLater(c: Config, s: State, signal: int)
    requires Enabled(c, s, Deliver(signal))
    requires signal in c.blockable && (!s.enabled || (!s.foreign && s.pa))
    ensures var t := Step(c, s, Deliver(signal));
            && t.pendingSignal == signal && t.pendingMask == s.mask && t.mask == s.mask + c.blockable
            && t.deferred == s.deferred + [Deferral(signal, s.mask)] && t.resumed == s.resumed
            && t.interruptPending == (s.interruptPending || !s.enabled)
            && t.paInterrupted == (s.paInterrupted || s.enabled)
            && t.frames == s.frames && t.index == s.index && t.saved == s.saved && t.contexts == s.contexts
            && t.enabled == s.enabled && t.pa == s.pa && t.foreign == s.foreign && !t.exited
  {
    hide HandleNow;
  }

  /** The trap is taken: interrupts are enabled again while a signal is pending, or a pseudo-atomic section ends in
      which one arrived. */
  predicate Traps(s: State, e: Event) {
    (e.Enable? && s.interruptPending) || (e.LeaveAtomic? && s.paInterrupted)
  }

  /** It handles the pending signal, with the mask that it was deferred with. */
  lemma Trapped(c: Config, s: State, e: Event)
    requires Enabled(c, s, e) && Traps(s, e) && s.pendingSignal != 0
    ensures var t, h := Step(c, s, e), c.handlers(s.pendingSignal);
            && t.pendingSignal == 0 && t.deferred == s.deferred && !t.interruptPending
            && t.resumed == s.resumed + [Deferral(s.pendingSignal, s.pendingMask)]
            && ((h == LispFunction || h == CFunction) && s.index < 4096 ==>
                  Called(s, t, h, s.pendingMask) && t.enabled == (e.Enable? || s.enabled)
                  && !t.frames[|s.frames|].pa && t.frames[|s.frames|].enabled == t.enabled)
            && (h == Ignored ==> !t.exited && t.frames == s.frames && t.mask == s.pendingMask && t.index == s.index)
            && (h == Default || (h != Ignored && s.index >= 4096) ==> t.exited)
  {
    hide HandleNow;
    var s1 := if e.Enable? then s.(enabled := true) else s.(pa := false, paInterrupted := false);
    HandledNow(c, s1.(interruptPending := false, pendingMask := {}, mask := s.pendingMask, pendingSignal := 0,
                      resumed := s.resumed + [Deferral(s.pendingSignal, s.pendingMask)]),
               s.pendingSignal, s.pendingMask);
  }

  /** A deferred signal counts as handled only in a step that calls its handler, unless it is ignored or stops the
      program. */
  lemma ResumedCalled(c: Config, s: State, e: Event)
    requires Enabled(c, s, e) && Step(c, s, e).resumed != s.resumed
    ensures Traps(s, e) && s.pendingSignal != 0
    ensures var t, h := Step(c, s, e), c.handlers(s.pendingSignal);
            && t.resumed == s.resumed + [Deferral(s.pendingSignal, s.pendingMask)]
            && (h == Ignored || t.exited || Called(s, t, h, s.pendingMask))
  {
    hide HandleNow, Called;
    if e.Deliver? {
      HandledNow(c, s, e.signal, s.mask);
    } else {
      Trapped(c, s, e);
    }
  }

  // --- Every step

  /** A signal is deferred although another one is pending, which is lost. */
  predicate Overwrites(c: Config, s: State, e: Event) {
    e.Deliver? && e.signal in c.blockable && Defers(s) && s.pendingSignal != 0
  }

  /** A handler returns, to a context where blockable signals are not blocked, while a signal that was deferred since it
      was called is pending. */
  predicate Leaves(c: Config, s: State, e: Event) {
    e.Return? && s.pendingSignal != 0 && s.frames != [] && !(c.blockable <= s.frames[|s.frames| - 1].mask)
  }

  lemma DeliverOk(c: Config, s: State, signal: int)
    requires Inv(c, s) && Enabled(c, s, Deliver(signal))
    ensures !Overwrites(c, s, Deliver(signal)) && Inv(c, Step(c, s, Deliver(signal)))
  {
    var t := Step(c, s, Deliver(signal));
    assert s.(mask := s.mask) == s;
    if signal in c.blockable && Defers(s) {
      assert s.pendingSignal == 0;
      ContextsSame(s, t);
      NoneInterrupted(c, s);
      forall k | 0 <= k < |t.frames| ensures FrameOk(c, t, k) {
        assert FrameOk(c, s, k);
      }
    } else {
      HandleNowOk(c, s, signal, s.mask);
    }
  }

  /** With no signal pending no trap is due. */
  lemma NoneInterrupted(c: Config, s: State)
    requires PendingOk(c, s) && s.pendingSignal == 0
    ensures !s.interruptPending && !s.paInterrupted && forall k :: 0 <= k < |s.frames| ==> !s.frames[k].paInterrupted
  {
    forall k | 0 <= k < |s.frames| ensures !s.frames[k].paInterrupted {
      assert FrameOk(c, s, k);
    }
  }

  lemma ErrorOk(c: Config, s: State)
    requires Inv(c, s) && Enabled(c, s, Error)
    ensures Inv(c, Step(c, s, Error))
  {
    hide PendingOk, ContextsOk;
    var t := Step(c, s, Error);
    if !t.exited {
      var f := Frame(s.mask, true, s.pa, s.paInterrupted, s.enabled, s.index);
      PushedContexts(s, t, f);
      PushedPending(c, s, t, f);
    }
  }

  /** The trap that is due when interrupts are enabled or a pseudo-atomic section ends handles the pending signal, with
      the mask that it was deferred with. */
  lemma TrapOk(c: Config, s: State, s1: State)
    requires Inv(c, s) && !s.exited && s.pendingSignal != 0 && (s.interruptPending || s.paInterrupted)
    requires s1 == s.(enabled := true, pa := false, paInterrupted := false)
    ensures Inv(c, HandlePending(c, s1))
  {
    hide ContextsOk;
    var s2 := s1.(interruptPending := false, pendingMask := {}, mask := s.pendingMask, pendingSignal := 0,
                  resumed := s.resumed + [Deferral(s.pendingSignal, s.pendingMask)]);
    ContextsSame(s, s2);
    forall k | 0 <= k < |s2.frames| ensures FrameOk(c, s2, k) {
      assert FrameOk(c, s, k);
    }
    assert s2.(mask := s.pendingMask) == s2;
    HandleNowOk(c, s2, s.pendingSignal, s.pendingMask);
  }

  lemma ReturnPending(c: Config, s: State)
    requires Inv(c, s) && Enabled(c, s, Return) && !Leaves(c, s, Return)
    ensures PendingOk(c, Step(c, s, Return)) && HistoryOk(Step(c, s, Return))
  {
    hide ContextsOk;
    var n := |s.frames| - 1;
    var t, f := Step(c, s, Return), s.frames[n];
    assert FrameOk(c, s, n);
    forall k | 0 <= k < |t.frames| ensures FrameOk(c, t, k) {
      assert FrameOk(c, s, k);
    }
    if s.pendingSignal != 0 && !s.interruptPending {
      var k :| 0 <= k < |s.frames| && s.frames[k].paInterrupted;
      assert k < n ==> t.frames[k].paInterrupted;
    }
  }

  lemma ReturnState(c: Config, s: State)
    requires Enabled(c, s, Return)
    ensures var t, f := Step(c, s, Return), s.frames[|s.frames| - 1];
            t.frames == s.frames[..|s.frames| - 1] && t.contexts == s.contexts && t.mask == f.mask
            && t.foreign == !f.inLisp && t.pa == f.pa && t.paInterrupted == f.paInterrupted && SamePending(s, t)
            && (if f.inLisp then s.saved != [] && t.saved == s.saved[..|s.saved| - 1] &&
                t.index == s.saved[|s.saved| - 1]
                else t.saved == s.saved && t.index == s.index)
  {
  }

  lemma ReturnContexts(c: Config, s: State)
    requires Inv(c, s) && Enabled(c, s, Return)
    ensures ContextsOk(Step(c, s, Return))
    ensures Step(c, s, Return).index == s.frames[|s.frames| - 1].index
    ensures Step(c, s, Return).mask == s.frames[|s.frames| - 1].mask
    ensures Step(c, s, Return).foreign == !s.frames[|s.frames| - 1].inLisp
    ensures Step(c, s, Return).pa == s.frames[|s.frames| - 1].pa
  {
    hide PendingOk, HistoryOk, Step;
    ReturnState(c, s);
    var n := |s.frames| - 1;
    var t, f := Step(c, s, Return), s.frames[n];
    assert ContextAt(s, n);
    assert s.frames == t.frames + [f];
    IndexPrefix(t.frames, f, n);
    forall k | 0 <= k < |t.frames| ensures ContextAt(t, k) {
      assert ContextAt(s, k);
      IndexPrefix(t.frames, f, k);
    }
  }

  /** The index and the mask are those that the handler was called with, and a step that is not such a return keeps the
      invariants and overwrites nothing. */
  lemma StepOk(c: Config, s: State, e: Event)
    requires Inv(c, s) && Enabled(c, s, e) && !Leaves(c, s, e)
    ensures Inv(c, Step(c, s, e)) && !Overwrites(c, s, e)
    ensures e.Return? ==> Step(c, s, e).index == s.frames[|s.frames| - 1].index
    ensures e.Return? ==> Step(c, s, e).mask == s.frames[|s.frames| - 1].mask
  {
    var t := Step(c, s, e);
    match e
    case Deliver(signal) => DeliverOk(c, s, signal);
    case Error => ErrorOk(c, s);
    case Enable =>
      if s.interruptPending {
        TrapOk(c, s, s.(enabled := true));
      } else {
        QuietOk(c, s, t);
      }
    case LeaveAtomic =>
      if s.paInterrupted {
        TrapOk(c, s, s.(pa := false, paInterrupted := false));
      } else {
        QuietOk(c, s, t);
      }
    case Return =>
      ReturnPending(c, s);
      ReturnContexts(c, s);
    case _ => QuietOk(c, s, t);
  }

  /** A step that concerns no signal. */
  lemma QuietOk(c: Config, s: State, t: State)
    requires Inv(c, s) && t == s.(enabled := t.enabled, pa := t.pa, foreign := t.foreign) && !s.paInterrupted
    requires (s.interruptPending ==> !t.enabled) && (t.pa ==> !t.foreign)
    ensures Inv(c, t)
  {
    if !t.exited {
      ContextsSame(s, t);
      forall k | 0 <= k < |t.frames| ensures FrameOk(c, t, k) {
        assert FrameOk(c, s, k);
      }
      if Interrupted(s) {
        var k :| 0 <= k < |s.frames| && s.frames[k].paInterrupted;
        assert t.frames[k].paInterrupted;
      }
    }
  }

  // --- Runs

  ghost predicate Run(c: Config, ss: seq<State>, es: seq<Event>) {
    |ss| == |es| + 1 && forall i :: 0 <= i < |es| ==> StepAt(c, ss, es, i)
  }

  ghost predicate StepAt(c: Config, ss: seq<State>, es: seq<Event>, i: nat)
    requires |ss| == |es| + 1 && i < |es|
  {
    Enabled(c, ss[i], es[i]) && ss[i + 1] == Step(c, ss[i], es[i])
  }

  ghost predicate LeavesAt(c: Config, ss: seq<State>, es: seq<Event>, i: nat)
    requires |ss| == |es| + 1 && i < |es|
  {
    Leaves(c, ss[i], es[i])
  }

  function Start(): State {
    State({}, true, false, false, false, false, 0, {}, [], 0, [], map[], false, [], [])
  }

  /** In every run whose handlers do not return and leave a signal pending that was deferred since they were called, no
      pending signal is overwritten, every deferred one is handled once with its mask unless it is pending, and bindings
      and contexts match. */
  lemma {:induction false} NeverOverwritten(c: Config, ss: seq<State>, es: seq<Event>, n: nat)
    requires Run(c, ss, es) && ss[0] == Start() && 0 !in c.blockable && n <= |es|
    requires forall i: nat :: i < |es| ==> !LeavesAt(c, ss, es, i)
    ensures Inv(c, ss[n]) && (forall i :: 0 <= i < n ==> !Overwrites(c, ss[i], es[i]))
    decreases n
  {
    if n > 0 {
      NeverOverwritten(c, ss, es, n - 1);
      assert StepAt(c, ss, es, n - 1) && !LeavesAt(c, ss, es, n - 1);
      StepOk(c, ss[n - 1], es[n - 1]);
    }
  }

  lemma InterruptedBlocked(c: Config, s: State)
    requires PendingOk(c, s) && s.frames != []
    ensures Interrupted(s) ==> c.blockable <= s.frames[|s.frames| - 1].mask
  {
    if Interrupted(s) {
      var k :| 0 <= k < |s.frames| && s.frames[k].paInterrupted;
      assert FrameOk(c, s, k);
    }
  }

  /** After a return that leaves a signal pending any of the blockable signals that is no longer blocked can arrive, and
      overwrites it. */
  lemma LeftIsOverwritten(c: Config, s: State, signal: int)
    requires Inv(c, s) && Enabled(c, s, Return) && Leaves(c, s, Return)
    requires signal in c.blockable && signal > 0 && signal !in s.frames[|s.frames| - 1].mask
    ensures var t := Step(c, s, Return);
            t.pendingSignal == s.pendingSignal && Enabled(c, t, Deliver(signal)) && Overwrites(c, t, Deliver(signal))
            && !HistoryOk(Step(c, t, Deliver(signal)))
  {
    hide ContextsOk;
    InterruptedBlocked(c, s);
    var t := Step(c, s, Return);
    assert t.deferred == s.deferred && t.resumed == s.resumed;
    assert |Step(c, t, Deliver(signal)).deferred| == |s.resumed| + 2;
  }

  /** The signal arrives at a state of a run, is deferred, and overwrites the pending one. */
  ghost predicate OverwrittenBy(c: Config, ss: seq<State>, m: nat, signal: int)
    requires m < |ss|
  {
    Enabled(c, ss[m], Deliver(signal)) && Overwrites(c, ss[m], Deliver(signal))
  }

  lemma {:induction false} FirstLeave(c: Config, ss: seq<State>, es: seq<Event>, i: nat) returns (k: nat)
    requires |ss| == |es| + 1 && i < |es| && LeavesAt(c, ss, es, i)
    ensures k <= i && LeavesAt(c, ss, es, k) && (forall j: nat :: 0 <= j < k ==> !LeavesAt(c, ss, es, j))
    decreases i
  {
    if j: nat :| 0 <= j < i && LeavesAt(c, ss, es, j) {
      k := FirstLeave(c, ss, es, j);
    } else {
      k := i;
    }
  }

  lemma PrefixRun(c: Config, ss: seq<State>, es: seq<Event>, n: nat)
    requires Run(c, ss, es) && n <= |es|
    ensures Run(c, ss[..n + 1], es[..n])
  {
    var s2, e2 := ss[..n + 1], es[..n];
    forall i | 0 <= i < n ensures StepAt(c, s2, e2, i) {
      assert StepAt(c, ss, es, i);
    }
  }

  lemma Outside(a: set<int>, b: set<int>) returns (x: int)
    requires !(a <= b)
    ensures x in a && x !in b
  {
    assert (forall y :: y in a ==> y in b) ==> a <= b;
    x :| x in a && x !in b;
  }

  lemma LeaveOverwritten(c: Config, ss: seq<State>, es: seq<Event>, i: nat) returns (m: nat, signal: int)
    requires Run(c, ss, es) && ss[0] == Start() && (forall x :: x in c.blockable ==> x > 0)
    requires i < |es| && LeavesAt(c, ss, es, i)
    ensures m <= |es| && OverwrittenBy(c, ss, m, signal)
  {
    hide Inv, Step, Enabled;
    var k := FirstLeave(c, ss, es, i);
    PrefixRun(c, ss, es, k);
    var s2, e2 := ss[..k + 1], es[..k];
    forall j: nat | j < k ensures !LeavesAt(c, s2, e2, j) {
      assert !LeavesAt(c, ss, es, j);
    }
    NeverOverwritten(c, s2, e2, k);
    assert StepAt(c, ss, es, k);
    signal := Outside(c.blockable, ss[k].frames[|ss[k].frames| - 1].mask);
    LeftIsOverwritten(c, ss[k], signal);
    m := k + 1;
  }

  lemma OverwrittenLeft(c: Config, ss: seq<State>, es: seq<Event>, m: nat, signal: int)
    requires Run(c, ss, es) && ss[0] == Start() && (forall x :: x in c.blockable ==> x > 0)
    requires m <= |es| && OverwrittenBy(c, ss, m, signal)
    ensures exists i: nat :: i < |es| && LeavesAt(c, ss, es, i)
  {
    hide Inv, Step, Enabled;
    if forall i: nat :: i < |es| ==> !LeavesAt(c, ss, es, i) {
      NeverOverwritten(c, ss, es, m);
      StepOk(c, ss[m], Deliver(signal));
    }
  }

  /** A signal can arrive in some state of a run and overwrite the pending one, exactly if in the run a handler returns
      and leaves a signal pending that was deferred since it was called. */
  lemma OverwrittenExactly(c: Config, ss: seq<State>, es: seq<Event>)
    requires Run(c, ss, es) && ss[0] == Start() && (forall x :: x in c.blockable ==> x > 0)
    ensures (exists i: nat :: i < |es| && LeavesAt(c, ss, es, i)) <==>
            (exists m: nat, signal: int :: m <= |es| && OverwrittenBy(c, ss, m, signal))
  {
    if i: nat :| i < |es| && LeavesAt(c, ss, es, i) {
      var m, signal := LeaveOverwritten(c, ss, es, i);
    }
    if m: nat, signal: int :| m <= |es| && OverwrittenBy(c, ss, m, signal) {
      OverwrittenLeft(c, ss, es, m, signal);
    }
  }

  /** Such a run: with interrupts disabled an error calls Lisp, signal 2 arrives and is deferred, the handler of the
      error returns, signal 14 arrives. */
  function LosingStates(b: set<int>): seq<State> {
    var s0 := Start();
    var s1 := s0.(enabled := false);
    var f := Frame({}, true, false, false, false, 0);
    var s2 := s1.(frames := [f], index := 1, saved := [0], contexts := map[0 := 0]);
    var s3 := s2.(pendingSignal := 2, mask := b, interruptPending := true, deferred := [Deferral(2, {})]);
    var s4 := s3.(mask := {}, frames := [], index := 0, saved := []);
    [s0, s1, s2, s3, s4, s4.(pendingSignal := 14, mask := b, deferred := [Deferral(2, {}), Deferral(14, {})])]
  }

  lemma LosingSteps(c: Config)
    requires c.blockable == {2, 14}
    ensures var s := LosingStates(c.blockable);
            && Enabled(c, s[0], Disable) && Step(c, s[0], Disable) == s[1]
            && Enabled(c, s[1], Error) && Step(c, s[1], Error) == s[2]
            && Enabled(c, s[2], Deliver(2)) && Step(c, s[2], Deliver(2)) == s[3]
            && Enabled(c, s[3], Return) && Step(c, s[3], Return) == s[4]
            && Enabled(c, s[4], Deliver(14)) && Step(c, s[4], Deliver(14)) == s[5]
  {
    var s := LosingStates(c.blockable);
    assert {} + c.blockable == c.blockable;
    assert [] + [Deferral(2, {})] == [Deferral(2, {})];
    assert [Deferral(2, {})] + [Deferral(14, {})] == [Deferral(2, {}), Deferral(14, {})];
    assert s[1].frames + s[2].frames == s[2].frames && s[1].saved + [0] == [0];
    assert s[3].frames[..0] == [] && s[3].saved[..0] == [];
  }

  /** The pending signal is overwritten, and never handled. */
  lemma SignalLost(c: Config)
    requires c.blockable == {2, 14}
    ensures var ss := LosingStates(c.blockable);
            Run(c, ss, [Disable, Error, Deliver(2), Return, Deliver(14)]) && ss[0] == Start()
            && Overwrites(c, ss[4], Deliver(14)) && ss[4].pendingSignal == 2 && ss[5].pendingSignal == 14
            && Deferral(2, {}) in ss[5].deferred && Deferral(2, {}) !in ss[5].resumed
  {
    hide Step, Enabled;
    LosingSteps(c);
    var es := [Disable, Error, Deliver(2), Return, Deliver(14)];
    var ss := LosingStates(c.blockable);
    assert ss[5].deferred[0] == Deferral(2, {});
    forall i | 0 <= i < |es| ensures StepAt(c, ss, es, i) {
      assert i == 0 || i == 1 || i == 2 || i == 3 || i == 4;
    }
  }
}
