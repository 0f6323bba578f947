/** Dispatch: `invoke` and `emit`.

    Both walk the same flat queue: the lists of the named events, in the
    order the names are given. What a subscriber does when called is not
    visible to the listener, so it is a parameter: a function from the
    subscription, the positional arguments it receives and the current state
    of whatever those arguments share by reference, to the signal it gives
    and the state it leaves behind. The state is how a mutation of a shared
    argument object becomes visible to later subscribers and to `done`.
 */
module Dispatch {
  import opened Types
  import opened Subscriptions
  import opened Listener

  // ---------------------------------------------------------------- queue

  /** The subscriptions of every named event, event by event in the order
      given, each event's list in its stored order. */
  function Queue(reg: Registry, names: seq<EventName>): (q: seq<Sub>)
    ensures forall i :: 0 <= i < |names| ==> multiset(Lookup(reg, names[i])) <= multiset(q)
    ensures forall s :: s in q ==> exists i :: 0 <= i < |names| && s in Lookup(reg, names[i])
  {
    if |names| == 0 then []
    else
      var q := Lookup(reg, names[0]) + Queue(reg, names[1..]);
      assert forall i :: 1 <= i < |names| ==> names[i] == names[1..][i - 1];
      q
  }

  /** The queue of a concatenation of names is the concatenation of queues. */
  lemma {:induction false} QueueAppend(reg: Registry, a: seq<EventName>, b: seq<EventName>)
    ensures Queue(reg, a + b) == Queue(reg, a) + Queue(reg, b)
  {
    if |a| == 0 {
      assert a + b == b;
    } else {
      assert (a + b)[1..] == a[1..] + b;
      QueueAppend(reg, a[1..], b);
      AppendAssoc(Lookup(reg, a[0]), Queue(reg, a[1..]), Queue(reg, b));
    }
  }

  /** The subscribers of the `i`-th named event sit in one block, after those
      of every earlier name and before those of every later one, whatever
      their weights. */
  lemma QueueBlock(reg: Registry, names: seq<EventName>, i: nat)
    requires i < |names|
    ensures Queue(reg, names) == Queue(reg, names[..i]) + Lookup(reg, names[i]) + Queue(reg, names[i + 1..])
  {
    assert names == names[..i + 1] + names[i + 1..];
    assert names[..i + 1] == names[..i] + [names[i]];
    QueueAppend(reg, names[..i + 1], names[i + 1..]);
    QueueAppend(reg, names[..i], [names[i]]);
    QueueOne(reg, names[i]);
  }

  /** A name that was never registered contributes nothing. */
  lemma QueueSkipsUnregistered(reg: Registry, a: seq<EventName>, n: EventName, b: seq<EventName>)
    requires n !in reg
    ensures Queue(reg, a + [n] + b) == Queue(reg, a + b)
  {
    assert a + [n] + b == a + ([n] + b);
    QueueAppend(reg, a, [n] + b);
    QueueAppend(reg, a, b);
    assert ([n] + b)[1..] == b;
    assert Queue(reg, [n] + b) == [] + Queue(reg, b);
    assert [] + Queue(reg, b) == Queue(reg, b);
  }

  // ---------------------------------------------------------------- subscribers

  /** How a call of a subscriber ends: it calls `next(err)` (`err` falsy on
      success), or it throws a value, which may itself be falsy. */
  datatype Signal = Next(err: Option<Error>) | Throw(thrown: Option<Error>)

  /** What a subscriber does with one call: its signal and the state of the
      shared argument objects it leaves behind. */
  datatype Step<S> = Step(signal: Signal, heap: S)

  /** One observable call: a subscriber with the arguments after its
      continuation and the state it saw, or `done` with its error argument,
      the arguments after it and the state it saw. */
  datatype Call<S> = Ran(sub: Sub, args: seq<Value>, heap: S) | Done(err: Option<Error>, args: seq<Value>, heap: S)

  /** What a subscriber call does, as a function of the call. */
  function Outcome<S>(behave: (Sub, seq<Value>, S) -> Step<S>, c: Call<S>): Step<S>
    requires c.Ran?
  {
    behave(c.sub, c.args, c.heap)
  }

  /** The error a step hands to `async.series`: the wrapper of `invoke` turns
      a throw into `next(thrown)`, and a falsy error means success. */
  function Failure(sig: Signal): (e: Option<Error>)
    ensures sig.Next? ==> e == sig.err
    ensures sig.Throw? ==> e == sig.thrown
  {
    match sig
    case Next(err) => err
    case Throw(thrown) => thrown
  }

  // ---------------------------------------------------------------- invoke

  /** `async.series` over the wrapped queue, then the final callback that
      calls `done(err || null, ...args)`. */
  function Series<S>(queue: seq<Sub>, args: seq<Value>, heap: S, behave: (Sub, seq<Value>, S) -> Step<S>): (t: seq<Call<S>>)
    ensures 1 <= |t| <= |queue| + 1
    ensures t[|t| - 1].Done? && forall i :: 0 <= i < |t| - 1 ==> t[i].Ran?
    ensures forall i :: 0 <= i < |t| - 1 ==> t[i].sub == queue[i]
    ensures forall i :: 0 <= i < |t| ==> t[i].args == args
    ensures t[0].heap == heap
    ensures forall i :: 0 <= i < |t| - 1 ==> t[i + 1].heap == Outcome(behave, t[i]).heap
    decreases |queue|
  {
    if |queue| == 0 then [Done(None, args, heap)]
    else
      var step := behave(queue[0], args, heap);
      var first := Ran(queue[0], args, heap);
      match Failure(step.signal)
      case Some(e) => [first, Done(Some(e), args, step.heap)]
      case None => [first] + Series(queue[1..], args, step.heap, behave)
  }

  /** A subscriber that succeeds hands over to the rest of the queue with
      the state it leaves behind. */
  lemma SeriesContinues<S>(queue: seq<Sub>, args: seq<Value>, heap: S, behave: (Sub, seq<Value>, S) -> Step<S>)
    requires |queue| > 0 && Failure(behave(queue[0], args, heap).signal).None?
    ensures Series(queue, args, heap, behave)
         == [Ran(queue[0], args, heap)] + Series(queue[1..], args, behave(queue[0], args, heap).heap, behave)
  {
  }

  /** A subscriber that fails is the last to run; `done` follows at once. */
  lemma SeriesStops<S>(queue: seq<Sub>, args: seq<Value>, heap: S, behave: (Sub, seq<Value>, S) -> Step<S>)
    requires |queue| > 0 && Failure(behave(queue[0], args, heap).signal).Some?
    ensures var step := behave(queue[0], args, heap);
            Series(queue, args, heap, behave) == [Ran(queue[0], args, heap), Done(Failure(step.signal), args, step.heap)]
  {
  }

  /** The error `done` receives: null when no subscriber failed, otherwise
      the failure of the last subscriber that ran, every earlier one having
      succeeded; and a null error means the whole queue ran. */
  lemma {:induction false} SeriesError<S>(queue: seq<Sub>, args: seq<Value>, heap: S, behave: (Sub, seq<Value>, S) -> Step<S>)
    ensures var t := Series(queue, args, heap, behave);
            && (forall i :: 0 <= i < |t| - 2 ==> Failure(Outcome(behave, t[i]).signal).None?)
            && t[|t| - 1].err == (if |t| == 1 then None else Failure(Outcome(behave, t[|t| - 2]).signal))
            && (t[|t| - 1].err.None? ==> |t| == |queue| + 1)
    decreases |queue|
  {
    if |queue| > 0 {
      var step := behave(queue[0], args, heap);
      if Failure(step.signal).None? {
        SeriesError(queue[1..], args, step.heap, behave);
      }
    }
  }

  /** `invoke(done, events, ...args)`. `done` is called exactly once, last,
      with the original arguments; the subscribers that ran are a prefix of
      the queue, each called with the same copied arguments. */
  function Invoke<S>(reg: Registry, events: EventNames, args: seq<Value>, heap: S,
                     behave: (Sub, seq<Value>, S) -> Step<S>): (t: seq<Call<S>>)
    ensures 1 <= |t| <= |Queue(reg, events.Names())| + 1
    ensures t[|t| - 1].Done? && forall i :: 0 <= i < |t| - 1 ==> t[i].Ran?
    ensures forall i :: 0 <= i < |t| - 1 ==> t[i].sub == Queue(reg, events.Names())[i]
    ensures forall i :: 0 <= i < |t| ==> t[i].args == args
    ensures t[|t| - 1].err.None? ==> |t| == |Queue(reg, events.Names())| + 1
    ensures t[|t| - 1].err.Some? ==> |t| >= 2 && Failure(Outcome(behave, t[|t| - 2]).signal) == t[|t| - 1].err
  {
    SeriesError(Queue(reg, events.Names()), args, heap, behave);
    Series(Queue(reg, events.Names()), args, heap, behave)
  }

  /** `invoke` runs the series over the queue of the named events. */
  lemma InvokeIsSeries<S>(reg: Registry, events: EventNames, args: seq<Value>, heap: S,
                          behave: (Sub, seq<Value>, S) -> Step<S>)
    ensures Invoke(reg, events, args, heap, behave) == Series(Queue(reg, events.Names()), args, heap, behave)
  {
  }

  /** The queue of a single name is that event's list. */
  lemma QueueOne(reg: Registry, e: EventName)
    ensures Queue(reg, [e]) == Lookup(reg, e)
  {
    assert [e][1..] == [];
    assert Lookup(reg, e) + [] == Lookup(reg, e);
  }

  /** With nothing registered for the named events, `done(null, ...args)` is
      the only call. */
  lemma InvokeNothingRegistered<S>(reg: Registry, events: EventNames, args: seq<Value>, heap: S,
                                   behave: (Sub, seq<Value>, S) -> Step<S>)
    requires forall n :: n in events.Names() ==> n !in reg
    ensures Invoke(reg, events, args, heap, behave) == [Done(None, args, heap)]
  {
    QueueUnregisteredEmpty(reg, events.Names());
  }

  /** A queue built only from unregistered names is empty. */
  lemma {:induction false} QueueUnregisteredEmpty(reg: Registry, names: seq<EventName>)
    requires forall n :: n in names ==> n !in reg
    ensures Queue(reg, names) == []
  {
    if |names| > 0 {
      assert names[0] in names;
      assert forall n :: n in names[1..] ==> n in names;
      QueueUnregisteredEmpty(reg, names[1..]);
    }
  }

  /** The subscriber behaviour with every throw replaced by `next(thrown)`. */
  function Signalled<S>(behave: (Sub, seq<Value>, S) -> Step<S>): (Sub, seq<Value>, S) -> Step<S> {
    (s, a, h) => var st := behave(s, a, h); Step(Next(Failure(st.signal)), st.heap)
  }

  /** Throwing a value inside `invoke` has exactly the effect of signalling
      it through `next`. */
  lemma {:induction false} ThrowIsSignalled<S>(queue: seq<Sub>, args: seq<Value>, heap: S, behave: (Sub, seq<Value>, S) -> Step<S>)
    ensures Series(queue, args, heap, behave) == Series(queue, args, heap, Signalled(behave))
    decreases |queue|
  {
    if |queue| > 0 {
      var step := behave(queue[0], args, heap);
      assert Signalled(behave)(queue[0], args, heap) == Step(Next(Failure(step.signal)), step.heap);
      ThrowIsSignalled(queue[1..], args, step.heap, behave);
    }
  }

  // ---------------------------------------------------------------- emit

  /** How `emit` ends: it returns, or a subscriber's throw escapes from it. */
  datatype Ending<S> = Returned(heap: S) | Raised(thrown: Option<Error>, heap: S)

  /** The subscriber calls `emit` makes, and how it ends. */
  datatype Fanout<S> = Fanout(calls: seq<Call<S>>, end: Ending<S>)

  /** The loops of `emit` over the queue: each subscriber is called at once
      with a no-op continuation, so a signalled error is lost; a throw, of
      any value, is not caught and ends the loops. */
  function Broadcast<S>(queue: seq<Sub>, payload: seq<Value>, heap: S, behave: (Sub, seq<Value>, S) -> Step<S>): (f: Fanout<S>)
    ensures |f.calls| <= |queue|
    ensures forall i :: 0 <= i < |f.calls| ==> f.calls[i].Ran? && f.calls[i].sub == queue[i] && f.calls[i].args == payload
    ensures |f.calls| > 0 ==> f.calls[0].heap == heap
    ensures forall i :: 0 <= i < |f.calls| - 1 ==> f.calls[i + 1].heap == Outcome(behave, f.calls[i]).heap
    ensures f.end.heap == if |f.calls| == 0 then heap else Outcome(behave, f.calls[|f.calls| - 1]).heap
    ensures forall i :: 0 <= i < |f.calls| - 1 ==> Outcome(behave, f.calls[i]).signal.Next?
    ensures f.end.Returned? <==> |f.calls| == |queue| && (|queue| == 0 || Outcome(behave, f.calls[|f.calls| - 1]).signal.Next?)
    ensures f.end.Raised? ==> |f.calls| > 0 && Outcome(behave, f.calls[|f.calls| - 1]).signal == Throw(f.end.thrown)
    decreases |queue|
  {
    if |queue| == 0 then Fanout([], Returned(heap))
    else
      var step := behave(queue[0], payload, heap);
      var first := Ran(queue[0], payload, heap);
      match step.signal
      case Throw(v) => Fanout([first], Raised(v, step.heap))
      case Next(_) =>
        var rest := Broadcast(queue[1..], payload, step.heap, behave);
        Fanout([first] + rest.calls, rest.end)
  }

  /** The payload `emit` passes: `arguments` from index 2 on. `emit` names
      one parameter, so this drops the first argument after `events`. */
  function EmitArgs(extra: seq<Value>): (p: seq<Value>)
    ensures |extra| > 0 ==> p == extra[1..]
    ensures |extra| == 0 ==> p == []
  {
    if |extra| > 1 then extra[1..] else []
  }

  /** `emit(events, ...extra)` as written. */
  function Emit<S>(reg: Registry, events: EventNames, extra: seq<Value>, heap: S,
                   behave: (Sub, seq<Value>, S) -> Step<S>): (f: Fanout<S>)
    ensures |f.calls| <= |Queue(reg, events.Names())|
    ensures forall i :: 0 <= i < |f.calls| ==> f.calls[i].Ran? && f.calls[i].sub == Queue(reg, events.Names())[i]
    ensures forall i :: 0 <= i < |f.calls| ==> |extra| > 0 ==> f.calls[i].args == extra[1..]
    ensures f.end.Returned? <==> |f.calls| == |Queue(reg, events.Names())| && forall i :: 0 <= i < |f.calls| ==> Outcome(behave, f.calls[i]).signal.Next?
  {
    var q, p := Queue(reg, events.Names()), EmitArgs(extra);
    BroadcastReturned(q, p, heap, behave);
    Broadcast(q, p, heap, behave)
  }

  /** The loops of `emit` run to completion exactly when every subscriber
      called returns normally. */
  lemma BroadcastReturned<S>(queue: seq<Sub>, payload: seq<Value>, heap: S, behave: (Sub, seq<Value>, S) -> Step<S>)
    ensures var f := Broadcast(queue, payload, heap, behave);
            f.end.Returned? <==> |f.calls| == |queue| && forall i :: 0 <= i < |f.calls| ==> Outcome(behave, f.calls[i]).signal.Next?
  {
    var f := Broadcast(queue, payload, heap, behave);
    var n := |f.calls|;
    if f.end.Returned? {
      forall i | 0 <= i < n ensures Outcome(behave, f.calls[i]).signal.Next? {
        if i == n - 1 {
          assert |queue| > 0;
        }
      }
    } else if n == |queue| && n > 0 {
      assert !Outcome(behave, f.calls[n - 1]).signal.Next?;
    }
  }

  /** The subscriber behaviour with every signalled error replaced by success. */
  function Silenced<S>(behave: (Sub, seq<Value>, S) -> Step<S>): (Sub, seq<Value>, S) -> Step<S> {
    (s, a, h) => var st := behave(s, a, h); if st.signal.Next? then Step(Next(None), st.heap) else st
  }

  /** `emit` ignores errors signalled through its continuation: a behaviour
      that signals them and one that reports success instead produce the same
      calls and the same ending. */
  lemma {:induction false} EmitIgnoresSignalledErrors<S>(queue: seq<Sub>, payload: seq<Value>, heap: S, behave: (Sub, seq<Value>, S) -> Step<S>)
    ensures Broadcast(queue, payload, heap, behave) == Broadcast(queue, payload, heap, Silenced(behave))
    decreases |queue|
  {
    if |queue| > 0 {
      var step := behave(queue[0], payload, heap);
      assert Silenced(behave)(queue[0], payload, heap).heap == step.heap;
      assert Silenced(behave)(queue[0], payload, heap).signal.Throw? <==> step.signal.Throw?;
      if step.signal.Next? {
        EmitIgnoresSignalledErrors(queue[1..], payload, step.heap, behave);
      }
    }
  }

  /** A falsy throw is where the two dispatchers part: `invoke` reads it as
      `next(undefined)`, a success, and goes on; `emit` lets it escape. */
  lemma FalsyThrow<S>(queue: seq<Sub>, args: seq<Value>, heap: S, behave: (Sub, seq<Value>, S) -> Step<S>)
    requires |queue| >= 2
    requires behave(queue[0], args, heap).signal == Throw(None)
    ensures Series(queue, args, heap, behave)[1] == Ran(queue[1], args, behave(queue[0], args, heap).heap)
    ensures Broadcast(queue, args, heap, behave).end == Raised(None, behave(queue[0], args, heap).heap)
  {
  }

  /** When no subscriber fails in the run, `invoke` and `emit` over the same
      queue with the same payload make the same subscriber calls, and
      `invoke` then calls `done(null, ...)` with the state `emit` returns with. */
  lemma {:induction false} SeriesIsBroadcastWithoutFailures<S>(queue: seq<Sub>, args: seq<Value>, heap: S,
                                                            behave: (Sub, seq<Value>, S) -> Step<S>)
    requires forall i :: 0 <= i < |Broadcast(queue, args, heap, behave).calls|
               ==> Outcome(behave, Broadcast(queue, args, heap, behave).calls[i]).signal == Next(None)
    ensures var f := Broadcast(queue, args, heap, behave);
            Series(queue, args, heap, behave) == f.calls + [Done(None, args, f.end.heap)]
    decreases |queue|
  {
    if |queue| > 0 {
      var f := Broadcast(queue, args, heap, behave);
      var step := behave(queue[0], args, heap);
      assert |f.calls| > 0 && f.calls[0] == Ran(queue[0], args, heap);
      assert forall i :: 0 <= i < |f.calls| ==> Outcome(behave, f.calls[i]).signal == Next(None);
      assert Outcome(behave, f.calls[0]) == step;
      assert step.signal == Next(None);
      var rest := Broadcast(queue[1..], args, step.heap, behave);
      assert f.calls == [Ran(queue[0], args, heap)] + rest.calls;
      forall i | 0 <= i < |rest.calls| ensures Outcome(behave, rest.calls[i]).signal == Next(None) {
        assert rest.calls[i] == f.calls[i + 1];
      }
      SeriesIsBroadcastWithoutFailures(queue[1..], args, step.heap, behave);
      AppendAssoc([Ran(queue[0], args, heap)], rest.calls, [Done(None, args, rest.end.heap)]);
    }
  }

  // ---------------------------------------------------------------- missing callback

  /** The subscriber behaviour as the listener sees it when a record was
      registered without a callback: `callback.apply` then throws a
      TypeError, here `typeError`, before any subscriber code runs, and the
      shared state is left as it was. */
  function Guarded<S>(behave: (Sub, seq<Value>, S) -> Step<S>, typeError: Error): (Sub, seq<Value>, S) -> Step<S> {
    (s: Sub, a: seq<Value>, h: S) => if s.callback.None? then Step(Throw(Some(typeError)), h) else behave(s, a, h)
  }

  /** A record without a callback throws the TypeError and changes nothing;
      a record with one behaves as its subscriber does. */
  lemma GuardedCall<S>(behave: (Sub, seq<Value>, S) -> Step<S>, typeError: Error, s: Sub, a: seq<Value>, h: S)
    ensures s.callback.None? ==> Guarded(behave, typeError)(s, a, h) == Step(Throw(Some(typeError)), h)
    ensures s.callback.Some? ==> Guarded(behave, typeError)(s, a, h) == behave(s, a, h)
  {
  }

  /** A series that reaches a subscriber which throws `thrown` whatever the
      state stops there: `thrown` goes to `done` right after it. */
  lemma {:induction false} SeriesThrowsAt<S>(queue: seq<Sub>, args: seq<Value>, heap: S,
                                          behave: (Sub, seq<Value>, S) -> Step<S>, thrown: Error, k: nat)
    requires k < |queue| && forall h :: behave(queue[k], args, h) == Step(Throw(Some(thrown)), h)
    requires forall i :: 0 <= i < k && i < |Series(queue, args, heap, behave)| - 1
               ==> Failure(Outcome(behave, Series(queue, args, heap, behave)[i]).signal).None?
    ensures var t := Series(queue, args, heap, behave);
            |t| == k + 2 && t[k].Ran? && t[k].sub == queue[k] && t[k + 1] == Done(Some(thrown), args, t[k].heap)
    decreases k
  {
    var t := Series(queue, args, heap, behave);
    var step := behave(queue[0], args, heap);
    if k == 0 {
      SeriesStops(queue, args, heap, behave);
    } else {
      assert 0 < |t| - 1 && t[0] == Ran(queue[0], args, heap);
      assert Failure(Outcome(behave, t[0]).signal).None?;
      SeriesContinues(queue, args, heap, behave);
      var rest := Series(queue[1..], args, step.heap, behave);
      forall i | 0 <= i < k - 1 && i < |rest| - 1
        ensures Failure(Outcome(behave, rest[i]).signal).None?
      {
        assert rest[i] == t[i + 1];
      }
      SeriesThrowsAt(queue[1..], args, step.heap, behave, thrown, k - 1);
    }
  }

  /** `invoke` catches the TypeError of a record without a callback: once
      every subscriber before it has succeeded, the record is the last call
      and `done` receives the TypeError. */
  lemma InvokeMissingCallback<S>(reg: Registry, events: EventNames, args: seq<Value>, heap: S,
                                 behave: (Sub, seq<Value>, S) -> Step<S>, typeError: Error, k: nat)
    requires var q := Queue(reg, events.Names()); k < |q| && q[k].callback.None?
    requires forall i :: 0 <= i < k && i < |Invoke(reg, events, args, heap, Guarded(behave, typeError))| - 1
               ==> Failure(Outcome(Guarded(behave, typeError), Invoke(reg, events, args, heap, Guarded(behave, typeError))[i]).signal).None?
    ensures var t := Invoke(reg, events, args, heap, Guarded(behave, typeError));
            && |t| == k + 2 && t[k].Ran? && t[k].sub == Queue(reg, events.Names())[k]
            && t[k + 1] == Done(Some(typeError), args, t[k].heap)
  {
    var q := Queue(reg, events.Names());
    forall h ensures Guarded(behave, typeError)(q[k], args, h) == Step(Throw(Some(typeError)), h) {
      GuardedCall(behave, typeError, q[k], args, h);
    }
    InvokeIsSeries(reg, events, args, heap, Guarded(behave, typeError));
    SeriesThrowsAt(q, args, heap, Guarded(behave, typeError), typeError, k);
  }

  /** The loops of `emit` that reach a subscriber which throws `thrown`
      whatever the state end there, with `thrown` escaping; and they reach
      it once every subscriber before it has returned normally. */
  lemma BroadcastThrowsAt<S>(queue: seq<Sub>, payload: seq<Value>, heap: S,
                             behave: (Sub, seq<Value>, S) -> Step<S>, thrown: Error, k: nat)
    requires k < |queue| && forall h :: behave(queue[k], payload, h) == Step(Throw(Some(thrown)), h)
    requires forall i :: 0 <= i < k && i < |Broadcast(queue, payload, heap, behave).calls|
               ==> Outcome(behave, Broadcast(queue, payload, heap, behave).calls[i]).signal.Next?
    ensures var f := Broadcast(queue, payload, heap, behave);
            |f.calls| == k + 1 && f.calls[k].sub == queue[k] && f.end == Raised(Some(thrown), f.calls[k].heap)
  {
    var f := Broadcast(queue, payload, heap, behave);
    assert k < |f.calls|;
    assert Outcome(behave, f.calls[k]) == Step(Throw(Some(thrown)), f.calls[k].heap);
  }

  /** `emit` does not catch it: once every subscriber before the record has
      returned, the TypeError escapes from `emit` and no later subscriber runs. */
  lemma EmitMissingCallback<S>(reg: Registry, events: EventNames, extra: seq<Value>, heap: S,
                               behave: (Sub, seq<Value>, S) -> Step<S>, typeError: Error, k: nat)
    requires var q := Queue(reg, events.Names()); k < |q| && q[k].callback.None?
    requires forall i :: 0 <= i < k && i < |Emit(reg, events, extra, heap, Guarded(behave, typeError)).calls|
               ==> Outcome(Guarded(behave, typeError), Emit(reg, events, extra, heap, Guarded(behave, typeError)).calls[i]).signal.Next?
    ensures var f := Emit(reg, events, extra, heap, Guarded(behave, typeError));
            && |f.calls| == k + 1 && f.calls[k].sub == Queue(reg, events.Names())[k]
            && f.end == Raised(Some(typeError), f.calls[k].heap)
  {
    assert Emit(reg, events, extra, heap, Guarded(behave, typeError))
        == Broadcast(Queue(reg, events.Names()), EmitArgs(extra), heap, Guarded(behave, typeError));
    var q := Queue(reg, events.Names());
    forall h ensures Guarded(behave, typeError)(q[k], EmitArgs(extra), h) == Step(Throw(Some(typeError)), h) {
      GuardedCall(behave, typeError, q[k], EmitArgs(extra), h);
    }
    BroadcastThrowsAt(q, EmitArgs(extra), heap, Guarded(behave, typeError), typeError, k);
  }

  // ---------------------------------------------------------------- emit payload

  /** `emit(events, ...extra)` with the payload it was evidently meant to
      pass: every argument after `events`. */
  function IntendedEmit<S>(reg: Registry, events: EventNames, extra: seq<Value>, heap: S,
                           behave: (Sub, seq<Value>, S) -> Step<S>): (f: Fanout<S>)
    ensures |f.calls| <= |Queue(reg, events.Names())|
    ensures forall i :: 0 <= i < |f.calls| ==> f.calls[i].Ran? && f.calls[i].sub == Queue(reg, events.Names())[i]
    ensures forall i :: 0 <= i < |f.calls| ==> f.calls[i].args == extra
  {
    Broadcast(Queue(reg, events.Names()), extra, heap, behave)
  }

  /** As written, `emit` drops the first payload argument: called with one
      argument after `events`, its subscribers receive none. */
  lemma EmitDropsFirstArgument<S>(reg: Registry, e: EventName, x: Value, heap: S, behave: (Sub, seq<Value>, S) -> Step<S>)
    requires e in reg && |reg[e]| > 0
    ensures var f := Emit(reg, One(e), [x], heap, behave);
            |f.calls| > 0 && f.calls[0].args == [] != [x]
  {
    assert One(e).Names() == [e];
    assert Queue(reg, [e]) == reg[e] + Queue(reg, []) by {
      assert [e][1..] == [];
    }
  }

  /** With the intended payload, `emit` hands its subscribers exactly what
      `invoke` hands them for the same arguments: when no subscriber fails in
      the run, the subscriber calls of the two coincide. */
  lemma IntendedEmitMatchesInvoke<S>(reg: Registry, events: EventNames, extra: seq<Value>, heap: S,
                                     behave: (Sub, seq<Value>, S) -> Step<S>)
    requires forall i :: 0 <= i < |IntendedEmit(reg, events, extra, heap, behave).calls|
               ==> Outcome(behave, IntendedEmit(reg, events, extra, heap, behave).calls[i]).signal == Next(None)
    ensures var f := IntendedEmit(reg, events, extra, heap, behave);
            Invoke(reg, events, extra, heap, behave) == f.calls + [Done(None, extra, f.end.heap)]
  {
    InvokeIsSeries(reg, events, extra, heap, behave);
    assert IntendedEmit(reg, events, extra, heap, behave) == Broadcast(Queue(reg, events.Names()), extra, heap, behave);
    SeriesIsBroadcastWithoutFailures(Queue(reg, events.Names()), extra, heap, behave);
  }
}
