/** The registry and the operations that change or read it: `on`, `un`, `events`.

    The registry is the object `_on` mapping an event name to its list of
    subscriptions. It is a value here: every operation takes the registry it
    works on and returns the one it leaves behind.
 */
module Listener {
  import opened Types
  import opened Subscriptions

  type Registry = map<EventName, seq<Sub>>

  /** Every event's list is in ascending weight order. */
  predicate WellFormed(reg: Registry) {
    forall e :: e in reg ==> Sorted(reg[e])
  }

  /** An event's list, with an unregistered event read as having none. */
  function Lookup(reg: Registry, e: EventName): seq<Sub> {
    if e in reg then reg[e] else []
  }

  /** How many times `e` occurs in `names`. */
  function Count(names: seq<EventName>, e: EventName): nat {
    if |names| == 0 then 0
    else (if names[0] == e then 1 else 0) + Count(names[1..], e)
  }

  // ---------------------------------------------------------------- on

  /** One iteration of the loop in `on`: create the list if absent, push `s`,
      sort by weight. */
  function OnEvent(reg: Registry, e: EventName, s: Sub): (r: Registry)
    ensures forall e' :: e' in r <==> e' in reg || e' == e
    ensures forall e' :: e' != e ==> Lookup(r, e') == Lookup(reg, e')
    ensures Sorted(r[e])
  {
    reg[e := SortByWeight(Lookup(reg, e) + [s])]
  }

  /** One iteration of `on` extends the weight class of `s` by `s` and
      leaves every other class of the event's list alone. */
  lemma OnEventClasses(reg: Registry, e: EventName, s: Sub, v: int)
    ensures WithWeight(OnEvent(reg, e, s)[e], v) == WithWeight(Lookup(reg, e), v) + (if s.weight == v then [s] else [])
  {
    WithWeightSnoc(Lookup(reg, e), s, v);
  }

  /** The loop of `on` over every listed name, in order. */
  function OnAll(reg: Registry, names: seq<EventName>, s: Sub): (r: Registry)
    ensures forall e :: e in r <==> e in reg || e in names
    ensures forall e :: e !in names ==> Lookup(r, e) == Lookup(reg, e)
    decreases |names|
  {
    if |names| == 0 then reg
    else
      assert forall e :: e in names <==> e == names[0] || e in names[1..];
      OnAll(OnEvent(reg, names[0], s), names[1..], s)
  }

  /** After the loop of `on`, a named event's list is sorted, and so is every
      list that was sorted before. */
  lemma {:induction false} OnAllSorted(reg: Registry, names: seq<EventName>, s: Sub, e: EventName)
    requires e in names || (e in reg && Sorted(reg[e]))
    ensures e in OnAll(reg, names, s) && Sorted(OnAll(reg, names, s)[e])
    decreases |names|
  {
    if |names| > 0 {
      var reg' := OnEvent(reg, names[0], s);
      if e != names[0] && e !in names[1..] {
        assert e in reg && Lookup(reg', e) == Lookup(reg, e);
      }
      OnAllSorted(reg', names[1..], s, e);
    }
  }

  /** `on(events, callback, scope, weight)`: every named event is registered
      with a sorted list, every other event is untouched, and a well-formed
      registry stays well-formed. */
  function On(reg: Registry, events: EventNames, callback: Option<Callback>, scope: Option<Scope>,
              weight: Option<int>): (r: Registry)
    ensures forall e :: e in r <==> e in reg || e in events.Names()
    ensures forall e :: e !in events.Names() ==> Lookup(r, e) == Lookup(reg, e)
    ensures forall e :: e in events.Names() ==> Sorted(r[e])
    ensures WellFormed(reg) ==> WellFormed(r)
  {
    var names, s := events.Names(), NewSub(callback, scope, weight);
    OnAllWellFormed(reg, names, s);
    OnAll(reg, names, s)
  }

  lemma OnAllWellFormed(reg: Registry, names: seq<EventName>, s: Sub)
    ensures forall e :: e in names ==> Sorted(OnAll(reg, names, s)[e])
    ensures WellFormed(reg) ==> WellFormed(OnAll(reg, names, s))
  {
    var r := OnAll(reg, names, s);
    forall e | e in names || (e in reg && Sorted(reg[e])) ensures Sorted(r[e]) {
      OnAllSorted(reg, names, s, e);
    }
  }

  /** After the loop of `on`, each event's list has the weight classes of its
      old list followed by one copy of the new subscription per occurrence of
      the event among the names. */
  lemma {:induction false} OnAllClasses(reg: Registry, names: seq<EventName>, s: Sub, e: EventName, v: int)
    ensures WithWeight(Lookup(OnAll(reg, names, s), e), v)
         == WithWeight(Lookup(reg, e) + Repeat(s, Count(names, e)), v)
    decreases |names|
  {
    if |names| == 0 {
      assert Lookup(reg, e) + [] == Lookup(reg, e);
    } else {
      var reg', rest := OnEvent(reg, names[0], s), names[1..];
      OnAllStep(reg, names, s);
      OnAllClasses(reg', rest, s, e, v);
      if names[0] == e {
        assert Count(names, e) == Count(rest, e) + 1;
        RepeatCons(s, Count(names, e));
        SortThenAppendClasses(Lookup(reg, e), s, Repeat(s, Count(rest, e)), v);
      } else {
        assert Lookup(reg', e) == Lookup(reg, e);
        assert Count(names, e) == Count(rest, e);
      }
    }
  }

  /** Sorting a list and appending `rest` to it keeps every weight class of
      the unsorted list followed by `rest`. */
  lemma SortThenAppendClasses(l: seq<Sub>, s: Sub, rest: seq<Sub>, v: int)
    ensures WithWeight(SortByWeight(l + [s]) + rest, v) == WithWeight(l + ([s] + rest), v)
  {
    assert l + ([s] + rest) == (l + [s]) + rest;
    WithWeightAppend(SortByWeight(l + [s]), rest, v);
    WithWeightAppend(l + [s], rest, v);
  }

  /** The closed form of the loop of `on`: a named event's list is the stable
      sort of its old list followed by one copy of the new subscription per
      occurrence of the event among the names. */
  lemma OnAllClosedForm(reg: Registry, names: seq<EventName>, s: Sub, e: EventName)
    requires e in names
    ensures OnAll(reg, names, s)[e] == SortByWeight(Lookup(reg, e) + Repeat(s, Count(names, e)))
  {
    var r := OnAll(reg, names, s);
    OnAllSorted(reg, names, s, e);
    forall v ensures WithWeight(r[e], v) == WithWeight(SortByWeight(Lookup(reg, e) + Repeat(s, Count(names, e))), v) {
      OnAllClasses(reg, names, s, e, v);
    }
    SortedUnique(r[e], SortByWeight(Lookup(reg, e) + Repeat(s, Count(names, e))));
  }

  /** After the loop of `on`, each event's list holds its old subscriptions
      plus one copy of the new one per occurrence of the event among the names. */
  lemma OnAllCount(reg: Registry, names: seq<EventName>, s: Sub, e: EventName)
    ensures multiset(Lookup(OnAll(reg, names, s), e))
         == multiset(Lookup(reg, e)) + multiset(Repeat(s, Count(names, e)))
  {
    if e in names {
      OnAllClosedForm(reg, names, s, e);
      assert multiset(Lookup(reg, e) + Repeat(s, Count(names, e)))
          == multiset(Lookup(reg, e)) + multiset(Repeat(s, Count(names, e)));
    } else {
      CountAbsent(names, e);
    }
  }

  /** A name that does not occur has count zero. */
  lemma {:induction false} CountAbsent(names: seq<EventName>, e: EventName)
    requires e !in names
    ensures Count(names, e) == 0
  {
    if |names| > 0 {
      CountAbsent(names[1..], e);
    }
  }

  /** The first subscription of an event makes a one-element list. */
  lemma OnEventFirst(reg: Registry, e: EventName, s: Sub)
    requires e !in reg
    ensures OnEvent(reg, e, s) == reg[e := [s]]
  {
    assert Lookup(reg, e) + [s] == [s];
    SortSortedIsIdentity([s]);
  }

  /** A subscription that weighs no less than any registered one, equal
      weights included, goes to the back of a sorted list. */
  lemma OnEventHeaviest(reg: Registry, e: EventName, s: Sub)
    requires e in reg && Sorted(reg[e])
    requires forall i :: 0 <= i < |reg[e]| ==> reg[e][i].weight <= s.weight
    ensures OnEvent(reg, e, s) == reg[e := reg[e] + [s]]
  {
    assert Lookup(reg, e) == reg[e];
    SortAfterPush(reg[e], s);
    InsertBack(reg[e], s);
  }

  /** A subscription lighter than every registered one goes to the front. */
  lemma OnEventLightest(reg: Registry, e: EventName, s: Sub)
    requires e in reg && Sorted(reg[e])
    requires forall i :: 0 <= i < |reg[e]| ==> s.weight < reg[e][i].weight
    ensures OnEvent(reg, e, s) == reg[e := [s] + reg[e]]
  {
    assert Lookup(reg, e) == reg[e];
    SortAfterPush(reg[e], s);
    InsertFront(reg[e], s);
  }

  /** `on` is its loop over the names, with one shared record. */
  lemma OnIsLoop(reg: Registry, events: EventNames, callback: Option<Callback>, scope: Option<Scope>, weight: Option<int>)
    ensures On(reg, events, callback, scope, weight) == OnAll(reg, events.Names(), NewSub(callback, scope, weight))
  {
  }

  /** The loop ends with the registry it has built. */
  lemma OnAllNil(reg: Registry, names: seq<EventName>, s: Sub)
    requires names == []
    ensures OnAll(reg, names, s) == reg
  {
  }

  /** One iteration of the loop, then the rest of it. */
  lemma OnAllStep(reg: Registry, names: seq<EventName>, s: Sub)
    requires |names| > 0
    ensures OnAll(reg, names, s) == OnAll(OnEvent(reg, names[0], s), names[1..], s)
  {
  }

  /** `on` with an empty array of names leaves the registry as it was. */
  lemma OnNothing(reg: Registry, callback: Option<Callback>, scope: Option<Scope>, weight: Option<int>)
    ensures On(reg, Many([]), callback, scope, weight) == reg
  {
    OnIsLoop(reg, Many([]), callback, scope, weight);
    OnAllNil(reg, [], NewSub(callback, scope, weight));
  }

  /** `on` with one name is one iteration of its loop. */
  lemma OnOne(reg: Registry, e: EventName, callback: Option<Callback>, scope: Option<Scope>, weight: Option<int>)
    ensures On(reg, One(e), callback, scope, weight) == OnEvent(reg, e, NewSub(callback, scope, weight))
  {
    var s := NewSub(callback, scope, weight);
    OnIsLoop(reg, One(e), callback, scope, weight);
    assert One(e).Names() == [e];
    OnAllStep(reg, [e], s);
    assert [e][1..] == [];
    OnAllNil(OnEvent(reg, e, s), [e][1..], s);
  }

  /** `on` with two names is two iterations of its loop. */
  lemma OnTwo(reg: Registry, e1: EventName, e2: EventName, callback: Option<Callback>, scope: Option<Scope>, weight: Option<int>)
    ensures var s := NewSub(callback, scope, weight);
            On(reg, Many([e1, e2]), callback, scope, weight) == OnEvent(OnEvent(reg, e1, s), e2, s)
  {
    var s := NewSub(callback, scope, weight);
    OnIsLoop(reg, Many([e1, e2]), callback, scope, weight);
    assert Many([e1, e2]).Names() == [e1, e2];
    OnAllStep(reg, [e1, e2], s);
    assert [e1, e2][1..] == [e2];
    OnAllStep(OnEvent(reg, e1, s), [e2], s);
    assert [e2][1..] == [];
    OnAllNil(OnEvent(OnEvent(reg, e1, s), e2, s), [e2][1..], s);
  }

  /** `on(e, callback, scope, weight)` with a single name on a well-formed
      registry: the list becomes the old list with the new record spliced in
      after every subscription that weighs no more, and before every one that
      weighs more. */
  lemma OnSingle(reg: Registry, e: EventName, callback: Option<Callback>, scope: Option<Scope>, weight: Option<int>)
    requires WellFormed(reg)
    ensures var s, prior := NewSub(callback, scope, weight), Lookup(reg, e);
            var k := InsertPosition(prior, s.weight);
            && (forall i :: 0 <= i < k ==> prior[i].weight <= s.weight)
            && (forall i :: k <= i < |prior| ==> prior[i].weight > s.weight)
            && On(reg, One(e), callback, scope, weight)[e] == prior[..k] + [s] + prior[k..]
  {
    var s, prior := NewSub(callback, scope, weight), Lookup(reg, e);
    assert Sorted(prior);
    OnOne(reg, e, callback, scope, weight);
    SortAfterPush(prior, s);
    InsertSplices(prior, s);
  }

  // ---------------------------------------------------------------- un

  /** One iteration of the loop in `un`. A falsy callback deletes the key; a
      callback filters the list of a registered event, which may leave an
      empty list under the key. */
  function UnEvent(reg: Registry, e: EventName, callback: Option<Callback>): (r: Registry)
    ensures forall e' :: e' != e ==> (e' in r <==> e' in reg) && (e' in reg ==> r[e'] == reg[e'])
    ensures callback.None? ==> e !in r
    ensures callback.Some? ==> (e in r <==> e in reg)
    ensures callback.Some? && e in reg ==> r[e] == Without(reg[e], callback.value)
  {
    if callback.None? then reg - {e}
    else if e in reg then reg[e := Without(reg[e], callback.value)]
    else reg
  }

  /** The loop of `un` over every listed name, in order. */
  function UnAll(reg: Registry, names: seq<EventName>, callback: Option<Callback>): (r: Registry)
    ensures forall e :: e !in names ==> (e in r <==> e in reg) && (e in reg ==> r[e] == reg[e])
    ensures callback.None? ==> forall e :: e in names ==> e !in r
    ensures callback.Some? ==> forall e :: e in names ==> (e in r <==> e in reg)
    ensures callback.Some? ==> forall e :: e in names && e in reg ==> r[e] == Without(reg[e], callback.value)
  {
    if |names| == 0 then reg
    else
      var r := UnAll(UnEvent(reg, names[0], callback), names[1..], callback);
      if callback.Some? && names[0] in reg then
        WithoutIdempotent(reg[names[0]], callback.value);
        r
      else r
  }

  /** `un(events, callback)`. */
  function Un(reg: Registry, events: EventNames, callback: Option<Callback>): (r: Registry)
    ensures forall e :: e !in events.Names() ==> (e in r <==> e in reg) && (e in reg ==> r[e] == reg[e])
    ensures callback.None? ==> forall e :: e in events.Names() ==> e !in r
    ensures callback.Some? ==> forall e :: e in events.Names() ==> (e in r <==> e in reg)
    ensures callback.Some? ==> forall e :: e in events.Names() && e in reg ==> r[e] == Without(reg[e], callback.value)
  {
    UnAll(reg, events.Names(), callback)
  }

  /** `un(e, cb)` on a registered event keeps exactly the subscriptions whose
      callback is not `cb`, in their original relative order. */
  lemma UnFilters(reg: Registry, e: EventName, cb: Callback, before: seq<Sub>, after: seq<Sub>)
    requires e in reg
    requires reg[e] == before + after
    ensures var r := Un(reg, One(e), Some(cb));
            && e in r
            && r[e] == Without(before, cb) + Without(after, cb)
            && forall s :: s in r[e] <==> s in reg[e] && s.callback != Some(cb)
  {
    WithoutAppend(before, after, cb);
    WithoutMembers(reg[e], cb);
  }

  /** `un` keeps the registry well-formed: filtering a sorted list leaves it sorted. */
  lemma UnWellFormed(reg: Registry, events: EventNames, callback: Option<Callback>)
    requires WellFormed(reg)
    ensures WellFormed(Un(reg, events, callback))
  {
    var r := Un(reg, events, callback);
    forall e | e in r ensures Sorted(r[e]) {
      if e in events.Names() && callback.Some? {
        WithoutSorted(reg[e], callback.value);
      }
    }
  }

  // ---------------------------------------------------------------- events

  /** What `events` returns: the whole registry, one list, or `null`. */
  datatype View = Everything(registry: Registry) | Subscribers(list: seq<Sub>) | Null

  /** `events(event)`. An omitted or empty name is falsy and reads the whole
      registry; a registered name reads its list, even an empty one; any
      other name reads `null`. */
  function Events(reg: Registry, event: Option<EventName>): (v: View)
    ensures v.Everything? <==> event.None? || event.value == ""
    ensures v.Everything? ==> v.registry == reg
    ensures v.Null? <==> event.Some? && event.value != "" && event.value !in reg
    ensures v.Subscribers? ==> event.Some? && event.value in reg && v.list == reg[event.value]
  {
    match event
    case None => Everything(reg)
    case Some(e) =>
      if e == "" then Everything(reg)
      else if e in reg then Subscribers(reg[e])
      else Null
  }
}
