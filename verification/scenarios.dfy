/** The scenarios of the listener's test suite, stated over the model. */
module Scenarios {
  import opened Types
  import opened Subscriptions
  import opened Listener
  import opened Dispatch

  /** The default record `on(name)` stores: no callback, `scope: null`, `weight: 0`. */
  const Default := Sub(None, None, 0)

  /** The record `on(name, f, null, w)` stores. */
  function Rec(f: Callback, w: int): (s: Sub)
    ensures s == NewSub(Some(f), None, if w == 0 then None else Some(w))
  {
    Sub(Some(f), None, w)
  }

  /** A subscriber that appends its callback to a marker and calls `next()`. */
  function Mark(s: Sub, args: seq<Value>, marker: seq<Option<Callback>>): Step<seq<Option<Callback>>> {
    Step(Next(None), marker + [s.callback])
  }

  /** A fresh registry reads as an empty mapping. */
  lemma FreshRegistryIsEmpty()
    ensures Events(map[], None) == Everything(map[])
  {
  }

  /** `on(['test', 'test2'])` registers one default record under each name,
      and `events('test')` reads that list. */
  lemma OnManyDefaults()
    ensures On(map[], Many(["test", "test2"]), None, None, None) == map["test" := [Default], "test2" := [Default]]
    ensures Events(On(map[], Many(["test", "test2"]), None, None, None), Some("test")) == Subscribers([Default])
  {
    OnTwo(map[], "test", "test2", None, None, None);
    OnEventFirst(map[], "test", Default);
    OnEventFirst(map["test" := [Default]], "test2", Default);
  }

  // The registrations the scenarios make, one `on` call per lemma.

  /** The first registration of `test` on a fresh registry. */
  lemma FirstOn(f: Callback, w: int)
    requires w != 0
    ensures On(map[], One("test"), Some(f), None, Some(w)) == map["test" := [Rec(f, w)]]
  {
    OnOne(map[], "test", Some(f), None, Some(w));
    OnEventFirst(map[], "test", Rec(f, w));
  }

  /** The first registration of `test` on a fresh registry, at the default weight. */
  lemma FirstOnDefault(f: Callback)
    ensures On(map[], One("test"), Some(f), None, None) == map["test" := [Rec(f, 0)]]
  {
    OnOne(map[], "test", Some(f), None, None);
    OnEventFirst(map[], "test", Rec(f, 0));
  }

  /** A second subscription to `test`, lighter than the first. */
  lemma AddLighter(s1: Sub, s2: Sub)
    requires s2.weight < s1.weight
    ensures OnEvent(map["test" := [s1]], "test", s2) == map["test" := [s2, s1]]
  {
    OnEventLightest(map["test" := [s1]], "test", s2);
    assert [s2] + [s1] == [s2, s1];
  }

  /** A second subscription to `test`, no lighter than the first. */
  lemma AddHeavier(s1: Sub, s2: Sub)
    requires s1.weight <= s2.weight
    ensures OnEvent(map["test" := [s1]], "test", s2) == map["test" := [s1, s2]]
  {
    OnEventHeaviest(map["test" := [s1]], "test", s2);
    assert [s1] + [s2] == [s1, s2];
  }

  /** The first subscription to `test2`. */
  lemma AddSecondEvent(l: seq<Sub>, s: Sub)
    ensures OnEvent(map["test" := l], "test2", s) == map["test" := l, "test2" := [s]]
  {
    OnEventFirst(map["test" := l], "test2", s);
  }

  /** `on(['test', 'test2'], f, null, w)` after one subscription to `test`. */
  lemma OnBoth(s1: Sub, f: Callback, w: int)
    ensures On(map["test" := [s1]], Many(["test", "test2"]), Some(f), None, if w == 0 then None else Some(w))
         == OnEvent(OnEvent(map["test" := [s1]], "test", Rec(f, w)), "test2", Rec(f, w))
  {
    OnTwo(map["test" := [s1]], "test", "test2", Some(f), None, if w == 0 then None else Some(w));
  }

  /** The second registration, `on(['test', 'test2'], f)` at the default
      weight, lighter than the one subscription to `test`. */
  lemma SecondOnLighter(s1: Sub, f: Callback)
    requires 0 < s1.weight
    ensures On(map["test" := [s1]], Many(["test", "test2"]), Some(f), None, None)
         == map["test" := [Rec(f, 0), s1], "test2" := [Rec(f, 0)]]
  {
    OnBoth(s1, f, 0);
    AddLighter(s1, Rec(f, 0));
    AddSecondEvent([Rec(f, 0), s1], Rec(f, 0));
  }

  /** The second registration, `on(['test', 'test2'], f, null, w)`, no
      lighter than the one subscription to `test`. */
  lemma SecondOnHeavier(s1: Sub, f: Callback, w: int)
    requires w != 0 && s1.weight <= w
    ensures On(map["test" := [s1]], Many(["test", "test2"]), Some(f), None, Some(w))
         == map["test" := [s1, Rec(f, w)], "test2" := [Rec(f, w)]]
  {
    OnBoth(s1, f, w);
    AddHeavier(s1, Rec(f, w));
    AddSecondEvent([s1, Rec(f, w)], Rec(f, w));
  }

  /** The second registration, `on(['test', 'test2'], f)` at the default
      weight, no lighter than the one subscription to `test`. */
  lemma SecondOnDefault(s1: Sub, f: Callback)
    requires s1.weight <= 0
    ensures On(map["test" := [s1]], Many(["test", "test2"]), Some(f), None, None)
         == map["test" := [s1, Rec(f, 0)], "test2" := [Rec(f, 0)]]
  {
    OnBoth(s1, f, 0);
    AddHeavier(s1, Rec(f, 0));
    AddSecondEvent([s1, Rec(f, 0)], Rec(f, 0));
  }

  /** `on('test', f)` at the default weight when `test` is the only event
      and none of its subscriptions weighs more: `f` goes to the back. */
  lemma NextOnDefault(l: seq<Sub>, f: Callback)
    requires Sorted(l) && forall i :: 0 <= i < |l| ==> l[i].weight <= 0
    ensures On(map["test" := l], One("test"), Some(f), None, None) == map["test" := l + [Rec(f, 0)]]
  {
    OnOne(map["test" := l], "test", Some(f), None, None);
    OnEventHeaviest(map["test" := l], "test", Rec(f, 0));
  }

  /** `on('test', f)` at the default weight after one subscription to `test`
      that weighs no more. */
  lemma SecondOnSingle(a: Sub, f: Callback)
    requires a.weight <= 0
    ensures On(map["test" := [a]], One("test"), Some(f), None, None) == map["test" := [a, Rec(f, 0)]]
  {
    NextOnDefault([a], f);
    assert [a] + [Rec(f, 0)] == [a, Rec(f, 0)];
  }

  /** `on('test', f)` at the default weight after two subscriptions to `test`
      that weigh no more. */
  lemma ThirdOnSingle(a: Sub, b: Sub, f: Callback)
    requires a.weight <= b.weight <= 0
    ensures On(map["test" := [a, b]], One("test"), Some(f), None, None) == map["test" := [a, b, Rec(f, 0)]]
  {
    assert Sorted([a, b]) && forall i :: 0 <= i < 2 ==> [a, b][i].weight <= 0;
    NextOnDefault([a, b], f);
    assert [a, b] + [Rec(f, 0)] == [a, b, Rec(f, 0)];
  }

  /** A subscription to `test` no lighter than any of its subscriptions. */
  lemma AddHeaviest(l: seq<Sub>, other: seq<Sub>, s: Sub)
    requires Sorted(l) && forall i :: 0 <= i < |l| ==> l[i].weight <= s.weight
    ensures OnEvent(map["test" := l, "test2" := other], "test", s) == map["test" := l + [s], "test2" := other]
  {
    OnEventHeaviest(map["test" := l, "test2" := other], "test", s);
  }

  /** The third registration, `on('test', f)` at the default weight, no
      lighter than both subscriptions to `test`. */
  lemma ThirdOnDefault(a: Sub, b: Sub, other: seq<Sub>, f: Callback)
    requires a.weight <= b.weight <= 0
    ensures On(map["test" := [a, b], "test2" := other], One("test"), Some(f), None, None)
         == map["test" := [a, b, Rec(f, 0)], "test2" := other]
  {
    OnOne(map["test" := [a, b], "test2" := other], "test", Some(f), None, None);
    assert Sorted([a, b]) && forall i :: 0 <= i < 2 ==> [a, b][i].weight <= 0;
    AddHeaviest([a, b], other, Rec(f, 0));
    assert [a, b] + [Rec(f, 0)] == [a, b, Rec(f, 0)];
  }

  /** A subscription to `test` lighter than both of its subscriptions. */
  lemma AddLightest(l: seq<Sub>, other: seq<Sub>, s: Sub)
    requires Sorted(l) && forall i :: 0 <= i < |l| ==> s.weight < l[i].weight
    ensures OnEvent(map["test" := l, "test2" := other], "test", s) == map["test" := [s] + l, "test2" := other]
  {
    OnEventLightest(map["test" := l, "test2" := other], "test", s);
  }

  /** The third registration, `on('test', f, null, -5)`, lighter than both
      subscriptions to `test`. */
  lemma ThirdOn(a: Sub, b: Sub, other: seq<Sub>, f: Callback)
    requires -5 < a.weight <= b.weight
    ensures On(map["test" := [a, b], "test2" := other], One("test"), Some(f), None, Some(-5))
         == map["test" := [Rec(f, -5), a, b], "test2" := other]
  {
    OnOne(map["test" := [a, b], "test2" := other], "test", Some(f), None, Some(-5));
    assert Sorted([a, b]) && forall i :: 0 <= i < 2 ==> -5 < [a, b][i].weight;
    AddLightest([a, b], other, Rec(f, -5));
    assert [Rec(f, -5)] + [a, b] == [Rec(f, -5), a, b];
  }

  /** Registering `fnc1` at weight 5, `fnc2` on two events at the default
      weight and `fnc3` at weight -5 leaves `test` ordered fnc3, fnc2, fnc1. */
  lemma SortedByWeight(fnc1: Callback, fnc2: Callback, fnc3: Callback)
    ensures var r1 := On(map[], One("test"), Some(fnc1), None, Some(5));
            var r2 := On(r1, Many(["test", "test2"]), Some(fnc2), None, None);
            var r3 := On(r2, One("test"), Some(fnc3), None, Some(-5));
            r3 == map["test" := [Rec(fnc3, -5), Rec(fnc2, 0), Rec(fnc1, 5)], "test2" := [Rec(fnc2, 0)]]
  {
    var s1, s2, s3 := Rec(fnc1, 5), Rec(fnc2, 0), Rec(fnc3, -5);
    FirstOn(fnc1, 5);
    SecondOnLighter(s1, fnc2);
    ThirdOn(s2, s1, [s2], fnc3);
  }

  /** The registry of the removal tests: `on('test', fnc1)`,
      `on(['test', 'test2'], fnc2)` and `on('test', fnc3)`, all at the
      default weight, keep the registration order. */
  lemma UnRegistry(fnc1: Callback, fnc2: Callback, fnc3: Callback)
    ensures var r1 := On(map[], One("test"), Some(fnc1), None, None);
            var r2 := On(r1, Many(["test", "test2"]), Some(fnc2), None, None);
            On(r2, One("test"), Some(fnc3), None, None)
              == map["test" := [Rec(fnc1, 0), Rec(fnc2, 0), Rec(fnc3, 0)], "test2" := [Rec(fnc2, 0)]]
  {
    var s1, s2, s3 := Rec(fnc1, 0), Rec(fnc2, 0), Rec(fnc3, 0);
    FirstOnDefault(fnc1);
    SecondOnDefault(s1, fnc2);
    ThirdOnDefault(s1, s2, [s2], fnc3);
  }

  /** After those registrations, `un('test', fnc2)` removes fnc2 from `test`
      only, and `un('test')` removes the key. */
  lemma UnScenarios(fnc1: Callback, fnc2: Callback, fnc3: Callback)
    requires fnc1 != fnc2 && fnc3 != fnc2
    ensures var r1 := On(map[], One("test"), Some(fnc1), None, None);
            var r2 := On(r1, Many(["test", "test2"]), Some(fnc2), None, None);
            var reg := On(r2, One("test"), Some(fnc3), None, None);
            && Un(reg, One("test"), Some(fnc2)) == map["test" := [Rec(fnc1, 0), Rec(fnc3, 0)], "test2" := [Rec(fnc2, 0)]]
            && Un(reg, One("test"), None) == map["test2" := [Rec(fnc2, 0)]]
  {
    UnRegistry(fnc1, fnc2, fnc3);
    UnOnRegistry(Rec(fnc1, 0), Rec(fnc2, 0), Rec(fnc3, 0), fnc2);
  }

  /** The two removals on the registry those registrations build. */
  lemma UnOnRegistry(s1: Sub, s2: Sub, s3: Sub, fnc2: Callback)
    requires s1.callback != Some(fnc2) && s2.callback == Some(fnc2) && s3.callback != Some(fnc2)
    ensures var reg := map["test" := [s1, s2, s3], "test2" := [s2]];
            && Un(reg, One("test"), Some(fnc2)) == map["test" := [s1, s3], "test2" := [s2]]
            && Un(reg, One("test"), None) == map["test2" := [s2]]
  {
    var reg := map["test" := [s1, s2, s3], "test2" := [s2]];
    assert One("test").Names() == ["test"];
    assert Without([s1, s2, s3], fnc2) == [s1, s3] by {
      assert [s1, s2, s3][1..] == [s2, s3];
      assert [s2, s3][1..] == [s3];
      assert [s3][1..] == [];
      assert Without([s3], fnc2) == [s3] + Without([], fnc2);
      assert Without([s2, s3], fnc2) == [] + Without([s3], fnc2);
    }
    assert Un(reg, One("test"), Some(fnc2)) == reg["test" := [s1, s3]];
    var d := Un(reg, One("test"), None);
    assert d.Keys == {"test2"};
  }

  /** Removing the only callback of an event leaves an empty list under the
      key, so `events` reads `[]` there rather than `null`; removing with no
      callback makes it read `null`. */
  lemma UnLeavesEmptyList(reg: Registry, e: EventName, cb: Callback)
    requires e != "" && e in reg
    requires forall i :: 0 <= i < |reg[e]| ==> reg[e][i].callback == Some(cb)
    ensures Events(Un(reg, One(e), Some(cb)), Some(e)) == Subscribers([])
    ensures Events(Un(reg, One(e), None), Some(e)) == Null
  {
    assert One(e).Names() == [e];
    WithoutEverything(reg[e], cb);
  }

  /** An event registered under the empty name is unreachable through
      `events`: the empty name is falsy and reads the whole registry. */
  lemma EmptyNameReadsEverything(reg: Registry, cb: Callback)
    ensures var r := On(reg, One(""), Some(cb), None, None);
            "" in r && Events(r, Some("")) == Everything(r)
  {
    assert One("").Names() == [""];
  }

  /** The registry of the ordering test: weights 5, 10 and -5 on `test`. */
  lemma WeightedRegistry(fnc1: Callback, fnc2: Callback, fnc3: Callback)
    ensures var r1 := On(map[], One("test"), Some(fnc1), None, Some(5));
            var r2 := On(r1, Many(["test", "test2"]), Some(fnc2), None, Some(10));
            On(r2, One("test"), Some(fnc3), None, Some(-5))
              == map["test" := [Rec(fnc3, -5), Rec(fnc1, 5), Rec(fnc2, 10)], "test2" := [Rec(fnc2, 10)]]
  {
    FirstOn(fnc1, 5);
    SecondOnHeavier(Rec(fnc1, 5), fnc2, 10);
    ThirdOn(Rec(fnc1, 5), Rec(fnc2, 10), [Rec(fnc2, 10)], fnc3);
  }

  /** Three marking subscribers run in queue order, each seeing the marks of
      those before it, and `done` gets a null error and every mark. */
  lemma MarkThree(a: Sub, b: Sub, c: Sub)
    ensures Series([a, b, c], [], [], Mark)
         == [Ran(a, [], []), Ran(b, [], [a.callback]), Ran(c, [], [a.callback, b.callback]),
             Done(None, [], [a.callback, b.callback, c.callback])]
  {
    SeriesContinues([a, b, c], [], [], Mark);
    assert [a, b, c][1..] == [b, c];
    assert Mark(a, [], []).heap == [a.callback];
    SeriesContinues([b, c], [], [a.callback], Mark);
    assert [b, c][1..] == [c];
    assert Mark(b, [], [a.callback]).heap == [a.callback, b.callback];
    SeriesContinues([c], [], [a.callback, b.callback], Mark);
    assert [c][1..] == [];
    assert Mark(c, [], [a.callback, b.callback]).heap == [a.callback, b.callback, c.callback];
  }

  /** Weights 5, 10 and -5 on `test` run as fnc3, fnc1, fnc2, and `done`
      gets a null error after them. */
  lemma InvokeInWeightedOrder(fnc1: Callback, fnc2: Callback, fnc3: Callback)
    ensures var r1 := On(map[], One("test"), Some(fnc1), None, Some(5));
            var r2 := On(r1, Many(["test", "test2"]), Some(fnc2), None, Some(10));
            var r3 := On(r2, One("test"), Some(fnc3), None, Some(-5));
            Invoke(r3, One("test"), [], [], Mark)
              == [Ran(Rec(fnc3, -5), [], []), Ran(Rec(fnc1, 5), [], [Some(fnc3)]),
                  Ran(Rec(fnc2, 10), [], [Some(fnc3), Some(fnc1)]),
                  Done(None, [], [Some(fnc3), Some(fnc1), Some(fnc2)])]
  {
    var r3 := map["test" := [Rec(fnc3, -5), Rec(fnc1, 5), Rec(fnc2, 10)], "test2" := [Rec(fnc2, 10)]];
    WeightedRegistry(fnc1, fnc2, fnc3);
    InvokeIsSeries(r3, One("test"), [], [], Mark);
    QueueOne(r3, "test");
    MarkThree(Rec(fnc3, -5), Rec(fnc1, 5), Rec(fnc2, 10));
  }

  /** A subscriber behaviour under which only fnc2 fails, by `next(err)` or
      by throwing `err`. */
  function Fails(fnc2: Callback, err: Error, thrown: bool): (Sub, seq<Value>, int) -> Step<int> {
    (s: Sub, a: seq<Value>, h: int) =>
      if s.callback == Some(fnc2) then Step(if thrown then Throw(Some(err)) else Next(Some(err)), h)
      else Step(Next(None), h)
  }

  /** The registry of the failure tests: `on('test', fnc1)`,
      `on('test', fnc2)` and `on('test', fnc3)` at the default weight keep
      the registration order. */
  lemma FailureRegistry(fnc1: Callback, fnc2: Callback, fnc3: Callback)
    ensures var r1 := On(map[], One("test"), Some(fnc1), None, None);
            var r2 := On(r1, One("test"), Some(fnc2), None, None);
            On(r2, One("test"), Some(fnc3), None, None) == map["test" := [Rec(fnc1, 0), Rec(fnc2, 0), Rec(fnc3, 0)]]
  {
    var s1, s2, s3 := Rec(fnc1, 0), Rec(fnc2, 0), Rec(fnc3, 0);
    FirstOnDefault(fnc1);
    SecondOnSingle(s1, fnc2);
    ThirdOnSingle(s1, s2, fnc3);
  }

  /** After those registrations, a second subscriber that fails, by
      `next(err)` or by a throw, stops the queue: the third never runs and
      `done` gets the error. */
  lemma InvokeStopsAtFailure(fnc1: Callback, fnc2: Callback, fnc3: Callback, err: Error, thrown: bool)
    requires fnc1 != fnc2
    ensures var r1 := On(map[], One("test"), Some(fnc1), None, None);
            var r2 := On(r1, One("test"), Some(fnc2), None, None);
            var reg := On(r2, One("test"), Some(fnc3), None, None);
            Invoke(reg, One("test"), [Value(0)], 0, Fails(fnc2, err, thrown))
              == [Ran(Rec(fnc1, 0), [Value(0)], 0), Ran(Rec(fnc2, 0), [Value(0)], 0), Done(Some(err), [Value(0)], 0)]
  {
    var reg := map["test" := [Rec(fnc1, 0), Rec(fnc2, 0), Rec(fnc3, 0)]];
    FailureRegistry(fnc1, fnc2, fnc3);
    InvokeIsSeries(reg, One("test"), [Value(0)], 0, Fails(fnc2, err, thrown));
    QueueOne(reg, "test");
    FailsSecond(Rec(fnc1, 0), Rec(fnc2, 0), Rec(fnc3, 0), fnc2, err, thrown);
  }

  /** Under `Fails(f, ...)`, of three subscribers of which only the second
      has callback `f`, the second is the last to run. */
  lemma FailsSecond(a: Sub, b: Sub, c: Sub, f: Callback, err: Error, thrown: bool)
    requires a.callback != Some(f) && b.callback == Some(f)
    ensures Series([a, b, c], [Value(0)], 0, Fails(f, err, thrown))
         == [Ran(a, [Value(0)], 0), Ran(b, [Value(0)], 0), Done(Some(err), [Value(0)], 0)]
  {
    var behave := Fails(f, err, thrown);
    assert behave(a, [Value(0)], 0) == Step(Next(None), 0);
    SeriesContinues([a, b, c], [Value(0)], 0, behave);
    assert [a, b, c][1..] == [b, c];
    assert Failure(behave(b, [Value(0)], 0).signal) == Some(err);
    SeriesStops([b, c], [Value(0)], 0, behave);
  }
}
