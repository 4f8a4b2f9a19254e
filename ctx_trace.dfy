/**
 Sequences of calls on one container. Each call carries the environment it
 sees (the delegate's answers and the reflection tables may differ from call to
 call); the container state is threaded from one call to the next. Proved here:
 the instance map only grows, each name is stored at most once, at most one
 get under a name completes a local construction (a constructor that throws may
 run again on a later get), and once a get
 not answered by the delegate returns an object, every later such get for the
 same name returns that same object. Any two local constructions in a
 sequence return distinct objects.
 */
module CtxTrace {
  import opened CtxModel

  datatype Request =
    | CreateClass(c: JClass)
    | CreateName(n: string)
    | GetClass(c: JClass)
    | GetName(n: string)

  datatype Call = Call(env: Env, req: Request)

  /** One public call. Every call keeps every entry of the map. */
  function Step(s: State, call: Call): (r: (Outcome, State))
    ensures Grows(s.instanceMap, r.1.instanceMap)
    ensures call.req.CreateClass? || call.req.CreateName? ==> r.1.instanceMap == s.instanceMap
    ensures HandsOutNext(s, r)
  {
    match call.req
    case CreateClass(c) => Create(call.env, s, c)
    case CreateName(n) => CreateByName(call.env, s, n)
    case GetClass(c) => Get(call.env, s, c)
    case GetName(n) => GetByName(call.env, s, n)
  }

  /** The state after the calls, in order. */
  function Run(s: State, calls: seq<Call>): (t: State)
    ensures Grows(s.instanceMap, t.instanceMap)
    ensures s.nextId <= t.nextId
    decreases |calls|
  {
    if calls == [] then s else Run(Step(s, calls[0]).1, calls[1..])
  }

  /** The outcome of each call, in order. */
  function Outcomes(s: State, calls: seq<Call>): (os: seq<Outcome>)
    ensures |os| == |calls|
    decreases |calls|
  {
    if calls == [] then [] else [Step(s, calls[0]).0] + Outcomes(Step(s, calls[0]).1, calls[1..])
  }

  /** How many of the calls put name k into the map. */
  function Stores(s: State, calls: seq<Call>, k: string): nat
    decreases |calls|
  {
    if calls == [] then 0
    else
      var s1 := Step(s, calls[0]).1;
      (if k !in s.instanceMap && k in s1.instanceMap then 1 else 0) + Stores(s1, calls[1..], k)
  }

  /** The class whose instanceMap entry the call consults, when the delegate
      answers null to every get the call makes and the name, if any, resolves. */
  function LocalGet(call: Call): Option<JClass>
  {
    match call.req
    case GetClass(c) => if DelegateGet(call.env, c).None? then Some(c) else None
    case GetName(n) =>
      if DelegateGetByName(call.env, n).None? && ForName(call.env, n).Some? &&
         DelegateGet(call.env, ForName(call.env, n).value).None?
      then ForName(call.env, n) else None
    case _ => None
  }

  /** Whether call i of the sequence constructs locally, using up an identity. */
  ghost predicate Allocates(s: State, calls: seq<Call>, i: nat)
    requires i < |calls|
    decreases i
  {
    var s1 := Step(s, calls[0]).1;
    if i == 0 then s1.nextId != s.nextId else Allocates(s1, calls[1..], i - 1)
  }

  /** A call that constructs locally returns a new object whose identity is at
      least the one that was next before the whole sequence. */
  lemma {:induction false} AllocatedIdAtLeast(s: State, calls: seq<Call>, j: nat)
    requires j < |calls| && Allocates(s, calls, j)
    ensures Outcomes(s, calls)[j].Ok? && Outcomes(s, calls)[j].obj.id >= s.nextId
    decreases j
  {
    if j > 0 {
      AllocatedIdAtLeast(Step(s, calls[0]).1, calls[1..], j - 1);
    }
  }

  /** Any two local constructions in a sequence of calls, by create or by a get
      miss, by class or by name, return distinct objects. */
  lemma {:induction false} ConstructionsDistinct(s: State, calls: seq<Call>, i: nat, j: nat)
    requires i < j < |calls|
    requires Allocates(s, calls, i) && Allocates(s, calls, j)
    ensures Outcomes(s, calls)[i].Ok? && Outcomes(s, calls)[j].Ok?
    ensures Outcomes(s, calls)[i].obj != Outcomes(s, calls)[j].obj
    decreases i
  {
    var s1 := Step(s, calls[0]).1;
    if i == 0 {
      AllocatedIdAtLeast(s1, calls[1..], j - 1);
    } else {
      ConstructionsDistinct(s1, calls[1..], i - 1, j - 1);
    }
  }

  /** Calls that only create leave the map as it was. */
  lemma {:induction false} CreatesLeaveMap(s: State, calls: seq<Call>)
    requires forall i :: 0 <= i < |calls| ==> calls[i].req.CreateClass? || calls[i].req.CreateName?
    ensures Run(s, calls).instanceMap == s.instanceMap
    decreases |calls|
  {
    if calls != [] {
      CreatesLeaveMap(Step(s, calls[0]).1, calls[1..]);
    }
  }

  /** The map is written at most once per name over any sequence of calls, and
      never for a name it already holds. */
  lemma {:induction false} StoredAtMostOnce(s: State, calls: seq<Call>, k: string)
    ensures Stores(s, calls, k) <= if k in s.instanceMap then 0 else 1
    decreases |calls|
  {
    if calls != [] {
      StoredAtMostOnce(Step(s, calls[0]).1, calls[1..], k);
    }
  }

  /** A call that consults the map and succeeds leaves its name bound to the
      object it returned. */
  lemma LocalGetRecords(s: State, call: Call)
    requires LocalGet(call).Some? && Step(s, call).0.Ok?
    ensures LocalGet(call).value.name in Step(s, call).1.instanceMap
    ensures Step(s, call).1.instanceMap[LocalGet(call).value.name] == Step(s, call).0.obj
  {
  }

  /** While name k is bound to o, every call that consults the map under k
      returns o. */
  lemma {:induction false} BoundEntryAnswers(s: State, calls: seq<Call>, j: nat)
    requires j < |calls| && LocalGet(calls[j]).Some?
    requires LocalGet(calls[j]).value.name in s.instanceMap
    ensures Outcomes(s, calls)[j] == Ok(s.instanceMap[LocalGet(calls[j]).value.name])
    decreases j
  {
    if j > 0 {
      var s1 := Step(s, calls[0]).1;
      assert calls[1..][j - 1] == calls[j];
      BoundEntryAnswers(s1, calls[1..], j - 1);
    }
  }

  /** While name k is bound, no call that consults the map under k completes
      a construction. */
  lemma {:induction false} NoAllocOnHit(s: State, calls: seq<Call>, j: nat)
    requires j < |calls| && LocalGet(calls[j]).Some?
    requires LocalGet(calls[j]).value.name in s.instanceMap
    ensures !Allocates(s, calls, j)
    decreases j
  {
    if j > 0 {
      assert calls[1..][j - 1] == calls[j];
      NoAllocOnHit(Step(s, calls[0]).1, calls[1..], j - 1);
    }
  }

  /** Over any sequence of calls, at most one get that consults the map under a
      given name completes a local construction: after one completes the name is
      bound, and every later such get hits. A constructor that throws stores
      nothing and may run again on a later get. */
  lemma {:induction false} GetCompletesConstructionAtMostOnce(s: State, calls: seq<Call>, i: nat, j: nat)
    requires i < j < |calls|
    requires LocalGet(calls[i]).Some? && LocalGet(calls[j]).Some?
    requires LocalGet(calls[i]).value.name == LocalGet(calls[j]).value.name
    ensures !(Allocates(s, calls, i) && Allocates(s, calls, j))
    decreases i
  {
    var s1 := Step(s, calls[0]).1;
    assert calls[1..][j - 1] == calls[j];
    if i == 0 {
      if Allocates(s, calls, 0) {
        LocalGetRecords(s, calls[0]);
        NoAllocOnHit(s1, calls[1..], j - 1);
      }
    } else {
      assert calls[1..][i - 1] == calls[i];
      GetCompletesConstructionAtMostOnce(s1, calls[1..], i - 1, j - 1);
    }
  }

  /** Once a get that consults the map returns an object, every later get that
      consults the map under the same name returns that identical object. */
  lemma {:induction false} GetResultStable(s: State, calls: seq<Call>, i: nat, j: nat)
    requires i < j < |calls|
    requires LocalGet(calls[i]).Some? && LocalGet(calls[j]).Some?
    requires LocalGet(calls[i]).value.name == LocalGet(calls[j]).value.name
    requires Outcomes(s, calls)[i].Ok?
    ensures Outcomes(s, calls)[j] == Outcomes(s, calls)[i]
    decreases i
  {
    var s1 := Step(s, calls[0]).1;
    assert calls[1..][j - 1] == calls[j];
    if i == 0 {
      LocalGetRecords(s, calls[0]);
      BoundEntryAnswers(s1, calls[1..], j - 1);
    } else {
      assert calls[1..][i - 1] == calls[i];
      GetResultStable(s1, calls[1..], i - 1, j - 1);
    }
  }

  /** An entry present before the calls is still there after them, and a get
      the delegate does not answer then returns it. */
  lemma GetAfterRun(s: State, calls: seq<Call>, e: Env, c: JClass)
    requires c.name in s.instanceMap && DelegateGet(e, c).None?
    ensures Get(e, Run(s, calls), c) == (Ok(s.instanceMap[c.name]), Run(s, calls))
  {
  }
}
