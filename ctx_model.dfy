/**
 The values JseCtx works with, and one specification function per public
 operation: create(Class), create(String), get(Class) and get(String).

 Each function maps what the container depends on at the time of a call (an
 `Env`: the delegate's answers, the reflection tables) and the state a call may
 change (a `State`: the instance map and the allocator) to an `Outcome` and the
 new state. The class JseCtx in module JseCtxImpl is proved against them.
 */
module CtxModel {

  datatype Option<T> = None | Some(value: T)

  /** A java.lang.Class: the binary name getName() returns, and the class loader
      that defined it (two loaders may define classes of the same name). */
  datatype JClass = JClass(name: string, loader: nat)

  /** An object of runtime class `cls`. Locally constructed objects are told
      apart by `id`, which the allocator hands out; objects the delegate
      returns may carry any `id`. */
  datatype Obj = Obj(cls: JClass, id: nat)

  /** What reflection offers for a class that has a public zero-argument
      constructor: `Constructs` when newInstance completes, `Throws` when it ends
      in InstantiationException, IllegalAccessException, IllegalArgumentException
      or InvocationTargetException. A class whose getConstructor throws
      NoSuchMethodException or SecurityException has no entry at all. */
  datatype Capability = Constructs | Throws

  /** The answers of the delegate Ctx at the time of one call. A key that a map
      does not hold stands for a null answer. */
  datatype Answers = Answers(
    create: map<JClass, Obj>,
    createByName: map<string, Obj>,
    get: map<JClass, Obj>,
    getByName: map<string, Obj>)

  /** Everything outside the container that one call depends on: the optional
      delegate (ctxOpt), the constructor capabilities and Class.forName. */
  datatype Env = Env(
    delegate: Option<Answers>,
    caps: map<JClass, Capability>,
    classes: map<string, JClass>)

  /** What a call may change: instanceMap, and the identity the next locally
      constructed object receives. */
  datatype State = State(instanceMap: map<string, Obj>, nextId: nat)

  /** A returned object, or the exception that ends the call. Each failure
      carries what its message is formatted with. */
  datatype Outcome =
    | Ok(obj: Obj)
    | NoSuchConstructor(cls: JClass)      // UNABLE_TO_FIND_BEAN_CONSTRUCTOR_FOR_S
    | InstantiationFailure(cls: JClass)   // UNABLE_TO_CREATE_INSTANCE_OF_S
    | InvalidTypeName(name: string)       // BAD_NAME
    | NotFound(name: string)              // UNABLE_TO_FIND_S_IN_THIS_CONTEXT

  const UNABLE_TO_FIND_S_IN_THIS_CONTEXT := "Unable to find '%s' in this context!"
  const BAD_NAME := "Names passed to the create bean method MUST be java.lang.Class names!\n\t%s"
  const UNABLE_TO_FIND_BEAN_CONSTRUCTOR_FOR_S := "Unable to find bean constructor for %s!"
  const UNABLE_TO_CREATE_INSTANCE_OF_S := "Unable to create instance of %s"

  /** The message template of a failure; the argument it is formatted with is
      the failure's own field. */
  function Template(o: Outcome): string
    requires !o.Ok?
  {
    match o
    case NoSuchConstructor(_) => UNABLE_TO_FIND_BEAN_CONSTRUCTOR_FOR_S
    case InstantiationFailure(_) => UNABLE_TO_CREATE_INSTANCE_OF_S
    case InvalidTypeName(_) => BAD_NAME
    case NotFound(_) => UNABLE_TO_FIND_S_IN_THIS_CONTEXT
  }

  /** The four failures are told apart by their templates. */
  lemma TemplatesIdentifyFailure(a: Outcome, b: Outcome)
    requires !a.Ok? && !b.Ok?
    ensures Template(a) == Template(b) <==>
      (a.NoSuchConstructor? && b.NoSuchConstructor?) ||
      (a.InstantiationFailure? && b.InstantiationFailure?) ||
      (a.InvalidTypeName? && b.InvalidTypeName?) ||
      (a.NotFound? && b.NotFound?)
  {
  }

  function Lookup<K, V>(m: map<K, V>, k: K): Option<V>
  {
    if k in m then Some(m[k]) else None
  }

  /** ctxOpt.get().create(clazz), or None when there is no delegate or it answers null. */
  function DelegateCreate(e: Env, c: JClass): Option<Obj>
  {
    if e.delegate.None? then None else Lookup(e.delegate.value.create, c)
  }

  function DelegateCreateByName(e: Env, n: string): Option<Obj>
  {
    if e.delegate.None? then None else Lookup(e.delegate.value.createByName, n)
  }

  function DelegateGet(e: Env, c: JClass): Option<Obj>
  {
    if e.delegate.None? then None else Lookup(e.delegate.value.get, c)
  }

  function DelegateGetByName(e: Env, n: string): Option<Obj>
  {
    if e.delegate.None? then None else Lookup(e.delegate.value.getByName, n)
  }

  /** Class.forName(name); None stands for ClassNotFoundException. */
  function ForName(e: Env, n: string): Option<JClass>
  {
    Lookup(e.classes, n)
  }

  /** Class.forName(n).getName() is n. */
  ghost predicate NamesAgree(e: Env)
  {
    forall n :: n in e.classes ==> e.classes[n].name == n
  }

  /** Every entry of m is still in m2, bound to the same object. */
  ghost predicate Grows(m: map<string, Obj>, m2: map<string, Obj>)
  {
    forall k :: k in m ==> k in m2 && m2[k] == m[k]
  }

  /** A call either uses up no identity, or returns a new object carrying the
      identity that was next and uses up exactly that one. */
  ghost predicate HandsOutNext(s: State, r: (Outcome, State))
  {
    r.1.nextId == s.nextId ||
    (r.0.Ok? && r.0.obj.id == s.nextId && r.1.nextId == s.nextId + 1)
  }

  /** The local fallback of create(Class): getConstructor, then newInstance.
      Only a completed construction hands out an identity. */
  function Construct(caps: map<JClass, Capability>, nextId: nat, c: JClass): (r: (Outcome, nat))
    ensures r.0.Ok? ==> r.0.obj == Obj(c, nextId) && r.1 == nextId + 1
    ensures !r.0.Ok? ==> r.1 == nextId
    ensures r.0.NoSuchConstructor? <==> c !in caps
    ensures r.0.InstantiationFailure? <==> c in caps && caps[c] == Throws
    ensures r.0.Ok? || r.0.NoSuchConstructor? || r.0.InstantiationFailure?
    ensures !r.0.Ok? ==> r.0.cls == c
  {
    if c !in caps then (NoSuchConstructor(c), nextId)
    else if caps[c] == Throws then (InstantiationFailure(c), nextId)
    else (Ok(Obj(c, nextId)), nextId + 1)
  }

  /** create(Class): the delegate first, then the zero-argument constructor.
      The instance map is neither read nor written, a failure changes nothing,
      and a local construction yields the next unused identity. */
  function Create(e: Env, s: State, c: JClass): (r: (Outcome, State))
    ensures r.1.instanceMap == s.instanceMap
    ensures !r.0.Ok? ==> r.1 == s
    ensures r.0.Ok? || r.0.NoSuchConstructor? || r.0.InstantiationFailure?
    ensures !r.0.Ok? ==> r.0.cls == c
    ensures r.1.nextId == s.nextId ||
            (r.0.Ok? && r.0.obj == Obj(c, s.nextId) && r.1.nextId == s.nextId + 1)
  {
    match DelegateCreate(e, c)
    case Some(o) => (Ok(o), s)
    case None =>
      var (o, next) := Construct(e.caps, s.nextId, c);
      (o, s.(nextId := next))
  }

  /** create(String): the delegate by name, then Class.forName and create(Class).
      The instance map is untouched and a failure changes nothing. */
  function CreateByName(e: Env, s: State, n: string): (r: (Outcome, State))
    ensures r.1.instanceMap == s.instanceMap
    ensures !r.0.Ok? ==> r.1 == s
    ensures !r.0.NotFound?
    ensures r.0.InvalidTypeName? ==> r.0.name == n && ForName(e, n).None?
    ensures HandsOutNext(s, r)
  {
    match DelegateCreateByName(e, n)
    case Some(o) => (Ok(o), s)
    case None =>
      match ForName(e, n)
      case None => (InvalidTypeName(n), s)
      case Some(c) => Create(e, s, c)
  }

  /** get(Class): the delegate first, then instanceMap under clazz.getName(),
      then create(Class), whose result is stored. The map only grows, only the
      requested name can be added, it is added only when absent and only with
      the object returned, and a failure changes nothing. The defensive
      NotFound is never the outcome. */
  function Get(e: Env, s: State, c: JClass): (r: (Outcome, State))
    ensures Grows(s.instanceMap, r.1.instanceMap)
    ensures r.1.instanceMap.Keys <= s.instanceMap.Keys + {c.name}
    ensures r.1.instanceMap != s.instanceMap ==>
              c.name !in s.instanceMap && r.0.Ok? &&
              r.1.instanceMap == s.instanceMap[c.name := r.0.obj]
    ensures !r.0.Ok? ==> r.1 == s
    ensures r.0.Ok? || r.0.NoSuchConstructor? || r.0.InstantiationFailure?
    ensures HandsOutNext(s, r)
  {
    match DelegateGet(e, c)
    case Some(o) => (Ok(o), s)
    case None =>
      if c.name in s.instanceMap then (Ok(s.instanceMap[c.name]), s)
      else
        var (o, s1) := Create(e, s, c);
        if o.Ok? then (o, s1.(instanceMap := s1.instanceMap[c.name := o.obj]))
        else (o, s1)
  }

  /** get(String): the delegate by name, then Class.forName and get(Class).
      The map only grows and, when Class.forName agrees with getName(), only the
      requested name can be added. */
  function GetByName(e: Env, s: State, n: string): (r: (Outcome, State))
    ensures Grows(s.instanceMap, r.1.instanceMap)
    ensures r.1.instanceMap.Keys <=
              s.instanceMap.Keys + (if ForName(e, n).Some? then {ForName(e, n).value.name} else {})
    ensures NamesAgree(e) ==> r.1.instanceMap.Keys <= s.instanceMap.Keys + {n}
    ensures !r.0.Ok? ==> r.1 == s
    ensures !r.0.NotFound?
    ensures r.0.InvalidTypeName? ==> r.0.name == n && ForName(e, n).None?
    ensures HandsOutNext(s, r)
  {
    match DelegateGetByName(e, n)
    case Some(o) => (Ok(o), s)
    case None =>
      match ForName(e, n)
      case None => (InvalidTypeName(n), s)
      case Some(c) => Get(e, s, c)
  }

  // ---------------------------------------------------------------------------
  // create(Class)

  /** A non-null delegate answer is returned as it is: the constructor table is
      never consulted and no identity is handed out. */
  lemma CreateDelegateFirst(e: Env, s: State, c: JClass, caps: map<JClass, Capability>)
    requires DelegateCreate(e, c).Some?
    ensures Create(e, s, c) == (Ok(DelegateCreate(e, c).value), s)
    ensures Create(e.(caps := caps), s, c) == Create(e, s, c)
  {
  }

  /** create(Class) does not read the instance map: its outcome and allocator
      are the same whatever the map holds. */
  lemma CreateIgnoresInstanceMap(e: Env, s: State, c: JClass, m: map<string, Obj>)
    ensures Create(e, s.(instanceMap := m), c).0 == Create(e, s, c).0
    ensures Create(e, s.(instanceMap := m), c).1.nextId == Create(e, s, c).1.nextId
  {
  }

  /** Without a delegate answer: no zero-argument constructor and a throwing
      constructor are distinct failures naming the class, and neither changes
      the state; otherwise the result is a new object of that class. */
  lemma CreateLocally(e: Env, s: State, c: JClass)
    requires DelegateCreate(e, c).None?
    ensures c !in e.caps ==> Create(e, s, c) == (NoSuchConstructor(c), s)
    ensures c in e.caps && e.caps[c] == Throws ==> Create(e, s, c) == (InstantiationFailure(c), s)
    ensures c in e.caps && e.caps[c] == Constructs ==>
              Create(e, s, c) == (Ok(Obj(c, s.nextId)), s.(nextId := s.nextId + 1))
  {
  }

  /** Two successive local constructions give two distinct objects. */
  lemma CreateTwiceDistinct(e1: Env, e2: Env, s: State, c1: JClass, c2: JClass)
    requires DelegateCreate(e1, c1).None? && DelegateCreate(e2, c2).None?
    requires Create(e1, s, c1).0.Ok?
    requires Create(e2, Create(e1, s, c1).1, c2).0.Ok?
    ensures Create(e2, Create(e1, s, c1).1, c2).0.obj != Create(e1, s, c1).0.obj
  {
  }

  // ---------------------------------------------------------------------------
  // create(String)

  /** create(String) asks the delegate by name; failing that, an unknown name is
      BAD_NAME with that name and nothing changes, and a known one behaves as
      create(Class), which asks the delegate again, by class. */
  lemma CreateByNameResolves(e: Env, s: State, n: string)
    ensures DelegateCreateByName(e, n).Some? ==>
              CreateByName(e, s, n) == (Ok(DelegateCreateByName(e, n).value), s)
    ensures DelegateCreateByName(e, n).None? && ForName(e, n).None? ==>
              CreateByName(e, s, n) == (InvalidTypeName(n), s)
    ensures DelegateCreateByName(e, n).None? && ForName(e, n).Some? ==>
              CreateByName(e, s, n) == Create(e, s, ForName(e, n).value)
    ensures DelegateCreateByName(e, n).None? && ForName(e, n).Some? &&
            DelegateCreate(e, ForName(e, n).value).Some? ==>
              CreateByName(e, s, n) == (Ok(DelegateCreate(e, ForName(e, n).value).value), s)
  {
  }

  // ---------------------------------------------------------------------------
  // get(Class)

  /** A non-null delegate answer is returned as it is, whatever the map and the
      constructors hold, and nothing changes. */
  lemma GetDelegateFirst(e: Env, s: State, c: JClass, m: map<string, Obj>, caps: map<JClass, Capability>)
    requires DelegateGet(e, c).Some?
    ensures Get(e, s, c) == (Ok(DelegateGet(e, c).value), s)
    ensures Get(e.(caps := caps), s.(instanceMap := m), c).0 == Get(e, s, c).0
  {
  }

  /** A hit returns the stored object and changes nothing; the constructors and
      the delegate's create are not consulted. */
  lemma GetHit(e: Env, s: State, c: JClass, caps: map<JClass, Capability>, creates: map<JClass, Obj>)
    requires DelegateGet(e, c).None? && c.name in s.instanceMap
    ensures Get(e, s, c) == (Ok(s.instanceMap[c.name]), s)
    ensures e.delegate.Some? ==>
              Get(e.(caps := caps, delegate := Some(e.delegate.value.(create := creates))), s, c) == Get(e, s, c)
    ensures e.delegate.None? ==> Get(e.(caps := caps), s, c) == Get(e, s, c)
  {
  }

  /** A miss runs create(Class), delegate included, and stores a success under
      getName(); a failure leaves the state as it was. */
  lemma GetMiss(e: Env, s: State, c: JClass)
    requires DelegateGet(e, c).None? && c.name !in s.instanceMap
    ensures Get(e, s, c).0 == Create(e, s, c).0
    ensures Create(e, s, c).0.Ok? ==>
              Get(e, s, c).1 == Create(e, s, c).1.(instanceMap := s.instanceMap[c.name := Create(e, s, c).0.obj])
    ensures !Create(e, s, c).0.Ok? ==> Get(e, s, c).1 == s
  {
  }

  /** Repeating get(Class), the delegate answering null both times, returns the
      identical object and changes nothing the second time. */
  lemma GetTwiceSame(e1: Env, e2: Env, s: State, c: JClass)
    requires DelegateGet(e1, c).None? && DelegateGet(e2, c).None?
    requires Get(e1, s, c).0.Ok?
    ensures Get(e2, Get(e1, s, c).1, c) == (Get(e1, s, c).0, Get(e1, s, c).1)
  {
  }

  /** A failed get stores nothing, so a later get with a working constructor
      constructs and stores. */
  lemma GetFailureRetries(e1: Env, e2: Env, s: State, c: JClass)
    requires DelegateGet(e1, c).None? && !Get(e1, s, c).0.Ok?
    requires DelegateGet(e2, c).None? && DelegateCreate(e2, c).None?
    requires c in e2.caps && e2.caps[c] == Constructs
    ensures c.name !in Get(e1, s, c).1.instanceMap
    ensures Get(e2, Get(e1, s, c).1, c) ==
              (Ok(Obj(c, s.nextId)),
               State(s.instanceMap[c.name := Obj(c, s.nextId)], s.nextId + 1))
  {
  }

  /** The map is keyed by getName(), so a class of another loader with the same
      name receives the object stored for the first. */
  lemma GetSharesEntryByName(e1: Env, e2: Env, s: State, c1: JClass, c2: JClass)
    requires c1.name == c2.name
    requires DelegateGet(e1, c1).None? && DelegateGet(e2, c2).None?
    requires Get(e1, s, c1).0.Ok?
    ensures Get(e2, Get(e1, s, c1).1, c2) == (Get(e1, s, c1).0, Get(e1, s, c1).1)
  {
  }

  // ---------------------------------------------------------------------------
  // get(String)

  /** get(String) asks the delegate by name; failing that, an unknown name is
      BAD_NAME with that name and nothing changes, and a known one behaves as
      get(Class), which asks the delegate again, by class. */
  lemma GetByNameResolves(e: Env, s: State, n: string)
    ensures DelegateGetByName(e, n).Some? ==>
              GetByName(e, s, n) == (Ok(DelegateGetByName(e, n).value), s)
    ensures DelegateGetByName(e, n).None? && ForName(e, n).None? ==>
              GetByName(e, s, n) == (InvalidTypeName(n), s)
    ensures DelegateGetByName(e, n).None? && ForName(e, n).Some? ==>
              GetByName(e, s, n) == Get(e, s, ForName(e, n).value)
  {
  }
}
