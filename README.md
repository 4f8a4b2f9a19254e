# JseCtx: a verified model of the ctx4jse object-provisioning container

`JseCtx` hands out objects by class or by class name in two modes:

- `create` returns a new instance every time it constructs one itself (a delegate answer is returned as it is). It asks the optional delegate `Ctx` first. On a null answer it falls back to the class's public zero-argument constructor.
- `get` memoises. It asks the delegate's `get` first. On a null answer it reads `instanceMap` under `clazz.getName()`. On a miss it runs `create` and stores the result under that name.

The two name overloads ask the delegate by name. They then resolve the name with `Class.forName` and run the class overload, which asks the delegate again, by class.

The model has three modules.

- `CtxModel` (`ctx_model.dfy`) holds the values and one specification function per public operation. An operation maps an `Env` and a `State` to an `Outcome` and a new `State`.
  - `Env` is everything outside the container that one call depends on: the delegate's answers, the constructor capabilities and the `Class.forName` table.
  - `State` is what a call may change: `instanceMap`, and the identity the next locally constructed object receives.
  - `Outcome` is a returned object or one of the four exceptions, each carrying what its message is formatted with.
  - The lemmas of this module state delegate precedence, hits, misses, failures and the name overloads.
- `CtxTrace` (`ctx_trace.dfy`) runs arbitrary sequences of calls, each seeing its own environment. It proves that the map only grows, that each name is stored at most once, and that at most one `get` under a name completes a local construction (a constructor that throws may run again on a later `get`). It also proves that once a `get` not answered by the delegate returns an object, every later such `get` for the same name returns that identical object.
- `JseCtxImpl` (`jse_ctx.dfy`) holds the imperative container, class `JseCtx`, with its `instanceMap` field and `ctxOpt`. It also holds its two collaborators:
  - `Delegate`, whose answers may change between calls;
  - `Runtime`, which stands for `Class.forName`, `getConstructor`, `newInstance` and object allocation.

  Each method of `JseCtx` is proved equal to its specification function. `create` does not have the container in its `modifies` clause, so the frame alone says that it never touches the map.

Modelling choices:

- Objects are values `Obj(cls, id)`. Locally constructed objects are told apart by `id`: `Runtime.nextId` hands out a new one for each completed construction. Objects the delegate returns may carry any `id`.
- A class is `JClass(name, loader)` and the map key is its `name`, as `getName()` is in the source.
- A delegate answer of null, a missing constructor and an unknown class name are each an absent key in a map.
- The defensive `NotFound` branch (`JseCtx.java:132-135`) is kept in `JseCtx.Get`. `CtxModel.Get`'s contract proves it is never the outcome, because construction never yields null.

Further facts about the program that the model keeps:

- `create(String)` and `get(String)` ask the delegate by name before `Class.forName`.
- The bad-name failure uses `BAD_NAME` (`JseCtx.java:47`) with the original name.
- At-most-once construction under concurrent callers depends on the lock, which is not modelled. The sequential counterparts are `CtxTrace.GetCompletesConstructionAtMostOnce` (at most one get under a name completes a local construction; a constructor that throws may run again on a later get) and `CtxTrace.StoredAtMostOnce` (a name is stored at most once).

## Model

| member | source | states |
|---|---|---|
| `CtxModel.TemplatesIdentifyFailure` | src/org/adligo/ctx4jse/JseCtx.java:46-51 | Two failures share a message template exactly when they are the same kind of failure: the four error conditions are distinct. |
| `CtxModel.Construct` | src/org/adligo/ctx4jse/JseCtx.java:81-92 | NoSuchConstructor exactly when the class has no zero-argument constructor, InstantiationFailure exactly when it has one that throws, otherwise a new object of that class with the next identity; failures name the class and use up no identity. |
| `CtxModel.Create` | src/org/adligo/ctx4jse/JseCtx.java:74-93 | create(Class) leaves the instance map exactly as it was; its only failures are NoSuchConstructor and InstantiationFailure for the requested class, and they change no state; a success either hands out no identity, or is the new object of that class carrying the next identity. |
| `CtxModel.CreateByName` | src/org/adligo/ctx4jse/JseCtx.java:96-110 | create(String) leaves the instance map as it was; a failure changes no state; it never ends in NotFound; BAD_NAME carries the original name and arises only when Class.forName fails. |
| `CtxModel.Get` | src/org/adligo/ctx4jse/JseCtx.java:114-136 | get(Class) keeps every existing entry; it can add only clazz.getName(), only when that name was absent, and only bound to the object it returns; a failure changes no state; the defensive NotFound is never the outcome; it uses up no identity, or exactly the next one for the new object it returns. |
| `CtxModel.GetByName` | src/org/adligo/ctx4jse/JseCtx.java:139-153 | get(String) keeps every existing entry; a failure changes no state; the only name it can add is getName() of the class Class.forName(n) resolves to, which is n itself when Class.forName agrees with getName(); BAD_NAME carries the original name and arises only when Class.forName fails. |
| `CtxModel.CreateDelegateFirst` | src/org/adligo/ctx4jse/JseCtx.java:75-79 | A non-null delegate create(clazz) is returned unchanged with no state change, whatever the constructor table holds (no constructor is looked up). |
| `CtxModel.CreateIgnoresInstanceMap` | src/org/adligo/ctx4jse/JseCtx.java:74-93 | The outcome and allocation of create(Class) are the same whatever instanceMap holds: create never reads the map. |
| `CtxModel.CreateLocally` | src/org/adligo/ctx4jse/JseCtx.java:81-92 | With no delegate answer: no constructor gives NoSuchConstructor(c) and a throwing constructor gives InstantiationFailure(c), neither changing state; a working one gives a new object with the next identity. |
| `CtxModel.CreateTwiceDistinct` | src/org/adligo/ctx4jse/JseCtx.java:88-89 | Two back-to-back local create(Class) calls return distinct objects; `CtxTrace.ConstructionsDistinct` states it for any two local constructions in any sequence of calls. |
| `CtxModel.CreateByNameResolves` | src/org/adligo/ctx4jse/JseCtx.java:96-110 | The delegate by name wins. Otherwise an unknown name gives BAD_NAME with that name and no state change, and a known name behaves exactly as create(Class) on the resolved class. That call consults the delegate again by class, and its non-null answer is returned. |
| `CtxModel.GetDelegateFirst` | src/org/adligo/ctx4jse/JseCtx.java:115-120 | A non-null delegate get(clazz) is returned with the state unchanged, whatever the map and the constructors hold. |
| `CtxModel.GetHit` | src/org/adligo/ctx4jse/JseCtx.java:121-123 | With no delegate answer and the name present, get returns the stored object, changes nothing, and is unaffected by the constructors and by the delegate's create answers. |
| `CtxModel.GetMiss` | src/org/adligo/ctx4jse/JseCtx.java:124-129 | On a miss get's outcome is create(Class)'s, delegate included; a success is stored under getName() on top of create's state, a failure leaves the state as it was. |
| `CtxModel.GetTwiceSame` | src/org/adligo/ctx4jse/JseCtx.java:121-129 | Repeating a successful get(Class), the delegate answering null both times, returns the identical object and changes nothing. |
| `CtxModel.GetFailureRetries` | src/org/adligo/ctx4jse/JseCtx.java:125-128 | A failed get stores nothing, and a later get with a working constructor constructs and stores the new object. |
| `CtxModel.GetSharesEntryByName` | src/org/adligo/ctx4jse/JseCtx.java:121-122 | The map is keyed by getName(): after get on one class, get on another class of the same name returns the first class's object. |
| `CtxModel.GetByNameResolves` | src/org/adligo/ctx4jse/JseCtx.java:139-153 | The delegate by name wins. Otherwise an unknown name gives BAD_NAME with that name and no state change, and a known name behaves exactly as get(Class) on the resolved class. |
| `CtxTrace.Step` | src/org/adligo/ctx4jse/JseCtx.java:74-153 | Any public call keeps every map entry; a create call leaves the map exactly as it was; a call uses up no identity, or exactly the next one for the new object it returns. |
| `CtxTrace.AllocatedIdAtLeast` | src/org/adligo/ctx4jse/JseCtx.java:88-89 | A call in a sequence that constructs locally returns a new object whose identity was not yet handed out when the sequence began. |
| `CtxTrace.ConstructionsDistinct` | src/org/adligo/ctx4jse/JseCtx.java:88-89 | Any two local constructions in a sequence of calls return distinct objects, whatever calls lie between them and whether they come from create or from a get miss, by class or by name. |
| `CtxTrace.Run` | src/org/adligo/ctx4jse/JseCtx.java:121-129 | Over any sequence of calls the map keeps every entry bound to the same object, and the next identity never decreases. |
| `CtxTrace.CreatesLeaveMap` | src/org/adligo/ctx4jse/JseCtx.java:74-110 | Any sequence of create calls, by class or by name, leaves the map exactly as it was. |
| `CtxTrace.StoredAtMostOnce` | src/org/adligo/ctx4jse/JseCtx.java:123-129 | Over any sequence of calls a name is put into the map at most once, and never when it is already present. |
| `CtxTrace.LocalGetRecords` | src/org/adligo/ctx4jse/JseCtx.java:121-133 | A successful get that consults the map leaves its name bound to the object it returned. |
| `CtxTrace.NoAllocOnHit` | src/org/adligo/ctx4jse/JseCtx.java:121-123 | While a name is bound, no later get consulting the map under it completes a construction. |
| `CtxTrace.GetCompletesConstructionAtMostOnce` | src/org/adligo/ctx4jse/JseCtx.java:124-129 | Over any sequence of calls, of the gets that consult the map under one name at most one completes a local construction; a constructor that throws stores nothing and may run again on a later get. |
| `CtxTrace.BoundEntryAnswers` | src/org/adligo/ctx4jse/JseCtx.java:121-123 | While a name is bound, every later get consulting the map under it returns the bound object. |
| `CtxTrace.GetResultStable` | src/org/adligo/ctx4jse/JseCtx.java:114-136 | Once a get that consults the map returns an object, every later get that consults the map under the same name returns that identical object. |
| `CtxTrace.GetAfterRun` | src/org/adligo/ctx4jse/JseCtx.java:121-123 | An entry present before any sequence of calls is returned by a later get the delegate does not answer. |
| `JseCtxImpl.Runtime.NewInstance` | src/org/adligo/ctx4jse/JseCtx.java:88-92 | newInstance on an existing zero-argument constructor gives a new object with the next identity, or InstantiationFailure with no identity used. |
| `JseCtxImpl.JseCtx.constructor` | src/org/adligo/ctx4jse/JseCtx.java:56-58 | The default container has no delegate and an empty map. |
| `JseCtxImpl.JseCtx.WithDelegate` | src/org/adligo/ctx4jse/JseCtx.java:60-64 | A container built on a delegate keeps it and starts with an empty map. |
| `JseCtxImpl.JseCtx.Create` | src/org/adligo/ctx4jse/JseCtx.java:74-93 | create(Class) equals CtxModel.Create; its frame excludes the container, so the map is untouched. |
| `JseCtxImpl.JseCtx.CreateByName` | src/org/adligo/ctx4jse/JseCtx.java:96-110 | create(String) equals CtxModel.CreateByName; its frame excludes the container. |
| `JseCtxImpl.JseCtx.Get` | src/org/adligo/ctx4jse/JseCtx.java:114-136 | get(Class) with its read, re-check and put equals CtxModel.Get. The map keeps every entry, and a change is exactly the returned object added under the absent getName(). |
| `JseCtxImpl.JseCtx.GetByName` | src/org/adligo/ctx4jse/JseCtx.java:139-153 | get(String) equals CtxModel.GetByName and keeps every map entry. |

`JseCtxImpl.Client` is a verified client. It shows that, without a delegate, two gets (by class and by name) return one object and two creates return two distinct ones. It also shows that a delegate's binding wins over both and leaves the child's map empty.

## Left out

- Concurrency: the `ConcurrentHashMap`, the `synchronized (instanceMap)` block and the double-checked read (`JseCtx.java:124-131`) are not modelled. `JseCtx.Get` runs sequentially; its second read stands for the re-check under the lock. Construction at most once under contending callers is not stated; only its sequential counterpart is.
- Errors that `newInstance` throws outside the four caught exceptions (`JseCtx.java:90`), such as `ExceptionInInitializerError` from a throwing static initialiser or a later `NoClassDefFoundError`, are not modelled. In the source they escape `create` and `get`, and `get` stores nothing.
- Runtime exceptions thrown by the delegate's `create` or `get` (or their by-name forms) are not modelled. The delegate can only return an object or null. In the source such an exception escapes the call unchanged.
- Reflection: `getConstructor`, `newInstance` and `Class.forName` are replaced by the tables of `Runtime`, its capability map and its class map. A `SecurityException` from `getConstructor` is folded into "no constructor". Errors of `Class.forName` other than `ClassNotFoundException` (linkage or initialiser errors) are not modelled.
- Re-entrant calls: a bean's zero-argument constructor (run by `newInstance`, `JseCtx.java:89`) and the delegate are assumed not to call back into this container during a call; `synchronized` (`JseCtx.java:124`) is re-entrant, so in the source such nested calls go through. This assumption excludes a `create` that returns with names added to the map by a nested `get`, a `get` that adds names other than its own, and a nested `get` for a same-named class whose stored entry the outer `put` (`JseCtx.java:128`) then overwrites. Without it, `CtxModel.Create`'s unchanged map, `CtxModel.Get`'s key bound, `CtxTrace.CreatesLeaveMap` and `CtxTrace.GetResultStable` would not hold.
- The delegate `Ctx` is an oracle for which a null answer is an absent key. Its own caching and any side effect it performs while answering are not modelled: each call reads its answers once (one snapshot per call).
- CtxModel.CreateTwiceDistinct: distinctness is stated among local constructions only, here and in `CtxTrace.ConstructionsDistinct`. Identities of objects the delegate returns are unrelated to `Runtime.nextId`.
- The package-private constructor that takes two `Supplier`s (`JseCtx.java:66-70`) is modelled only through the two public constructors. The `I_PrintCtx` interface is not part of this model.
- The unchecked casts `(T) r` are not modelled. So the `ClassCastException` at the caller after `GetSharesEntryByName`'s situation is not modelled either.
- Message rendering: `String.format` and `clazz.toString()` are not modelled, nor is the exception attached as cause. A failure is its kind (which fixes its template constant) plus the class or name it is formatted with.
- `EMPTY_CLAZZ_ARRAY` and `EMPTY_OBJECT_ARRAY` (`JseCtx.java:49-50`) are only the arguments of the reflective calls.
- Null arguments (`NullPointerException`) are not modelled.
