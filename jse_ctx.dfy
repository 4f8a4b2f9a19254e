/**
 The container itself: class JseCtx with its instance map and its optional
 delegate, and the two collaborators it reaches outside itself, the delegate
 Ctx and the Java runtime (Class.forName, getConstructor, newInstance and the
 allocation of new objects). Each public method is proved against its
 specification function in CtxModel.
 */
module JseCtxImpl {
  import opened CtxModel

  /** The delegate Ctx. Its answers are state it owns and may change between
      calls to the container; within one call each of them is read once. */
  class Delegate {
    var answers: Answers

    constructor (a: Answers)
      ensures answers == a
    {
      answers := a;
    }

    function Create(c: JClass): Option<Obj>
      reads this
    {
      Lookup(answers.create, c)
    }

    function CreateByName(n: string): Option<Obj>
      reads this
    {
      Lookup(answers.createByName, n)
    }

    function Get(c: JClass): Option<Obj>
      reads this
    {
      Lookup(answers.get, c)
    }

    function GetByName(n: string): Option<Obj>
      reads this
    {
      Lookup(answers.getByName, n)
    }
  }

  /** The Java runtime as the container uses it: the classes Class.forName
      finds, the zero-argument constructors reflection finds, and the identity
      the next object allocated receives. */
  class Runtime {
    var classes: map<string, JClass>
    var caps: map<JClass, Capability>
    var nextId: nat

    constructor (classes: map<string, JClass>, caps: map<JClass, Capability>)
      ensures this.classes == classes && this.caps == caps && nextId == 0
    {
      this.classes := classes;
      this.caps := caps;
      nextId := 0;
    }

    /** Class.forName(n); None stands for ClassNotFoundException. */
    function ForName(n: string): Option<JClass>
      reads this
    {
      Lookup(classes, n)
    }

    /** Whether clazz.getConstructor(EMPTY_CLAZZ_ARRAY) finds a constructor. */
    function HasBeanConstructor(c: JClass): bool
      reads this
    {
      c in caps
    }

    /** newInstance on the zero-argument constructor of c: a new object of
        class c, or InstantiationFailure; only a new object uses up an identity. */
    method NewInstance(c: JClass) returns (r: Outcome)
      requires HasBeanConstructor(c)
      modifies this`nextId
      ensures (r, nextId) == Construct(caps, old(nextId), c)
    {
      if caps[c] == Throws {
        return InstantiationFailure(c);
      }
      r := Ok(Obj(c, nextId));
      nextId := nextId + 1;
    }
  }

  class JseCtx {
    const ctxOpt: Option<Delegate>
    var instanceMap: map<string, Obj>

    /** A container without a delegate. */
    constructor ()
      ensures ctxOpt == None && instanceMap == map[]
    {
      ctxOpt := None;
      instanceMap := map[];
    }

    /** A container that consults d first. */
    constructor WithDelegate(d: Delegate)
      ensures ctxOpt == Some(d) && instanceMap == map[]
    {
      ctxOpt := Some(d);
      instanceMap := map[];
    }

    function DelegateFrame(): set<object>
    {
      if ctxOpt.Some? then {ctxOpt.value} else {}
    }

    /** What a call sees outside the container. */
    function Sees(rt: Runtime): Env
      reads rt, DelegateFrame()
    {
      Env(if ctxOpt.Some? then Some(ctxOpt.value.answers) else None, rt.caps, rt.classes)
    }

    /** What a call may change. */
    function Now(rt: Runtime): State
      reads this, rt
    {
      State(instanceMap, rt.nextId)
    }

    /** create(Class). It may allocate and changes nothing of this container. */
    method Create(rt: Runtime, c: JClass) returns (r: Outcome)
      modifies rt`nextId
      ensures (r, Now(rt)) == CtxModel.Create(old(Sees(rt)), old(Now(rt)), c)
    {
      if ctxOpt.Some? {
        var d := ctxOpt.value.Create(c);
        if d.Some? {
          return Ok(d.value);
        }
      }
      if !rt.HasBeanConstructor(c) {
        return NoSuchConstructor(c);
      }
      r := rt.NewInstance(c);
    }

    /** create(String). It may allocate and changes nothing of this container. */
    method CreateByName(rt: Runtime, n: string) returns (r: Outcome)
      modifies rt`nextId
      ensures (r, Now(rt)) == CtxModel.CreateByName(old(Sees(rt)), old(Now(rt)), n)
    {
      if ctxOpt.Some? {
        var d := ctxOpt.value.CreateByName(n);
        if d.Some? {
          return Ok(d.value);
        }
      }
      var c := rt.ForName(n);
      if c.None? {
        return InvalidTypeName(n);
      }
      r := Create(rt, c.value);
    }

    /** get(Class): delegate, map, re-check, then create(Class) and put. The map
        only grows, and it changes only by adding the returned object under
        clazz.getName() when that name was absent. */
    method Get(rt: Runtime, c: JClass) returns (r: Outcome)
      modifies this`instanceMap, rt`nextId
      ensures (r, Now(rt)) == CtxModel.Get(old(Sees(rt)), old(Now(rt)), c)
      ensures Grows(old(instanceMap), instanceMap)
      ensures instanceMap != old(instanceMap) ==>
                c.name !in old(instanceMap) && r.Ok? && instanceMap == old(instanceMap)[c.name := r.obj]
    {
      if ctxOpt.Some? {
        var d := ctxOpt.value.Get(c);
        if d.Some? {
          return Ok(d.value);
        }
      }
      var clazzName := c.name;
      var found := Lookup(instanceMap, clazzName);
      if found.None? {
        // the second read stands for the re-check made once the lock is held
        found := Lookup(instanceMap, clazzName);
        if found.None? {
          var made := Create(rt, c);
          if !made.Ok? {
            return made;
          }
          instanceMap := instanceMap[clazzName := made.obj];
          found := Some(made.obj);
        }
      }
      r := match found
        case Some(o) => Ok(o)
        case None => NotFound(clazzName);
    }

    /** get(String). The map only grows. */
    method GetByName(rt: Runtime, n: string) returns (r: Outcome)
      modifies this`instanceMap, rt`nextId
      ensures (r, Now(rt)) == CtxModel.GetByName(old(Sees(rt)), old(Now(rt)), n)
      ensures Grows(old(instanceMap), instanceMap)
    {
      if ctxOpt.Some? {
        var d := ctxOpt.value.GetByName(n);
        if d.Some? {
          return Ok(d.value);
        }
      }
      var c := rt.ForName(n);
      if c.None? {
        return InvalidTypeName(n);
      }
      r := Get(rt, c.value);
    }
  }

  /** A client: without a delegate two gets give the same object and two
      creates give two distinct ones; a delegate's binding wins over both. */
  method Client(u: JClass, bound: Obj)
  {
    var rt := new Runtime(map[u.name := u], map[u := Constructs]);
    var ctx := new JseCtx();
    var a := ctx.Get(rt, u);
    var b := ctx.GetByName(rt, u.name);
    assert a.Ok? && b == a;
    var x := ctx.Create(rt, u);
    var y := ctx.Create(rt, u);
    assert x.Ok? && y.Ok? && x.obj != y.obj && x != a;

    var d := new Delegate(Answers(map[u := bound], map[], map[u := bound], map[]));
    var child := new JseCtx.WithDelegate(d);
    var g := child.Get(rt, u);
    var h := child.Create(rt, u);
    assert g == h == Ok(bound) && child.instanceMap == map[];
  }
}
