/**
 * ObjectFactory: the process-wide entry point that builds an object of a
 * requested type. A class is built directly; an interface is first resolved
 * to its implementation through the factory's JavaConfig.
 */
module Factory {
  import opened Types
  import opened Config

  /** An object built by the factory, known by its runtime class. */
  datatype Instance = Instance(ofClass: ClassRef)

  /** What createObject throws. */
  datatype CreateError =
    | NullConfig                          // NullPointerException: the config field is null
    | Unresolved(cause: ConfigError)      // propagated from getImplClass
    | ConstructionFailed(implClass: ClassRef)  // reflective instantiation failed

  /** The outcome of one createObject call and the config's binding map afterwards (None: no config). */
  datatype Creation = Creation(result: Result<Instance, CreateError>, bindings: Option<map<ClassRef, ClassRef>>)

  const Policeman: ClassRef := ClassRef("com.edu.Policeman", true)
  const AngryPoliceman: ClassRef := ClassRef("com.edu.AngryPoliceman", false)
  const PackageToScan: string := "com.edu"

  /** The override map the factory's constructor hands to its JavaConfig. */
  function DefaultOverrides(): (m: map<ClassRef, ClassRef>)
    ensures m.Keys == {Policeman} && m[Policeman] == AngryPoliceman
  {
    map[Policeman := AngryPoliceman]
  }

  /**
   * getDeclaredConstructor().newInstance() succeeds: an interface has no
   * constructor; for a class, `accessibleCtor` says whether it has an
   * accessible niladic constructor that returns normally.
   */
  predicate Instantiable(implClass: ClassRef, accessibleCtor: ClassRef -> bool)
  {
    !implClass.isInterface && accessibleCtor(implClass)
  }

  /** createObject as a function of the config's binding map (None when config is null). */
  ghost function Create(config: Option<map<ClassRef, ClassRef>>, scanner: ClassRef -> set<ClassRef>,
                        accessibleCtor: ClassRef -> bool, t: ClassRef): (res: Creation)
    // a class is built as itself, without touching the config
    ensures !t.isInterface ==>
              && res.bindings == config
              && (res.result.Ok? <==> Instantiable(t, accessibleCtor))
              && (res.result.Ok? ==> res.result.value.ofClass == t)
    ensures !t.isInterface && !Instantiable(t, accessibleCtor) ==> res.result == Err(ConstructionFailed(t))
    // an interface with a null config fails before any resolution
    ensures t.isInterface && config.None? ==> res == Creation(Err(NullConfig), None)
    // an interface with a config: the config's call decides the class, and its failure propagates
    ensures t.isInterface && config.Some? ==>
              var r := Resolve(config.value, scanner, t);
              && res.bindings == Some(r.bindings)
              && (r.result.Err? ==> res.result == Err(Unresolved(r.result.error)))
              && (r.result.Ok? ==> (res.result.Ok? <==> Instantiable(r.result.value, accessibleCtor)))
              && (r.result.Ok? && !Instantiable(r.result.value, accessibleCtor) ==>
                    res.result == Err(ConstructionFailed(r.result.value)))
    ensures res.result.Ok? && t.isInterface ==>
              && res.bindings.Some? && t in res.bindings.value
              && res.bindings.value[t] == res.result.value.ofClass
    // every object built is of an instantiable class; a construction failure names a class that is not
    ensures res.result.Ok? ==> Instantiable(res.result.value.ofClass, accessibleCtor)
    ensures res.result.Err? && res.result.error.ConstructionFailed? ==>
              !Instantiable(res.result.error.implClass, accessibleCtor)
  {
    if !t.isInterface then
      Instantiate(t, accessibleCtor, config)
    else if config.None? then
      Creation(Err(NullConfig), None)
    else
      var r := Resolve(config.value, scanner, t);
      match r.result
      case Err(e) => Creation(Err(Unresolved(e)), Some(r.bindings))
      case Ok(implClass) => Instantiate(implClass, accessibleCtor, Some(r.bindings))
  }

  /** The last step of createObject: build the chosen class or fail. */
  ghost function Instantiate(implClass: ClassRef, accessibleCtor: ClassRef -> bool,
                             bindings: Option<map<ClassRef, ClassRef>>): Creation
  {
    if Instantiable(implClass, accessibleCtor) then Creation(Ok(Instance(implClass)), bindings)
    else Creation(Err(ConstructionFailed(implClass)), bindings)
  }

  /** As written, every interface request fails, whatever the classpath holds. */
  lemma InterfaceRequestFailsAsWritten(scanner: ClassRef -> set<ClassRef>, accessibleCtor: ClassRef -> bool,
                                       t: ClassRef)
    requires t.isInterface
    ensures Create(None, scanner, accessibleCtor, t).result == Err(NullConfig)
  {
  }

  /** With the config wired, Policeman is built as AngryPoliceman, whatever the scanner would find. */
  lemma PolicemanIsAngryWhenWired(scanner: ClassRef -> set<ClassRef>, accessibleCtor: ClassRef -> bool)
    requires accessibleCtor(AngryPoliceman)
    ensures Create(Some(DefaultOverrides()), scanner, accessibleCtor, Policeman)
            == Creation(Ok(Instance(AngryPoliceman)), Some(DefaultOverrides()))
  {
  }

  /** An interface with one implementation and no override is built as that class on a first and a second call. */
  lemma UniqueImplBuiltTwice(bindings: map<ClassRef, ClassRef>, scanner: ClassRef -> set<ClassRef>,
                             accessibleCtor: ClassRef -> bool, ifc: ClassRef, impl: ClassRef)
    requires ifc.isInterface && ifc !in bindings && scanner(ifc) == {impl}
    requires Instantiable(impl, accessibleCtor)
    ensures var first := Create(Some(bindings), scanner, accessibleCtor, ifc);
            && first.result == Ok(Instance(impl))
            && first.bindings == Some(bindings[ifc := impl])
            && Create(first.bindings, scanner, accessibleCtor, ifc) == first
  {
  }

  /** An interface with an empty or ambiguous scan and no override fails on a first and a second call. */
  lemma AmbiguousFailsTwice(bindings: map<ClassRef, ClassRef>, scanner: ClassRef -> set<ClassRef>,
                            accessibleCtor: ClassRef -> bool, ifc: ClassRef)
    requires ifc.isInterface && ifc !in bindings && |scanner(ifc)| != 1
    ensures var first := Create(Some(bindings), scanner, accessibleCtor, ifc);
            && first == Creation(Err(Unresolved(NotExactlyOneImpl(ifc))), Some(bindings))
            && Create(first.bindings, scanner, accessibleCtor, ifc) == first
  {
  }

  class ObjectFactory {
    /** The Config field; JavaConfig is its only implementation. */
    var config: JavaConfig?
    /** The JVM's answer to "does this class have an accessible niladic constructor that returns normally". */
    const accessibleCtor: ClassRef -> bool

    ghost predicate Valid()
      reads this, config
    {
      config != null ==> config.Valid()
    }

    /** The config's binding map, or None when config is null. */
    ghost function ConfigBindings(): Option<map<ClassRef, ClassRef>>
      reads this, config
    {
      if config == null then None else Some(config.ifc2ImplClass)
    }

    /** The config's scanner; with no config nothing is ever scanned. */
    ghost function Scanner(): ClassRef -> set<ClassRef>
      reads this
    {
      if config == null then (ifc: ClassRef) => {} else config.scanner
    }

    /** The constructor as written: it builds a JavaConfig and drops it, leaving config null. */
    constructor (index: SubTypeIndex, accessibleCtor: ClassRef -> bool)
      ensures Valid() && config == null
      ensures forall c :: this.accessibleCtor(c) == accessibleCtor(c)
    {
      var dropped := new JavaConfig(PackageToScan, index, DefaultOverrides());
      this.accessibleCtor := accessibleCtor;
      config := null;
    }

    /** The constructor as evidently intended: the JavaConfig it builds becomes the config. */
    constructor Wired(index: SubTypeIndex, accessibleCtor: ClassRef -> bool)
      ensures Valid() && config != null && fresh(config)
      ensures config.packageToScan == PackageToScan && config.ifc2ImplClass == DefaultOverrides()
      ensures forall ifc :: config.scanner(ifc) == index(PackageToScan, ifc)
      ensures forall c :: this.accessibleCtor(c) == accessibleCtor(c)
    {
      var wired := new JavaConfig(PackageToScan, index, DefaultOverrides());
      this.accessibleCtor := accessibleCtor;
      config := wired;
    }

    method CreateObject(t: ClassRef) returns (obj: Result<Instance, CreateError>)
      requires Valid()
      modifies config
      ensures Valid()
      ensures var res := Create(old(ConfigBindings()), Scanner(), accessibleCtor, t);
              obj == res.result && ConfigBindings() == res.bindings
    {
      var implClass := t;
      if implClass.isInterface {
        if config == null {
          return Err(NullConfig);
        }
        var resolved := config.GetImplClass(t);
        if resolved.Err? {
          return Err(Unresolved(resolved.error));
        }
        implClass := resolved.value;
      }
      if implClass.isInterface || !accessibleCtor(implClass) {
        return Err(ConstructionFailed(implClass));
      }
      obj := Ok(Instance(implClass));
    }
  }

  /** The factory as constructed: its request for Policeman throws before any resolution. */
  method PolicemanRequestAsWritten(index: SubTypeIndex, accessibleCtor: ClassRef -> bool)
    returns (obj: Result<Instance, CreateError>)
    ensures obj == Err(NullConfig)
  {
    var factory := new ObjectFactory(index, accessibleCtor);
    obj := factory.CreateObject(Policeman);
  }

  /** The factory with its config wired: Policeman is built as AngryPoliceman when that class can be built. */
  method PolicemanRequestWired(index: SubTypeIndex, accessibleCtor: ClassRef -> bool)
    returns (obj: Result<Instance, CreateError>)
    ensures obj == if accessibleCtor(AngryPoliceman) then Ok(Instance(AngryPoliceman))
                   else Err(ConstructionFailed(AngryPoliceman))
  {
    var factory := new ObjectFactory.Wired(index, accessibleCtor);
    obj := factory.CreateObject(Policeman);
  }

  /** The static state of the ObjectFactory class: its one instance, created at class initialisation. */
  class ObjectFactoryClass {
    const ourInstance: ObjectFactory

    constructor (index: SubTypeIndex, accessibleCtor: ClassRef -> bool)
      ensures fresh(ourInstance) && ourInstance.Valid() && ourInstance.config == null
      ensures forall c :: ourInstance.accessibleCtor(c) == accessibleCtor(c)
    {
      ourInstance := new ObjectFactory(index, accessibleCtor);
    }

    /** Every call returns the one instance. */
    method GetInstance() returns (factory: ObjectFactory)
      ensures factory == ourInstance
    {
      factory := ourInstance;
    }
  }
}
