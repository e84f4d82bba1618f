# spring-builder object factory, modelled in Dafny

The repository is a tiny dependency-injection container. `ObjectFactory` is a
process-wide singleton. When asked for a type, it builds it. If the type is a
class, it instantiates the class itself. If the type is an interface, it asks its
`JavaConfig` for the implementation class and instantiates that.

`JavaConfig.getImplClass` resolves an interface through a map (`ifc2ImplClass`).
The caller seeds the map with explicit overrides. When the interface has no
entry, `getImplClass` scans the classpath for subtypes of the interface. A scan
must find exactly one subtype. That subtype is then stored in the map
(`HashMap.computeIfAbsent`). Zero or several subtypes throw, and nothing is
stored.

The model has three modules:

- `Types` (`types.dfy`): class descriptors `ClassRef(name, isInterface)`,
  `Option`, and `Result`, which stands in for a thrown exception. It also holds
  the classpath index, a fixed function from (package prefix, type) to the set of
  subtypes.
- `Config` (`java_config.dfy`): the class `JavaConfig`, with the map as a `map`
  field and the scanner as a constant function. `Resolve` is the pure
  specification of one `getImplClass` call. Beside it are lemmas about single
  calls and about runs of successive calls (`States`, `Run`).
- `Factory` (`object_factory.dfy`): the class `ObjectFactory` with its nullable
  `config` field, the pure specification `Create` of `createObject`, and the
  class `ObjectFactoryClass`, which holds the static singleton. It also holds
  the scenarios: an override, a unique implementation, an ambiguous scan, and
  the as-written null config.

Inputs that come from outside the code are parameters:

- the classpath index (the reflection library's scan);
- `accessibleCtor`, the JVM's answer to whether a class has an accessible
  niladic constructor that returns normally.

Facts about the code that the model keeps:

- The failure carries only the interface, as the exception message does; there is
  no candidate count.
- The override map and the cache are one and the same map. An override is
  returned directly; it is not bound in a separate step.
- The singleton is created by the class's static initialiser, which the JVM runs
  on the first use of `ObjectFactory`.
- The registry is never attached to the factory (see Findings).

## Model

| member | source | states |
|---|---|---|
| `Config.Single` | src/main/java/com/edu/JavaConfig.java:26 | the element taken from a one-element scan result is its only element |
| `Config.Resolve` | src/main/java/com/edu/JavaConfig.java:21-27 | the scanner is consulted exactly when ifc is unbound. The call succeeds iff ifc is bound or the scan finds exactly one subtype. A bound ifc returns its binding and leaves the map unchanged. A scanned result is the unique subtype and is bound to ifc afterwards. A failure is NotExactlyOneImpl(ifc) and leaves the map unchanged. Existing entries are never overwritten, and ifc is the only key that can be added |
| `Config.BoundIgnoresScanner` | src/main/java/com/edu/JavaConfig.java:21 | for a bound interface, the outcome is the same whatever the scanner would return (the scanner is not consulted) |
| `Config.ResolveIdempotent` | src/main/java/com/edu/JavaConfig.java:21 | after a successful call, a second call with the same interface returns the same class, leaves the map unchanged and does not scan |
| `Config.ResolveFailsAgain` | src/main/java/com/edu/JavaConfig.java:22-24 | with ifc unbound and a scan of 0 or 2+ subtypes, the call fails, and repeating it gives the identical failure and map |
| `Config.ResolveKeepsSound` | src/main/java/com/edu/JavaConfig.java:15-27 | a call preserves the registry invariant: the overrides are still bound, and every other entry is the unique subtype the scanner finds |
| `Config.States` | src/main/java/com/edu/JavaConfig.java:21 | a run of n calls passes through n+1 maps, starting from the initial one |
| `Config.Run` | src/main/java/com/edu/JavaConfig.java:21 | a run has one outcome per request |
| `Config.StatesStep` | src/main/java/com/edu/JavaConfig.java:21 | each map of a run is the one the previous call leaves behind |
| `Config.StatesGrow` | src/main/java/com/edu/JavaConfig.java:21 | a binding, once present, keeps its value for the rest of the run (at most one implementation is ever bound per interface) |
| `Config.StatesSound` | src/main/java/com/edu/JavaConfig.java:15-27 | the registry invariant holds in every map of a run |
| `Config.Memoised` | src/main/java/com/edu/JavaConfig.java:21 | once a request for an interface succeeds, every later request for it returns the same class without scanning |
| `Config.ScannedAtMostOnce` | src/main/java/com/edu/JavaConfig.java:21-27 | for an interface with exactly one subtype, the scanner is consulted at most once in a run |
| `Config.OverrideAlwaysWins` | src/main/java/com/edu/JavaConfig.java:15-21 | an interface bound before the run (an override) resolves to that class on every request and is never scanned |
| `Config.FailsForever` | src/main/java/com/edu/JavaConfig.java:22-24 | an unbound interface with 0 or 2+ subtypes fails on every request of a run and is never bound |
| `Config.JavaConfig.constructor` | src/main/java/com/edu/JavaConfig.java:13-16 | the map is exactly the caller's override map. The scanner is the classpath index restricted to the given package. The registry invariant holds |
| `Config.JavaConfig.GetImplClass` | src/main/java/com/edu/JavaConfig.java:19-28 | returns what Resolve returns and leaves the map Resolve gives, preserving the registry invariant |
| `Factory.DefaultOverrides` | src/main/java/com/edu/ObjectFactory.java:18 | the factory's override map has exactly one entry, Policeman to AngryPoliceman |
| `Factory.Create` | src/main/java/com/edu/ObjectFactory.java:22-29 | a class is built as itself, and the config is left untouched. An interface with a null config fails with NullConfig. An interface with a config is built as the class getImplClass returns, and its failure propagates as Unresolved. Every object built is of an instantiable class and, for an interface, of the class now bound to it. When the chosen class (the requested class, or the class resolved for an interface) cannot be instantiated, the failure is ConstructionFailed of that class |
| `Factory.InterfaceRequestFailsAsWritten` | src/main/java/com/edu/ObjectFactory.java:11-25 | with config null, every interface request fails with NullConfig |
| `Factory.PolicemanIsAngryWhenWired` | src/main/java/com/edu/ObjectFactory.java:18-27 | with the default overrides wired in, Policeman is built as AngryPoliceman whatever the scanner finds, and the map is unchanged |
| `Factory.UniqueImplBuiltTwice` | src/main/java/com/edu/ObjectFactory.java:24-27 | an unbound interface with one subtype is built as that subtype on the first call (which binds it) and on the second (which changes nothing) |
| `Factory.AmbiguousFailsTwice` | src/main/java/com/edu/ObjectFactory.java:24-25 | an unbound interface with 0 or 2+ subtypes fails with the registry's error on every call, and nothing is bound |
| `Factory.ObjectFactory.constructor` | src/main/java/com/edu/ObjectFactory.java:17-19 | as written: the JavaConfig built is dropped, and config stays null |
| `Factory.ObjectFactory.Wired` | src/main/java/com/edu/ObjectFactory.java:17-19 | as intended: config is a fresh JavaConfig over package com.edu with the default overrides |
| `Factory.ObjectFactory.CreateObject` | src/main/java/com/edu/ObjectFactory.java:21-29 | returns what Create returns, and leaves the config's map as Create gives it |
| `Factory.PolicemanRequestAsWritten` | src/main/java/com/edu/ObjectFactory.java:10-25 | the factory as constructed throws NullConfig on a request for Policeman |
| `Factory.PolicemanRequestWired` | src/main/java/com/edu/ObjectFactory.java:17-27 | a wired factory builds Policeman as AngryPoliceman, or fails constructing AngryPoliceman |
| `Factory.ObjectFactoryClass.constructor` | src/main/java/com/edu/ObjectFactory.java:10 | class initialisation creates one fresh factory, built by the as-written constructor |
| `Factory.ObjectFactoryClass.GetInstance` | src/main/java/com/edu/ObjectFactory.java:13-15 | every call returns that one instance |

## Left out

- The reflection library's classpath scan (`new Reflections`, `getSubTypesOf`) is a parameter. It is a fixed function from package and type to a finite set of subtypes. Its own correctness is not modelled.
- Reflective instantiation (`getDeclaredConstructor().newInstance()`) and Lombok's `@SneakyThrows` are reduced to one outcome: the chosen class is built, or construction fails. An interface never builds. For a class, a fixed predicate decides. A constructor that fails only some of the time is not modelled.
- The exception message text. Only the failure and the interface it names are kept.
- The `Config` interface that `JavaConfig` implements is not part of this model. The `config` field is typed by its one implementation, `JavaConfig`.
- `Config.JavaConfig.constructor`: the Java registry keeps a reference to the caller's `HashMap`, so a caller could change it later. The model copies the map by value. The only caller keeps no reference to it.
- Thread safety of the `HashMap` cache. The code does nothing about concurrency, so the model is sequential.
- `Config.Resolve`: override values are taken to be non-null, since `ClassRef` has no null. In Java, `computeIfAbsent` treats a key mapped to null as absent: it would scan that key and overwrite its entry. The only caller builds the map with `Map.of` (ObjectFactory.java:18), which refuses null values.
- Whether an override's value implements its interface. The code never checks this, and neither does the model.
- `CoronaDesinfector` is a demo consumer (console output and calls on interfaces whose code is not part of this model). It is not modelled.

## Findings

| source | as written | input that shows it | evidently intended | confidence | as-written member | corrected member |
|---|---|---|---|---|---|---|
| src/main/java/com/edu/ObjectFactory.java:18 | the constructor builds a `JavaConfig` and discards it, so `config` stays null and line 25 dereferences null | `createObject(Policeman.class)` on the singleton throws NullPointerException instead of building an `AngryPoliceman` | `config = new JavaConfig("com.edu", ...)` | high; not executed | `Factory.PolicemanRequestAsWritten` | `Factory.PolicemanRequestWired` |
