/**
 * JavaConfig: resolves an interface to its implementation class, first from
 * the map of bindings (explicit overrides and earlier results), otherwise by
 * scanning the classpath for its subtypes; a scan must find exactly one, and
 * its result is memoised in the map (HashMap.computeIfAbsent).
 */
module Config {
  import opened Types

  /** The RuntimeException thrown when a scan finds zero or several implementations. */
  datatype ConfigError = NotExactlyOneImpl(ifc: ClassRef)

  /**
   * The outcome of one getImplClass call: what it returns (or throws), the
   * binding map afterwards, and whether the scanner was consulted.
   */
  datatype Resolution = Resolution(
    result: Result<ClassRef, ConfigError>,
    bindings: map<ClassRef, ClassRef>,
    scanned: bool)

  /** Every binding of `older` is present, with the same value, in `newer`. */
  ghost predicate Extends(newer: map<ClassRef, ClassRef>, older: map<ClassRef, ClassRef>)
  {
    forall k :: k in older ==> k in newer && newer[k] == older[k]
  }

  /** The one element of a one-element set (the iterator's first and only element). */
  ghost function Single(classes: set<ClassRef>): (c: ClassRef)
    requires |classes| == 1
    ensures classes == {c}
  {
    var c :| c in classes;
    assert |classes - {c}| == 0;
    c
  }

  /** getImplClass as a function of the binding map before the call and the scanner. */
  ghost function Resolve(bindings: map<ClassRef, ClassRef>, scanner: ClassRef -> set<ClassRef>,
                         ifc: ClassRef): (res: Resolution)
    // the scanner is consulted exactly when there is no binding for ifc
    ensures res.scanned <==> ifc !in bindings
    // success: a binding exists, or the scan is unambiguous
    ensures res.result.Ok? <==> ifc in bindings || |scanner(ifc)| == 1
    ensures ifc in bindings ==> res.result == Ok(bindings[ifc]) && res.bindings == bindings
    ensures ifc !in bindings && res.result.Ok? ==> scanner(ifc) == {res.result.value}
    // a class returned is bound to ifc afterwards
    ensures res.result.Ok? ==> ifc in res.bindings && res.bindings[ifc] == res.result.value
    // a failure records nothing
    ensures res.result.Err? ==> res.result.error == NotExactlyOneImpl(ifc) && res.bindings == bindings
    // existing bindings are never overwritten, and only ifc can be added
    ensures Extends(res.bindings, bindings)
    ensures res.bindings.Keys <= bindings.Keys + {ifc}
  {
    if ifc in bindings then
      Resolution(Ok(bindings[ifc]), bindings, false)
    else
      var classes := scanner(ifc);
      if |classes| != 1 then
        Resolution(Err(NotExactlyOneImpl(ifc)), bindings, true)
      else
        var c := Single(classes);
        Resolution(Ok(c), bindings[ifc := c], true)
  }

  /** A bound interface resolves the same whatever the scanner would find. */
  lemma BoundIgnoresScanner(bindings: map<ClassRef, ClassRef>, s1: ClassRef -> set<ClassRef>,
                            s2: ClassRef -> set<ClassRef>, ifc: ClassRef)
    requires ifc in bindings
    ensures Resolve(bindings, s1, ifc) == Resolve(bindings, s2, ifc)
  {
  }

  /** After a successful call, a second call with the same interface returns the same class and changes nothing. */
  lemma ResolveIdempotent(bindings: map<ClassRef, ClassRef>, scanner: ClassRef -> set<ClassRef>, ifc: ClassRef)
    requires Resolve(bindings, scanner, ifc).result.Ok?
    ensures var first := Resolve(bindings, scanner, ifc);
            var second := Resolve(first.bindings, scanner, ifc);
            second.result == first.result && second.bindings == first.bindings && !second.scanned
  {
  }

  /** With no binding and an ambiguous or empty scan, every call fails the same way. */
  lemma ResolveFailsAgain(bindings: map<ClassRef, ClassRef>, scanner: ClassRef -> set<ClassRef>, ifc: ClassRef)
    requires ifc !in bindings && |scanner(ifc)| != 1
    ensures var first := Resolve(bindings, scanner, ifc);
            first.result == Err(NotExactlyOneImpl(ifc)) && Resolve(first.bindings, scanner, ifc) == first
  {
  }

  /**
   * The registry's invariant: the overrides supplied at construction are all
   * still bound, and every other binding is the unique subtype the scanner finds.
   */
  ghost predicate Sound(overrides: map<ClassRef, ClassRef>, bindings: map<ClassRef, ClassRef>,
                        scanner: ClassRef -> set<ClassRef>)
  {
    && Extends(bindings, overrides)
    && forall k :: k in bindings && k !in overrides ==> scanner(k) == {bindings[k]}
  }

  lemma ResolveKeepsSound(overrides: map<ClassRef, ClassRef>, bindings: map<ClassRef, ClassRef>,
                          scanner: ClassRef -> set<ClassRef>, ifc: ClassRef)
    requires Sound(overrides, bindings, scanner)
    ensures Sound(overrides, Resolve(bindings, scanner, ifc).bindings, scanner)
  {
  }

  // ---------------------------------------------------------------------
  // A run of successive getImplClass calls on one JavaConfig.

  /** The binding maps in effect before each request and after the last one. */
  ghost function States(bindings: map<ClassRef, ClassRef>, scanner: ClassRef -> set<ClassRef>,
                        requests: seq<ClassRef>): (st: seq<map<ClassRef, ClassRef>>)
    ensures |st| == |requests| + 1 && st[0] == bindings
    decreases |requests|
  {
    if requests == [] then [bindings]
    else [bindings] + States(Resolve(bindings, scanner, requests[0]).bindings, scanner, requests[1..])
  }

  /** The outcome of each request of a run. */
  ghost function Run(bindings: map<ClassRef, ClassRef>, scanner: ClassRef -> set<ClassRef>,
                     requests: seq<ClassRef>): (outs: seq<Resolution>)
    ensures |outs| == |requests|
  {
    var st := States(bindings, scanner, requests);
    seq(|requests|, i requires 0 <= i < |requests| => Resolve(st[i], scanner, requests[i]))
  }

  /** Each state of a run is what the previous request leaves behind. */
  lemma {:induction false} StatesStep(bindings: map<ClassRef, ClassRef>, scanner: ClassRef -> set<ClassRef>,
                                      requests: seq<ClassRef>, i: nat)
    requires i < |requests|
    ensures States(bindings, scanner, requests)[i + 1]
            == Run(bindings, scanner, requests)[i].bindings
    decreases i
  {
    var st := States(bindings, scanner, requests);
    var first := Resolve(bindings, scanner, requests[0]);
    var rest := States(first.bindings, scanner, requests[1..]);
    assert st == [bindings] + rest;
    if i == 0 {
      assert st[1] == rest[0] == first.bindings;
    } else {
      StatesStep(first.bindings, scanner, requests[1..], i - 1);
      assert rest[i] == Resolve(rest[i - 1], scanner, requests[1..][i - 1]).bindings;
      assert st[i + 1] == rest[i] && st[i] == rest[i - 1] && requests[1..][i - 1] == requests[i];
    }
  }

  /** A binding, once present, stays with the same value for the rest of the run. */
  lemma {:induction false} StatesGrow(bindings: map<ClassRef, ClassRef>, scanner: ClassRef -> set<ClassRef>,
                                      requests: seq<ClassRef>, i: nat, j: nat)
    requires i <= j <= |requests|
    ensures var st := States(bindings, scanner, requests); Extends(st[j], st[i])
  {
    if i < j {
      StatesGrow(bindings, scanner, requests, i, j - 1);
      StatesStep(bindings, scanner, requests, j - 1);
    }
  }

  /** The invariant holds in every state of a run that starts from it. */
  lemma {:induction false} StatesSound(overrides: map<ClassRef, ClassRef>, bindings: map<ClassRef, ClassRef>,
                                       scanner: ClassRef -> set<ClassRef>, requests: seq<ClassRef>, i: nat)
    requires Sound(overrides, bindings, scanner)
    requires i <= |requests|
    ensures Sound(overrides, States(bindings, scanner, requests)[i], scanner)
  {
    if i > 0 {
      StatesSound(overrides, bindings, scanner, requests, i - 1);
      StatesStep(bindings, scanner, requests, i - 1);
      ResolveKeepsSound(overrides, States(bindings, scanner, requests)[i - 1], scanner, requests[i - 1]);
    }
  }

  /**
   * Memoisation: once a request for an interface succeeds, every later request
   * for it returns the same class without consulting the scanner.
   */
  lemma Memoised(bindings: map<ClassRef, ClassRef>, scanner: ClassRef -> set<ClassRef>,
                 requests: seq<ClassRef>, i: nat, j: nat)
    requires i < j < |requests| && requests[i] == requests[j]
    requires Run(bindings, scanner, requests)[i].result.Ok?
    ensures var outs := Run(bindings, scanner, requests);
            outs[j].result == outs[i].result && !outs[j].scanned
  {
    StatesStep(bindings, scanner, requests, i);
    StatesGrow(bindings, scanner, requests, i + 1, j);
  }

  /** With an unambiguous scan, the scanner is consulted at most once for an interface in a run. */
  lemma ScannedAtMostOnce(bindings: map<ClassRef, ClassRef>, scanner: ClassRef -> set<ClassRef>,
                          requests: seq<ClassRef>, i: nat, j: nat)
    requires i < j < |requests| && requests[i] == requests[j] && |scanner(requests[i])| == 1
    ensures var outs := Run(bindings, scanner, requests); !(outs[i].scanned && outs[j].scanned)
  {
    var outs := Run(bindings, scanner, requests);
    if outs[i].scanned {
      Memoised(bindings, scanner, requests, i, j);
    }
  }

  /** An interface bound before the run (an override) resolves to that class on every request, never scanning. */
  lemma OverrideAlwaysWins(bindings: map<ClassRef, ClassRef>, scanner: ClassRef -> set<ClassRef>,
                           requests: seq<ClassRef>, i: nat)
    requires i < |requests| && requests[i] in bindings
    ensures var outs := Run(bindings, scanner, requests);
            outs[i].result == Ok(bindings[requests[i]]) && !outs[i].scanned
  {
    StatesGrow(bindings, scanner, requests, 0, i);
  }

  /**
   * An unbound interface whose scan is empty or ambiguous fails on every
   * request of a run and is never bound.
   */
  lemma {:induction false} FailsForever(bindings: map<ClassRef, ClassRef>, scanner: ClassRef -> set<ClassRef>,
                                        requests: seq<ClassRef>, ifc: ClassRef, i: nat)
    requires ifc !in bindings && |scanner(ifc)| != 1
    requires i <= |requests|
    ensures ifc !in States(bindings, scanner, requests)[i]
    ensures i < |requests| && requests[i] == ifc ==>
              Run(bindings, scanner, requests)[i].result == Err(NotExactlyOneImpl(ifc))
  {
    if i > 0 {
      FailsForever(bindings, scanner, requests, ifc, i - 1);
      StatesStep(bindings, scanner, requests, i - 1);
    }
  }

  /** The registry object: a package to scan, the scanner built for it and the binding map. */
  class JavaConfig {
    const packageToScan: string
    /** new Reflections(packageToScan).getSubTypesOf */
    const scanner: ClassRef -> set<ClassRef>
    /** the map the caller supplied at construction */
    ghost const overrides: map<ClassRef, ClassRef>
    var ifc2ImplClass: map<ClassRef, ClassRef>

    ghost predicate Valid()
      reads this
    {
      Sound(overrides, ifc2ImplClass, scanner)
    }

    constructor (packageToScan: string, index: SubTypeIndex, ifc2ImplClass: map<ClassRef, ClassRef>)
      ensures Valid()
      ensures this.packageToScan == packageToScan
      ensures forall ifc :: scanner(ifc) == index(packageToScan, ifc)
      ensures this.ifc2ImplClass == ifc2ImplClass && overrides == ifc2ImplClass
    {
      this.packageToScan := packageToScan;
      scanner := ifc => index(packageToScan, ifc);
      overrides := ifc2ImplClass;
      this.ifc2ImplClass := ifc2ImplClass;
    }

    method GetImplClass(ifc: ClassRef) returns (implClass: Result<ClassRef, ConfigError>)
      requires Valid()
      modifies this`ifc2ImplClass
      ensures Valid()
      ensures var res := Resolve(old(ifc2ImplClass), scanner, ifc);
              implClass == res.result && ifc2ImplClass == res.bindings
    {
      if ifc in ifc2ImplClass {
        implClass := Ok(ifc2ImplClass[ifc]);
      } else {
        var classes := scanner(ifc);
        if |classes| != 1 {
          implClass := Err(NotExactlyOneImpl(ifc));
        } else {
          var c :| c in classes;
          ifc2ImplClass := ifc2ImplClass[ifc := c];
          implClass := Ok(c);
        }
      }
      ResolveKeepsSound(overrides, old(ifc2ImplClass), scanner, ifc);
    }
  }
}
