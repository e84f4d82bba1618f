/**
 * Values shared by the registry and the factory: class descriptors
 * (java.lang.Class), an optional value and a success/failure result that
 * stands in for a thrown exception.
 */
module Types {

  /** A class descriptor: its fully qualified name and whether it is an interface. */
  datatype ClassRef = ClassRef(name: string, isInterface: bool)

  datatype Option<+T> = None | Some(value: T)

  datatype Result<+T, +E> = Ok(value: T) | Err(error: E)

  /**
   * The classpath as the reflection library sees it: for a package prefix and
   * a type, the set of its subtypes found under that prefix. It is a fixed
   * function of its arguments: the classpath does not change while the
   * program runs.
   */
  type SubTypeIndex = (string, ClassRef) -> set<ClassRef>
}
