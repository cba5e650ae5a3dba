/** Optional values, for lookups that may fail. */
module Wrappers {
  datatype Option<+T> = None | Some(value: T)
}

/**
 * The abstract view of what the JVM tool interface can tell the agent about a
 * compiled method. Each query the agent makes may fail; a failed query is `None`.
 */
module Jvmti {
  import opened Wrappers

  /** A `jmethodID`: an opaque handle, ordered by its numeric value. */
  type MethodId = nat

  /** One row of a method's line number table. */
  datatype LineEntry = LineEntry(startLocation: int, lineNumber: int)

  /** Result of `GetMethodName`: the name and the (possibly missing) signature. */
  datatype MethodName = MethodName(name: string, signature: Option<string>)

  /**
   * The declaring class, once `GetMethodDeclaringClass` succeeded:
   * `GetClassSignature` and `GetSourceFileName` on it may still fail.
   */
  datatype ClassMeta = ClassMeta(signature: Option<string>, sourceFile: Option<string>)

  /** Everything the formatter may ask about one method. */
  datatype MethodMeta = MethodMeta(
    methodName: Option<MethodName>,
    declaringClass: Option<ClassMeta>,
    lineTable: Option<seq<LineEntry>>)

  /** The tool interface, as a total function from method handles to their metadata. */
  type MetadataOracle = MethodId -> MethodMeta
}

/** The entries written to the `perf-<pid>.map` file, as tuples rather than text. */
module PerfMap {
  /** One `perf_map_write_entry(file, addr, size, name)` call. */
  datatype MapEntry = MapEntry(addr: int, size: int, name: string)

  const UINT_LIMIT: int := 0x1_0000_0000

  /**
   * The `unsigned int code_size` that `perf_map_write_entry` receives for a
   * signed length: the length modulo 2^32.
   */
  function WrittenSize(len: int): (r: nat)
    ensures r < UINT_LIMIT && (len - r) % UINT_LIMIT == 0
    ensures 0 <= len < UINT_LIMIT ==> r == len
  {
    len % UINT_LIMIT
  }
}
