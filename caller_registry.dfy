/** The registry of LLM caller classes, filled by the `register_caller(name)` class
    decorator. A name is registered once: a second registration under it raises and
    leaves the first in place. The class objects are a type parameter. */
module CallerRegistry {
  import opened Common

  function AlreadyRegistered(name: string): string
  {
    "Caller " + name + " already registered"
  }

  /** `CALLER_REGISTRY`. */
  class Registry<Caller> {
    var callers: map<string, Caller>

    constructor ()
      ensures callers == map[]
    {
      callers := map[];
    }

    /** `register_caller(name)(cls)`: returns the class itself, or raises
        `ValueError` when the name is taken. */
    method RegisterCaller(name: string, cls: Caller) returns (r: Result<Caller, string>)
      modifies this
      ensures name in old(callers) ==> r == Err(AlreadyRegistered(name)) && callers == old(callers)
      ensures name !in old(callers) ==> r == Ok(cls) && callers == old(callers)[name := cls]
      ensures forall n :: n in old(callers) ==> n in callers && callers[n] == old(callers)[n]
      ensures name in callers
    {
      if name in callers {
        return Err(AlreadyRegistered(name));
      }
      callers := callers[name := cls];
      return Ok(cls);
    }
  }
}
