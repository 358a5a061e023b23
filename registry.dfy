/**
 * The process-wide table of clustering algorithms: each name maps to the
 * function that clusters and the name of the algorithm to try when that
 * function reports its backend unavailable.
 */
module ClusteringRegistry {
  import opened Wrappers

  /** One entry of the table: the strategy and its optional fallback name. */
  datatype ClusteringOption<F> = ClusteringOption(fn: F, fallback: Option<string>)

  /** Registering a name twice fails an assertion when the module loads. */
  datatype RegistrationError = DuplicateName(name: string)

  type Table<F> = map<string, ClusteringOption<F>>

  /**
   * The module-level dictionary filled by the registering decorator.
   * `F` names the registered function.
   */
  class Registry<F> {
    var table: Table<F>

    /** The dictionary starts empty. */
    constructor ()
      ensures table == map[]
    {
      table := map[];
    }

    /** The names callers may configure (the dictionary's keys). */
    function Supported(): (names: set<string>)
      reads this
      ensures forall name :: name in names <==> name in table
    {
      table.Keys
    }

    /**
     * Registers `fn` under `key` with an optional fallback. A name already in
     * the table is refused and leaves it unchanged; otherwise exactly that
     * name is added and every other entry is kept.
     */
    method Register(key: string, fn: F, fallback: Option<string>) returns (r: Outcome<RegistrationError>)
      modifies this
      ensures r.Fail? <==> key in old(table)
      ensures r.Fail? ==> r.error == DuplicateName(key) && table == old(table)
      ensures r.Pass? ==> table == old(table)[key := ClusteringOption(fn, fallback)]
      ensures r.Pass? ==> table.Keys == old(table).Keys + {key}
    {
      if key in table {
        return Fail(DuplicateName(key));
      }
      table := table[key := ClusteringOption(fn, fallback)];
      return Pass;
    }
  }

  /**
   * The fallback edges strictly decrease `rank`, so following fallbacks from
   * any name stops: the fallback graph has no cycle.
   */
  ghost predicate Ranked<F>(table: Table<F>, rank: string -> nat)
  {
    forall name :: name in table && table[name].fallback.Some? ==>
      rank(table[name].fallback.value) < rank(name)
  }
}
