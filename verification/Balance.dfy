/** What the balancers choose from: src/balance/mod.rs. */
module Balance {
  import opened Primitives
  import opened Origin

  datatype Endpoint = Endpoint(url: Url, urlKey: string, urlBase: string, weight: Option<u32>,
                               healthCheckPath: Option<string>)

  type StateTable = map<string, Stats>

  /** The values held by a table of origin objects. */
  ghost predicate Mirrors(states: map<string, OriginState>, table: StateTable)
    reads states.Values
  {
    states.Keys == table.Keys && forall key :: key in states ==> states[key].Value() == table[key]
  }

  predicate KnownHealthy(key: string, table: StateTable) {
    key in table && table[key].healthy
  }

  predicate KnownUnhealthy(key: string, table: StateTable) {
    key in table && !table[key].healthy
  }
}
