/** The static challenge catalog (`challengesConfig`). Only the names of the
    entries matter to the session: it selects an entry by name and falls back
    to the first entry. */
module Catalog {

  datatype Option<T> = None | Some(value: T)

  /** One catalog entry; its payload (target markup, assets) is not modelled. */
  datatype ChallengeConfig = ChallengeConfig(name: string)

  /** The catalog is non-empty (entry 0 is the default) and its names are
      distinct. An entry named "" is allowed: the session stores that name
      and then skips it on lookup. */
  predicate CatalogOk(catalog: seq<ChallengeConfig>) {
    |catalog| > 0 &&
    (forall i, j :: 0 <= i < j < |catalog| ==> catalog[i].name != catalog[j].name)
  }

  /** `challengesConfig.find(c => c.name === name)`, as the index of the
      first entry with that name. */
  function Find(catalog: seq<ChallengeConfig>, name: string): (r: Option<nat>)
    ensures r.Some? ==> r.value < |catalog| && catalog[r.value].name == name
    ensures r.Some? ==> forall j :: 0 <= j < r.value ==> catalog[j].name != name
    ensures r.None? <==> forall j :: 0 <= j < |catalog| ==> catalog[j].name != name
    decreases |catalog|
  {
    if catalog == [] then None
    else if catalog[0].name == name then Some(0)
    else match Find(catalog[1..], name)
      case None => None
      case Some(k) => Some(k + 1)
  }

  /** In a well-formed catalog a name selects exactly its own entry. */
  lemma FindOwnName(catalog: seq<ChallengeConfig>, i: nat)
    requires CatalogOk(catalog) && i < |catalog|
    ensures Find(catalog, catalog[i].name) == Some(i)
  {
  }
}
