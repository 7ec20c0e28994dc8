/** The service types a general entry is tagged with, in display order
    (`SERVICE_TYPES` in app.js). */
module Registry {

  const ServiceTypes: seq<string> := [
    "Chinesischer Haus-zu-Haus",
    "Deutscher Haus-zu-Haus",
    "Trolley",
    "\U{00D6}ZB",
    "Hafendienst",
    "Fernfahrer",
    "Informell",
    "Studien",
    "Sonstige"
  ]

  predicate Distinct(keys: seq<string>) {
    forall i, j :: 0 <= i < j < |keys| ==> keys[i] != keys[j]
  }

  /** No service type is listed twice, so every entry is counted under at most one. */
  lemma ServiceTypesDistinct()
    ensures |ServiceTypes| == 9 && Distinct(ServiceTypes)
  {
  }

  /** `SERVICE_TYPES[0]`, the fallback for a missing selection. */
  function DefaultService(): (s: string)
    ensures s in ServiceTypes && s != ""
  {
    ServiceTypes[0]
  }
}
