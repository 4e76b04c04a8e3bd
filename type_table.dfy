/** The built-in scalar table of the generator (`internalTypeConfig`). */
module TypeTable {

  /** How a built-in name is treated: skipped by the driver, its Go type, its import line. */
  datatype ScalarConfig = ScalarConfig(ignore: bool, goType: string, importPath: string)

  const GraphqlImport: string := "graphql \"github.com/neelance/graphql-go\""

  const InternalTypeConfig: map<string, ScalarConfig> := map[
    "SCALAR" := ScalarConfig(true, "", ""),
    "Boolean" := ScalarConfig(true, "bool", ""),
    "Float" := ScalarConfig(true, "float64", ""),
    "Int" := ScalarConfig(true, "int32", ""),
    "ID" := ScalarConfig(true, "graphql.ID", GraphqlImport),
    "String" := ScalarConfig(true, "string", "")
  ]

  /**
   * `internalTypeConfig[name].ignore`: a missing key reads as the zero value,
   * whose flag is false.
   */
  predicate Ignored(name: string) {
    name in InternalTypeConfig && InternalTypeConfig[name].ignore
  }

  /** Every entry of the table is flagged, so the ignored names are exactly its keys. */
  lemma IgnoredNames(name: string)
    ensures Ignored(name) <==> name in {"SCALAR", "Boolean", "Float", "Int", "ID", "String"}
  {
  }
}
