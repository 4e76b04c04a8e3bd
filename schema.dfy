/**
 * The read-only view of a parsed GraphQL schema that the code generator walks:
 * named types, the LIST and NON_NULL modifiers that wrap them (sections 3.11 and
 * 3.12 of the GraphQL specification, October 2021 edition), fields and entities.
 */
module Schema {
  import opened Wrappers

  /** The kind of a named type, as the introspection API reports it. */
  datatype Kind = Scalar | Object | Interface | Union | Enum | InputObject

  /**
   * A type reference as the introspection API exposes it: a named type, or a
   * wrapper layer whose `ofType` is the wrapped type. Wrapper layers have no
   * name; named types have no `ofType`.
   */
  datatype GqlType =
    | Named(name: string, kind: Kind)
    | List(ofType: GqlType)
    | NonNull(ofType: GqlType)

  /** The kind string that `Type.Kind()` returns for a type reference. */
  function KindName(t: GqlType): (r: string)
    ensures r == "NON_NULL" <==> t.NonNull?
    ensures r == "LIST" <==> t.List?
  {
    match t
    case List(_) => "LIST"
    case NonNull(_) => "NON_NULL"
    case Named(_, k) =>
      match k
      case Scalar => "SCALAR"
      case Object => "OBJECT"
      case Interface => "INTERFACE"
      case Union => "UNION"
      case Enum => "ENUM"
      case InputObject => "INPUT_OBJECT"
  }

  /**
   * A type reference the schema parser can produce: a NON_NULL layer never
   * wraps another NON_NULL layer directly.
   */
  predicate WellFormed(t: GqlType) {
    match t
    case Named(_, _) => true
    case List(x) => WellFormed(x)
    case NonNull(x) => !x.NonNull? && WellFormed(x)
  }

  /** The name of the named type at the bottom of the wrapper chain. */
  function BaseName(t: GqlType): string {
    match t
    case Named(n, _) => n
    case List(x) => BaseName(x)
    case NonNull(x) => BaseName(x)
  }

  /** Number of LIST layers in the wrapper chain. */
  function ListDepth(t: GqlType): nat {
    match t
    case Named(_, _) => 0
    case List(x) => 1 + ListDepth(x)
    case NonNull(x) => ListDepth(x)
  }

  /** Number of NON_NULL layers in the wrapper chain. */
  function NonNullCount(t: GqlType): nat {
    match t
    case Named(_, _) => 0
    case List(x) => NonNullCount(x)
    case NonNull(x) => 1 + NonNullCount(x)
  }

  /** One modifier of a wrapper chain. */
  datatype Modifier = ListOf | NonNullOf

  /** The wrapper chain of a type reference, outermost modifier first. */
  function Modifiers(t: GqlType): seq<Modifier> {
    match t
    case Named(_, _) => []
    case List(x) => [ListOf] + Modifiers(x)
    case NonNull(x) => [NonNullOf] + Modifiers(x)
  }

  /** A GraphQL Name: `[_A-Za-z][_0-9A-Za-z]*`. */
  predicate IsNameStart(c: char) {
    c == '_' || 'A' <= c <= 'Z' || 'a' <= c <= 'z'
  }

  predicate IsNameChar(c: char) {
    IsNameStart(c) || '0' <= c <= '9'
  }

  predicate ValidName(n: string) {
    |n| > 0 && IsNameStart(n[0]) && forall i :: 0 <= i < |n| ==> IsNameChar(n[i])
  }

  /** A field of an object or interface type. */
  datatype Field = Field(name: string, description: Option<string>, typ: GqlType)

  /**
   * A named entry of the schema's type catalogue: its name, kind, description,
   * fields, and the names of its possible concrete types (interfaces and unions).
   */
  datatype Entity = Entity(
    name: string,
    kind: Kind,
    description: Option<string>,
    fields: seq<Field>,
    possibleTypes: Option<seq<string>>)
}
