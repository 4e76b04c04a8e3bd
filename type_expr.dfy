/**
 * The type-expression builder (`getTypeName`) and `getPointer`: how a GraphQL
 * type reference becomes a Go type string.
 */
module TypeExpr {
  import opened Schema
  import opened TypeTable

  /** The Go type of a named type: the table's Go type, or the generated resolver type. */
  function Base(name: string): string {
    if name in InternalTypeConfig then InternalTypeConfig[name].goType else name + "Resolver"
  }

  /**
   * The Go type of a type reference: every layer that is not directly under a
   * NON_NULL gets a pointer marker, every LIST layer a slice marker, outermost
   * first, and the named type at the bottom its base type.
   */
  function GoType(t: GqlType): string
    requires WellFormed(t)
  {
    match t
    case Named(n, _) => "*" + Base(n)
    case List(x) => "*[]" + GoType(x)
    case NonNull(Named(n, _)) => Base(n)
    case NonNull(List(x)) =>
      assert WellFormed(List(x));
      "[]" + GoType(x)
  }

  /** The markers in front of the base type: `GoType` with the base left out. */
  function Markers(t: GqlType): string
    requires WellFormed(t)
  {
    match t
    case Named(_, _) => "*"
    case List(x) => "*[]" + Markers(x)
    case NonNull(Named(_, _)) => ""
    case NonNull(List(x)) =>
      assert WellFormed(List(x));
      "[]" + Markers(x)
  }

  /** The Go type is the marker prefix followed by the Go type of the base name. */
  lemma {:induction false} GoTypeSplit(t: GqlType)
    requires WellFormed(t)
    ensures GoType(t) == Markers(t) + Base(BaseName(t))
  {
    match t
    case Named(_, _) =>
    case List(x) =>
      GoTypeSplit(x);
      assert "*[]" + (Markers(x) + Base(BaseName(x))) == ("*[]" + Markers(x)) + Base(BaseName(x));
    case NonNull(Named(_, _)) =>
    case NonNull(List(x)) =>
      assert WellFormed(List(x));
      GoTypeSplit(x);
      assert "[]" + (Markers(x) + Base(BaseName(x))) == ("[]" + Markers(x)) + Base(BaseName(x));
  }

  /** A layer that is not NON_NULL costs exactly one pointer marker. */
  lemma NullableLayer(t: GqlType)
    requires WellFormed(t) && !t.NonNull?
    ensures WellFormed(NonNull(t))
    ensures Markers(t) == "*" + Markers(NonNull(t))
  {
    match t
    case Named(_, _) =>
    case List(x) =>
      assert "*[]" + Markers(x) == "*" + ("[]" + Markers(x));
  }

  /**
   * `getTypeName`: a cursor `tp` walks the wrapper chain; the NON_NULL check is
   * redone after every LIST layer (the `goto check` of the source).
   */
  method TypeName(t: GqlType) returns (typ: string)
    requires WellFormed(t)
    ensures typ == GoType(t)
  {
    var tp := t;
    typ := "";
    while true  // check:
      invariant WellFormed(tp) && BaseName(tp) == BaseName(t)
      invariant typ + Markers(tp) == Markers(t)
      decreases tp
    {
      if tp.NonNull? {
        tp := tp.ofType;
      } else {
        NullableLayer(tp);
        Associative(typ, "*", Markers(NonNull(tp)));
        typ := typ + "*";
      }
      // the nullability of the current layer is settled
      if !tp.List? {
        break;
      }
      Associative(typ, "[]", Markers(tp.ofType));
      tp := tp.ofType;
      typ := typ + "[]";
      // goto check
    }
    assert typ == Markers(t);
    var name := tp.name;
    GoTypeSplit(t);
    if name in InternalTypeConfig {
      return typ + InternalTypeConfig[name].goType;
    }
    Associative(typ, name, "Resolver");
    typ := typ + name + "Resolver";
  }

  lemma Associative(a: string, b: string, c: string)
    ensures (a + b) + c == a + (b + c)
  {
  }

  /** `getPointer`: prefixes "*" exactly when the field's type is not NON_NULL. */
  function GetPointer(typeName: string, f: Field): (r: string)
    ensures r == typeName || r == "*" + typeName
    ensures r == typeName <==> KindName(f.typ) == "NON_NULL"
  {
    if KindName(f.typ) == "NON_NULL" then typeName else "*" + typeName
  }

  /** The type reference with its outermost layer made non-null. */
  function Required(t: GqlType): GqlType {
    if t.NonNull? then t else NonNull(t)
  }

  /**
   * `getPointer` adds the same outer pointer marker that `getTypeName` emits:
   * the Go type of a field is `getPointer` applied to the Go type of its
   * required form.
   */
  lemma PointerAgreesWithTypeName(f: Field)
    requires WellFormed(f.typ)
    ensures WellFormed(Required(f.typ))
    ensures GoType(f.typ) == GetPointer(GoType(Required(f.typ)), f)
  {
    match f.typ
    case Named(_, _) =>
    case List(_) =>
    case NonNull(_) =>
  }

  /** Number of occurrences of `c` in `s`. */
  function Count(s: string, c: char): nat {
    if s == [] then 0 else (if s[0] == c then 1 else 0) + Count(s[1..], c)
  }

  lemma {:induction false} CountConcat(a: string, b: string, c: char)
    ensures Count(a + b, c) == Count(a, c) + Count(b, c)
  {
    if a == [] {
      assert a + b == b;
    } else {
      assert (a + b)[1..] == a[1..] + b;
      CountConcat(a[1..], b, c);
    }
  }

  /** A string that holds none of the markers `*`, `[` and `]`. */
  predicate MarkerFree(s: string) {
    forall i :: 0 <= i < |s| ==> s[i] != '*' && s[i] != '[' && s[i] != ']'
  }

  lemma {:induction false} CountMarkerFree(s: string, c: char)
    requires MarkerFree(s) && (c == '*' || c == '[' || c == ']')
    ensures Count(s, c) == 0
  {
    if s != [] {
      CountMarkerFree(s[1..], c);
    }
  }

  /** The base of a valid GraphQL name holds no marker. */
  lemma BaseMarkerFree(n: string)
    requires ValidName(n)
    ensures MarkerFree(Base(n))
  {
    if n in InternalTypeConfig {
      var g := InternalTypeConfig[n].goType;
      assert g == "" || g == "bool" || g == "float64" || g == "int32" || g == "graphql.ID" || g == "string";
      forall i | 0 <= i < |g| ensures g[i] != '*' && g[i] != '[' && g[i] != ']' {
        assert 'a' <= g[i] <= 'z' || g[i] == 'I' || g[i] == 'D' || g[i] == '.' || '0' <= g[i] <= '9';
      }
    } else {
      var b := n + "Resolver";
      forall i | 0 <= i < |b| ensures b[i] != '*' && b[i] != '[' && b[i] != ']' {
        if i < |n| {
          assert b[i] == n[i] && IsNameChar(n[i]);
        }
      }
    }
  }

  /**
   * The Go type holds one `[]` per LIST layer and one `*` per layer that is not
   * directly under a NON_NULL: a `*` for each of the LIST layers and the named
   * type, less one for each NON_NULL layer.
   */
  lemma {:induction false} MarkerCounts(t: GqlType)
    requires WellFormed(t) && ValidName(BaseName(t))
    ensures Count(GoType(t), '[') == ListDepth(t)
    ensures Count(GoType(t), ']') == ListDepth(t)
    ensures Count(GoType(t), '*') + NonNullCount(t) == ListDepth(t) + 1
  {
    match t
    case Named(n, _) =>
      BaseMarkerCounts(n);
      CountConcat("*", Base(n), '[');
      CountConcat("*", Base(n), ']');
      CountConcat("*", Base(n), '*');
    case List(x) =>
      MarkerCounts(x);
      CountConcat("*[]", GoType(x), '[');
      CountConcat("*[]", GoType(x), ']');
      CountConcat("*[]", GoType(x), '*');
    case NonNull(Named(n, _)) =>
      assert BaseName(t) == n;
      BaseMarkerCounts(n);
    case NonNull(List(x)) =>
      assert WellFormed(List(x)) && BaseName(t) == BaseName(x);
      MarkerCounts(x);
      CountConcat("[]", GoType(x), '[');
      CountConcat("[]", GoType(x), ']');
      CountConcat("[]", GoType(x), '*');
  }

  lemma BaseMarkerCounts(n: string)
    requires ValidName(n)
    ensures Count(Base(n), '[') == 0 && Count(Base(n), ']') == 0 && Count(Base(n), '*') == 0
  {
    BaseMarkerFree(n);
    CountMarkerFree(Base(n), '[');
    CountMarkerFree(Base(n), ']');
    CountMarkerFree(Base(n), '*');
  }

  /** How the Go type starts tells which of the four shapes the outer layers have. */
  lemma GoTypeHead(t: GqlType)
    requires WellFormed(t) && ValidName(BaseName(t))
    ensures var g := GoType(t);
      match t
      case Named(_, _) => |g| >= 1 && g[0] == '*' && (|g| == 1 || g[1] != '[')
      case List(_) => |g| >= 2 && g[0] == '*' && g[1] == '['
      case NonNull(Named(_, _)) => g == [] || (g[0] != '*' && g[0] != '[')
      case NonNull(List(_)) => |g| >= 1 && g[0] == '['
  {
    BaseMarkerFree(BaseName(t));
    match t
    case Named(_, _) =>
    case List(_) =>
    case NonNull(Named(n, _)) =>
      assert BaseName(t) == n;
    case NonNull(List(_)) =>
  }

  /**
   * The Go type determines the wrapper chain: two type references with the same
   * Go type carry the same modifiers in the same order and bases with the same
   * Go type. In particular `[String!]`, `[String!]!`, `[String]!` and `[String]`
   * can never be confused.
   */
  lemma {:induction false} GoTypeDeterminesModifiers(t1: GqlType, t2: GqlType)
    requires WellFormed(t1) && ValidName(BaseName(t1))
    requires WellFormed(t2) && ValidName(BaseName(t2))
    requires GoType(t1) == GoType(t2)
    ensures Modifiers(t1) == Modifiers(t2)
    ensures Base(BaseName(t1)) == Base(BaseName(t2))
  {
    var g1, g2 := GoType(t1), GoType(t2);
    GoTypeHead(t1);
    GoTypeHead(t2);
    match t1
    case Named(n1, _) =>
      assert t2.Named?;
      assert Base(n1) == g1[1..] == g2[1..] == Base(t2.name);
    case List(x1) =>
      assert t2.List?;
      var x2 := t2.ofType;
      assert GoType(x1) == g1[3..] == g2[3..] == GoType(x2);
      GoTypeDeterminesModifiers(x1, x2);
    case NonNull(Named(n1, _)) =>
      assert t2.NonNull? && t2.ofType.Named?;
      assert BaseName(t1) == n1 && BaseName(t2) == t2.ofType.name;
    case NonNull(List(x1)) =>
      assert t2.NonNull? && t2.ofType.List?;
      var x2 := t2.ofType.ofType;
      assert WellFormed(List(x1)) && BaseName(t1) == BaseName(x1);
      assert WellFormed(List(x2)) && BaseName(t2) == BaseName(x2);
      assert GoType(x1) == g1[2..] == g2[2..] == GoType(x2);
      GoTypeDeterminesModifiers(x1, x2);
  }

  /** Worked examples of the builder for named references. */
  lemma TypeNameFixtures()
    ensures GoType(NonNull(Named("String", Scalar))) == "string"
    ensures GoType(Named("String", Scalar)) == "*string"
    ensures GoType(NonNull(Named("ID", Scalar))) == "graphql.ID"
    ensures GoType(Named("Post", Object)) == "*PostResolver"
    ensures Base("SCALAR") == ""
  {
  }

  /** The Go types of the four list shapes of String: nullable or not, with nullable or non-null elements. */
  lemma ListTypeNameFixtures()
    ensures GoType(List(NonNull(Named("String", Scalar)))) == "*[]string"
    ensures GoType(NonNull(List(NonNull(Named("String", Scalar))))) == "[]string"
    ensures GoType(NonNull(List(Named("String", Scalar)))) == "[]*string"
    ensures GoType(List(Named("String", Scalar))) == "*[]*string"
  {
  }
}
