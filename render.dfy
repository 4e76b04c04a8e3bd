/**
 * The field and type renderers (`generateField`, `generateType`): for every
 * configured template variant, look the template up, parse it and execute it
 * with a context built from the schema; collect the fields' code, methods and
 * import lines; hand the concatenated text to the formatter.
 *
 * The template store, Go's `text/template` and the source formatter are not
 * part of this model: they are the function-valued fields of `Env`, and every
 * property below holds whatever they do.
 */
module Render {
  import opened Wrappers
  import opened Schema
  import opened Naming
  import opened TypeExpr
  import opened Imports

  /** The parameter bag of a template variant; its values are opaque to the generator. */
  type Params = map<string, string>

  /** A configured template variant: its name and its parameter bag. */
  datatype Variant = Variant(name: string, params: Params)

  /**
   * The per-field and per-type configuration. The variants are listed in the
   * order in which Go's map iteration happens to visit them; no particular
   * order is assumed anywhere.
   */
  datatype FieldConf = FieldConf(templates: seq<Variant>)
  datatype TypeConf = TypeConf(templates: seq<Variant>, fields: map<string, FieldConf>)
  datatype Config = Config(types: map<string, TypeConf>)

  /** `conf.Type[name]`: a missing entry reads as the empty configuration. */
  function TypeConfOf(conf: Config, name: string): TypeConf {
    if name in conf.types then conf.types[name] else TypeConf([], map[])
  }

  /** `typeConf.Field[name]`: a missing entry reads as the empty configuration. */
  function FieldConfOf(tc: TypeConf, name: string): FieldConf {
    if name in tc.fields then tc.fields[name] else FieldConf([])
  }

  const DefaultVariant: Variant := Variant("default", map[])

  /** An empty variant list is replaced by the single variant "default" with no parameters. */
  function WithDefault(vs: seq<Variant>): (r: seq<Variant>)
    ensures |r| > 0
    ensures |vs| == 0 ==> r == [DefaultVariant]
    ensures |vs| > 0 ==> r == vs
  {
    if |vs| == 0 then [DefaultVariant] else vs
  }

  /** The type configuration of an entity after `generateType` has filled in the default variant. */
  function NormalizedTypeConf(conf: Config, name: string): (tc: TypeConf)
    ensures tc.fields == TypeConfOf(conf, name).fields
    ensures tc.templates == WithDefault(TypeConfOf(conf, name).templates)
    ensures |TypeConfOf(conf, name).templates| == 0 ==> tc.templates == [Variant("default", map[])]
    ensures |TypeConfOf(conf, name).templates| > 0 ==> tc.templates == TypeConfOf(conf, name).templates
  {
    var tc := TypeConfOf(conf, name);
    tc.(templates := WithDefault(tc.templates))
  }

  /** The two template bodies the template store holds for a field variant. */
  datatype PropertyTemplate = PropertyTemplate(fieldTemplate: string, methodTemplate: string)

  /** The data a template is executed with. */
  datatype Context =
    | TypeContext(kind: Kind, possibleTypes: seq<string>, typeName: string, typeDescription: string,
                  config: Config, fields: seq<string>, methods: seq<string>, imports: seq<string>)
    | FieldContext(typeKind: Kind, fieldName: string, fieldDescription: Option<string>,
                   fieldType: string, config: Config, templateConfig: Params)
    | MethodContext(typeKind: Kind, typeName: string, methodName: string, methodReturnType: string,
                    methodReturn: string, config: Config, templateConfig: Params)

  /**
   * The collaborators: the template store (`GetTypeTemplate`,
   * `GetPropertyTemplate`), template parsing (`Some` error for a malformed
   * template), template execution (whatever text it writes; its error is
   * dropped by the generator) and the formatter (`FormatCode`).
   */
  datatype Env = Env(
    typeTemplate: string -> Result<string>,
    propertyTemplate: string -> Result<PropertyTemplate>,
    parse: (string, string) -> Option<Error>,
    execute: (string, string, Context) -> string,
    format: string -> Result<string>)

  /** What `generateField` returns: field code, method code and import lines. */
  datatype FieldOutput = FieldOutput(fieldCode: string, methodCode: string, imports: seq<string>)

  function Append(a: FieldOutput, b: FieldOutput): FieldOutput {
    FieldOutput(a.fieldCode + b.fieldCode, a.methodCode + b.methodCode, a.imports + b.imports)
  }

  /** One pass of the variant loop of `generateField`. */
  function FieldVariant(env: Env, conf: Config, owner: Entity, f: Field, v: Variant): Result<FieldOutput>
    requires WellFormed(f.typ)
  {
    match env.propertyTemplate(v.name)
    case Failure(err) => Failure(err)
    case Success(pt) =>
      var fieldText := Trim(pt.fieldTemplate);
      match env.parse(v.name, fieldText)
      case Some(err) => Failure(err)
      case None =>
        var fieldType := GoType(f.typ);
        match env.parse(v.name, pt.methodTemplate)
        case Some(err) => Failure(err)
        case None =>
          var fieldCode := env.execute(v.name, fieldText,
            FieldContext(owner.kind, f.name, f.description, fieldType, conf, v.params));
          var methodCode := env.execute(v.name, pt.methodTemplate,
            MethodContext(owner.kind, owner.name, f.name, fieldType, f.name, conf, v.params));
          Success(FieldOutput(fieldCode, methodCode, ImportsOf(f.typ)))
  }

  /** The variant loop of `generateField` from accumulated output `acc` on; the first failure ends it. */
  function FieldVariantsFrom(env: Env, conf: Config, owner: Entity, f: Field, acc: FieldOutput, vs: seq<Variant>)
    : Result<FieldOutput>
    requires WellFormed(f.typ)
    decreases |vs|
  {
    if |vs| == 0 then Success(acc)
    else
      match FieldVariant(env, conf, owner, f, vs[0])
      case Failure(err) => Failure(err)
      case Success(o) => FieldVariantsFrom(env, conf, owner, f, Append(acc, o), vs[1..])
  }

  /** What `generateField` computes for field `f` of `owner`. */
  function FieldSpec(env: Env, conf: Config, owner: Entity, tc: TypeConf, f: Field): Result<FieldOutput>
    requires WellFormed(f.typ)
  {
    FieldVariantsFrom(env, conf, owner, f, FieldOutput("", "", []), WithDefault(FieldConfOf(tc, f.name).templates))
  }

  /** `generateField`. */
  method GenerateField(env: Env, conf: Config, owner: Entity, tc: TypeConf, f: Field)
    returns (r: Result<FieldOutput>)
    requires WellFormed(f.typ)
    ensures r == FieldSpec(env, conf, owner, tc, f)
  {
    var name := f.name;
    var typeName := owner.name;
    var templates := FieldConfOf(tc, name).templates;
    if |templates| == 0 {
      templates := [DefaultVariant];
    }
    var fieldCode, methodCode, imports := "", "", [];
    for i := 0 to |templates|
      invariant FieldSpec(env, conf, owner, tc, f)
             == FieldVariantsFrom(env, conf, owner, f, FieldOutput(fieldCode, methodCode, imports), templates[i..])
    {
      var v := templates[i];
      assert templates[i..][0] == v && templates[i..][1..] == templates[i + 1..];
      var propTemplate: PropertyTemplate;
      match env.propertyTemplate(v.name) {
        case Failure(err) => return Failure(err);
        case Success(pt) => propTemplate := pt;
      }
      var fieldText := Trim(propTemplate.fieldTemplate);
      var err := env.parse(v.name, fieldText);
      if err.Some? {
        return Failure(err.value);
      }
      var fieldTypeName := TypeName(f.typ);
      fieldCode := fieldCode + env.execute(v.name, fieldText,
        FieldContext(owner.kind, name, f.description, fieldTypeName, conf, v.params));
      err := env.parse(v.name, propTemplate.methodTemplate);
      if err.Some? {
        return Failure(err.value);
      }
      methodCode := methodCode + env.execute(v.name, propTemplate.methodTemplate,
        MethodContext(owner.kind, typeName, name, fieldTypeName, name, conf, v.params));
      imports := imports + ImportsOf(f.typ);
    }
    return Success(FieldOutput(fieldCode, methodCode, imports));
  }

  /** The per-field results `generateType` collects, in field order. */
  datatype FieldsAcc = FieldsAcc(fields: seq<string>, methods: seq<string>, imports: seq<string>)

  const NoFields: FieldsAcc := FieldsAcc([], [], [])

  predicate AllWellFormed(fs: seq<Field>) {
    forall i :: 0 <= i < |fs| ==> WellFormed(fs[i].typ)
  }

  /** What `generateField` returns for each field of `e`, in field order. */
  function FieldResults(env: Env, conf: Config, e: Entity, tc: TypeConf): (rs: seq<Result<FieldOutput>>)
    requires AllWellFormed(e.fields)
    ensures |rs| == |e.fields|
    ensures forall i :: 0 <= i < |rs| ==> rs[i] == FieldSpec(env, conf, e, tc, e.fields[i])
  {
    seq(|e.fields|, i requires 0 <= i < |e.fields| => FieldSpec(env, conf, e, tc, e.fields[i]))
  }

  function AddField(acc: FieldsAcc, o: FieldOutput): FieldsAcc {
    FieldsAcc(acc.fields + [o.fieldCode], acc.methods + [o.methodCode], acc.imports + o.imports)
  }

  /**
   * The field loop of `generateType` from accumulated results `acc` on, given
   * what `generateField` returns for the remaining fields; the first failure
   * ends it.
   */
  function CollectFields(acc: FieldsAcc, rs: seq<Result<FieldOutput>>): Result<FieldsAcc>
    decreases |rs|
  {
    if |rs| == 0 then Success(acc)
    else
      match rs[0]
      case Failure(err) => Failure(err)
      case Success(o) => CollectFields(AddField(acc, o), rs[1..])
  }

  /** The names of the possible types of an interface or union, or none. */
  function PossibleTypeNames(e: Entity): seq<string> {
    match e.possibleTypes
    case None => []
    case Some(names) => names
  }

  /** The context a type template is executed with. */
  function TypeContextOf(conf: Config, e: Entity, acc: FieldsAcc): Context {
    TypeContext(e.kind, PossibleTypeNames(e), e.name, ReturnString(e.description), conf,
                acc.fields, acc.methods, Dedup(acc.imports))
  }

  /** One pass of the variant loop of `generateType`. */
  function TypeVariant(env: Env, conf: Config, e: Entity, tc: TypeConf, v: Variant): Result<string>
    requires AllWellFormed(e.fields)
  {
    match env.typeTemplate(v.name)
    case Failure(err) => Failure(err)
    case Success(text) =>
      var typeText := Trim(text);
      match env.parse(v.name, typeText)
      case Some(err) => Failure(err)
      case None =>
        match CollectFields(NoFields, FieldResults(env, conf, e, tc))
        case Failure(err) => Failure(err)
        case Success(acc) => Success(env.execute(v.name, typeText, TypeContextOf(conf, e, acc)))
  }

  /** The variant loop of `generateType` from buffered text `buf` on; the first failure ends it. */
  function TypeVariantsFrom(env: Env, conf: Config, e: Entity, tc: TypeConf, buf: string, vs: seq<Variant>)
    : Result<string>
    requires AllWellFormed(e.fields)
    decreases |vs|
  {
    if |vs| == 0 then Success(buf)
    else
      match TypeVariant(env, conf, e, tc, vs[0])
      case Failure(err) => Failure(err)
      case Success(text) => TypeVariantsFrom(env, conf, e, tc, buf + text, vs[1..])
  }

  /** What `generateType` computes for entity `e`: the formatted text of all its variants. */
  function TypeSpec(env: Env, conf: Config, e: Entity): Result<string>
    requires AllWellFormed(e.fields)
  {
    var tc := NormalizedTypeConf(conf, e.name);
    match TypeVariantsFrom(env, conf, e, tc, "", tc.templates)
    case Failure(err) => Failure(err)
    case Success(buf) => env.format(buf)
  }

  /** `generateType`. */
  method GenerateType(env: Env, conf: Config, e: Entity) returns (r: Result<string>)
    requires AllWellFormed(e.fields)
    ensures r == TypeSpec(env, conf, e)
  {
    var name := e.name;
    var typeConf := TypeConfOf(conf, name);
    var buf := "";
    if |typeConf.templates| == 0 {
      typeConf := typeConf.(templates := [DefaultVariant]);
    }
    assert typeConf == NormalizedTypeConf(conf, name);
    var templates := typeConf.templates;
    for i := 0 to |templates|
      invariant TypeVariantsFrom(env, conf, e, typeConf, "", templates)
             == TypeVariantsFrom(env, conf, e, typeConf, buf, templates[i..])
    {
      var v := templates[i];
      assert templates[i..][0] == v && templates[i..][1..] == templates[i + 1..];
      var typeTemplate: string;
      match env.typeTemplate(v.name) {
        case Failure(err) => return Failure(err);
        case Success(text) => typeTemplate := text;
      }
      var typeText := Trim(typeTemplate);
      var err := env.parse(v.name, typeText);
      if err.Some? {
        return Failure(err.value);
      }
      var fields, methods, imports := [], [], [];
      ghost var results := FieldResults(env, conf, e, typeConf);
      for j := 0 to |e.fields|
        invariant CollectFields(NoFields, results) == CollectFields(FieldsAcc(fields, methods, imports), results[j..])
      {
        assert results[j..][0] == results[j] && results[j..][1..] == results[j + 1..];
        var fr := GenerateField(env, conf, e, typeConf, e.fields[j]);
        match fr {
          case Failure(err) => return Failure(err);
          case Success(o) =>
            fields := fields + [o.fieldCode];
            methods := methods + [o.methodCode];
            imports := imports + o.imports;
        }
      }
      var possibleTypes := PossibleTypeNames(e);
      var deduped := RemoveDuplicates(imports);
      buf := buf + env.execute(v.name, typeText,
        TypeContext(e.kind, possibleTypes, name, ReturnString(e.description), conf, fields, methods, deduped));
    }
    r := env.format(buf);
  }

  /**
   * A type with no configured variants is rendered with exactly one variant,
   * "default" with an empty parameter bag, and the result is that one
   * rendering, formatted.
   */
  lemma DefaultTypeVariantOnly(env: Env, conf: Config, e: Entity)
    requires AllWellFormed(e.fields)
    requires |TypeConfOf(conf, e.name).templates| == 0
    ensures NormalizedTypeConf(conf, e.name).templates == [Variant("default", map[])]
    ensures TypeSpec(env, conf, e)
         == match TypeVariant(env, conf, e, NormalizedTypeConf(conf, e.name), Variant("default", map[]))
            case Failure(err) => Failure(err)
            case Success(text) => env.format(text)
  {
    var tc := NormalizedTypeConf(conf, e.name);
    var one := TypeVariant(env, conf, e, tc, DefaultVariant);
    assert tc.templates == [DefaultVariant] && tc.templates[1..] == [];
    if one.Success? {
      assert "" + one.value == one.value;
      assert TypeVariantsFrom(env, conf, e, tc, "", tc.templates)
          == TypeVariantsFrom(env, conf, e, tc, one.value, []);
    }
  }

  /**
   * A field with no configured variants is rendered with exactly one variant,
   * "default" with an empty parameter bag.
   */
  lemma DefaultFieldVariantOnly(env: Env, conf: Config, owner: Entity, tc: TypeConf, f: Field)
    requires WellFormed(f.typ)
    requires |FieldConfOf(tc, f.name).templates| == 0
    ensures FieldSpec(env, conf, owner, tc, f) == FieldVariant(env, conf, owner, f, Variant("default", map[]))
  {
    var one := FieldVariant(env, conf, owner, f, DefaultVariant);
    var vs := WithDefault(FieldConfOf(tc, f.name).templates);
    assert vs == [DefaultVariant] && vs[1..] == [];
    if one.Success? {
      var o := one.value;
      assert "" + o.fieldCode == o.fieldCode && "" + o.methodCode == o.methodCode && [] + o.imports == o.imports;
      assert Append(FieldOutput("", "", []), o) == o;
      assert FieldVariantsFrom(env, conf, owner, f, FieldOutput("", "", []), vs)
          == FieldVariantsFrom(env, conf, owner, f, o, []);
    }
  }

  /** A variant naming no known template makes the variant loop fail, wherever that variant sits. */
  lemma {:induction false} VariantsFailOnUnknown(env: Env, conf: Config, e: Entity, tc: TypeConf, buf: string,
                                                 vs: seq<Variant>, k: nat)
    requires AllWellFormed(e.fields)
    requires k < |vs| && env.typeTemplate(vs[k].name).Failure?
    ensures TypeVariantsFrom(env, conf, e, tc, buf, vs).Failure?
    decreases |vs|
  {
    if k > 0 {
      match TypeVariant(env, conf, e, tc, vs[0]) {
        case Failure(_) =>
        case Success(text) =>
          assert vs[1..][k - 1] == vs[k];
          VariantsFailOnUnknown(env, conf, e, tc, buf + text, vs[1..], k - 1);
      }
    }
  }

  /**
   * A type configured with a variant the template store does not know cannot
   * be rendered; when that variant comes first, the error is the store's.
   */
  lemma UnknownTypeTemplate(env: Env, conf: Config, e: Entity, k: nat)
    requires AllWellFormed(e.fields)
    requires k < |NormalizedTypeConf(conf, e.name).templates|
    requires env.typeTemplate(NormalizedTypeConf(conf, e.name).templates[k].name).Failure?
    ensures TypeSpec(env, conf, e).Failure?
    ensures k == 0 ==> TypeSpec(env, conf, e) == env.typeTemplate(NormalizedTypeConf(conf, e.name).templates[0].name)
  {
    var tc := NormalizedTypeConf(conf, e.name);
    VariantsFailOnUnknown(env, conf, e, tc, "", tc.templates, k);
  }

  /** Every variant of a field contributes the import lines of the field's type, and nothing else. */
  lemma {:induction false} FieldVariantsImports(env: Env, conf: Config, owner: Entity, f: Field,
                                                acc: FieldOutput, vs: seq<Variant>, out: FieldOutput)
    requires WellFormed(f.typ)
    requires FieldVariantsFrom(env, conf, owner, f, acc, vs) == Success(out)
    ensures forall x :: x in out.imports <==> x in acc.imports || (|vs| > 0 && x in ImportsOf(f.typ))
    decreases |vs|
  {
    if |vs| > 0 {
      var one := FieldVariant(env, conf, owner, f, vs[0]);
      assert one.Success? && one.value.imports == ImportsOf(f.typ);
      FieldVariantsImports(env, conf, owner, f, Append(acc, one.value), vs[1..], out);
    }
  }

  /** The import lines `generateField` returns are exactly those of the field's type. */
  lemma FieldImports(env: Env, conf: Config, owner: Entity, tc: TypeConf, f: Field, out: FieldOutput)
    requires WellFormed(f.typ)
    requires FieldSpec(env, conf, owner, tc, f) == Success(out)
    ensures forall x :: x in out.imports <==> x in ImportsOf(f.typ)
  {
    FieldVariantsImports(env, conf, owner, f, FieldOutput("", "", []),
                         WithDefault(FieldConfOf(tc, f.name).templates), out);
  }

  /**
   * The field loop of `generateType` keeps field order: the i-th code and
   * method fragments are those of the i-th field, and every field succeeded.
   */
  lemma {:induction false} CollectFieldsOrder(acc: FieldsAcc, rs: seq<Result<FieldOutput>>, out: FieldsAcc)
    requires CollectFields(acc, rs) == Success(out)
    ensures |out.fields| == |acc.fields| + |rs| && out.fields[..|acc.fields|] == acc.fields
    ensures |out.methods| == |acc.methods| + |rs| && out.methods[..|acc.methods|] == acc.methods
    ensures forall i :: 0 <= i < |rs| ==>
              && rs[i].Success?
              && out.fields[|acc.fields| + i] == rs[i].value.fieldCode
              && out.methods[|acc.methods| + i] == rs[i].value.methodCode
    decreases |rs|
  {
    if |rs| > 0 {
      var acc' := AddField(acc, rs[0].value);
      CollectFieldsOrder(acc', rs[1..], out);
      assert out.fields[..|acc.fields|] == acc'.fields[..|acc.fields|];
      assert out.methods[..|acc.methods|] == acc'.methods[..|acc.methods|];
      assert out.fields[|acc.fields|] == out.fields[..|acc'.fields|][|acc.fields|];
      assert out.methods[|acc.methods|] == out.methods[..|acc'.methods|][|acc.methods|];
      forall i | 1 <= i < |rs|
        ensures rs[i] == rs[1..][i - 1]
      {
      }
    }
  }

  /** Some result of `rs` is a success whose import lines include `x`. */
  predicate ImportedBy(x: string, rs: seq<Result<FieldOutput>>) {
    exists i :: 0 <= i < |rs| && rs[i].Success? && x in rs[i].value.imports
  }

  /** The field loop of `generateType` collects the fields' import lines and nothing else. */
  lemma {:induction false} CollectFieldsImports(acc: FieldsAcc, rs: seq<Result<FieldOutput>>, out: FieldsAcc)
    requires CollectFields(acc, rs) == Success(out)
    ensures forall x :: x in out.imports <==> x in acc.imports || ImportedBy(x, rs)
    decreases |rs|
  {
    if |rs| > 0 {
      var o := rs[0].value;
      var rest := rs[1..];
      CollectFieldsImports(AddField(acc, o), rest, out);
      forall x
        ensures x in out.imports <==> x in acc.imports || ImportedBy(x, rs)
      {
        if x in out.imports && x !in acc.imports && x !in o.imports {
          var j :| 0 <= j < |rest| && rest[j].Success? && x in rest[j].value.imports;
          assert rs[j + 1] == rest[j];
        }
        if ImportedBy(x, rs) {
          var i :| 0 <= i < |rs| && rs[i].Success? && x in rs[i].value.imports;
          if i > 0 {
            assert rest[i - 1] == rs[i];
          }
        }
      }
    }
  }

  /** Some field of `fs` has a type that needs import line `x`. */
  predicate NeededBy(x: string, fs: seq<Field>) {
    exists i :: 0 <= i < |fs| && x in ImportsOf(fs[i].typ)
  }

  /**
   * The context of a type template lists the fields' code and methods in
   * field order, and the import lines of the fields' types each exactly once:
   * an import shared by many fields appears a single time.
   */
  lemma TypeContextLists(env: Env, conf: Config, e: Entity, tc: TypeConf, acc: FieldsAcc)
    requires AllWellFormed(e.fields)
    requires CollectFields(NoFields, FieldResults(env, conf, e, tc)) == Success(acc)
    ensures TypeContextOf(conf, e, acc).TypeContext?
    ensures |TypeContextOf(conf, e, acc).fields| == |e.fields|
    ensures |TypeContextOf(conf, e, acc).methods| == |e.fields|
    ensures forall i :: 0 <= i < |e.fields| ==>
              && FieldSpec(env, conf, e, tc, e.fields[i]).Success?
              && TypeContextOf(conf, e, acc).fields[i] == FieldSpec(env, conf, e, tc, e.fields[i]).value.fieldCode
              && TypeContextOf(conf, e, acc).methods[i] == FieldSpec(env, conf, e, tc, e.fields[i]).value.methodCode
    ensures NoDup(TypeContextOf(conf, e, acc).imports)
    ensures forall x :: x in TypeContextOf(conf, e, acc).imports <==> NeededBy(x, e.fields)
  {
    var rs := FieldResults(env, conf, e, tc);
    CollectFieldsOrder(NoFields, rs, acc);
    CollectFieldsImports(NoFields, rs, acc);
    forall x
      ensures ImportedBy(x, rs) <==> NeededBy(x, e.fields)
    {
      if ImportedBy(x, rs) {
        var i :| 0 <= i < |rs| && rs[i].Success? && x in rs[i].value.imports;
        FieldImports(env, conf, e, tc, e.fields[i], rs[i].value);
      }
      if NeededBy(x, e.fields) {
        var i :| 0 <= i < |e.fields| && x in ImportsOf(e.fields[i].typ);
        FieldImports(env, conf, e, tc, e.fields[i], rs[i].value);
      }
    }
  }
}
