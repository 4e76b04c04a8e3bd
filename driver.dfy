/**
 * The generation driver (`Generate`): walks the schema's type catalogue,
 * skips introspection types and built-in scalars, renders every other type
 * (types of unsupported kinds get an empty entry) and collects the results
 * by file name. The first error aborts the whole run.
 */
module Driver {
  import opened Wrappers
  import opened Schema
  import opened TypeTable
  import opened Naming
  import opened Render

  /** `strings.HasPrefix`. */
  predicate HasPrefix(s: string, p: string) {
    |p| <= |s| && s[..|p|] == p
  }

  /** A type the driver skips: an introspection type (`__Schema`, ...) or a flagged built-in scalar. */
  predicate Skipped(name: string) {
    HasPrefix(name, "_") || Ignored(name)
  }

  /** The kinds the driver does not render (they still get an entry, with empty text). */
  predicate Unsupported(k: Kind) {
    k == Enum || k == InputObject || k == Union
  }

  /** The output file of a type: its lower-cased name followed by "_gen.go". */
  function FileName(name: string): (r: string)
    ensures |r| == |name| + 7
    ensures r[..|name|] == Lower(name) && r[|name|..] == "_gen.go"
  {
    Lower(name) + "_gen.go"
  }

  /** Two types share a file name exactly when their names agree up to case. */
  lemma FileNameInjective(a: string, b: string)
    ensures FileName(a) == FileName(b) <==> Lower(a) == Lower(b)
  {
    if FileName(a) == FileName(b) {
      assert Lower(a) == FileName(a)[..|a|] == FileName(b)[..|b|] == Lower(b);
    }
  }

  /** Every field type of every type in the catalogue is well formed. */
  predicate SchemaWellFormed(types: seq<Entity>) {
    forall i :: 0 <= i < |types| ==> AllWellFormed(types[i].fields)
  }

  /** What one pass of the driver's loop does with a type. */
  datatype Outcome = Skip | Emit(fileName: string, code: string) | Abort(error: Error)

  /** The driver's treatment of type `e`, whose rendering through the templates gives `rendered`. */
  function OutcomeOf(e: Entity, rendered: Result<string>): Outcome {
    if Skipped(e.name) then Skip
    else if Unsupported(e.kind) then Emit(FileName(e.name), "")
    else
      match rendered
      case Failure(err) => Abort(err)
      case Success(code) => Emit(FileName(e.name), code)
  }

  /** The rendering of each type of the catalogue, in catalogue order. */
  function Renderings(env: Env, conf: Config, types: seq<Entity>): (rs: seq<Result<string>>)
    requires SchemaWellFormed(types)
    ensures |rs| == |types|
    ensures forall i :: 0 <= i < |types| ==> rs[i] == TypeSpec(env, conf, types[i])
  {
    seq(|types|, i requires 0 <= i < |types| => TypeSpec(env, conf, types[i]))
  }

  /** The driver's treatment of each type of the catalogue, in catalogue order. */
  function Outcomes(types: seq<Entity>, rs: seq<Result<string>>): (os: seq<Outcome>)
    requires |rs| == |types|
    ensures |os| == |types|
    ensures forall i :: 0 <= i < |types| ==> os[i] == OutcomeOf(types[i], rs[i])
  {
    seq(|types|, i requires 0 <= i < |types| => OutcomeOf(types[i], rs[i]))
  }

  /** The driver's loop from the results `acc` on; the first abort ends it with its error. */
  function Collect(acc: map<string, string>, os: seq<Outcome>): Result<map<string, string>>
    decreases |os|
  {
    if |os| == 0 then Success(acc)
    else
      match os[0]
      case Skip => Collect(acc, os[1..])
      case Emit(fileName, code) => Collect(acc[fileName := code], os[1..])
      case Abort(err) => Failure(err)
  }

  /** What `Generate` computes from the schema parser's result. */
  function GenerateSpec(env: Env, conf: Config, parsed: Result<seq<Entity>>): Result<map<string, string>>
    requires parsed.Success? ==> SchemaWellFormed(parsed.value)
  {
    match parsed
    case Failure(err) => Failure(err)
    case Success(types) => Collect(map[], Outcomes(types, Renderings(env, conf, types)))
  }

  /** `Generate`, given the result of parsing the schema. */
  method Generate(env: Env, conf: Config, parsed: Result<seq<Entity>>) returns (r: Result<map<string, string>>)
    requires parsed.Success? ==> SchemaWellFormed(parsed.value)
    ensures r == GenerateSpec(env, conf, parsed)
  {
    if parsed.Failure? {
      return Failure(parsed.error);
    }
    var types := parsed.value;
    var results: map<string, string> := map[];
    ghost var outcomes := Outcomes(types, Renderings(env, conf, types));
    for i := 0 to |types|
      invariant Collect(map[], outcomes) == Collect(results, outcomes[i..])
    {
      assert outcomes[i..][0] == outcomes[i] && outcomes[i..][1..] == outcomes[i + 1..];
      var qlType := types[i];
      var name := qlType.name;
      if HasPrefix(name, "_") {
        continue;
      }
      if Ignored(name) {
        continue;
      }
      var fileName := FileName(name);
      var code := "";
      if !Unsupported(qlType.kind) {
        var res := GenerateType(env, conf, qlType);
        if res.Failure? {
          return Failure(res.error);
        }
        code := res.value;
      }
      results := results[fileName := code];
    }
    return Success(results);
  }

  // ---------------------------------------------------------------------
  // The driver's loop, on outcomes

  /** Some outcome in `os` writes file `k`. */
  predicate EmittedTo(os: seq<Outcome>, k: string) {
    exists i :: 0 <= i < |os| && os[i].Emit? && os[i].fileName == k
  }

  /** A completed run holds exactly the files it started with plus those some type wrote. */
  lemma {:induction false} CollectKeys(acc: map<string, string>, os: seq<Outcome>, m: map<string, string>)
    requires Collect(acc, os) == Success(m)
    ensures forall k :: k in m <==> k in acc || EmittedTo(os, k)
    decreases |os|
  {
    if |os| > 0 {
      var next := if os[0].Emit? then acc[os[0].fileName := os[0].code] else acc;
      CollectKeys(next, os[1..], m);
      forall k | EmittedTo(os[1..], k)
        ensures EmittedTo(os, k)
      {
        var i :| 0 <= i < |os[1..]| && os[1..][i].Emit? && os[1..][i].fileName == k;
        assert os[i + 1] == os[1..][i];
      }
      forall k | EmittedTo(os, k)
        ensures k in next || EmittedTo(os[1..], k)
      {
        var i :| 0 <= i < |os| && os[i].Emit? && os[i].fileName == k;
        if i > 0 {
          assert os[1..][i - 1] == os[i];
        }
      }
    }
  }

  /** A file no outcome writes keeps the text it started with. */
  lemma {:induction false} CollectUntouched(acc: map<string, string>, os: seq<Outcome>, m: map<string, string>, k: string)
    requires Collect(acc, os) == Success(m)
    requires k in acc && !EmittedTo(os, k)
    ensures k in m && m[k] == acc[k]
    decreases |os|
  {
    if |os| > 0 {
      var next := if os[0].Emit? then acc[os[0].fileName := os[0].code] else acc;
      forall i | 0 <= i < |os[1..]|
        ensures !(os[1..][i].Emit? && os[1..][i].fileName == k)
      {
        assert os[1..][i] == os[i + 1];
      }
      CollectUntouched(next, os[1..], m, k);
    }
  }

  /** The last outcome that writes a file decides its text. */
  lemma {:induction false} CollectLastWins(acc: map<string, string>, os: seq<Outcome>, m: map<string, string>, i: nat)
    requires Collect(acc, os) == Success(m)
    requires i < |os| && os[i].Emit?
    requires forall j :: i < j < |os| && os[j].Emit? ==> os[j].fileName != os[i].fileName
    ensures os[i].fileName in m && m[os[i].fileName] == os[i].code
    decreases |os|
  {
    var next := if os[0].Emit? then acc[os[0].fileName := os[0].code] else acc;
    if i == 0 {
      forall j | 0 <= j < |os[1..]|
        ensures !(os[1..][j].Emit? && os[1..][j].fileName == os[0].fileName)
      {
        assert os[1..][j] == os[j + 1];
      }
      CollectUntouched(next, os[1..], m, os[0].fileName);
    } else {
      forall j | i - 1 < j < |os[1..]| && os[1..][j].Emit?
        ensures os[1..][j].fileName != os[1..][i - 1].fileName
      {
        assert os[1..][j] == os[j + 1];
      }
      CollectLastWins(next, os[1..], m, i - 1);
    }
  }

  /** The run fails exactly when some outcome aborts. */
  lemma {:induction false} CollectAborts(acc: map<string, string>, os: seq<Outcome>)
    ensures Collect(acc, os).Failure? <==> exists i :: 0 <= i < |os| && os[i].Abort?
    decreases |os|
  {
    if |os| > 0 {
      var next := if os[0].Emit? then acc[os[0].fileName := os[0].code] else acc;
      CollectAborts(next, os[1..]);
      if exists i :: 0 <= i < |os| && os[i].Abort? {
        var i :| 0 <= i < |os| && os[i].Abort?;
        if i > 0 {
          assert os[1..][i - 1] == os[i];
        }
      }
      if exists i :: 0 <= i < |os[1..]| && os[1..][i].Abort? {
        var i :| 0 <= i < |os[1..]| && os[1..][i].Abort?;
        assert os[i + 1] == os[1..][i];
      }
    }
  }

  /** A failed run reports the error of the first outcome that aborts. */
  lemma {:induction false} CollectFirstAbort(acc: map<string, string>, os: seq<Outcome>, i: nat)
    requires i < |os| && os[i].Abort?
    requires forall j :: 0 <= j < i ==> !os[j].Abort?
    ensures Collect(acc, os) == Failure(os[i].error)
    decreases |os|
  {
    if i > 0 {
      var next := if os[0].Emit? then acc[os[0].fileName := os[0].code] else acc;
      assert !os[0].Abort?;
      forall j | 0 <= j < i - 1
        ensures !os[1..][j].Abort?
      {
        assert os[1..][j] == os[j + 1];
      }
      CollectFirstAbort(next, os[1..], i - 1);
    }
  }

  // ---------------------------------------------------------------------
  // The driver, on the schema's types

  /** A type the driver renders through its templates. */
  predicate Rendered(e: Entity) {
    !Skipped(e.name) && !Unsupported(e.kind)
  }

  /** A parse failure is returned as the driver's own error. */
  lemma ParseFailurePropagates(env: Env, conf: Config, err: Error)
    ensures GenerateSpec(env, conf, Failure(err)) == Failure(err)
  {
  }

  /** Over any renderings: the files written are exactly those of the types not skipped. */
  lemma OutcomeKeys(types: seq<Entity>, rs: seq<Result<string>>, m: map<string, string>)
    requires |rs| == |types|
    requires Collect(map[], Outcomes(types, rs)) == Success(m)
    ensures forall k :: k in m <==> exists i :: 0 <= i < |types| && !Skipped(types[i].name) && FileName(types[i].name) == k
  {
    var os := Outcomes(types, rs);
    CollectAborts(map[], os);
    CollectKeys(map[], os, m);
    forall k | k in m
      ensures exists i :: 0 <= i < |types| && !Skipped(types[i].name) && FileName(types[i].name) == k
    {
      var i :| 0 <= i < |os| && os[i].Emit? && os[i].fileName == k;
      assert !Skipped(types[i].name) && FileName(types[i].name) == k;
    }
    forall k | exists i :: 0 <= i < |types| && !Skipped(types[i].name) && FileName(types[i].name) == k
      ensures k in m
    {
      var i :| 0 <= i < |types| && !Skipped(types[i].name) && FileName(types[i].name) == k;
      assert !os[i].Abort?;
      assert os[i].Emit? && os[i].fileName == k;
    }
  }

  /** The files of a successful run are exactly those of the types not skipped. */
  lemma GenerateKeys(env: Env, conf: Config, types: seq<Entity>, m: map<string, string>)
    requires SchemaWellFormed(types)
    requires GenerateSpec(env, conf, Success(types)) == Success(m)
    ensures forall k :: k in m <==> exists i :: 0 <= i < |types| && !Skipped(types[i].name) && FileName(types[i].name) == k
  {
    OutcomeKeys(types, Renderings(env, conf, types), m);
  }

  /** Lower-casing never produces '_' from anything else. */
  lemma LowerUnderscore(c: char)
    ensures LowerChar(c) == '_' <==> c == '_'
  {
  }

  /** No introspection type (`__Schema`, `__Type`, ...) is ever written. */
  lemma UnderscoreNeverWritten(env: Env, conf: Config, types: seq<Entity>, m: map<string, string>, i: nat)
    requires SchemaWellFormed(types)
    requires GenerateSpec(env, conf, Success(types)) == Success(m)
    requires i < |types| && HasPrefix(types[i].name, "_")
    ensures FileName(types[i].name) !in m
  {
    GenerateKeys(env, conf, types, m);
    var a := types[i].name;
    forall j | 0 <= j < |types| && !Skipped(types[j].name)
      ensures FileName(types[j].name) != FileName(a)
    {
      var b := types[j].name;
      FileNameInjective(a, b);
      LowerUnderscore(a[0]);
      if |b| > 0 {
        assert b[..1] == [b[0]];
        LowerUnderscore(b[0]);
        assert Lower(b)[0] != Lower(a)[0];
      }
    }
  }

  /** A built-in scalar is never written, unless a rendered type has the same name up to case. */
  lemma IgnoredNeverWritten(env: Env, conf: Config, types: seq<Entity>, m: map<string, string>, i: nat)
    requires SchemaWellFormed(types)
    requires GenerateSpec(env, conf, Success(types)) == Success(m)
    requires i < |types| && Ignored(types[i].name)
    requires forall j :: 0 <= j < |types| && !Skipped(types[j].name) ==> Lower(types[j].name) != Lower(types[i].name)
    ensures FileName(types[i].name) !in m
  {
    GenerateKeys(env, conf, types, m);
    forall j | 0 <= j < |types| && !Skipped(types[j].name)
      ensures FileName(types[j].name) != FileName(types[i].name)
    {
      FileNameInjective(types[i].name, types[j].name);
    }
  }

  /** Over any renderings: a file holds what the last type writing it produced. */
  lemma OutcomeValues(types: seq<Entity>, rs: seq<Result<string>>, m: map<string, string>, i: nat)
    requires |rs| == |types|
    requires Collect(map[], Outcomes(types, rs)) == Success(m)
    requires i < |types| && !Skipped(types[i].name)
    requires forall j :: i < j < |types| && !Skipped(types[j].name) ==> FileName(types[j].name) != FileName(types[i].name)
    ensures FileName(types[i].name) in m
    ensures Unsupported(types[i].kind) ==> m[FileName(types[i].name)] == ""
    ensures !Unsupported(types[i].kind) ==> rs[i] == Success(m[FileName(types[i].name)])
  {
    var os := Outcomes(types, rs);
    CollectAborts(map[], os);
    assert !os[i].Abort?;
    forall j | i < j < |os| && os[j].Emit?
      ensures os[j].fileName != os[i].fileName
    {
      assert !Skipped(types[j].name);
    }
    CollectLastWins(map[], os, m, i);
  }

  /**
   * The text of a file is that of the last type writing it: empty for an
   * enum, input object or union, the rendered code for any other kind.
   */
  lemma GenerateValues(env: Env, conf: Config, types: seq<Entity>, m: map<string, string>, i: nat)
    requires SchemaWellFormed(types)
    requires GenerateSpec(env, conf, Success(types)) == Success(m)
    requires i < |types| && !Skipped(types[i].name)
    requires forall j :: i < j < |types| && !Skipped(types[j].name) ==> FileName(types[j].name) != FileName(types[i].name)
    ensures FileName(types[i].name) in m
    ensures Unsupported(types[i].kind) ==> m[FileName(types[i].name)] == ""
    ensures !Unsupported(types[i].kind) ==> TypeSpec(env, conf, types[i]) == Success(m[FileName(types[i].name)])
  {
    OutcomeValues(types, Renderings(env, conf, types), m, i);
  }

  /** Over any renderings: the run fails exactly when some rendered type fails. */
  lemma OutcomeFails(types: seq<Entity>, rs: seq<Result<string>>)
    requires |rs| == |types|
    ensures Collect(map[], Outcomes(types, rs)).Failure? <==>
            exists i :: 0 <= i < |types| && Rendered(types[i]) && rs[i].Failure?
  {
    var os := Outcomes(types, rs);
    CollectAborts(map[], os);
    if exists i :: 0 <= i < |os| && os[i].Abort? {
      var i :| 0 <= i < |os| && os[i].Abort?;
      assert Rendered(types[i]) && rs[i].Failure?;
    }
    if exists i :: 0 <= i < |types| && Rendered(types[i]) && rs[i].Failure? {
      var i :| 0 <= i < |types| && Rendered(types[i]) && rs[i].Failure?;
      assert os[i].Abort?;
    }
  }

  /** The run fails exactly when rendering some type fails. */
  lemma GenerateFails(env: Env, conf: Config, types: seq<Entity>)
    requires SchemaWellFormed(types)
    ensures GenerateSpec(env, conf, Success(types)).Failure? <==>
            exists i :: 0 <= i < |types| && Rendered(types[i]) && TypeSpec(env, conf, types[i]).Failure?
  {
    var rs := Renderings(env, conf, types);
    OutcomeFails(types, rs);
    if exists i :: 0 <= i < |types| && Rendered(types[i]) && rs[i].Failure? {
      var i :| 0 <= i < |types| && Rendered(types[i]) && rs[i].Failure?;
      assert TypeSpec(env, conf, types[i]).Failure?;
    }
  }

  /** A failed run stops at the first type whose rendering fails and reports its error. */
  lemma GenerateFirstError(env: Env, conf: Config, types: seq<Entity>, i: nat)
    requires SchemaWellFormed(types)
    requires i < |types| && Rendered(types[i]) && TypeSpec(env, conf, types[i]).Failure?
    requires forall j :: 0 <= j < i && Rendered(types[j]) ==> TypeSpec(env, conf, types[j]).Success?
    ensures GenerateSpec(env, conf, Success(types)) == Failure(TypeSpec(env, conf, types[i]).error)
  {
    var os := Outcomes(types, Renderings(env, conf, types));
    forall j | 0 <= j < i
      ensures !os[j].Abort?
    {
      if Rendered(types[j]) {
        assert TypeSpec(env, conf, types[j]).Success?;
      }
    }
    CollectFirstAbort(map[], os, i);
  }

  /**
   * A rendered type configured with a variant the template store does not
   * know aborts the whole run: no files are returned at all.
   */
  lemma UnknownVariantAborts(env: Env, conf: Config, types: seq<Entity>, i: nat, k: nat)
    requires SchemaWellFormed(types)
    requires i < |types| && Rendered(types[i])
    requires k < |NormalizedTypeConf(conf, types[i].name).templates|
    requires env.typeTemplate(NormalizedTypeConf(conf, types[i].name).templates[k].name).Failure?
    ensures GenerateSpec(env, conf, Success(types)).Failure?
  {
    UnknownTypeTemplate(env, conf, types[i], k);
    GenerateFails(env, conf, types);
    assert Rendered(types[i]) && TypeSpec(env, conf, types[i]).Failure?;
  }

  /**
   * A schema with an introspection type, a built-in scalar and an enum
   * `Status` yields one empty file, "status_gen.go", whatever the templates.
   */
  lemma EnumOnlyFixture(env: Env, conf: Config)
    ensures GenerateSpec(env, conf, Success([
              Entity("__Schema", Object, None, [], None),
              Entity("String", Scalar, None, [], None),
              Entity("Status", Enum, None, [], None)]))
            == Success(map["status_gen.go" := ""])
  {
    var types := [
      Entity("__Schema", Object, None, [], None),
      Entity("String", Scalar, None, [], None),
      Entity("Status", Enum, None, [], None)];
    assert HasPrefix(types[0].name, "_");
    assert Ignored(types[1].name);
    IgnoredNames("Status");
    assert "Status"[..1] == "S";
    assert FileName("Status") == "status_gen.go";
    var os := Outcomes(types, Renderings(env, conf, types));
    assert os == [Skip, Skip, Emit("status_gen.go", "")];
    calc {
      Collect(map[], os);
      Collect(map[], [Skip, Emit("status_gen.go", "")]);
      Collect(map[], [Emit("status_gen.go", "")]);
      Collect(map["status_gen.go" := ""], []);
    }
  }
}
