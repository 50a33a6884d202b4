/** Translating the patterns of a whole tool parameter schema. */
module ToolSchemas {
  import opened Common
  import opened CategoryRanges
  import opened SchemaPatterns
  import opened ReplayRecords

  const SCHEMA_MAP_KEYS := {"$defs", "definitions", "properties", "patternProperties", "dependentSchemas", "dependencies"}
  const SCHEMA_KEYS := {
    "additionalProperties", "additionalItems", "unevaluatedProperties", "unevaluatedItems", "items", "contains",
    "propertyNames", "if", "then", "else", "not", "contentSchema", "allOf", "anyOf", "oneOf", "prefixItems"
  }

  /** Translates patterns at schema positions; instance data passes through. */
  function TranslateSchema(schema: Json, texts: map<string, string>, compiles: Engine): Json
    requires texts.Keys == CATEGORIES
    decreases schema, 0
  {
    match schema
    case Arr(items) => Arr(seq(|items|, i requires 0 <= i < |items| => TranslateSchema(items[i], texts, compiles)))
    case Obj(fields) => Obj(map key | key in fields :: TranslateMember(key, fields[key], texts, compiles))
    case _ => schema
  }

  function TranslateMember(key: string, value: Json, texts: map<string, string>, compiles: Engine): Json
    requires texts.Keys == CATEGORIES
    decreases value, 1
  {
    if key == "pattern" && value.Str? then Str(Translated(value.s, texts, compiles))
    else if key in SCHEMA_MAP_KEYS && value.Obj? then
      Obj(map name | name in value.fields :: TranslateSchema(value.fields[name], texts, compiles))
    else if key in SCHEMA_KEYS then TranslateSchema(value, texts, compiles)
    else value
  }

  /** A value with the texts of its `pattern` members blanked. */
  function Outline(j: Json): Json
    decreases j, 0
  {
    match j
    case Arr(items) => Arr(seq(|items|, i requires 0 <= i < |items| => Outline(items[i])))
    case Obj(fields) => Obj(map key | key in fields :: OutlineMember(key, fields[key]))
    case _ => j
  }

  function OutlineMember(key: string, value: Json): Json
    decreases value, 1
  {
    if key == "pattern" && value.Str? then Str("") else Outline(value)
  }

  /** Only `pattern` texts change: every other member, text, number and order stays. */
  lemma {:induction false} SchemaKeepsItsOutline(schema: Json, texts: map<string, string>, compiles: Engine)
    requires texts.Keys == CATEGORIES
    ensures Outline(TranslateSchema(schema, texts, compiles)) == Outline(schema)
    decreases schema, 0
  {
    hide TranslateMember, OutlineMember;
    var r := TranslateSchema(schema, texts, compiles);
    match schema {
      case Arr(items) =>
        forall i | 0 <= i < |items| ensures Outline(r.items[i]) == Outline(items[i]) {
          SchemaKeepsItsOutline(items[i], texts, compiles);
        }
      case Obj(fields) =>
        forall key | key in fields ensures OutlineMember(key, r.fields[key]) == OutlineMember(key, fields[key]) {
          MemberKeepsItsOutline(key, fields[key], texts, compiles);
        }
        assert Outline(r).fields == Outline(schema).fields;
      case _ =>
    }
  }

  lemma {:induction false} MemberKeepsItsOutline(key: string, value: Json, texts: map<string, string>, compiles: Engine)
    requires texts.Keys == CATEGORIES
    ensures OutlineMember(key, TranslateMember(key, value, texts, compiles)) == OutlineMember(key, value)
    decreases value, 1
  {
    hide Translated, TranslateSchema;
    if key in SCHEMA_MAP_KEYS && value.Obj? {
      assert key != "pattern";
      var r := TranslateMember(key, value, texts, compiles);
      forall name | name in value.fields ensures OutlineMember(name, r.fields[name]) == OutlineMember(name, value.fields[name]) {
        SchemaKeepsItsOutline(value.fields[name], texts, compiles);
        TextsStayTexts(value.fields[name], texts, compiles);
      }
      assert Outline(r).fields == Outline(value).fields;
    } else if key in SCHEMA_KEYS {
      SchemaKeepsItsOutline(value, texts, compiles);
    }
  }

  lemma {:induction false} TextsStayTexts(schema: Json, texts: map<string, string>, compiles: Engine)
    requires texts.Keys == CATEGORIES
    ensures TranslateSchema(schema, texts, compiles).Str? <==> schema.Str?
  {
    hide TranslateMember;
  }

  /** Translating a translated schema changes nothing. */
  lemma {:induction false} SchemaTranslatesOnce(schema: Json, texts: map<string, string>, compiles: Engine)
    requires CleanTexts(texts)
    ensures var r := TranslateSchema(schema, texts, compiles); TranslateSchema(r, texts, compiles) == r
    decreases schema, 0
  {
    hide TranslateMember, Clean;
    var r := TranslateSchema(schema, texts, compiles);
    match schema {
      case Arr(items) =>
        forall i | 0 <= i < |items| ensures TranslateSchema(r.items[i], texts, compiles) == r.items[i] {
          SchemaTranslatesOnce(items[i], texts, compiles);
        }
      case Obj(fields) =>
        forall key | key in fields ensures TranslateMember(key, r.fields[key], texts, compiles) == r.fields[key] {
          MemberTranslatesOnce(key, fields[key], texts, compiles);
        }
        assert TranslateSchema(r, texts, compiles).fields == r.fields;
      case _ =>
    }
  }

  lemma {:induction false} MemberTranslatesOnce(key: string, value: Json, texts: map<string, string>, compiles: Engine)
    requires CleanTexts(texts)
    ensures var r := TranslateMember(key, value, texts, compiles); TranslateMember(key, r, texts, compiles) == r
    decreases value, 1
  {
    hide Translated, TranslateSchema, Clean;
    if key == "pattern" && value.Str? {
      TranslatingTwiceIsTranslatingOnce(value.s, texts, compiles);
    } else if key in SCHEMA_MAP_KEYS && value.Obj? {
      var r := TranslateMember(key, value, texts, compiles);
      forall name | name in value.fields ensures TranslateSchema(r.fields[name], texts, compiles) == r.fields[name] {
        SchemaTranslatesOnce(value.fields[name], texts, compiles);
      }
      assert TranslateMember(key, r, texts, compiles).fields == r.fields;
    } else if key in SCHEMA_KEYS {
      SchemaTranslatesOnce(value, texts, compiles);
      ObjectsStayObjects(value, texts, compiles);
    }
  }

  lemma {:induction false} ObjectsStayObjects(schema: Json, texts: map<string, string>, compiles: Engine)
    requires texts.Keys == CATEGORIES
    ensures TranslateSchema(schema, texts, compiles).Obj? <==> schema.Obj?
  {
    hide TranslateMember;
  }

  // ----- where patterns are translated -----

  datatype Step = Index(i: nat) | Key(name: string)

  /** What a value inside a schema is: a schema itself, a table of named schemas, the text of a pattern, or instance data. */
  datatype Role = Schema | Table | Pattern | Data

  function Inner(j: Json, step: Step): Option<Json> {
    if step.Index? && j.Arr? && step.i < |j.items| then Some(j.items[step.i])
    else if step.Key? && j.Obj? && step.name in j.fields then Some(j.fields[step.name])
    else None
  }

  /** The role of what a step leads to. */
  function RoleOf(role: Role, step: Step, inner: Json): Role {
    match role
    case Schema =>
      if step.Index? then Schema
      else if step.name == "pattern" && inner.Str? then Pattern
      else if step.name in SCHEMA_MAP_KEYS && inner.Obj? then Table
      else if step.name in SCHEMA_KEYS then Schema
      else Data
    case Table => Schema
    case _ => Data
  }

  /** The value at a path, and its role, or nothing where the path leads nowhere. */
  function Along(j: Json, role: Role, path: seq<Step>): Option<(Json, Role)> {
    if path == [] then Some((j, role))
    else
      var inner := Inner(j, path[0]);
      if inner.None? then None else Along(inner.value, RoleOf(role, path[0], inner.value), path[1..])
  }

  /** The translation of a value in its role. */
  function InRole(j: Json, role: Role, texts: map<string, string>, compiles: Engine): Json
    requires texts.Keys == CATEGORIES
  {
    match role
    case Schema => TranslateSchema(j, texts, compiles)
    case Table =>
      if j.Obj? then Obj(map name | name in j.fields :: TranslateSchema(j.fields[name], texts, compiles)) else j
    case Pattern => if j.Str? then Str(Translated(j.s, texts, compiles)) else j
    case Data => j
  }

  lemma {:induction false} MemberInRole(key: string, value: Json, texts: map<string, string>, compiles: Engine)
    requires texts.Keys == CATEGORIES
    ensures TranslateMember(key, value, texts, compiles) == InRole(value, RoleOf(Schema, Key(key), value), texts, compiles)
  {
    hide Translated;
    if key != "pattern" && key in SCHEMA_MAP_KEYS && value.Obj? {
      assert TranslateMember(key, value, texts, compiles).fields == InRole(value, Table, texts, compiles).fields;
    }
  }

  lemma {:induction false} InnerTranslates(j: Json, role: Role, step: Step, texts: map<string, string>, compiles: Engine)
    requires texts.Keys == CATEGORIES && (role.Table? ==> j.Obj?) && (role.Pattern? ==> j.Str?)
    ensures Inner(InRole(j, role, texts, compiles), step)
            == if Inner(j, step).None? then None
               else Some(InRole(Inner(j, step).value, RoleOf(role, step, Inner(j, step).value), texts, compiles))
  {
    if role.Schema? && j.Obj? && step.Key? && step.name in j.fields {
      MemberInRole(step.name, j.fields[step.name], texts, compiles);
    }
    hide Translated, TranslateMember;
  }

  /** Every path of a schema leads through its translation to the same place: a pattern in the position of a schema is
      translated, whatever lies above it, and instance data is as it was. */
  lemma {:induction false} PatternsAreTranslatedInPlace(j: Json, role: Role, path: seq<Step>, texts: map<string, string>, compiles: Engine)
    requires texts.Keys == CATEGORIES && (role.Table? ==> j.Obj?) && (role.Pattern? ==> j.Str?)
    ensures Along(InRole(j, role, texts, compiles), role, path)
            == if Along(j, role, path).None? then None
               else
                 var (value, at) := Along(j, role, path).value;
                 Some((InRole(value, at, texts, compiles), at))
    decreases |path|
  {
    hide InRole, Translated;
    if path != [] {
      InnerTranslates(j, role, path[0], texts, compiles);
      if Inner(j, path[0]).Some? {
        var inner := Inner(j, path[0]).value;
        RolesStay(inner, RoleOf(role, path[0], inner), role, path[0], texts, compiles);
        PatternsAreTranslatedInPlace(inner, RoleOf(role, path[0], inner), path[1..], texts, compiles);
      }
    }
  }

  lemma {:induction false} RolesStay(inner: Json, role: Role, above: Role, step: Step, texts: map<string, string>, compiles: Engine)
    requires texts.Keys == CATEGORIES && role == RoleOf(above, step, inner)
    ensures RoleOf(above, step, InRole(inner, role, texts, compiles)) == role
    ensures (role.Table? ==> inner.Obj?) && (role.Pattern? ==> inner.Str?)
  {
    hide Translated, TranslateMember;
  }

  /** A pattern text inside a schema, at any depth, becomes its translation; instance data stays. */
  lemma {:induction false} EveryPatternIsTranslated(schema: Json, path: seq<Step>, texts: map<string, string>, compiles: Engine)
    requires texts.Keys == CATEGORIES && Along(schema, Schema, path).Some?
    ensures var (value, role) := Along(schema, Schema, path).value;
            var after := Along(TranslateSchema(schema, texts, compiles), Schema, path);
            && after.Some? && after.value.1 == role
            && (role.Pattern? && value.Str? ==> after.value.0 == Str(Translated(value.s, texts, compiles)))
            && (role.Data? ==> after.value.0 == value)
  {
    hide TranslateSchema, Translated;
    PatternsAreTranslatedInPlace(schema, Schema, path, texts, compiles);
  }
}
