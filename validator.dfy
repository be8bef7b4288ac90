/**
 * The InputValidator of src/core/validation/validator.ts: a map from tool
 * name to compiled schema, filled once from the registry, that checks a
 * tool's arguments, strips the undeclared top-level members of the caller's
 * object in place, and turns the first violation into a ValidationError (or,
 * on request, into a protocol error).
 */
module Validator {
  import opened Wrappers
  import opened JsonValues
  import opened Text
  import opened Exceptions
  import opened Schemas
  import opened SchemaShapes
  import opened ToolRegistry
  import opened SchemaValidation

  // ---------------------------------------------------------------------
  // Reporting the first violation
  // ---------------------------------------------------------------------

  /**
   * The reason given for a violation. Each parameter falls back as the
   * source's `||` does: an empty name to "unknown", a zero `minLength` to 1,
   * a zero `maximum` to 100, an empty list of allowed values to
   * "allowed values" (a zero `minimum` falls back to 0, which changes nothing).
   */
  function Describe(v: Violation): string {
    match v
    case MissingProperty(name) => "Missing required field: " + (if name == "" then "unknown" else name)
    case TooShort(n) => "Must be at least " + NatToString(if n == 0 then 1 else n) + " characters long"
    case WrongType(t) => "Must be of type " + (if t == "" then "unknown" else t)
    case NotAllowed(values) =>
      var listed := Join(values, ", ");
      "Must be one of: " + (if listed == "" then "allowed values" else listed)
    case TooSmall(limit) => "Must be at least " + IntToString(limit)
    case TooLarge(limit) => "Must be at most " + IntToString(if limit == 0 then 100 else limit)
  }

  /**
   * The reported field: the error's instance path, or else its schema path,
   * without one leading '/'; if that leaves nothing, the keyword; if there
   * is none, "unknown".
   */
  function FieldName(instancePath: string, schemaPath: string, keyword: string): (r: string)
    ensures r != ""
    ensures instancePath != "" && instancePath[0] == '/' && |instancePath| > 1 ==> r == instancePath[1..]
    ensures instancePath == "" && schemaPath != "" && schemaPath[0] != '/' ==> r == schemaPath
  {
    var path := if instancePath != "" then instancePath else if schemaPath != "" then schemaPath else "unknown";
    var stripped := if path[0] == '/' then path[1..] else path;
    if stripped != "" then stripped else if keyword != "" then keyword else "unknown"
  }

  /** The ValidationError thrown for the first error of a failed validation, or for a failure that recorded none. */
  function Rejection(first: Option<SchemaError>, args: Json): ValidationError {
    match first
    case None => ValidationError("unknown", "Validation failed", args)
    case Some(e) => ValidationError(FieldName(e.instancePath, e.schemaPath, Keyword(e.violation)), Describe(e.violation), e.data)
  }

  // ---------------------------------------------------------------------
  // validateToolArguments, as a function of the validators and the arguments
  // ---------------------------------------------------------------------

  /**
   * What `validateToolArguments` returns or throws. An unknown tool is
   * reported before the arguments are looked at; anything but a JSON object
   * (null, a boolean, a number, a string, an array) is then refused; an
   * object is checked against the tool's schema.
   */
  function ValidateArguments(validators: map<string, Schema>, toolName: string, args: Json): (r: Outcome<Json>)
    ensures toolName !in validators ==>
      r == Threw(Validation(ValidationError("tool", "Unknown tool: " + toolName, JStr(toolName))))
    ensures toolName in validators && !args.JObj? ==>
      r == Threw(Validation(ValidationError("args", "Arguments must be a non-null object", args)))
    ensures r.Returned? <==> toolName in validators && args.JObj? && Check(validators[toolName], args, [], []).None?
    ensures r.Threw? ==> r.exception.Validation?
  {
    if toolName !in validators then
      Threw(Validation(ValidationError("tool", "Unknown tool: " + toolName, JStr(toolName))))
    else if !args.JObj? then
      Threw(Validation(ValidationError("args", "Arguments must be a non-null object", args)))
    else
      var schema := validators[toolName];
      var first := Check(schema, args, [], []);
      if first.None? then Returned(Sanitize(schema, args))
      else Threw(Validation(Rejection(first, Sanitize(schema, args))))
  }

  /**
   * The caller's arguments once `validateToolArguments` has run: an object
   * that reached the schema has lost its undeclared members, whether or not
   * it was valid; anything else is untouched.
   */
  function ArgumentsAfter(validators: map<string, Schema>, toolName: string, args: Json): (r: Json)
    ensures toolName !in validators || !args.JObj? ==> r == args
    ensures ValidateArguments(validators, toolName, args).Returned? ==> r == ValidateArguments(validators, toolName, args).value
  {
    if toolName in validators && args.JObj? then Sanitize(validators[toolName], args) else args
  }

  /** The members of `ms` whose key is declared, in order and unchanged. */
  function KeepDeclared(props: seq<Property>, ms: seq<Member>): (r: seq<Member>)
    ensures forall i | 0 <= i < |r| :: Declares(props, r[i].key)
    ensures forall key :: Lookup(r, key) == if Declares(props, key) then Lookup(ms, key) else None
  {
    if ms == [] then []
    else
      var rest := KeepDeclared(props, ms[1..]);
      if Declares(props, ms[0].key) then
        var r := [ms[0]] + rest;
        assert r[1..] == rest;
        r
      else rest
  }

  // ---------------------------------------------------------------------
  // Converting to a protocol error
  // ---------------------------------------------------------------------

  const ValidationPrefix := "Input validation failed: "

  /** `toMcpError`: an InvalidRequest error whose data carries the field and the offending value. */
  function ToMcpError(e: ValidationError): (r: McpError)
    ensures r.code == InvalidRequest
    ensures |r.message| == |ValidationPrefix| + |e.message| && r.message[..|ValidationPrefix|] == ValidationPrefix
  {
    McpError(InvalidRequest, ValidationPrefix + e.message, Some(JObj([Member("field", JStr(e.field)), Member("value", e.value)])))
  }

  /** Reading a ValidationError back out of a protocol error made by ToMcpError. */
  function ReadValidationError(m: McpError): Option<ValidationError> {
    if m.code == InvalidRequest && ValidationPrefix <= m.message && m.data.Some? && m.data.value.JObj? then
      match (Lookup(m.data.value.members, "field"), Lookup(m.data.value.members, "value"))
      case (Some(JStr(field)), Some(value)) => Some(ValidationError(field, m.message[|ValidationPrefix|..], value))
      case _ => None
    else None
  }

  /** The protocol error loses nothing: field, reason and value can all be read back. */
  lemma ToMcpErrorLossless(e: ValidationError)
    ensures ReadValidationError(ToMcpError(e)) == Some(e)
  {
    var m := ToMcpError(e);
    var ms := [Member("field", JStr(e.field)), Member("value", e.value)];
    assert ms[1..] == [Member("value", e.value)];
    assert Lookup(ms, "field") == Some(JStr(e.field));
    assert Lookup(ms, "value") == Some(e.value);
    assert m.message[|ValidationPrefix|..] == e.message;
    assert ValidationPrefix <= m.message;
  }

  /**
   * What `validateOrThrowMcpError` makes of an outcome: a returned value
   * and any exception other than a ValidationError pass through unchanged;
   * a ValidationError becomes its protocol error.
   */
  function ConvertFailure(o: Outcome<Json>): (r: Outcome<Json>)
    ensures o.Returned? || !o.exception.Validation? ==> r == o
    ensures o.Threw? && o.exception.Validation? ==> r == Threw(Protocol(ToMcpError(o.exception.validationError)))
  {
    match o
    case Threw(Validation(e)) => Threw(Protocol(ToMcpError(e)))
    case _ => o
  }

  // ---------------------------------------------------------------------
  // The validator object
  // ---------------------------------------------------------------------

  /** The caller's arguments object, which validation changes in place. */
  class Arguments {
    var value: Json

    constructor(value: Json)
      ensures this.value == value
    {
      this.value := value;
    }
  }

  class InputValidator {
    var validators: map<string, Schema>

    /** A validator with one compiled schema per registry entry. */
    constructor()
      ensures validators == EntriesMap(Registry)
    {
      validators := map[];
      new;
      CompileValidators(Registry);
      assert map[] + EntriesMap(Registry) == EntriesMap(Registry);
    }

    /** Adds the entries, in order, to the validators map: a later entry with the same tool name replaces an earlier one. */
    method CompileValidators(entries: seq<Entry>)
      modifies this
      ensures validators == old(validators) + EntriesMap(entries)
    {
      var i := 0;
      while i < |entries|
        invariant 0 <= i <= |entries|
        invariant validators == old(validators) + EntriesMap(entries[..i])
      {
        EntriesMapStep(entries, i);
        UnionUpdate(old(validators), EntriesMap(entries[..i]), entries[i].tool, entries[i].schema);
        validators := validators[entries[i].tool := entries[i].schema];
        i := i + 1;
      }
      assert entries[..|entries|] == entries;
    }

    /** `validateToolArguments`: checks `args` for the tool and strips it in place. */
    method ValidateToolArguments(toolName: string, args: Arguments) returns (r: Outcome<Json>)
      modifies args
      ensures r == ValidateArguments(validators, toolName, old(args.value))
      ensures args.value == ArgumentsAfter(validators, toolName, old(args.value))
    {
      if toolName !in validators {
        return Threw(Validation(ValidationError("tool", "Unknown tool: " + toolName, JStr(toolName))));
      }
      var schema := validators[toolName];
      if !args.value.JObj? {
        return Threw(Validation(ValidationError("args", "Arguments must be a non-null object", args.value)));
      }
      var original := args.value;
      args.value := Sanitize(schema, original);
      var first := Check(schema, original, [], []);
      if first.Some? {
        return Threw(Validation(Rejection(first, args.value)));
      }
      return Returned(args.value);
    }

    /** `validateOrThrowMcpError`: the same validation, a ValidationError turned into a protocol error. */
    method ValidateOrThrowMcpError(toolName: string, args: Arguments) returns (r: Outcome<Json>)
      modifies args
      ensures r == ConvertFailure(ValidateArguments(validators, toolName, old(args.value)))
      ensures args.value == ArgumentsAfter(validators, toolName, old(args.value))
    {
      var inner := ValidateToolArguments(toolName, args);
      match inner
      case Threw(Validation(e)) => r := Threw(Protocol(ToMcpError(e)));
      case _ => r := inner;
    }
  }

  // ---------------------------------------------------------------------
  // Properties
  // ---------------------------------------------------------------------

  lemma EntriesMapStep(es: seq<Entry>, i: nat)
    requires i < |es|
    ensures EntriesMap(es[..i + 1]) == EntriesMap(es[..i])[es[i].tool := es[i].schema]
  {
    assert es[..i + 1][..i] == es[..i];
  }

  lemma UnionUpdate<K, V>(a: map<K, V>, b: map<K, V>, k: K, v: V)
    ensures (a + b)[k := v] == a + b[k := v]
  {
  }

  /** A map built from entries holds exactly their tools. */
  lemma CompiledKeys(es: seq<Entry>)
    ensures EntriesMap(es).Keys == set i | 0 <= i < |es| :: es[i].tool
  {
    EntriesMapKeys(es);
    var byIndex := set i | 0 <= i < |es| :: es[i].tool;
    forall t | t in EntriesMap(es)
      ensures t in byIndex
    {
      var e :| e in es && e.tool == t;
      var i :| 0 <= i < |es| && es[i] == e;
    }
  }

  /** A map built from entries with distinct tools whose schemas are all tool schemas holds only tool schemas. */
  lemma CompiledShaped(es: seq<Entry>)
    requires forall i, j | 0 <= i < j < |es| :: es[i].tool != es[j].tool
    requires forall i | 0 <= i < |es| :: Shaped(es[i].schema)
    ensures forall t | t in EntriesMap(es) :: Shaped(EntriesMap(es)[t])
  {
    CompiledKeys(es);
    EntriesMapSelects(es);
    forall t | t in EntriesMap(es)
      ensures Shaped(EntriesMap(es)[t])
    {
      var i :| 0 <= i < |es| && es[i].tool == t;
    }
  }

  /** After construction the map holds exactly the registry's tools, each with its own entry's schema, all closed tool schemas. */
  lemma CompiledValidators()
    ensures EntriesMap(Registry).Keys == set i | 0 <= i < |Registry| :: Registry[i].tool
    ensures forall i | 0 <= i < |Registry| :: EntriesMap(Registry)[Registry[i].tool] == Registry[i].schema
    ensures forall t | t in EntriesMap(Registry) :: Shaped(EntriesMap(Registry)[t])
  {
    RegistryNames();
    RegistrySchemas();
    CompiledKeys(Registry);
    EntriesMapSelects(Registry);
    CompiledShaped(Registry);
  }


  /**
   * On success the result is the caller's object with its undeclared
   * members removed: declared members keep their place and their value,
   * and nothing absent is added.
   */
  lemma AcceptedArguments(validators: map<string, Schema>, toolName: string, args: Json)
    requires toolName in validators && ToolSchema(validators[toolName])
    requires ValidateArguments(validators, toolName, args).Returned?
    ensures args.JObj?
    ensures ValidateArguments(validators, toolName, args).value == JObj(KeepDeclared(validators[toolName].properties, args.members))
  {
    KeepDeclaredSanitized(validators[toolName], args.members);
  }

  lemma {:induction false} KeepDeclaredSanitized(s: Schema, ms: seq<Member>)
    requires ToolSchema(s)
    ensures SanitizeMembers(s, ms) == KeepDeclared(s.properties, ms)
  {
    if ms != [] {
      KeepDeclaredSanitized(s, ms[1..]);
      var k := PropertyIndex(s.properties, ms[0].key);
      if k < |s.properties| {
        TransparentUnchanged(s.properties[k].schema, ms[0].value);
      }
    }
  }

  /** Validating accepted arguments again succeeds and returns them unchanged. */
  lemma ValidationIdempotent(validators: map<string, Schema>, toolName: string, args: Json)
    requires toolName in validators && WellFormed(validators[toolName])
    requires ValidateArguments(validators, toolName, args).Returned?
    ensures var x := ValidateArguments(validators, toolName, args).value;
      ValidateArguments(validators, toolName, x) == Returned(x) && ArgumentsAfter(validators, toolName, x) == x
  {
    var s := validators[toolName];
    CheckStable(s, args, [], []);
    SanitizeIdempotent(s, args);
  }

  /**
   * A missing required field is reported with the schema path "#/required"
   * as its field (the instance path of the object itself is empty), the
   * missing name in the reason, and the stripped object as the value.
   */
  lemma MissingRequiredReport(validators: map<string, Schema>, toolName: string, args: Json, f: Field)
    requires toolName in validators && validators[toolName].ObjectSchema? && args.JObj?
    requires FirstMissing(validators[toolName].required, args.members) == Some(f)
    ensures ValidateArguments(validators, toolName, args) ==
      Threw(Validation(ValidationError("#/required", "Missing required field: " + f.Key(), Sanitize(validators[toolName], args))))
  {
    var s := validators[toolName];
    var e := Report(MissingProperty(f.Key()), [], [], Sanitize(s, args));
    assert Check(s, args, [], []) == Some(e);
    RequiredPath("required");
    SnakeCaseKey(f);
    assert e.schemaPath == "#/required";
    assert FieldName(e.instancePath, e.schemaPath, "required") == "#/required";
  }

  lemma RequiredPath(keyword: string)
    requires keyword == "required"
    ensures "#" + Pointer([] + [keyword]) == "#/required"
  {
    RootKeywordPath(keyword);
  }

  /** A keyword of the root schema is reported at "#/" followed by the keyword. */
  lemma RootKeywordPath(keyword: string)
    requires forall i | 0 <= i < |keyword| :: keyword[i] != '~' && keyword[i] != '/'
    ensures "#" + Pointer([] + [keyword]) == "#/" + keyword
  {
    assert [] + [keyword] == [keyword];
    SingleTokenPointer(keyword);
    assert "#" + ("/" + keyword) == "#/" + keyword;
  }


  /** The percentage accepts exactly the numbers from 0 to 100, reporting the maximum first. */
  lemma PercentageBounds(x: real, at: seq<string>, schemaAt: seq<string>)
    ensures Check(Percentage, JNum(x), at, schemaAt).None? <==> 0.0 <= x <= 100.0
    ensures x > 100.0 ==> Check(Percentage, JNum(x), at, schemaAt).value.violation == TooLarge(100)
    ensures x < 0.0 ==> Check(Percentage, JNum(x), at, schemaAt).value.violation == TooSmall(0)
  {
  }

  /** The reasons the registry's own constraints produce: `minLength: 1`, `type: "string"`, `minimum: 0` and `maximum: 100`. */
  lemma MinLengthMessage()
    ensures Describe(TooShort(1)) == "Must be at least 1 characters long"
  {
    assert NatToString(1) == "1";
  }

  lemma TypeMessage()
    ensures Describe(WrongType("string")) == "Must be of type string"
  {
  }

  lemma MinimumMessage()
    ensures Describe(TooSmall(0)) == "Must be at least 0"
  {
    assert NatToString(0) == "0";
  }

  lemma MaximumMessage()
    ensures Describe(TooLarge(100)) == "Must be at most 100"
  {
    assert NatToString(100) == "100";
  }

  /** The allowed values are listed in schema order, separated by ", ". */
  lemma StatusMessage()
    ensures Describe(NotAllowed(ExperimentStatuses)) == "Must be one of: " + "active" + ", " + "inactive" + ", " + "completed"
  {
    JoinThree("active", "inactive", "completed", ", ");
  }

  /** A zero limit is replaced as by the source's `||`: 1 for a length, 100 for a maximum. */
  lemma FallbackLimits()
    ensures Describe(TooShort(0)) == Describe(TooShort(1))
    ensures Describe(TooLarge(0)) == Describe(TooLarge(100))
  {
  }

  /** An empty parameter is replaced as by the source's `||`. */
  lemma FallbackNames()
    ensures Describe(MissingProperty("")) == "Missing required field: unknown"
    ensures Describe(WrongType("")) == "Must be of type unknown"
    ensures Describe(NotAllowed([])) == "Must be one of: allowed values"
  {
  }

  /** The compiled validator for CreatePriceExperiment is its registry schema. */
  lemma CreatePriceExperimentValidator()
    ensures "CreatePriceExperiment" in EntriesMap(Registry)
    ensures EntriesMap(Registry)["CreatePriceExperiment"] == CreatePriceExperimentSchema
  {
    assert Registry[20] == Entry("CreatePriceExperiment", CreatePriceExperimentSchema);
    EntriesMapKeeps(Registry, 20);
  }

  /** An error on a top-level property is reported under the property's own name. */
  lemma PropertyField(f: Field, schemaPath: string, keyword: string)
    ensures FieldName(Pointer([f.Key()]), schemaPath, keyword) == f.Key()
  {
    SnakeCaseKey(f);
    SingleTokenPointer(f.Key());
  }

  /**
   * An error on a top-level property is thrown as a ValidationError naming
   * that property, giving the described reason and carrying the offending
   * value.
   */
  lemma PropertyErrorReport(validators: map<string, Schema>, toolName: string, args: Json, f: Field, e: SchemaError)
    requires toolName in validators && args.JObj?
    requires Check(validators[toolName], args, [], []) == Some(e) && e.instancePath == Pointer([f.Key()])
    ensures ValidateArguments(validators, toolName, args) == Threw(Validation(ValidationError(f.Key(), Describe(e.violation), e.data)))
  {
    PropertyField(f, e.schemaPath, Keyword(e.violation));
  }

  /** What each CreatePriceExperiment property reads from a name-and-percentage object. */
  lemma PercentageLookups(name: string, x: real, ms: seq<Member>)
    requires ms == [Member(Name.Key(), JStr(name)), Member(TreatmentGroupPercentage.Key(), JNum(x))]
    ensures Lookup(ms, Name.Key()) == Some(JStr(name))
    ensures Lookup(ms, Description.Key()) == None
    ensures Lookup(ms, Status.Key()) == None
    ensures Lookup(ms, TreatmentGroupPercentage.Key()) == Some(JNum(x))
  {
    LookupPair(ms[0], ms[1], Name.Key());
    LookupPair(ms[0], ms[1], TreatmentGroupPercentage.Key());
    LookupPair(ms[0], ms[1], Description.Key());
    LookupPair(ms[0], ms[1], Status.Key());
    assert Name.Key() != Description.Key() && TreatmentGroupPercentage.Key() != Description.Key();
    assert Name.Key() != Status.Key() && TreatmentGroupPercentage.Key() != Status.Key();
    assert Name.Key() != TreatmentGroupPercentage.Key();
  }

  /** With a non-empty name, every property before the percentage passes. */
  lemma PercentageOthersPass(name: string, x: real, ms: seq<Member>)
    requires name != ""
    requires ms == [Member(Name.Key(), JStr(name)), Member(TreatmentGroupPercentage.Key(), JNum(x))]
    ensures FirstMissing(CreatePriceExperimentSchema.required, ms) == None
    ensures forall i | 0 <= i < 3 :: CheckProperty(CreatePriceExperimentSchema.properties[i], ms, [], []) == None
  {
    PercentageLookups(name, x, ms);
    RequiredPresent(CreatePriceExperimentSchema, ms);
    ExperimentOthersPass(CreatePriceExperimentSchema.properties, name, ms);
  }

  lemma RequiredPresent(s: Schema, ms: seq<Member>)
    requires s == CreatePriceExperimentSchema
    requires HasKey(ms, Name.Key()) && HasKey(ms, TreatmentGroupPercentage.Key())
    ensures FirstMissing(s.required, ms) == None
  {
    assert s.required == [Name, TreatmentGroupPercentage];
  }

  lemma ExperimentOthersPass(props: seq<Property>, name: string, ms: seq<Member>)
    requires props == CreatePriceExperimentSchema.properties && name != ""
    requires Lookup(ms, Name.Key()) == Some(JStr(name))
    requires Lookup(ms, Description.Key()) == None && Lookup(ms, Status.Key()) == None
    ensures forall i | 0 <= i < 3 :: CheckProperty(props[i], ms, [], []) == None
  {
    NonEmptyPasses(props[0], name, ms);
    AbsentPasses(props[1], ms);
    AbsentPasses(props[2], ms);
    forall i | 0 <= i < 3
      ensures CheckProperty(props[i], ms, [], []) == None
    {
      assert i == 0 || i == 1 || i == 2;
    }
  }

  /** A property the object does not hold passes. */
  lemma AbsentPasses(p: Property, ms: seq<Member>)
    requires Lookup(ms, p.name()) == None
    ensures CheckProperty(p, ms, [], []) == None
  {
  }

  /** A non-empty string passes a non-empty-string property. */
  lemma NonEmptyPasses(p: Property, value: string, ms: seq<Member>)
    requires p.schema == NonEmptyString && value != ""
    requires Lookup(ms, p.name()) == Some(JStr(value))
    ensures CheckProperty(p, ms, [], []) == None
  {
  }

  /** A percentage over 100 breaks the maximum, reported at the property's own path. */
  lemma PercentageProperty(p: Property, x: real, ms: seq<Member>)
    requires p.schema == Percentage
    requires x > 100.0 && Lookup(ms, p.name()) == Some(JNum(x))
    ensures CheckProperty(p, ms, [], []) == Some(Report(TooLarge(100), [p.name()], ["properties", p.name()], JNum(x)))
  {
    assert [] + [p.name()] == [p.name()];
    assert [] + ["properties", p.name()] == ["properties", p.name()];
  }

  /** So the whole object's first error is the percentage's. */
  lemma PercentageTooLargeError(s: Schema, name: string, x: real, ms: seq<Member>)
    requires s == CreatePriceExperimentSchema
    requires name != "" && x > 100.0
    requires ms == [Member(Name.Key(), JStr(name)), Member(TreatmentGroupPercentage.Key(), JNum(x))]
    ensures Check(s, JObj(ms), [], []) ==
      Some(Report(TooLarge(100), [s.properties[3].name()], ["properties", s.properties[3].name()], JNum(x)))
  {
    PercentageLookups(name, x, ms);
    PercentageOthersPass(name, x, ms);
    var p := s.properties[3];
    assert p == Property(TreatmentGroupPercentage, Percentage, false);
    PercentageProperty(p, x, ms);
    FirstPropertyError(s, ms, 3, [], []);
  }

  /**
   * CreatePriceExperiment with a name and a percentage over 100 (say 150)
   * is refused on the field `treatment_group_percentage` with "Must be at
   * most 100" and the percentage as the value, by any validators map that
   * holds the tool's registry schema (as the compiled one does, by
   * CreatePriceExperimentValidator).
   */
  lemma PercentageTooLarge(validators: map<string, Schema>, name: string, x: real)
    requires "CreatePriceExperiment" in validators && validators["CreatePriceExperiment"] == CreatePriceExperimentSchema
    requires name != "" && x > 100.0
    ensures ValidateArguments(validators, "CreatePriceExperiment",
                              JObj([Member(Name.Key(), JStr(name)), Member(TreatmentGroupPercentage.Key(), JNum(x))]))
            == Threw(Validation(ValidationError(TreatmentGroupPercentage.Key(), "Must be at most 100", JNum(x))))
  {
    var ms := [Member(Name.Key(), JStr(name)), Member(TreatmentGroupPercentage.Key(), JNum(x))];
    var s := validators["CreatePriceExperiment"];
    PercentageTooLargeError(s, name, x, ms);
    var e := Report(TooLarge(100), [s.properties[3].name()], ["properties", s.properties[3].name()], JNum(x));
    PropertyErrorReport(validators, "CreatePriceExperiment", JObj(ms), TreatmentGroupPercentage, e);
    MaximumMessage();
  }

  // ---------------------------------------------------------------------
  // Null under `nullable`
  // ---------------------------------------------------------------------

  /** A null member of a nullable enum property is refused as a value outside the enum, at the property's own path. */
  lemma NullEnumProperty(p: Property, values: seq<string>, ms: seq<Member>)
    requires p.nullable && p.schema == StringSchema(None, Some(values))
    requires Lookup(ms, p.name()) == Some(JNull)
    ensures CheckProperty(p, ms, [], []) == Some(Report(NotAllowed(values), [p.name()], ["properties", p.name()], JNull))
  {
    assert [] + [p.name()] == [p.name()];
    assert [] + ["properties", p.name()] == ["properties", p.name()];
  }

  /** A null member of a nullable property without an enum passes. */
  lemma NullPasses(p: Property, ms: seq<Member>)
    requires p.nullable && !p.schema.StringSchema?
    requires Lookup(ms, p.name()) == Some(JNull)
    ensures CheckProperty(p, ms, [], []) == None
  {
  }

  /** The compiled validators for UpdatePriceExperiment and UpdateProduct are their registry schemas. */
  lemma UpdateValidators()
    ensures "UpdatePriceExperiment" in EntriesMap(Registry)
    ensures EntriesMap(Registry)["UpdatePriceExperiment"] == UpdatePriceExperimentSchema
    ensures "UpdateProduct" in EntriesMap(Registry)
    ensures EntriesMap(Registry)["UpdateProduct"] == UpdateProductSchema
  {
    assert Registry[22] == Entry("UpdatePriceExperiment", UpdatePriceExperimentSchema);
    EntriesMapKeeps(Registry, 22);
    assert Registry[12] == Entry("UpdateProduct", UpdateProductSchema);
    ToolsDistinctFrom2();
    EntriesMapKeeps(Registry, 12);
  }

  /** What each UpdatePriceExperiment property reads from an object holding an id and one more member. */
  lemma ExperimentUpdateLookups(id: string, m: Member, ms: seq<Member>)
    requires m.key == Status.Key() || m.key == TreatmentGroupPercentage.Key()
    requires ms == [Member(Id.Key(), JStr(id)), m]
    ensures Lookup(ms, Id.Key()) == Some(JStr(id))
    ensures Lookup(ms, Name.Key()) == None && Lookup(ms, Description.Key()) == None
    ensures Lookup(ms, m.key) == Some(m.value)
  {
    LookupPair(ms[0], ms[1], Id.Key());
    LookupPair(ms[0], ms[1], Name.Key());
    LookupPair(ms[0], ms[1], Description.Key());
    LookupPair(ms[0], ms[1], m.key);
  }

  /** The first three UpdatePriceExperiment properties pass an id and nothing else of theirs. */
  lemma ExperimentUpdateLeadPasses(s: Schema, id: string, ms: seq<Member>)
    requires s == UpdatePriceExperimentSchema && id != ""
    requires Lookup(ms, Id.Key()) == Some(JStr(id))
    requires Lookup(ms, Name.Key()) == None && Lookup(ms, Description.Key()) == None
    ensures FirstMissing(s.required, ms) == None
    ensures forall i | 0 <= i < 3 :: CheckProperty(s.properties[i], ms, [], []) == None
  {
    assert s.required == [Id];
    var props := s.properties;
    NonEmptyPasses(props[0], id, ms);
    AbsentPasses(props[1], ms);
    AbsentPasses(props[2], ms);
    forall i | 0 <= i < 3
      ensures CheckProperty(props[i], ms, [], []) == None
    {
      assert i == 0 || i == 1 || i == 2;
    }
  }

  /** The status names the allowed experiment statuses. */
  lemma NullStatusError(s: Schema, id: string, ms: seq<Member>)
    requires s == UpdatePriceExperimentSchema && id != ""
    requires ms == [Member(Id.Key(), JStr(id)), Member(Status.Key(), JNull)]
    ensures Check(s, JObj(ms), [], []) ==
      Some(Report(NotAllowed(ExperimentStatuses), [s.properties[3].name()], ["properties", s.properties[3].name()], JNull))
  {
    ExperimentUpdateLookups(id, ms[1], ms);
    ExperimentUpdateLeadPasses(s, id, ms);
    var p := s.properties[3];
    assert p == Property(Status, StringSchema(None, Some(ExperimentStatuses)), true);
    NullEnumProperty(p, ExperimentStatuses, ms);
    FirstPropertyError(s, ms, 3, [], []);
  }

  /**
   * UpdatePriceExperiment with an id and a null status is refused on the
   * field `status` with "Must be one of: active, inactive, completed" and
   * null as the value: `nullable` admits null as a type, and `enum` still
   * refuses it.
   */
  lemma NullStatusRefused(validators: map<string, Schema>, id: string)
    requires "UpdatePriceExperiment" in validators && validators["UpdatePriceExperiment"] == UpdatePriceExperimentSchema
    requires id != ""
    ensures ValidateArguments(validators, "UpdatePriceExperiment", JObj([Member(Id.Key(), JStr(id)), Member(Status.Key(), JNull)]))
            == Threw(Validation(ValidationError(Status.Key(), "Must be one of: " + "active" + ", " + "inactive" + ", " + "completed", JNull)))
  {
    var ms := [Member(Id.Key(), JStr(id)), Member(Status.Key(), JNull)];
    var s := validators["UpdatePriceExperiment"];
    NullStatusError(s, id, ms);
    var e := Report(NotAllowed(ExperimentStatuses), [s.properties[3].name()], ["properties", s.properties[3].name()], JNull);
    PropertyErrorReport(validators, "UpdatePriceExperiment", JObj(ms), Status, e);
    StatusMessage();
  }

  /**
   * UpdatePriceExperiment with an id and a null percentage is accepted: the
   * percentage's `minimum` and `maximum` constrain numbers only.
   */
  lemma NullPercentageAccepted(validators: map<string, Schema>, id: string)
    requires "UpdatePriceExperiment" in validators && validators["UpdatePriceExperiment"] == UpdatePriceExperimentSchema
    requires id != ""
    ensures ValidateArguments(validators, "UpdatePriceExperiment",
                              JObj([Member(Id.Key(), JStr(id)), Member(TreatmentGroupPercentage.Key(), JNull)])).Returned?
  {
    var ms := [Member(Id.Key(), JStr(id)), Member(TreatmentGroupPercentage.Key(), JNull)];
    var s := validators["UpdatePriceExperiment"];
    ExperimentUpdateLookups(id, ms[1], ms);
    ExperimentUpdateLeadPasses(s, id, ms);
    LookupPair(ms[0], ms[1], Status.Key());
    AbsentPasses(s.properties[3], ms);
    assert s.properties[4] == Property(TreatmentGroupPercentage, Percentage, true);
    NullPasses(s.properties[4], ms);
    forall i | 0 <= i < |s.properties|
      ensures CheckProperty(s.properties[i], ms, [], []) == None
    {
      assert i < 3 || i == 3 || i == 4;
    }
    ObjectPasses(s, ms, [], []);
  }

  /** What each UpdateProduct property reads from a project id, an id and a null type. */
  lemma NullTypeLookups(project: string, id: string, ms: seq<Member>)
    requires ms == [Member(ProjectId.Key(), JStr(project)), Member(Id.Key(), JStr(id)), Member(Type.Key(), JNull)]
    ensures Lookup(ms, ProjectId.Key()) == Some(JStr(project)) && Lookup(ms, Id.Key()) == Some(JStr(id))
    ensures Lookup(ms, Identifier.Key()) == None && Lookup(ms, Name.Key()) == None
    ensures Lookup(ms, Description.Key()) == None
    ensures Lookup(ms, Type.Key()) == Some(JNull)
  {
    assert ms[1..] == [ms[1], ms[2]];
    LookupPair(ms[1], ms[2], Id.Key());
    LookupPair(ms[1], ms[2], Identifier.Key());
    LookupPair(ms[1], ms[2], Name.Key());
    LookupPair(ms[1], ms[2], Description.Key());
    LookupPair(ms[1], ms[2], Type.Key());
  }

  /** The first five UpdateProduct properties pass a project id, an id and nothing else of theirs. */
  lemma ProductUpdateLeadPasses(s: Schema, project: string, id: string, ms: seq<Member>)
    requires s == UpdateProductSchema && project != "" && id != ""
    requires Lookup(ms, ProjectId.Key()) == Some(JStr(project)) && Lookup(ms, Id.Key()) == Some(JStr(id))
    requires Lookup(ms, Identifier.Key()) == None && Lookup(ms, Name.Key()) == None
    requires Lookup(ms, Description.Key()) == None
    ensures FirstMissing(s.required, ms) == None
    ensures forall i | 0 <= i < 5 :: CheckProperty(s.properties[i], ms, [], []) == None
  {
    assert s.required == [ProjectId, Id];
    var props := s.properties;
    NonEmptyPasses(props[0], project, ms);
    NonEmptyPasses(props[1], id, ms);
    AbsentPasses(props[2], ms);
    AbsentPasses(props[3], ms);
    AbsentPasses(props[4], ms);
    forall i | 0 <= i < 5
      ensures CheckProperty(props[i], ms, [], []) == None
    {
      assert i == 0 || i == 1 || i == 2 || i == 3 || i == 4;
    }
  }

  lemma NullTypeError(s: Schema, project: string, id: string, ms: seq<Member>)
    requires s == UpdateProductSchema && project != "" && id != ""
    requires ms == [Member(ProjectId.Key(), JStr(project)), Member(Id.Key(), JStr(id)), Member(Type.Key(), JNull)]
    ensures Check(s, JObj(ms), [], []) ==
      Some(Report(NotAllowed(ProductTypes), [s.properties[5].name()], ["properties", s.properties[5].name()], JNull))
  {
    NullTypeLookups(project, id, ms);
    ProductUpdateLeadPasses(s, project, id, ms);
    var p := s.properties[5];
    assert p == Property(Type, StringSchema(None, Some(ProductTypes)), true);
    NullEnumProperty(p, ProductTypes, ms);
    FirstPropertyError(s, ms, 5, [], []);
  }

  lemma ProductTypeMessage()
    ensures Describe(NotAllowed(ProductTypes)) == "Must be one of: " + "subscription" + ", " + "non_consumable" + ", " + "consumable"
  {
    JoinThree("subscription", "non_consumable", "consumable", ", ");
  }

  /**
   * UpdateProduct with a project id, an id and a null type is refused on the
   * field `type` with "Must be one of: subscription, non_consumable,
   * consumable" and null as the value.
   */
  lemma NullTypeRefused(validators: map<string, Schema>, project: string, id: string)
    requires "UpdateProduct" in validators && validators["UpdateProduct"] == UpdateProductSchema
    requires project != "" && id != ""
    ensures ValidateArguments(validators, "UpdateProduct",
              JObj([Member(ProjectId.Key(), JStr(project)), Member(Id.Key(), JStr(id)), Member(Type.Key(), JNull)]))
            == Threw(Validation(ValidationError(Type.Key(),
                 "Must be one of: " + "subscription" + ", " + "non_consumable" + ", " + "consumable", JNull)))
  {
    var ms := [Member(ProjectId.Key(), JStr(project)), Member(Id.Key(), JStr(id)), Member(Type.Key(), JNull)];
    var s := validators["UpdateProduct"];
    NullTypeError(s, project, id, ms);
    var e := Report(NotAllowed(ProductTypes), [s.properties[5].name()], ["properties", s.properties[5].name()], JNull);
    PropertyErrorReport(validators, "UpdateProduct", JObj(ms), Type, e);
    ProductTypeMessage();
  }
}
