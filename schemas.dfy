/**
 * The tool-argument schemas (src/core/validation/schemas.ts) as constant
 * constraint trees, and the registry that maps each tool name to one of them.
 */
module Schemas {
  import opened Wrappers

  /**
   * A constraint tree over JSON values, built from the JSON Schema validation
   * keywords the registry uses: `type`, `enum`, `minLength`, `minimum`,
   * `maximum`, `items`, `properties`, `required`, `additionalProperties`.
   */
  datatype Schema =
    | StringSchema(minLength: Option<nat>, enumValues: Option<seq<string>>)
    | NumberSchema(minimum: Option<int>, maximum: Option<int>)
    | BooleanSchema
    | ArraySchema(items: Schema)
    | ObjectSchema(properties: seq<Property>, required: seq<Field>, additional: Additional)

  /** The property names the tool schemas declare. */
  datatype Field =
    | Id | ProjectId | Identifier | Name | Description | Type | IsDefault | Packages
    | ProductIdentifiers | StoreIdentifiers | Position | Status | TreatmentGroupPercentage | Cursor
  {
    /** The member key the field has in an arguments object. */
    function Key(): string {
      match this
      case Id => "id"
      case ProjectId => "project_id"
      case Identifier => "identifier"
      case Name => "name"
      case Description => "description"
      case Type => "type"
      case IsDefault => "is_default"
      case Packages => "packages"
      case ProductIdentifiers => "product_identifiers"
      case StoreIdentifiers => "store_identifiers"
      case Position => "position"
      case Status => "status"
      case TreatmentGroupPercentage => "treatment_group_percentage"
      case Cursor => "cursor"
    }
  }

  /** A declared property; `nullable` is the OpenAPI 3.0 extension that also admits null. */
  datatype Property = Property(field: Field, schema: Schema, nullable: bool) {
    function name(): string { field.Key() }
  }

  /**
   * `additionalProperties`: `false` (Closed: undeclared keys are removed, since
   * the validator runs with `removeAdditional`) or a schema every undeclared
   * member's value must satisfy (Open: such keys are kept).
   */
  datatype Additional = Closed | Open(values: Schema)

  const NonEmptyString: Schema := StringSchema(Some(1), None)
  const AnyString: Schema := StringSchema(None, None)
  const NonEmptyStrings: Schema := ArraySchema(NonEmptyString)
  const ProductTypes: seq<string> := ["subscription", "non_consumable", "consumable"]
  const ExperimentStatuses: seq<string> := ["active", "inactive", "completed"]
  const Percentage: Schema := NumberSchema(Some(0), Some(100))
  const StoreIdentifierMap: Schema := ObjectSchema([], [], Open(NonEmptyString))

  const IdParamSchema: Schema := ObjectSchema(
    [Property(Id, NonEmptyString, false)],
    [Id], Closed)

  const ProjectIdParamSchema: Schema := ObjectSchema(
    [Property(ProjectId, NonEmptyString, false),
     Property(Id, NonEmptyString, false)],
    [ProjectId, Id], Closed)

  const CursorParamSchema: Schema := ObjectSchema(
    [Property(Cursor, NonEmptyString, true)],
    [], Closed)

  const ProjectCursorParamSchema: Schema := ObjectSchema(
    [Property(ProjectId, NonEmptyString, false),
     Property(Cursor, NonEmptyString, true)],
    [ProjectId], Closed)

  const CreateOfferingSchema: Schema := ObjectSchema(
    [Property(ProjectId, NonEmptyString, false),
     Property(Name, NonEmptyString, false),
     Property(Description, AnyString, true),
     Property(IsDefault, BooleanSchema, true),
     Property(Packages, NonEmptyStrings, true)],
    [ProjectId, Name], Closed)

  const UpdateOfferingSchema: Schema := ObjectSchema(
    [Property(ProjectId, NonEmptyString, false),
     Property(Id, NonEmptyString, false),
     Property(Name, NonEmptyString, true),
     Property(Description, AnyString, true),
     Property(IsDefault, BooleanSchema, true),
     Property(Packages, NonEmptyStrings, true)],
    [ProjectId, Id], Closed)

  const CreateEntitlementSchema: Schema := ObjectSchema(
    [Property(Identifier, NonEmptyString, false),
     Property(Name, NonEmptyString, false),
     Property(Description, AnyString, true),
     Property(ProductIdentifiers, NonEmptyStrings, true)],
    [Identifier, Name], Closed)

  const UpdateEntitlementSchema: Schema := ObjectSchema(
    [Property(Id, NonEmptyString, false),
     Property(Identifier, NonEmptyString, true),
     Property(Name, NonEmptyString, true),
     Property(Description, AnyString, true),
     Property(ProductIdentifiers, NonEmptyStrings, true)],
    [Id], Closed)

  const CreateProductSchema: Schema := ObjectSchema(
    [Property(ProjectId, NonEmptyString, false),
     Property(Identifier, NonEmptyString, false),
     Property(Name, NonEmptyString, false),
     Property(Description, AnyString, true),
     Property(Type, StringSchema(None, Some(ProductTypes)), false),
     Property(StoreIdentifiers, StoreIdentifierMap, true)],
    [ProjectId, Identifier, Name, Type], Closed)

  const UpdateProductSchema: Schema := ObjectSchema(
    [Property(ProjectId, NonEmptyString, false),
     Property(Id, NonEmptyString, false),
     Property(Identifier, NonEmptyString, true),
     Property(Name, NonEmptyString, true),
     Property(Description, AnyString, true),
     Property(Type, StringSchema(None, Some(ProductTypes)), true),
     Property(StoreIdentifiers, StoreIdentifierMap, true)],
    [ProjectId, Id], Closed)

  const CreatePackageSchema: Schema := ObjectSchema(
    [Property(Identifier, NonEmptyString, false),
     Property(Name, NonEmptyString, false),
     Property(Position, NumberSchema(Some(0), None), true),
     Property(ProductIdentifiers, NonEmptyStrings, true)],
    [Identifier, Name], Closed)

  const UpdatePackageSchema: Schema := ObjectSchema(
    [Property(Id, NonEmptyString, false),
     Property(Identifier, NonEmptyString, true),
     Property(Name, NonEmptyString, true),
     Property(Position, NumberSchema(Some(0), None), true),
     Property(ProductIdentifiers, NonEmptyStrings, true)],
    [Id], Closed)

  const CreatePriceExperimentSchema: Schema := ObjectSchema(
    [Property(Name, NonEmptyString, false),
     Property(Description, AnyString, true),
     Property(Status, StringSchema(None, Some(ExperimentStatuses)), true),
     Property(TreatmentGroupPercentage, Percentage, false)],
    [Name, TreatmentGroupPercentage], Closed)

  const UpdatePriceExperimentSchema: Schema := ObjectSchema(
    [Property(Id, NonEmptyString, false),
     Property(Name, NonEmptyString, true),
     Property(Description, AnyString, true),
     Property(Status, StringSchema(None, Some(ExperimentStatuses)), true),
     Property(TreatmentGroupPercentage, Percentage, true)],
    [Id], Closed)

  /** One registry entry: a tool name and its schema. */
  datatype Entry = Entry(tool: string, schema: Schema)

  /** VALIDATION_SCHEMAS, in the order its entries are declared (and enumerated). */
  const Registry: seq<Entry> := [
    Entry("CreateOffering", CreateOfferingSchema),
    Entry("GetOffering", ProjectIdParamSchema),
    Entry("UpdateOffering", UpdateOfferingSchema),
    Entry("DeleteOffering", ProjectIdParamSchema),
    Entry("ListOfferings", ProjectCursorParamSchema),
    Entry("CreateEntitlement", CreateEntitlementSchema),
    Entry("GetEntitlement", IdParamSchema),
    Entry("UpdateEntitlement", UpdateEntitlementSchema),
    Entry("DeleteEntitlement", IdParamSchema),
    Entry("ListEntitlements", CursorParamSchema),
    Entry("CreateProduct", CreateProductSchema),
    Entry("GetProduct", ProjectIdParamSchema),
    Entry("UpdateProduct", UpdateProductSchema),
    Entry("DeleteProduct", ProjectIdParamSchema),
    Entry("ListProducts", ProjectCursorParamSchema),
    Entry("CreatePackage", CreatePackageSchema),
    Entry("GetPackage", IdParamSchema),
    Entry("UpdatePackage", UpdatePackageSchema),
    Entry("DeletePackage", IdParamSchema),
    Entry("ListPackages", CursorParamSchema),
    Entry("CreatePriceExperiment", CreatePriceExperimentSchema),
    Entry("GetPriceExperiment", IdParamSchema),
    Entry("UpdatePriceExperiment", UpdatePriceExperimentSchema),
    Entry("DeletePriceExperiment", IdParamSchema),
    Entry("ListPriceExperiments", CursorParamSchema)
  ]

  /** The map built from a list of entries, later entries overriding earlier ones. */
  function EntriesMap(es: seq<Entry>): map<string, Schema> {
    if es == [] then map[]
    else EntriesMap(es[..|es| - 1])[es[|es| - 1].tool := es[|es| - 1].schema]
  }

  /** Index of the first property named `key`, or |props| when none is. */
  function PropertyIndex(props: seq<Property>, key: string): (k: nat)
    ensures k <= |props|
    ensures k < |props| ==> props[k].name() == key
    ensures forall j | 0 <= j < k :: props[j].name() != key
  {
    if props == [] then 0
    else if props[0].name() == key then 0
    else 1 + PropertyIndex(props[1..], key)
  }

  /** `key` is declared in `props`. */
  predicate Declares(props: seq<Property>, key: string)
    ensures Declares(props, key) <==> PropertyIndex(props, key) < |props|
  {
    exists i | 0 <= i < |props| :: props[i].name() == key
  }

  /** Some property of `props` is `f`. */
  predicate DeclaresField(props: seq<Property>, f: Field) {
    exists i | 0 <= i < |props| :: props[i].field == f
  }

  /** Every key is a non-empty run of lower-case letters and underscores. */
  lemma SnakeCaseKey(f: Field)
    ensures SnakeCase(f.Key())
  {
    if f.ProductIdentifiers? || f.StoreIdentifiers? {
      IdentifierListKeys(f);
    } else if f.TreatmentGroupPercentage? {
      PercentageKey(f);
    } else if f.ProjectId? || f.Identifier? || f.Description? || f.IsDefault? {
      MiddleKeys(f);
    } else {
      ShortKeys(f);
    }
  }

  // The fourteen keys, checked a few at a time.
  lemma IdentifierListKeys(f: Field)
    requires f.ProductIdentifiers? || f.StoreIdentifiers?
    ensures SnakeCase(f.Key())
  {
  }

  lemma PercentageKey(f: Field)
    requires f.TreatmentGroupPercentage?
    ensures SnakeCase(f.Key())
  {
  }

  lemma MiddleKeys(f: Field)
    requires f.ProjectId? || f.Identifier? || f.Description? || f.IsDefault?
    ensures SnakeCase(f.Key())
  {
  }

  lemma ShortKeys(f: Field)
    requires f.Id? || f.Name? || f.Type? || f.Packages? || f.Position? || f.Status? || f.Cursor?
    ensures SnakeCase(f.Key())
  {
  }

  /** A non-empty run of lower-case letters and underscores. */
  predicate SnakeCase(k: string) {
    k != "" && forall i | 0 <= i < |k| :: 'a' <= k[i] <= 'z' || k[i] == '_'
  }

  /** Distinct fields have distinct keys. */
  lemma KeyInjective(f: Field, g: Field)
    requires f.Key() == g.Key()
    ensures f == g
  {
  }

  /**
   * Every object in the tree declares each property once and lists only
   * declared properties as required.
   */
  predicate WellFormed(s: Schema) {
    match s
    case StringSchema(_, _) => true
    case NumberSchema(_, _) => true
    case BooleanSchema => true
    case ArraySchema(items) => WellFormed(items)
    case ObjectSchema(props, required, additional) =>
      && (forall i, j | 0 <= i < j < |props| :: props[i].field != props[j].field)
      && (forall f | f in required :: DeclaresField(props, f))
      && (forall i | 0 <= i < |props| :: WellFormed(props[i].schema))
      && (additional.Open? ==> WellFormed(additional.values))
  }

  /** No object anywhere in the tree has `additionalProperties: false`, so nothing in it is ever stripped. */
  predicate Transparent(s: Schema) {
    match s
    case StringSchema(_, _) => true
    case NumberSchema(_, _) => true
    case BooleanSchema => true
    case ArraySchema(items) => Transparent(items)
    case ObjectSchema(props, _, additional) =>
      && additional.Open?
      && Transparent(additional.values)
      && (forall i | 0 <= i < |props| :: Transparent(props[i].schema))
  }
}
