/**
 * The shape every tool schema of src/core/validation/schemas.ts shares, and
 * the constraint each field carries wherever it is declared, proved schema
 * by schema.
 */
module SchemaShapes {
  import opened Wrappers
  import opened Schemas

  /**
   * A top-level tool schema: a well-formed object with
   * `additionalProperties: false`, nothing stripped below the top level,
   * and a property nullable exactly when it is not required.
   */
  predicate ToolSchema(s: Schema) {
    && s.ObjectSchema?
    && s.additional.Closed?
    && WellFormed(s)
    && (forall i | 0 <= i < |s.properties| :: Transparent(s.properties[i].schema))
    && (forall i | 0 <= i < |s.properties| :: s.properties[i].nullable <==> s.properties[i].field !in s.required)
  }

  /** The constraint each field carries wherever it is declared. */
  predicate FieldConvention(p: Property) {
    match p.field
    case Id | ProjectId | Identifier | Name | Cursor => p.schema == NonEmptyString
    case Description => p.schema == AnyString && p.nullable
    case Packages | ProductIdentifiers => p.schema == ArraySchema(NonEmptyString) && p.nullable
    case IsDefault => p.schema == BooleanSchema && p.nullable
    case TreatmentGroupPercentage => p.schema == NumberSchema(Some(0), Some(100))
    case Position => p.schema == NumberSchema(Some(0), None) && p.nullable
    case Type => p.schema == StringSchema(None, Some(ProductTypes))
    case Status => p.schema == StringSchema(None, Some(ExperimentStatuses)) && p.nullable
    case StoreIdentifiers => p.schema == StoreIdentifierMap && p.nullable
  }

  predicate Conventional(s: Schema) {
    s.ObjectSchema? && forall i | 0 <= i < |s.properties| :: FieldConvention(s.properties[i])
  }

  /** A closed tool schema whose every property follows its field's convention. */
  predicate Shaped(s: Schema) {
    ToolSchema(s) && Conventional(s)
  }

  /** A property that follows its field's convention has a well-formed schema that strips nothing. */
  lemma ConventionConforms(p: Property)
    requires FieldConvention(p)
    ensures Transparent(p.schema) && WellFormed(p.schema)
  {
    SharedSchemas();
  }

  lemma ToolSchemaIntro(s: Schema)
    requires s.ObjectSchema? && s.additional.Closed?
    requires forall i, j | 0 <= i < j < |s.properties| :: s.properties[i].field != s.properties[j].field
    requires forall i | 0 <= i < |s.properties| ::
               FieldConvention(s.properties[i]) && (s.properties[i].nullable <==> s.properties[i].field !in s.required)
    requires forall f | f in s.required :: DeclaresField(s.properties, f)
    ensures Shaped(s)
  {
    forall i | 0 <= i < |s.properties|
      ensures Transparent(s.properties[i].schema) && WellFormed(s.properties[i].schema)
    {
      ConventionConforms(s.properties[i]);
    }
  }

  lemma SharedSchemas()
    ensures Transparent(NonEmptyString) && WellFormed(NonEmptyString)
    ensures Transparent(NonEmptyStrings) && WellFormed(NonEmptyStrings)
    ensures Transparent(StoreIdentifierMap) && WellFormed(StoreIdentifierMap)
  {
  }

  lemma IdParamShape()
    ensures Shaped(IdParamSchema)
  {
    var p := IdParamSchema.properties;
    assert p[0].field == Id;
    ToolSchemaIntro(IdParamSchema);
  }

  lemma ProjectIdParamShape()
    ensures Shaped(ProjectIdParamSchema)
  {
    var p := ProjectIdParamSchema.properties;
    assert p[0].field == ProjectId && p[1].field == Id;
    ToolSchemaIntro(ProjectIdParamSchema);
  }

  lemma CursorParamShape()
    ensures Shaped(CursorParamSchema)
  {
    var p := CursorParamSchema.properties;
    ToolSchemaIntro(CursorParamSchema);
  }

  lemma ProjectCursorParamShape()
    ensures Shaped(ProjectCursorParamSchema)
  {
    var p := ProjectCursorParamSchema.properties;
    assert p[0].field == ProjectId;
    ToolSchemaIntro(ProjectCursorParamSchema);
  }

  lemma CreateOfferingShape()
    ensures Shaped(CreateOfferingSchema)
  {
    var p := CreateOfferingSchema.properties;
    assert p[0].field == ProjectId && p[1].field == Name;
    ToolSchemaIntro(CreateOfferingSchema);
  }

  lemma UpdateOfferingShape()
    ensures Shaped(UpdateOfferingSchema)
  {
    var p := UpdateOfferingSchema.properties;
    assert p[0].field == ProjectId && p[1].field == Id;
    ToolSchemaIntro(UpdateOfferingSchema);
  }

  lemma CreateEntitlementShape()
    ensures Shaped(CreateEntitlementSchema)
  {
    var p := CreateEntitlementSchema.properties;
    assert p[0].field == Identifier && p[1].field == Name;
    ToolSchemaIntro(CreateEntitlementSchema);
  }

  lemma UpdateEntitlementShape()
    ensures Shaped(UpdateEntitlementSchema)
  {
    var p := UpdateEntitlementSchema.properties;
    assert p[0].field == Id;
    ToolSchemaIntro(UpdateEntitlementSchema);
  }

  lemma CreateProductShape()
    ensures Shaped(CreateProductSchema)
  {
    var p := CreateProductSchema.properties;
    assert p[0].field == ProjectId && p[1].field == Identifier && p[2].field == Name && p[4].field == Type;
    ToolSchemaIntro(CreateProductSchema);
  }

  lemma UpdateProductShape()
    ensures Shaped(UpdateProductSchema)
  {
    var p := UpdateProductSchema.properties;
    assert p[0].field == ProjectId && p[1].field == Id;
    ToolSchemaIntro(UpdateProductSchema);
  }

  lemma CreatePackageShape()
    ensures Shaped(CreatePackageSchema)
  {
    var p := CreatePackageSchema.properties;
    assert p[0].field == Identifier && p[1].field == Name;
    ToolSchemaIntro(CreatePackageSchema);
  }

  lemma UpdatePackageShape()
    ensures Shaped(UpdatePackageSchema)
  {
    var p := UpdatePackageSchema.properties;
    assert p[0].field == Id;
    ToolSchemaIntro(UpdatePackageSchema);
  }

  lemma CreatePriceExperimentShape()
    ensures Shaped(CreatePriceExperimentSchema)
  {
    var p := CreatePriceExperimentSchema.properties;
    assert p[0].field == Name && p[3].field == TreatmentGroupPercentage;
    ToolSchemaIntro(CreatePriceExperimentSchema);
  }

  lemma UpdatePriceExperimentShape()
    ensures Shaped(UpdatePriceExperimentSchema)
  {
    var p := UpdatePriceExperimentSchema.properties;
    assert p[0].field == Id;
    ToolSchemaIntro(UpdatePriceExperimentSchema);
  }
}
