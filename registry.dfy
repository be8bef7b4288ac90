/**
 * What the tool registry of src/core/validation/schemas.ts guarantees as a
 * whole: 25 distinct tool names, in blocks of five operations per resource,
 * each mapped to a closed tool schema chosen by the kind of operation.
 */
module ToolRegistry {
  import opened Wrappers
  import opened Schemas
  import opened SchemaShapes

  const Resources: seq<string> := ["Offering", "Entitlement", "Product", "Package", "PriceExperiment"]
  const Operations: seq<string> := ["Create", "Get", "Update", "Delete", "List"]

  /** 25 entries, and no tool name twice: each key maps to exactly one schema. */
  lemma RegistryNames()
    ensures |Registry| == |Resources| * |Operations| == 25
    ensures forall i, j | 0 <= i < j < |Registry| :: Registry[i].tool != Registry[j].tool
  {
    ToolsDistinctFrom0();
    ToolsDistinctFrom1();
    ToolsDistinctFrom2();
    ToolsDistinctFrom3();
    ToolsDistinctFrom4();
  }

  // The 300 pairs of names, compared five first names at a time.

  lemma ToolsDistinctFrom0()
    ensures forall i, j | 0 <= i < 5 && i < j < |Registry| :: Registry[i].tool != Registry[j].tool
  {
  }

  lemma ToolsDistinctFrom1()
    ensures forall i, j | 5 <= i < 10 && i < j < |Registry| :: Registry[i].tool != Registry[j].tool
  {
  }

  lemma ToolsDistinctFrom2()
    ensures forall i, j | 10 <= i < 15 && i < j < |Registry| :: Registry[i].tool != Registry[j].tool
  {
  }

  lemma ToolsDistinctFrom3()
    ensures forall i, j | 15 <= i < 20 && i < j < |Registry| :: Registry[i].tool != Registry[j].tool
  {
  }

  lemma ToolsDistinctFrom4()
    ensures forall i, j | 20 <= i < 25 && i < j < |Registry| :: Registry[i].tool != Registry[j].tool
  {
  }

  /** Every schema in the registry is a closed, well-formed tool schema whose fields follow the conventions. */
  lemma RegistrySchemas()
    ensures forall i | 0 <= i < |Registry| :: Shaped(Registry[i].schema)
  {
    IdParamShape();
    ProjectIdParamShape();
    CursorParamShape();
    ProjectCursorParamShape();
    CreateOfferingShape();
    UpdateOfferingShape();
    CreateEntitlementShape();
    UpdateEntitlementShape();
    CreateProductShape();
    UpdateProductShape();
    CreatePackageShape();
    UpdatePackageShape();
    CreatePriceExperimentShape();
    UpdatePriceExperimentShape();
  }

  /** The validators map has a key for exactly the tools of the entries. */
  lemma {:induction false} EntriesMapKeys(es: seq<Entry>)
    ensures EntriesMap(es).Keys == set e | e in es :: e.tool
  {
    if es != [] {
      var init := es[..|es| - 1];
      EntriesMapKeys(init);
      assert es == init + [es[|es| - 1]];
      assert (set e | e in es :: e.tool) == (set e | e in init :: e.tool) + {es[|es| - 1].tool};
    }
  }

  /** The validators map built from a list of distinct entries sends each tool to its own entry's schema. */
  lemma {:induction false} EntriesMapSelects(es: seq<Entry>)
    requires forall i, j | 0 <= i < j < |es| :: es[i].tool != es[j].tool
    ensures forall i | 0 <= i < |es| :: es[i].tool in EntriesMap(es) && EntriesMap(es)[es[i].tool] == es[i].schema
  {
    if es != [] {
      var init := es[..|es| - 1];
      EntriesMapSelects(init);
      forall i | 0 <= i < |es|
        ensures es[i].tool in EntriesMap(es) && EntriesMap(es)[es[i].tool] == es[i].schema
      {
        if i < |es| - 1 {
          assert init[i] == es[i];
        }
      }
    }
  }

  /** An entry no later entry renames over is the one the validators map keeps for its tool. */
  lemma {:induction false} EntriesMapKeeps(es: seq<Entry>, i: nat)
    requires i < |es|
    requires forall j | i < j < |es| :: es[j].tool != es[i].tool
    ensures es[i].tool in EntriesMap(es) && EntriesMap(es)[es[i].tool] == es[i].schema
    decreases |es|
  {
    if i < |es| - 1 {
      var init := es[..|es| - 1];
      assert init[i] == es[i];
      EntriesMapKeeps(init, i);
    }
  }

  /** Required on create, nullable and optional on update: the percentage and the product type; the status is never required. */
  lemma CreateRequiresUpdateRelaxes()
    ensures TreatmentGroupPercentage in CreatePriceExperimentSchema.required
    ensures TreatmentGroupPercentage !in UpdatePriceExperimentSchema.required
    ensures DeclaresField(UpdatePriceExperimentSchema.properties, TreatmentGroupPercentage)
    ensures Type in CreateProductSchema.required
    ensures Type !in UpdateProductSchema.required && DeclaresField(UpdateProductSchema.properties, Type)
    ensures Status !in CreatePriceExperimentSchema.required && Status !in UpdatePriceExperimentSchema.required
  {
    assert UpdatePriceExperimentSchema.properties[4].field == TreatmentGroupPercentage;
    assert UpdateProductSchema.properties[5].field == Type;
  }

  /** The schema a Get, Delete or List tool uses depends only on whether its resource is project-scoped. */
  lemma SchemaByOperation()
    ensures forall i | 0 <= i < |Registry| && Operations[i % 5] in ["Get", "Delete"] ::
      Registry[i].schema == if Resources[i / 5] in ["Offering", "Product"] then ProjectIdParamSchema else IdParamSchema
    ensures forall i | 0 <= i < |Registry| && Operations[i % 5] == "List" ::
      Registry[i].schema == if Resources[i / 5] in ["Offering", "Product"] then ProjectCursorParamSchema else CursorParamSchema
  {
    forall i | 0 <= i < |Registry|
      ensures Operations[i % 5] in ["Get", "Delete"] ==>
        Registry[i].schema == if Resources[i / 5] in ["Offering", "Product"] then ProjectIdParamSchema else IdParamSchema
      ensures Operations[i % 5] == "List" ==>
        Registry[i].schema == if Resources[i / 5] in ["Offering", "Product"] then ProjectCursorParamSchema else CursorParamSchema
    {
      if i < 5 {
      } else if i < 10 {
      } else if i < 15 {
      } else if i < 20 {
      } else {
      }
    }
  }
}
