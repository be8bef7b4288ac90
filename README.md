# revenuecat-mcp core, modelled in Dafny

This project models the request pipeline of the revenuecat-mcp server. The server exposes the RevenueCat REST API (offerings, entitlements, products, packages, price experiments) as tools of the Model Context Protocol. It has four parts.

- **The schema registry** (`src/core/validation/schemas.ts`) is in modules `Schemas`, `SchemaShapes` and `ToolRegistry`.
  - The 14 argument schemas are constant values of a constraint-tree datatype (`Schema`).
  - `VALIDATION_SCHEMAS` is a constant sequence of 25 `Entry` values, in declaration order.
  - Lemmas prove what the registry guarantees as a whole:
    - 25 distinct tool names, each with a closed, well-formed schema;
    - every field follows one convention wherever it is declared;
    - the schema a Get, Delete or List tool uses depends only on whether its resource is project-scoped.
- **The input validator** (`src/core/validation/validator.ts`) is in modules `SchemaValidation` and `Validator`.
  - The schema engine the validator delegates to is one generic interpreter, `Check` and `Sanitize`, configured as the validator configures it:
    - undeclared members are removed under `additionalProperties: false`;
    - only the first error is used, in a fixed traversal order.
  - `InputValidator` is a class with a mutable `validators` map.
    - `CompileValidators` is a loop that fills the map from the registry.
    - `ValidateToolArguments` strips the caller's `Arguments` object in place. It then returns the arguments or throws a `ValidationError`.
    - `ValidateOrThrowMcpError` turns that error into a protocol error.
  - Each method is proved against a function: `ValidateArguments`, `ArgumentsAfter` and `ConvertFailure`. Lemmas state the source's promises about those functions:
    - the result on success;
    - idempotence;
    - the messages and field names of errors;
    - the lossless protocol error.
- **The HTTP error mapper** (`src/core/errors/error-mapper.ts`) is in module `ErrorMapper`. `MapHttpErrorToMcp` is the chain of substring tests. `MapIsFirstMatchingRule` proves it equal to "the first rule of the table whose pattern occurs in the message decides".
- **The REST client** (`src/infrastructure/revenuecat-client.ts`) is in modules `HttpClient`, `FormUrlencoded` and `Utf8`.
  - `RevenueCatClient.Request` builds the URL step by step, hands one request to `fetch`, and settles the result.
    - `fetch` is a parameter (a function from the request to what it settles with).
    - So is the request id that `crypto.randomUUID()` would draw.
    - The logger is a sequence of entries the client appends to.
  - The query string is the `application/x-www-form-urlencoded` serializer of the WHATWG URL Standard (section 5.2), over UTF-8 (RFC 3629, section 3). Its partner is the parser of section 5.1, with a proved round trip.
  - Module `ErrorPipeline` composes the client's failure message with the mapper. For any status from 100 to 999, the error the client throws maps to the error documented for that status. This holds as long as the response text does not itself contain a pattern the mapper tests earlier.

Shared pieces:

| module | holds |
|---|---|
| `Wrappers` | `Option` |
| `JsonValues` | `Json`, with objects as ordered member lists |
| `Text` | substring search, decimal rendering, `join` |
| `Exceptions` | `McpError`, `ValidationError`, thrown values, `Outcome` |

Three behaviours of the code that a reader might expect otherwise:

- **A missing required field is named "#/required", not by the field.** The error for a missing required field has an empty instance path. So the reported field is the schema path "#/required", not the missing field's name (src/core/validation/validator.ts:77-78). The missing name appears only in the message. See `Validator.MissingRequiredReport`.
- **There is no retry.** The client calls `fetch` once per request. There is no retry, no backoff and no retry classification.
- **Undeclared members are stripped, not rejected.** Under `additionalProperties: false` they are removed, even when validation fails.

## Model

| member | source | states |
|---|---|---|
| Schemas.PropertyIndex | src/core/validation/schemas.ts:4-11 | the index found holds the key and no earlier property does |
| Schemas.Declares | src/core/validation/schemas.ts:4-11 | a key is declared iff its property index is in range |
| Schemas.SnakeCaseKey | src/core/validation/schemas.ts:7-8 | every property key of the schemas is a non-empty run of lower-case letters and underscores (so it needs no JSON Pointer escaping) |
| Schemas.KeyInjective | src/core/validation/schemas.ts:4-11 | distinct fields have distinct keys |
| SchemaShapes.ConventionConforms | src/core/validation/schemas.ts:49-57 | a property following its field's convention has a well-formed schema that strips nothing |
| SchemaShapes.ToolSchemaIntro | src/core/validation/schemas.ts:4-11 | a closed object schema is a tool schema in the following case: its fields are distinct and follow the conventions, exactly the non-required ones are nullable, and every required name is declared |
| SchemaShapes.SharedSchemas | src/core/validation/schemas.ts:124-128 | the non-empty string, the string array and the `store_identifiers` map are well-formed and remove nothing (the map's keys are kept) |
| SchemaShapes.IdParamShape | src/core/validation/schemas.ts:4-11 | the by-id schema is closed, requires `id`, and follows the field conventions |
| SchemaShapes.ProjectIdParamShape | src/core/validation/schemas.ts:14-22 | the project-scoped by-id schema is closed and conventional; exactly the required fields are non-nullable |
| SchemaShapes.CursorParamShape | src/core/validation/schemas.ts:25-32 | the cursor schema is closed, requires nothing and has a nullable cursor |
| SchemaShapes.ProjectCursorParamShape | src/core/validation/schemas.ts:35-43 | the project-scoped cursor schema is closed; `project_id` is required, the cursor nullable |
| SchemaShapes.CreateOfferingShape | src/core/validation/schemas.ts:46-61 | closed, conventional, required names declared, nullable iff optional |
| SchemaShapes.UpdateOfferingShape | src/core/validation/schemas.ts:63-79 | the same for the offering update schema |
| SchemaShapes.CreateEntitlementShape | src/core/validation/schemas.ts:82-96 | the same for the entitlement create schema |
| SchemaShapes.UpdateEntitlementShape | src/core/validation/schemas.ts:98-113 | the same for the entitlement update schema |
| SchemaShapes.CreateProductShape | src/core/validation/schemas.ts:116-132 | the same for the product create schema (`type` required, its enum fixed) |
| SchemaShapes.UpdateProductShape | src/core/validation/schemas.ts:134-151 | the same for the product update schema (`type` nullable) |
| SchemaShapes.CreatePackageShape | src/core/validation/schemas.ts:154-168 | the same for the package create schema (`position` has minimum 0 and no maximum) |
| SchemaShapes.UpdatePackageShape | src/core/validation/schemas.ts:170-185 | the same for the package update schema |
| SchemaShapes.CreatePriceExperimentShape | src/core/validation/schemas.ts:188-198 | the same for the experiment create schema (percentage in [0, 100], required) |
| SchemaShapes.UpdatePriceExperimentShape | src/core/validation/schemas.ts:200-211 | the same for the experiment update schema (percentage nullable and optional, same bounds) |
| ToolRegistry.RegistryNames | src/core/validation/schemas.ts:214-249 | 25 entries, five resources times five operations, and no tool name twice |
| ToolRegistry.ToolsDistinctFrom0 | src/core/validation/schemas.ts:216-220 | the offering tool names differ from every later name |
| ToolRegistry.ToolsDistinctFrom1 | src/core/validation/schemas.ts:223-227 | the entitlement tool names differ from every later name |
| ToolRegistry.ToolsDistinctFrom2 | src/core/validation/schemas.ts:230-234 | the product tool names differ from every later name |
| ToolRegistry.ToolsDistinctFrom3 | src/core/validation/schemas.ts:237-241 | the package tool names differ from every later name |
| ToolRegistry.ToolsDistinctFrom4 | src/core/validation/schemas.ts:244-248 | the price-experiment tool names differ from one another |
| ToolRegistry.RegistrySchemas | src/core/validation/schemas.ts:4-211 | every registry schema is a closed, well-formed tool schema whose fields follow the conventions |
| ToolRegistry.EntriesMapKeys | src/core/validation/validator.ts:42-45 | the map built from entries has exactly their tool names as keys |
| ToolRegistry.EntriesMapSelects | src/core/validation/validator.ts:42-45 | with distinct names, each tool maps to its own entry's schema |
| ToolRegistry.EntriesMapKeeps | src/core/validation/validator.ts:42-45 | an entry not overridden later is the one the map keeps |
| ToolRegistry.CreateRequiresUpdateRelaxes | src/core/validation/schemas.ts:188-211 | the percentage and product type are required on create and optional-but-declared on update; the experiment status is never required |
| ToolRegistry.SchemaByOperation | src/core/validation/schemas.ts:214-249 | Get and Delete use the two-id schema for offerings and products and the one-id schema otherwise; List likewise uses the project-scoped or plain cursor schema |
| SchemaValidation.EscapeToken | src/core/validation/validator.ts:77 | an escaped reference token contains no '/' |
| SchemaValidation.EscapePlain | src/core/validation/validator.ts:77-78 | a token without '~' or '/' is its own escape |
| SchemaValidation.SingleTokenPointer | src/core/validation/validator.ts:77-78 | a one-token path points at "/" and the token |
| SchemaValidation.UnescapeEscape | src/core/validation/validator.ts:77 | unescaping reads back every escaped token (RFC 6901, section 4) |
| SchemaValidation.Pointer | src/core/validation/validator.ts:77 | a pointer is empty iff its path is, and otherwise starts with '/' |
| SchemaValidation.FirstMissing | src/core/validation/validator.ts:82-83 | none is missing iff every required key is present; a reported name is required and absent |
| SchemaValidation.SanitizeItems | src/core/validation/validator.ts:31 | removal inside an array keeps its length |
| SchemaValidation.SanitizeIdempotent | src/core/validation/validator.ts:31 | removing undeclared members twice removes nothing more |
| SchemaValidation.SanitizeItemsIdempotent | src/core/validation/validator.ts:31 | the same, for the items of an array |
| SchemaValidation.SanitizeMembersIdempotent | src/core/validation/validator.ts:31 | the same, for the members of an object |
| SchemaValidation.TransparentUnchanged | src/core/validation/schemas.ts:124-128 | a schema without a closed object anywhere leaves the value unchanged |
| SchemaValidation.TransparentItemsUnchanged | src/core/validation/schemas.ts:53-57 | the same, for array items |
| SchemaValidation.TransparentMembersUnchanged | src/core/validation/schemas.ts:124-128 | the same, for the members of an open map |
| SchemaValidation.LookupSanitized | src/core/validation/validator.ts:31 | a declared member survives removal, cleaned by its own schema |
| SchemaValidation.UndeclaredSanitized | src/core/validation/validator.ts:31 | an undeclared key survives iff `additionalProperties` is a schema |
| SchemaValidation.CheckStable | src/core/validation/validator.ts:71 | a valid value is still valid once cleaned |
| SchemaValidation.CheckItemsStable | src/core/validation/validator.ts:71 | the same, for array items |
| SchemaValidation.CheckAdditionalStable | src/core/validation/validator.ts:71 | the same, for members checked against `additionalProperties` |
| SchemaValidation.CheckPropertiesStable | src/core/validation/validator.ts:71 | the same, for declared properties |
| SchemaValidation.CheckPropertyStable | src/core/validation/validator.ts:71 | the same, for one declared property, a null under `nullable` included |
| SchemaValidation.SanitizeSkips | src/core/validation/validator.ts:31 | an undeclared member of a closed object is dropped wherever it sits |
| SchemaValidation.FirstMissingAgrees | src/core/validation/validator.ts:82-83 | the first missing name depends only on which required keys are present |
| SchemaValidation.CheckPropertiesAgree | src/core/validation/validator.ts:71-74 | property errors depend only on what the declared keys read |
| SchemaValidation.ExtraMemberIgnored | src/core/validation/validator.ts:31 | with `additionalProperties: false`, an undeclared member neither causes nor changes an error, and is removed |
| SchemaValidation.FirstPropertyError | src/core/validation/validator.ts:73-74 | with all required keys present, the first failing declared property gives the object's first error |
| SchemaValidation.EarlierPropertiesPass | src/core/validation/validator.ts:73-74 | properties that pass before the failing one do not change the error reported |
| SchemaValidation.PassingRun | src/core/validation/validator.ts:71-74 | a run of passing declared properties leaves the first error to the properties after it |
| SchemaValidation.ObjectPasses | src/core/validation/validator.ts:71-72 | a closed object with its required members present and every declared property passing is valid |
| SchemaValidation.NullableNull | src/core/validation/schemas.ts:206 | a null member of a `nullable` property is refused iff the property has an `enum`, and then as a value outside it, with null as the data |
| Validator.FieldName | src/core/validation/validator.ts:77-78 | the field is never empty; it is the instance path without its leading '/', else the schema path |
| Validator.ValidateArguments | src/core/validation/validator.ts:59-104 | unknown tool first, then non-object arguments, each with its field and message; success iff the schema check finds no error; only ValidationErrors are thrown |
| Validator.ArgumentsAfter | src/core/validation/validator.ts:71 | an unknown tool or non-object leaves the arguments as they were; on success they are what is returned |
| Validator.KeepDeclared | src/core/validation/validator.ts:102-103 | only declared members are kept, and each key reads what it read before |
| Validator.ToMcpError | src/core/validation/validator.ts:111-121 | the code is InvalidRequest; the message is "Input validation failed: " followed by the reason |
| Validator.ToMcpErrorLossless | src/core/validation/validator.ts:111-121 | field, reason and value can all be read back from the protocol error |
| Validator.ConvertFailure | src/core/validation/validator.ts:129-139 | a result or a non-validation error passes unchanged; a ValidationError becomes its protocol error |
| Validator.Arguments.constructor | src/core/validation/validator.ts:59 | wraps the caller's arguments object |
| Validator.InputValidator.constructor | src/core/validation/validator.ts:26-36 | the validators map is the one built from the registry |
| Validator.InputValidator.CompileValidators | src/core/validation/validator.ts:41-50 | the map becomes the old map with each entry set in order |
| Validator.InputValidator.ValidateToolArguments | src/core/validation/validator.ts:59-104 | returns or throws what ValidateArguments gives, and leaves the caller's object as ArgumentsAfter says |
| Validator.InputValidator.ValidateOrThrowMcpError | src/core/validation/validator.ts:129-139 | the same validation, with a ValidationError converted and any other outcome unchanged |
| Validator.CompiledKeys | src/core/validation/validator.ts:41-50 | the compiled map holds exactly the entries' tool names |
| Validator.CompiledShaped | src/core/validation/validator.ts:41-50 | with distinct names and tool schemas, every compiled schema is a tool schema |
| Validator.CompiledValidators | src/core/validation/validator.ts:41-50 | after construction: exactly the registry's tools, each with its own schema, all closed tool schemas |
| Validator.AcceptedArguments | src/core/validation/validator.ts:102-103 | on success the result is the caller's object with exactly the undeclared members removed, the rest in place and unchanged, nothing added |
| Validator.ValidationIdempotent | src/core/validation/validator.ts:102-103 | validating accepted arguments again succeeds and returns them unchanged |
| Validator.MissingRequiredReport | src/core/validation/validator.ts:77-83 | a missing required field is reported with field "#/required", "Missing required field: name" and the stripped object |
| Validator.RequiredPath | src/core/validation/validator.ts:77-78 | the schema path of a root `required` error is "#/required" |
| Validator.RootKeywordPath | src/core/validation/validator.ts:77-78 | a root keyword's schema path is "#/" and the keyword |
| Validator.PercentageBounds | src/core/validation/schemas.ts:194 | the percentage accepts exactly 0 to 100, reporting the maximum above and the minimum below |
| Validator.MinLengthMessage | src/core/validation/validator.ts:84-85 | `minLength: 1` reads "Must be at least 1 characters long" |
| Validator.TypeMessage | src/core/validation/validator.ts:86-87 | a type error reads "Must be of type string" |
| Validator.MinimumMessage | src/core/validation/validator.ts:90-91 | `minimum: 0` reads "Must be at least 0" |
| Validator.MaximumMessage | src/core/validation/validator.ts:92-93 | `maximum: 100` reads "Must be at most 100" |
| Validator.StatusMessage | src/core/validation/validator.ts:88-89 | the status enum lists "active, inactive, completed" in schema order |
| Validator.FallbackLimits | src/core/validation/validator.ts:84-93 | a zero limit falls back as `\|\|` does: to 1 for a length, to 100 for a maximum |
| Validator.FallbackNames | src/core/validation/validator.ts:82-89 | an empty missing name or type reads "unknown"; an empty enum reads "allowed values" |
| Validator.CreatePriceExperimentValidator | src/core/validation/schemas.ts:244 | the compiled validator of CreatePriceExperiment is its registry schema |
| Validator.PropertyField | src/core/validation/validator.ts:77-78 | an error on a top-level property is reported under the property's own key |
| Validator.PropertyErrorReport | src/core/validation/validator.ts:76-96 | such an error is thrown with the property's key, the described reason and the offending value |
| Validator.PercentageOthersPass | src/core/validation/schemas.ts:191-196 | with a non-empty name, the required fields are present and name, description and status pass |
| Validator.PercentageProperty | src/core/validation/schemas.ts:194 | a percentage over 100 breaks `maximum` at the property's own path |
| Validator.PercentageTooLargeError | src/core/validation/schemas.ts:188-198 | then the whole object's first error is that one |
| Validator.PercentageTooLarge | src/core/validation/validator.ts:92-96 | CreatePriceExperiment with a percentage over 100 is refused on `treatment_group_percentage` with "Must be at most 100" and the value |
| Validator.NullEnumProperty | src/core/validation/schemas.ts:206 | null under `nullable` breaks the property's `enum` at the property's own path |
| Validator.NullPasses | src/core/validation/schemas.ts:207 | null under `nullable` passes a property with no `enum` |
| Validator.UpdateValidators | src/core/validation/schemas.ts:232-246 | the compiled validators of UpdatePriceExperiment and UpdateProduct are their registry schemas |
| Validator.NullStatusError | src/core/validation/schemas.ts:200-211 | an id and a null status: the object's first error is the status `enum`, with null as the data |
| Validator.NullStatusRefused | src/core/validation/schemas.ts:206 | UpdatePriceExperiment with a null status is refused on `status` with "Must be one of: active, inactive, completed" and null as the value |
| Validator.NullPercentageAccepted | src/core/validation/schemas.ts:207 | UpdatePriceExperiment with a null percentage is accepted: `minimum` and `maximum` do not constrain null |
| Validator.NullTypeError | src/core/validation/schemas.ts:134-151 | a project id, an id and a null type: the object's first error is the type `enum`, with null as the data |
| Validator.ProductTypeMessage | src/core/validation/validator.ts:88-89 | the product type enum lists "subscription, non_consumable, consumable" in schema order |
| Validator.NullTypeRefused | src/core/validation/schemas.ts:142 | UpdateProduct with a null type is refused on `type` with "Must be one of: subscription, non_consumable, consumable" and null as the value |
| ErrorMapper.MapHttpErrorToMcp | src/core/errors/error-mapper.ts:3-21 | internal error iff no pattern occurs; data present iff "HTTP 400" occurs, and it is then the message |
| ErrorMapper.FirstMatch | src/core/errors/error-mapper.ts:4-18 | the rule found matches and no earlier one does |
| ErrorMapper.MapIsFirstMatchingRule | src/core/errors/error-mapper.ts:3-21 | the chain equals the table read as "the first rule whose pattern occurs decides; none gives the fallback" |
| ErrorMapper.EarlierPatternWins | src/core/errors/error-mapper.ts:4-15 | a message with both "HTTP 400" and "HTTP 404" is a validation error |
| ErrorMapper.StatusPrefixMatches | src/core/errors/error-mapper.ts:4 | "HTTP 4001: x" counts as a 400, since the test is by substring |
| ErrorMapper.NoMessageIsInternal | src/core/errors/error-mapper.ts:20 | a value without a message maps to the internal error |
| JsonValues.Lookup | src/core/validation/validator.ts:71 | a key reads a value iff the object has it |
| JsonValues.LookupSkips | src/core/validation/validator.ts:71 | a member with another key does not change what a key reads |
| Text.IncludesAfterHeader | src/core/errors/error-mapper.ts:4 | when no later character of the header starts the pattern, an occurrence is at the start or in the tail |
| Text.NatToString | src/infrastructure/revenuecat-client.ts:38 | the rendering is non-empty and all digits |
| Text.DecimalRoundTrip | src/infrastructure/revenuecat-client.ts:38 | reading the digits back gives the number |
| Text.NatToStringInjective | src/infrastructure/revenuecat-client.ts:38 | distinct statuses render differently |
| Text.ThreeDigits | src/infrastructure/revenuecat-client.ts:38 | statuses 100 to 999 render as three digits |
| Text.JoinThree | src/core/validation/validator.ts:89 | three values are joined with the separator between each two |
| HttpClient.RequestBody | src/infrastructure/revenuecat-client.ts:32 | a body is sent iff one is given and it is truthy, and it is then that body |
| HttpClient.CallLog | src/infrastructure/revenuecat-client.ts:21-42 | the first entry is the start; every entry carries the call's request id |
| HttpClient.RevenueCatClient.constructor | src/infrastructure/revenuecat-client.ts:5-8 | keeps the configuration; nothing logged or sent yet |
| HttpClient.RevenueCatClient.Request | src/infrastructure/revenuecat-client.ts:10-44 | exactly one request to `fetch`; the result and the log entries follow from what it settles with |
| HttpClient.UrlShape | src/infrastructure/revenuecat-client.ts:16-20 | without params the URL is base and endpoint; empty params leave a trailing '?' |
| HttpClient.UrlQueryReadsBack | src/infrastructure/revenuecat-client.ts:16-20 | the URL splits at its first '?' into base and endpoint, and a query that parses back to the params |
| HttpClient.HeadersExact | src/infrastructure/revenuecat-client.ts:27-31 | exactly three headers: bearer token, JSON content type, the call's request id |
| HttpClient.NonOkIgnoresJson | src/infrastructure/revenuecat-client.ts:35-39 | a non-ok response throws "HTTP status: text" whatever its JSON |
| HttpClient.OkReturnsJson | src/infrastructure/revenuecat-client.ts:41-43 | an ok response gives what reading its JSON gives |
| HttpClient.HttpErrorMessageReadsBack | src/infrastructure/revenuecat-client.ts:38 | the message is "HTTP ", three digits reading back as the status, ": " and the text unchanged |
| FormUrlencoded.EncodeByte | src/infrastructure/revenuecat-client.ts:18 | one to three characters, none a separator |
| FormUrlencoded.PercentEncode | src/infrastructure/revenuecat-client.ts:18 | the encoding holds no separator |
| FormUrlencoded.SerializeString | src/infrastructure/revenuecat-client.ts:18 | a serialized name or value holds no separator |
| FormUrlencoded.IndexOf | src/infrastructure/revenuecat-client.ts:19 | the index found holds the character, and no earlier one does |
| FormUrlencoded.ReplacePlus | src/infrastructure/revenuecat-client.ts:18 | reading '+' as a space keeps the length |
| FormUrlencoded.HexValue | src/infrastructure/revenuecat-client.ts:18 | a hex digit's value is below 16 |
| FormUrlencoded.ReplacePlusAppend | src/infrastructure/revenuecat-client.ts:18 | reading '+' distributes over concatenation |
| FormUrlencoded.EncodedByteDecodes | src/infrastructure/revenuecat-client.ts:18 | an encoded byte decodes to itself, whatever follows |
| FormUrlencoded.PercentRoundTrip | src/infrastructure/revenuecat-client.ts:18 | percent-decoding reads back the encoded bytes |
| FormUrlencoded.ComponentRoundTrip | src/infrastructure/revenuecat-client.ts:18 | a serialized name or value reads back as itself |
| FormUrlencoded.IndexAfter | src/infrastructure/revenuecat-client.ts:19 | the first separator after a separator-free prefix is right after it |
| FormUrlencoded.IndexAbsent | src/infrastructure/revenuecat-client.ts:19 | a string without the character has its first one at its end |
| FormUrlencoded.PairRoundTrip | src/infrastructure/revenuecat-client.ts:18 | a serialized pair reads back as itself |
| FormUrlencoded.SerializedPairSafe | src/infrastructure/revenuecat-client.ts:18 | a serialized pair is non-empty and holds no '&' |
| FormUrlencoded.ParseOne | src/infrastructure/revenuecat-client.ts:18 | a query of one '&'-free sequence holds that sequence's pair |
| FormUrlencoded.ParseCons | src/infrastructure/revenuecat-client.ts:18 | a query starting with such a sequence holds its pair, then the rest's |
| FormUrlencoded.ParsePairAlone | src/infrastructure/revenuecat-client.ts:18 | one serialized pair parses back as that pair |
| FormUrlencoded.ParsePairThen | src/infrastructure/revenuecat-client.ts:18 | a serialized pair, '&' and a query parse as the pair, then the query's pairs |
| FormUrlencoded.ParseSerialize | src/infrastructure/revenuecat-client.ts:18 | what the serializer writes, the parser reads back: the same pairs in the same order |
| Utf8.EncodeChar | src/infrastructure/revenuecat-client.ts:18 | one to four bytes; one byte, equal to the code point, exactly for ASCII |
| Utf8.DecodeFirst | src/infrastructure/revenuecat-client.ts:18 | a decoded character takes one to four bytes of the input |
| Utf8.DecodeFirstEncodeChar | src/infrastructure/revenuecat-client.ts:18 | decoding reads back the first encoded character |
| Utf8.DecodeEncode | src/infrastructure/revenuecat-client.ts:18 | every string reads back from its UTF-8 encoding |
| Utf8.EncodeAppend | src/infrastructure/revenuecat-client.ts:18 | encoding distributes over concatenation |
| Utf8.EncodeAscii | src/infrastructure/revenuecat-client.ts:18 | an ASCII string encodes as its own code points |
| ErrorPipeline.HeaderOccurrence | src/infrastructure/revenuecat-client.ts:38 | an eight-character "H..." pattern occurs in the client's error message iff it is the status's own "HTTP nnn" or occurs in the text |
| ErrorPipeline.RulePatterns | src/core/errors/error-mapper.ts:4-16 | each pattern is "HTTP " and a status's rendering |
| ErrorPipeline.PatternFires | src/core/errors/error-mapper.ts:4-16 | the pattern for status n occurs iff the status is n or the text holds it |
| ErrorPipeline.HttpErrorClassified | src/infrastructure/revenuecat-client.ts:38 | the client's error for a status maps to the error documented for it, unless the text holds an earlier-checked pattern |
| ErrorPipeline.ClientFailureClassified | src/infrastructure/revenuecat-client.ts:35-39 | end to end: a non-ok response throws, and the mapped error is the documented one |

## Left out

- Retry and backoff: the code has none, and one call makes one `fetch`.
- `fetch`, `response.text()`, `response.json()` and `crypto.randomUUID()` are parameters of `Request`. A failure of `response.text()` is not modelled: the text is part of the response.
- Logging: the client's log holds the event and request id of each logger call. The pino logger, its levels and its serialization are not part of this model. `src/infrastructure/logger.ts` is not part of this model.
- `JSON.stringify` of the body: the request carries the body as a `Json` value.
- The SDK's `McpError` class and its `name` property: the protocol error is a value with code, message and data. Its `message` is the message as the code gives it. For the validator's error, which is a plain object (src/core/validation/validator.ts:112-120), that is the real `message`. The mapper constructs the SDK class instead, whose `.message` reads "MCP error <code>: " followed by the constructor's message. There the model's `message` is the constructor's argument.
- The compile-failure rethrow in `compileValidators`: the schema engine is a total function here, so compiling cannot fail.
- The "Invalid value" default message: every violation the registry can raise has a specialised message, so that branch cannot be reached.
- JavaScript numbers are `real` values used only in comparisons. Integral bounds are rendered with `IntToString`. Other number formatting is not modelled.
- Validator.Describe: `minLength` as AJV counts it, in code points, is modelled as the length of a Dafny string, which is a sequence of Unicode scalar values. Strings with lone surrogates cannot be expressed.
- Validator.ValidateArguments: `undefined` arguments are modelled as `JNull`. The thrown `ValidationError('args', …)` then carries null as its value, where the source's carries `undefined`.
- Validator.ValidateArguments: object members are checked in insertion order. JavaScript enumerates integer-like keys ("0", "1", …) first, in ascending order, and AJV walks `additionalProperties` in that order. No declared key is integer-like, but the keys of an open `store_identifiers` map are the caller's. When two of its values are invalid, the model may name another one first. For `store_identifiers: {"b": "", "1": ""}` the model reports `store_identifiers/b` and the source `store_identifiers/1`. The reason and the outcome (refused) are the same.
- HttpClient.RevenueCatClient.Request: query parameters are serialized in insertion order. Parameters with integer-like keys would come first in JavaScript.
- ErrorMapper.MapHttpErrorToMcp: the thrown value is an object whose `message` is a string or absent. The source takes any value. A thrown null or undefined, or a `message` that is a number or another value without `includes`, makes the source throw a TypeError instead of mapping. An array `message` is tested by `Array.prototype.includes`, element by element: `["HTTP 400"]` matches and `["x HTTP 400"]` does not. None of these inputs can be expressed in the model.
- Utf8.DecodeFirst: the URL parser's decoding rejects ill-formed UTF-8 (giving None), where the standard substitutes U+FFFD. The serializer's output is always well-formed, so the round trip is unaffected.
- ToolRegistry.RegistryNames: the 25 names are proved distinct, and their count is proved. The schema each operation gets is proved separately, by SchemaByOperation. That each name is the operation followed by the resource is not proved.
- ErrorPipeline.HttpErrorClassified: it covers statuses from 100 to 999. A status of another width is outside what `fetch` reports.
- The use cases under `src/core/use-cases`: they forward one fixed method and path each. Two of them pass `PUT`, which is outside the client's method type, so the model cannot express that call.
- `src/presentation/mcp-server.ts`, `src/index.ts`, `src/core/config.ts` and the entities are not part of this model.
