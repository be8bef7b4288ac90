/**
 * The schema validator the InputValidator delegates to, as one generic
 * interpreter of the constraint tree. It is configured as in
 * src/core/validation/validator.ts:27-32: all errors are collected (only the
 * first one is used), failing data is attached to each error, and members an
 * object schema does not declare are removed when its `additionalProperties`
 * is `false`.
 *
 * The order in which errors are found is fixed as follows. For an object:
 * its type, then `required` in list order, then the values of undeclared
 * members against an `additionalProperties` schema (in member order), then
 * the declared properties (in declaration order). For a string: type, `enum`,
 * `minLength`. For a number: type, `maximum`, `minimum`. For an array: type,
 * then the items in index order. For null under `nullable`: `enum` alone.
 * This is the order AJV follows for the shapes the registry uses, where no
 * string schema has both `enum` and `minLength`; for one that had both, AJV
 * would report `enum` before a wrong type.
 */
module SchemaValidation {
  import opened Wrappers
  import opened JsonValues
  import opened Text
  import opened Schemas

  // ---------------------------------------------------------------------
  // Error locations: JSON Pointers (RFC 6901, section 3)
  // ---------------------------------------------------------------------

  /** A reference token: '~' is written "~0" and '/' is written "~1". */
  function EscapeToken(t: string): (r: string)
    ensures '/' !in r
  {
    if t == [] then []
    else (if t[0] == '~' then "~0" else if t[0] == '/' then "~1" else [t[0]]) + EscapeToken(t[1..])
  }

  /** Reading a reference token back. */
  function UnescapeToken(r: string): string {
    if r == [] then []
    else if |r| >= 2 && r[0] == '~' && r[1] == '0' then "~" + UnescapeToken(r[2..])
    else if |r| >= 2 && r[0] == '~' && r[1] == '1' then "/" + UnescapeToken(r[2..])
    else [r[0]] + UnescapeToken(r[1..])
  }

  /** A token with neither '~' nor '/' is its own escape. */
  lemma {:induction false} EscapePlain(t: string)
    requires forall i | 0 <= i < |t| :: t[i] != '~' && t[i] != '/'
    ensures EscapeToken(t) == t
  {
    if t != [] {
      assert forall i | 0 <= i < |t[1..]| :: t[1..][i] == t[i + 1];
      EscapePlain(t[1..]);
      assert [t[0]] + t[1..] == t;
    }
  }

  /** A path of one plain token points at "/" and the token. */
  lemma SingleTokenPointer(t: string)
    requires forall i | 0 <= i < |t| :: t[i] != '~' && t[i] != '/'
    ensures Pointer([t]) == "/" + t
  {
    EscapePlain(t);
    assert Pointer([t]) == "/" + t + Pointer([]);
  }

  lemma {:induction false} UnescapeEscape(t: string)
    ensures UnescapeToken(EscapeToken(t)) == t
  {
    if t != [] {
      var head := if t[0] == '~' then "~0" else if t[0] == '/' then "~1" else [t[0]];
      assert EscapeToken(t) == head + EscapeToken(t[1..]);
      UnescapeEscape(t[1..]);
      if t[0] == '~' {
        assert (head + EscapeToken(t[1..]))[2..] == EscapeToken(t[1..]);
      } else if t[0] == '/' {
        assert (head + EscapeToken(t[1..]))[2..] == EscapeToken(t[1..]);
      } else {
        assert (head + EscapeToken(t[1..]))[1..] == EscapeToken(t[1..]);
      }
    }
  }

  /** The pointer to a location given by its path of keys and indices. */
  function Pointer(path: seq<string>): (r: string)
    ensures r == "" <==> path == []
    ensures path != [] ==> r[0] == '/'
  {
    if path == [] then "" else "/" + EscapeToken(path[0]) + Pointer(path[1..])
  }

  // ---------------------------------------------------------------------
  // Errors
  // ---------------------------------------------------------------------

  /** A violated keyword, with the parameter the validator reports for it. */
  datatype Violation =
    | MissingProperty(missingProperty: string)
    | WrongType(expected: string)
    | TooShort(minLength: nat)
    | NotAllowed(allowedValues: seq<string>)
    | TooLarge(limit: int)
    | TooSmall(limit: int)

  function Keyword(v: Violation): string {
    match v
    case MissingProperty(_) => "required"
    case WrongType(_) => "type"
    case TooShort(_) => "minLength"
    case NotAllowed(_) => "enum"
    case TooLarge(_) => "maximum"
    case TooSmall(_) => "minimum"
  }

  /** One validation error: what failed, where in the data, where in the schema, and the data there. */
  datatype SchemaError = SchemaError(violation: Violation, instancePath: string, schemaPath: string, data: Json)

  function Report(v: Violation, at: seq<string>, schemaAt: seq<string>, data: Json): SchemaError {
    SchemaError(v, Pointer(at), "#" + Pointer(schemaAt + [Keyword(v)]), data)
  }

  /** The first name of `required` that `ms` has no member for. */
  function FirstMissing(required: seq<Field>, ms: seq<Member>): (r: Option<Field>)
    ensures r.None? <==> forall f | f in required :: HasKey(ms, f.Key())
    ensures r.Some? ==> r.value in required && !HasKey(ms, r.value.Key())
  {
    if required == [] then None
    else if !HasKey(ms, required[0].Key()) then Some(required[0])
    else FirstMissing(required[1..], ms)
  }

  // ---------------------------------------------------------------------
  // Removal of undeclared members
  // ---------------------------------------------------------------------

  /**
   * The value after validation has run over it: every object whose schema
   * has `additionalProperties: false` loses its undeclared members; nothing
   * else changes, and nothing is added. This happens whether or not the value
   * is valid.
   */
  function Sanitize(s: Schema, v: Json): Json
    decreases s, 2
  {
    match s
    case ArraySchema(_) => if v.JArr? then JArr(SanitizeItems(s, v.items)) else v
    case ObjectSchema(_, _, _) => if v.JObj? then JObj(SanitizeMembers(s, v.members)) else v
    case _ => v
  }

  function SanitizeItems(s: Schema, xs: seq<Json>): (r: seq<Json>)
    requires s.ArraySchema?
    ensures |r| == |xs|
    decreases s, 1, |xs|
  {
    if xs == [] then [] else [Sanitize(s.items, xs[0])] + SanitizeItems(s, xs[1..])
  }

  function SanitizeMembers(s: Schema, ms: seq<Member>): seq<Member>
    requires s.ObjectSchema?
    decreases s, 1, |ms|
  {
    if ms == [] then []
    else
      var k := PropertyIndex(s.properties, ms[0].key);
      var rest := SanitizeMembers(s, ms[1..]);
      if k < |s.properties| then [Member(ms[0].key, Sanitize(s.properties[k].schema, ms[0].value))] + rest
      else match s.additional
        case Closed => rest
        case Open(values) => [Member(ms[0].key, Sanitize(values, ms[0].value))] + rest
  }

  // ---------------------------------------------------------------------
  // Checking
  // ---------------------------------------------------------------------

  /**
   * The first error of value `v` against schema `s`, or None when `v` is
   * valid. `at` and `schemaAt` are the paths of `v` and `s` from the root.
   */
  function Check(s: Schema, v: Json, at: seq<string>, schemaAt: seq<string>): Option<SchemaError>
    decreases s, 2
  {
    match s
    case StringSchema(minLength, enumValues) =>
      if !v.JStr? then Some(Report(WrongType("string"), at, schemaAt, v))
      else if enumValues.Some? && v.s !in enumValues.value then Some(Report(NotAllowed(enumValues.value), at, schemaAt, v))
      else if minLength.Some? && |v.s| < minLength.value then Some(Report(TooShort(minLength.value), at, schemaAt, v))
      else None
    case NumberSchema(minimum, maximum) =>
      if !v.JNum? then Some(Report(WrongType("number"), at, schemaAt, v))
      else if maximum.Some? && v.n > maximum.value as real then Some(Report(TooLarge(maximum.value), at, schemaAt, v))
      else if minimum.Some? && v.n < minimum.value as real then Some(Report(TooSmall(minimum.value), at, schemaAt, v))
      else None
    case BooleanSchema =>
      if !v.JBool? then Some(Report(WrongType("boolean"), at, schemaAt, v)) else None
    case ArraySchema(_) =>
      if !v.JArr? then Some(Report(WrongType("array"), at, schemaAt, v))
      else CheckItems(s, v.items, 0, at, schemaAt)
    case ObjectSchema(_, required, _) =>
      if !v.JObj? then Some(Report(WrongType("object"), at, schemaAt, v))
      else match FirstMissing(required, v.members)
        case Some(f) => Some(Report(MissingProperty(f.Key()), at, schemaAt, Sanitize(s, v)))
        case None =>
          var e := CheckAdditional(s, v.members, at, schemaAt);
          if e.Some? then e else CheckProperties(s, 0, v.members, at, schemaAt)
  }

  function CheckItems(s: Schema, xs: seq<Json>, index: nat, at: seq<string>, schemaAt: seq<string>): Option<SchemaError>
    requires s.ArraySchema?
    decreases s, 1, |xs|
  {
    if xs == [] then None
    else
      var e := Check(s.items, xs[0], at + [NatToString(index)], schemaAt + ["items"]);
      if e.Some? then e else CheckItems(s, xs[1..], index + 1, at, schemaAt)
  }

  function CheckAdditional(s: Schema, ms: seq<Member>, at: seq<string>, schemaAt: seq<string>): Option<SchemaError>
    requires s.ObjectSchema?
    decreases s, 1, |ms|
  {
    match s.additional
    case Closed => None
    case Open(values) =>
      if ms == [] then None
      else
        var e :=
          if Declares(s.properties, ms[0].key) then None
          else Check(values, ms[0].value, at + [ms[0].key], schemaAt + ["additionalProperties"]);
        if e.Some? then e else CheckAdditional(s, ms[1..], at, schemaAt)
  }

  /**
   * The error of one declared property, if its member is present. A
   * `nullable` property's type also admits null, and null is then held
   * only to the keywords that apply to every type.
   */
  function CheckProperty(p: Property, ms: seq<Member>, at: seq<string>, schemaAt: seq<string>): Option<SchemaError>
    decreases p, 0
  {
    match Lookup(ms, p.name())
    case None => None
    case Some(x) =>
      if x == JNull && p.nullable then CheckNull(p.schema, at + [p.name()], schemaAt + ["properties", p.name()])
      else Check(p.schema, x, at + [p.name()], schemaAt + ["properties", p.name()])
  }

  /**
   * Null against a schema whose type admits it. Of the keywords the
   * registry uses, only `enum` applies to values of every type; the others
   * constrain strings, numbers, arrays or objects only. No `enum` lists null,
   * so an `enum` refuses it.
   */
  function CheckNull(s: Schema, at: seq<string>, schemaAt: seq<string>): Option<SchemaError> {
    if s.StringSchema? && s.enumValues.Some? then Some(Report(NotAllowed(s.enumValues.value), at, schemaAt, JNull))
    else None
  }

  /** A present null under `nullable` is refused exactly by an `enum`, and then as a value outside it. */
  lemma NullableNull(p: Property, ms: seq<Member>, at: seq<string>, schemaAt: seq<string>)
    requires p.nullable && Lookup(ms, p.name()) == Some(JNull)
    ensures CheckProperty(p, ms, at, schemaAt).None? <==> !(p.schema.StringSchema? && p.schema.enumValues.Some?)
    ensures CheckProperty(p, ms, at, schemaAt).Some? ==>
      CheckProperty(p, ms, at, schemaAt).value.violation == NotAllowed(p.schema.enumValues.value) &&
      CheckProperty(p, ms, at, schemaAt).value.data == JNull
  {
  }

  function CheckProperties(s: Schema, i: nat, ms: seq<Member>, at: seq<string>, schemaAt: seq<string>): Option<SchemaError>
    requires s.ObjectSchema? && i <= |s.properties|
    decreases s, 1, |s.properties| - i
  {
    if i == |s.properties| then None
    else
      var e := CheckProperty(s.properties[i], ms, at, schemaAt);
      if e.Some? then e else CheckProperties(s, i + 1, ms, at, schemaAt)
  }

  // ---------------------------------------------------------------------
  // Properties of removal
  // ---------------------------------------------------------------------

  /** Removing undeclared members twice removes nothing more. */
  lemma {:induction false} SanitizeIdempotent(s: Schema, v: Json)
    ensures Sanitize(s, Sanitize(s, v)) == Sanitize(s, v)
    decreases s, 2
  {
    match s
    case ArraySchema(_) => if v.JArr? { SanitizeItemsIdempotent(s, v.items); }
    case ObjectSchema(_, _, _) => if v.JObj? { SanitizeMembersIdempotent(s, v.members); }
    case _ =>
  }

  lemma {:induction false} SanitizeItemsIdempotent(s: Schema, xs: seq<Json>)
    requires s.ArraySchema?
    ensures SanitizeItems(s, SanitizeItems(s, xs)) == SanitizeItems(s, xs)
    decreases s, 1, |xs|
  {
    if xs != [] {
      var ys := SanitizeItems(s, xs);
      assert ys == [Sanitize(s.items, xs[0])] + SanitizeItems(s, xs[1..]);
      assert ys[0] == Sanitize(s.items, xs[0]) && ys[1..] == SanitizeItems(s, xs[1..]);
      SanitizeIdempotent(s.items, xs[0]);
      SanitizeItemsIdempotent(s, xs[1..]);
    }
  }

  lemma {:induction false} SanitizeMembersIdempotent(s: Schema, ms: seq<Member>)
    requires s.ObjectSchema?
    ensures SanitizeMembers(s, SanitizeMembers(s, ms)) == SanitizeMembers(s, ms)
    decreases s, 1, |ms|
  {
    if ms != [] {
      var k := PropertyIndex(s.properties, ms[0].key);
      var rest := SanitizeMembers(s, ms[1..]);
      SanitizeMembersIdempotent(s, ms[1..]);
      if k < |s.properties| {
        var head := Member(ms[0].key, Sanitize(s.properties[k].schema, ms[0].value));
        assert SanitizeMembers(s, ms) == [head] + rest;
        SanitizeIdempotent(s.properties[k].schema, ms[0].value);
        assert ([head] + rest)[1..] == rest;
      } else if s.additional.Open? {
        var head := Member(ms[0].key, Sanitize(s.additional.values, ms[0].value));
        assert SanitizeMembers(s, ms) == [head] + rest;
        SanitizeIdempotent(s.additional.values, ms[0].value);
        assert ([head] + rest)[1..] == rest;
      }
    }
  }

  /** A schema with no `additionalProperties: false` anywhere leaves every value as it is. */
  lemma {:induction false} TransparentUnchanged(s: Schema, v: Json)
    requires Transparent(s)
    ensures Sanitize(s, v) == v
    decreases s, 2
  {
    match s
    case ArraySchema(_) => if v.JArr? { TransparentItemsUnchanged(s, v.items); }
    case ObjectSchema(_, _, _) => if v.JObj? { TransparentMembersUnchanged(s, v.members); }
    case _ =>
  }

  lemma {:induction false} TransparentItemsUnchanged(s: Schema, xs: seq<Json>)
    requires s.ArraySchema? && Transparent(s)
    ensures SanitizeItems(s, xs) == xs
    decreases s, 1, |xs|
  {
    if xs != [] {
      TransparentUnchanged(s.items, xs[0]);
      TransparentItemsUnchanged(s, xs[1..]);
      assert [xs[0]] + xs[1..] == xs;
    }
  }

  lemma {:induction false} TransparentMembersUnchanged(s: Schema, ms: seq<Member>)
    requires s.ObjectSchema? && Transparent(s)
    ensures SanitizeMembers(s, ms) == ms
    decreases s, 1, |ms|
  {
    if ms != [] {
      var k := PropertyIndex(s.properties, ms[0].key);
      TransparentMembersUnchanged(s, ms[1..]);
      if k < |s.properties| {
        TransparentUnchanged(s.properties[k].schema, ms[0].value);
      } else {
        TransparentUnchanged(s.additional.values, ms[0].value);
      }
      assert [ms[0]] + ms[1..] == ms;
    }
  }

  /** A declared member survives removal, its value cleaned by the property's own schema. */
  lemma {:induction false} LookupSanitized(s: Schema, ms: seq<Member>, key: string)
    requires s.ObjectSchema? && Declares(s.properties, key)
    ensures Lookup(SanitizeMembers(s, ms), key) ==
            match Lookup(ms, key)
            case None => None
            case Some(x) => Some(Sanitize(s.properties[PropertyIndex(s.properties, key)].schema, x))
    decreases |ms|
  {
    if ms != [] {
      LookupSanitized(s, ms[1..], key);
      var k := PropertyIndex(s.properties, ms[0].key);
      var rest := SanitizeMembers(s, ms[1..]);
      if k < |s.properties| {
        var head := Member(ms[0].key, Sanitize(s.properties[k].schema, ms[0].value));
        assert SanitizeMembers(s, ms) == [head] + rest;
        assert ([head] + rest)[1..] == rest;
      } else if s.additional.Open? {
        var head := Member(ms[0].key, Sanitize(s.additional.values, ms[0].value));
        assert SanitizeMembers(s, ms) == [head] + rest;
        assert ([head] + rest)[1..] == rest;
      }
    }
  }

  /** An undeclared key is kept exactly when the object's `additionalProperties` is a schema. */
  lemma {:induction false} UndeclaredSanitized(s: Schema, ms: seq<Member>, key: string)
    requires s.ObjectSchema? && !Declares(s.properties, key)
    ensures HasKey(SanitizeMembers(s, ms), key) <==> s.additional.Open? && HasKey(ms, key)
    decreases |ms|
  {
    if ms != [] {
      UndeclaredSanitized(s, ms[1..], key);
      var k := PropertyIndex(s.properties, ms[0].key);
      var rest := SanitizeMembers(s, ms[1..]);
      if k < |s.properties| {
        var head := Member(ms[0].key, Sanitize(s.properties[k].schema, ms[0].value));
        assert SanitizeMembers(s, ms) == [head] + rest;
        assert ([head] + rest)[1..] == rest;
        assert Lookup(ms, key) == Lookup(ms[1..], key);
      } else if s.additional.Open? {
        var head := Member(ms[0].key, Sanitize(s.additional.values, ms[0].value));
        assert SanitizeMembers(s, ms) == [head] + rest;
        assert ([head] + rest)[1..] == rest;
        assert Lookup([head] + rest, key).Some? <==> ms[0].key == key || Lookup(rest, key).Some?;
        assert Lookup(ms, key).Some? <==> ms[0].key == key || Lookup(ms[1..], key).Some?;
      } else {
        assert Lookup(ms, key).Some? ==> HasKey(ms[1..], key) || ms[0].key == key;
      }
    }
  }

  // ---------------------------------------------------------------------
  // Stability: a valid value is still valid once cleaned
  // ---------------------------------------------------------------------

  lemma {:induction false} CheckStable(s: Schema, v: Json, at: seq<string>, schemaAt: seq<string>)
    requires WellFormed(s)
    requires Check(s, v, at, schemaAt).None?
    ensures Check(s, Sanitize(s, v), at, schemaAt).None?
    decreases s, 2
  {
    match s
    case ArraySchema(_) =>
      CheckItemsStable(s, v.items, 0, at, schemaAt);
    case ObjectSchema(props, required, _) =>
      var ms := v.members;
      var cleaned := SanitizeMembers(s, ms);
      forall f | f in required
        ensures HasKey(cleaned, f.Key())
      {
        var k :| 0 <= k < |props| && props[k].field == f;
        assert props[k].name() == f.Key();
        LookupSanitized(s, ms, f.Key());
      }
      CheckAdditionalStable(s, ms, at, schemaAt);
      CheckPropertiesStable(s, 0, ms, at, schemaAt);
    case _ =>
  }

  lemma {:induction false} CheckItemsStable(s: Schema, xs: seq<Json>, index: nat, at: seq<string>, schemaAt: seq<string>)
    requires s.ArraySchema? && WellFormed(s)
    requires CheckItems(s, xs, index, at, schemaAt).None?
    ensures CheckItems(s, SanitizeItems(s, xs), index, at, schemaAt).None?
    decreases s, 1, |xs|
  {
    if xs != [] {
      var ys := SanitizeItems(s, xs);
      assert ys == [Sanitize(s.items, xs[0])] + SanitizeItems(s, xs[1..]);
      assert ys[0] == Sanitize(s.items, xs[0]) && ys[1..] == SanitizeItems(s, xs[1..]);
      CheckStable(s.items, xs[0], at + [NatToString(index)], schemaAt + ["items"]);
      CheckItemsStable(s, xs[1..], index + 1, at, schemaAt);
    }
  }

  lemma {:induction false} CheckAdditionalStable(s: Schema, ms: seq<Member>, at: seq<string>, schemaAt: seq<string>)
    requires s.ObjectSchema? && WellFormed(s)
    requires CheckAdditional(s, ms, at, schemaAt).None?
    ensures CheckAdditional(s, SanitizeMembers(s, ms), at, schemaAt).None?
    decreases s, 1, |ms|
  {
    if s.additional.Open? && ms != [] {
      var k := PropertyIndex(s.properties, ms[0].key);
      var rest := SanitizeMembers(s, ms[1..]);
      CheckAdditionalStable(s, ms[1..], at, schemaAt);
      var head :=
        if k < |s.properties| then Member(ms[0].key, Sanitize(s.properties[k].schema, ms[0].value))
        else Member(ms[0].key, Sanitize(s.additional.values, ms[0].value));
      assert SanitizeMembers(s, ms) == [head] + rest;
      assert ([head] + rest)[1..] == rest;
      if k == |s.properties| {
        CheckStable(s.additional.values, ms[0].value, at + [ms[0].key], schemaAt + ["additionalProperties"]);
      }
    }
  }

  lemma {:induction false} CheckPropertiesStable(s: Schema, i: nat, ms: seq<Member>, at: seq<string>, schemaAt: seq<string>)
    requires s.ObjectSchema? && WellFormed(s) && i <= |s.properties|
    requires CheckProperties(s, i, ms, at, schemaAt).None?
    ensures CheckProperties(s, i, SanitizeMembers(s, ms), at, schemaAt).None?
    decreases s, 1, |s.properties| - i
  {
    if i < |s.properties| {
      var p, ns := s.properties[i], SanitizeMembers(s, ms);
      SanitizedProperty(s, i, ms);
      PropertiesStep(s, i, ms, at, schemaAt);
      CheckPropertyStable(p, ms, ns, at, schemaAt);
      CheckPropertiesStable(s, i + 1, ms, at, schemaAt);
      assert CheckProperties(s, i, ns, at, schemaAt) == CheckProperties(s, i + 1, ns, at, schemaAt);
    }
  }

  /** After removal, declared property `i` reads its old value, cleaned by its own schema. */
  lemma SanitizedProperty(s: Schema, i: nat, ms: seq<Member>)
    requires s.ObjectSchema? && WellFormed(s) && i < |s.properties|
    ensures Lookup(SanitizeMembers(s, ms), s.properties[i].name()) ==
            match Lookup(ms, s.properties[i].name())
            case None => None
            case Some(x) => Some(Sanitize(s.properties[i].schema, x))
  {
    var p := s.properties[i];
    forall j | 0 <= j < i
      ensures s.properties[j].name() != p.name()
    {
      if s.properties[j].name() == p.name() {
        KeyInjective(s.properties[j].field, p.field);
      }
    }
    assert PropertyIndex(s.properties, p.name()) == i;
    LookupSanitized(s, ms, p.name());
  }

  /** A property that passes still passes once its member's value is stripped. */
  lemma CheckPropertyStable(p: Property, ms: seq<Member>, ns: seq<Member>, at: seq<string>, schemaAt: seq<string>)
    requires WellFormed(p.schema)
    requires Lookup(ns, p.name()) == match Lookup(ms, p.name()) case None => None case Some(x) => Some(Sanitize(p.schema, x))
    requires CheckProperty(p, ms, at, schemaAt).None?
    ensures CheckProperty(p, ns, at, schemaAt).None?
  {
    if Lookup(ms, p.name()).Some? {
      var x := Lookup(ms, p.name()).value;
      if x == JNull && p.nullable {
        assert Sanitize(p.schema, x) == JNull;
      } else {
        CheckStable(p.schema, x, at + [p.name()], schemaAt + ["properties", p.name()]);
      }
    }
  }

  // ---------------------------------------------------------------------
  // Undeclared members of a closed object are dropped, never reported
  // ---------------------------------------------------------------------

  lemma {:induction false} SanitizeSkips(s: Schema, a: seq<Member>, m: Member, b: seq<Member>)
    requires s.ObjectSchema? && s.additional.Closed? && !Declares(s.properties, m.key)
    ensures SanitizeMembers(s, a + [m] + b) == SanitizeMembers(s, a + b)
    decreases |a|
  {
    if a == [] {
      assert a + [m] + b == [m] + b && a + b == b;
      assert ([m] + b)[1..] == b;
    } else {
      assert (a + [m] + b)[0] == (a + b)[0] == a[0];
      assert (a + [m] + b)[1..] == a[1..] + [m] + b;
      assert (a + b)[1..] == a[1..] + b;
      SanitizeSkips(s, a[1..], m, b);
    }
  }

  lemma {:induction false} FirstMissingAgrees(required: seq<Field>, ms: seq<Member>, ns: seq<Member>)
    requires forall f | f in required :: HasKey(ms, f.Key()) == HasKey(ns, f.Key())
    ensures FirstMissing(required, ms) == FirstMissing(required, ns)
  {
    if required != [] {
      FirstMissingAgrees(required[1..], ms, ns);
    }
  }

  lemma {:induction false} CheckPropertiesAgree(s: Schema, i: nat, ms: seq<Member>, ns: seq<Member>, at: seq<string>, schemaAt: seq<string>)
    requires s.ObjectSchema? && i <= |s.properties|
    requires forall j | i <= j < |s.properties| :: Lookup(ms, s.properties[j].name()) == Lookup(ns, s.properties[j].name())
    ensures CheckProperties(s, i, ms, at, schemaAt) == CheckProperties(s, i, ns, at, schemaAt)
    decreases |s.properties| - i
  {
    if i < |s.properties| {
      assert Lookup(ms, s.properties[i].name()) == Lookup(ns, s.properties[i].name());
      assert CheckProperty(s.properties[i], ms, at, schemaAt) == CheckProperty(s.properties[i], ns, at, schemaAt);
      CheckPropertiesAgree(s, i + 1, ms, ns, at, schemaAt);
    }
  }

  /**
   * With `additionalProperties: false`, an undeclared member anywhere in an
   * object neither causes an error nor changes the error reported, and is
   * gone after validation.
   */
  lemma ExtraMemberIgnored(s: Schema, a: seq<Member>, m: Member, b: seq<Member>, at: seq<string>, schemaAt: seq<string>)
    requires s.ObjectSchema? && s.additional.Closed? && WellFormed(s)
    requires !Declares(s.properties, m.key)
    ensures Check(s, JObj(a + [m] + b), at, schemaAt) == Check(s, JObj(a + b), at, schemaAt)
    ensures Sanitize(s, JObj(a + [m] + b)) == Sanitize(s, JObj(a + b))
  {
    var ms, ns := a + [m] + b, a + b;
    SanitizeSkips(s, a, m, b);
    forall f | f in s.required
      ensures HasKey(ms, f.Key()) == HasKey(ns, f.Key())
    {
      var k :| 0 <= k < |s.properties| && s.properties[k].field == f;
      assert s.properties[k].name() == f.Key();
      LookupSkips(a, m, b, f.Key());
    }
    FirstMissingAgrees(s.required, ms, ns);
    forall j | 0 <= j < |s.properties|
      ensures Lookup(ms, s.properties[j].name()) == Lookup(ns, s.properties[j].name())
    {
      LookupSkips(a, m, b, s.properties[j].name());
    }
    CheckPropertiesAgree(s, 0, ms, ns, at, schemaAt);
  }

  /**
   * The declared properties are checked in declaration order: when every
   * required member is present, nothing else is open to check, and property
   * `k` is the first to fail, its error is the object's.
   */
  lemma FirstPropertyError(s: Schema, ms: seq<Member>, k: nat, at: seq<string>, schemaAt: seq<string>)
    requires s.ObjectSchema? && s.additional.Closed? && k < |s.properties|
    requires FirstMissing(s.required, ms) == None
    requires forall i | 0 <= i < k :: CheckProperty(s.properties[i], ms, at, schemaAt) == None
    requires CheckProperty(s.properties[k], ms, at, schemaAt).Some?
    ensures Check(s, JObj(ms), at, schemaAt) == CheckProperty(s.properties[k], ms, at, schemaAt)
  {
    EarlierPropertiesPass(s, ms, 0, k, at, schemaAt);
  }

  lemma EarlierPropertiesPass(s: Schema, ms: seq<Member>, j: nat, k: nat, at: seq<string>, schemaAt: seq<string>)
    requires s.ObjectSchema? && j <= k < |s.properties|
    requires forall i | j <= i < k :: CheckProperty(s.properties[i], ms, at, schemaAt) == None
    requires CheckProperty(s.properties[k], ms, at, schemaAt).Some?
    ensures CheckProperties(s, j, ms, at, schemaAt) == CheckProperty(s.properties[k], ms, at, schemaAt)
  {
    PassingRun(s, ms, j, k, at, schemaAt);
    PropertiesStep(s, k, ms, at, schemaAt);
  }

  /** A run of passing properties hands the walk over to the property after it. */
  lemma {:induction false} PassingRun(s: Schema, ms: seq<Member>, j: nat, k: nat, at: seq<string>, schemaAt: seq<string>)
    requires s.ObjectSchema? && j <= k <= |s.properties|
    requires forall i | j <= i < k :: CheckProperty(s.properties[i], ms, at, schemaAt) == None
    ensures CheckProperties(s, j, ms, at, schemaAt) == CheckProperties(s, k, ms, at, schemaAt)
    decreases k - j
  {
    if j < k {
      PropertiesStep(s, j, ms, at, schemaAt);
      PassingRun(s, ms, j + 1, k, at, schemaAt);
    }
  }

  /** One step of the declaration-order walk: a passing property hands over to the next, a failing one decides. */
  lemma PropertiesStep(s: Schema, j: nat, ms: seq<Member>, at: seq<string>, schemaAt: seq<string>)
    requires s.ObjectSchema? && j < |s.properties|
    ensures CheckProperty(s.properties[j], ms, at, schemaAt) == None ==>
      CheckProperties(s, j, ms, at, schemaAt) == CheckProperties(s, j + 1, ms, at, schemaAt)
    ensures CheckProperty(s.properties[j], ms, at, schemaAt).Some? ==>
      CheckProperties(s, j, ms, at, schemaAt) == CheckProperty(s.properties[j], ms, at, schemaAt)
  {
  }

  /** When every required member is present and every declared property passes, a closed object passes. */
  lemma ObjectPasses(s: Schema, ms: seq<Member>, at: seq<string>, schemaAt: seq<string>)
    requires s.ObjectSchema? && s.additional.Closed?
    requires FirstMissing(s.required, ms) == None
    requires forall i | 0 <= i < |s.properties| :: CheckProperty(s.properties[i], ms, at, schemaAt) == None
    ensures Check(s, JObj(ms), at, schemaAt) == None
  {
    PassingRun(s, ms, 0, |s.properties|, at, schemaAt);
  }
}
