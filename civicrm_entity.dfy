/**
  The field schema deriver of `CivicrmEntity`: one CiviCRM field-metadata
  record becomes one Drupal base field definition, and the metadata list of
  an entity kind becomes the entity's base field definitions keyed by name.

  The numeric values of the `CRM_Utils_Type::T_*` codes are defined by
  CiviCRM, not here, so they are a parameter; the switch is kept as a
  first-match chain in the order of its cases, so codes that coincide are
  resolved exactly as PHP resolves them. `getOptions` is an oracle parameter.
 */
module FieldSchema {
  import opened Wrappers
  import opened PhpArray
  import opened Php

  /** The `CRM_Utils_Type` constants the switch compares against. */
  datatype TypeCodes = TypeCodes(
    tInt: int, tBoolean: int, tMoney: int, tFloat: int, tString: int, tText: int,
    tCcnum: int, tLongtext: int, tEmail: int, tUrl: int, tDate: int, tTime: int,
    tEnum: int, tTimestamp: int)

  /**
    One metadata record from the CRM's getFields call. A key that is missing
    from the record reads as `Null` (as `None` for the type code).
   */
  datatype MetaField = MetaField(
    name: string,
    typeCode: Option<int>,
    pseudoconstant: Value,
    title: Value,
    description: Value,
    required: Value)

  /** The Drupal field type plugins the deriver creates. */
  datatype FieldType =
    | IntegerType | ListIntegerType | BooleanType | FloatType | StringType | TextLongType
    | EmailType | UriType | DatetimeType | MapType | TimestampType | AnyType

  /** The plugin id passed to `BaseFieldDefinition::create`. */
  function TypeName(t: FieldType): string {
    match t
    case IntegerType => "integer"
    case ListIntegerType => "list_integer"
    case BooleanType => "boolean"
    case FloatType => "float"
    case StringType => "string"
    case TextLongType => "text_long"
    case EmailType => "email"
    case UriType => "uri"
    case DatetimeType => "datetime"
    case MapType => "map"
    case TimestampType => "timestamp"
    case AnyType => "any"
  }

  /** `DateTimeItem::DATETIME_TYPE_DATE` and `DateTimeItem::DATETIME_TYPE_DATETIME`. */
  datatype DatetimeKind = DateOnly | DateAndTime

  /**
    A base field definition, reduced to what the deriver sets. A setting the
    deriver leaves alone is `None` (the field type's default applies).
   */
  datatype Descriptor = Descriptor(
    fieldType: FieldType,
    readOnly: bool,
    unsigned: bool,
    allowedValues: Option<Value>,
    maxLength: Option<int>,
    datetimeType: Option<DatetimeKind>,
    labelText: Value,
    description: Value,
    required: bool)

  /** `BaseFieldDefinition::create($type)`: nothing set yet, not required. */
  function Create(t: FieldType): Descriptor {
    Descriptor(t, false, false, None, None, None, Null, Null, false)
  }

  /** `empty($civicrm_field['type'])`. */
  predicate HasNoType(f: MetaField) {
    match f.typeCode
    case None => true
    case Some(c) => Empty(Int(c))
  }

  /** The switch over the type code, case by case in source order. */
  function SwitchOnType(f: MetaField, code: int, entityId: string, codes: TypeCodes,
                        getOptions: (string, string) -> Value): (r: Descriptor)
    ensures !r.readOnly && !r.unsigned
    ensures r.allowedValues.Some? <==> r.fieldType == ListIntegerType
    ensures r.maxLength.Some? <==> r.fieldType == EmailType
    ensures r.datetimeType.Some? <==> r.fieldType == DatetimeType
  {
    if code == codes.tInt then
      if Truthy(f.pseudoconstant) then
        Create(ListIntegerType).(allowedValues := Some(getOptions(entityId, f.name)))
      else Create(IntegerType)
    else if code == codes.tBoolean then Create(BooleanType)
    else if code == codes.tMoney || code == codes.tFloat then Create(FloatType)
    else if code == codes.tString || code == codes.tText || code == codes.tCcnum then Create(StringType)
    else if code == codes.tLongtext then Create(TextLongType)
    else if code == codes.tEmail then Create(EmailType).(maxLength := Some(255))
    else if code == codes.tUrl then Create(UriType)
    else if code == codes.tDate then Create(DatetimeType).(datetimeType := Some(DateOnly))
    else if code == codes.tTime || code == codes.tDate + codes.tTime then
      Create(DatetimeType).(datetimeType := Some(DateAndTime))
    else if code == codes.tEnum then Create(MapType)
    else if code == codes.tTimestamp then Create(TimestampType)
    else Create(AnyType)
  }

  /** `CivicrmEntity::createBaseFieldDefinition($civicrm_field, $civicrm_entity_id)`. */
  function CreateBaseFieldDefinition(f: MetaField, entityId: string, codes: TypeCodes,
                                     getOptions: (string, string) -> Value): (r: Descriptor)
    ensures r.readOnly <==> f.name == "id"
    ensures r.labelText == f.title && IsSet(r.description)
    ensures r.fieldType == BooleanType ==> !r.required
    ensures r.required ==> IsSet(f.required) && Truthy(f.required)
  {
    var field :=
      if f.name == "id" then Create(IntegerType).(readOnly := true, unsigned := true)
      else if HasNoType(f) then Create(StringType)
      else SwitchOnType(f, f.typeCode.value, entityId, codes, getOptions);
    var labelled := field.(
      labelText := f.title,
      description := if IsSet(f.description) then f.description else Str(""));
    if TypeName(labelled.fieldType) != "boolean" then
      labelled.(required := IsSet(f.required) && Truthy(f.required))
    else labelled
  }

  /** The `getOptions` calls one derivation makes, as (entity, field name) pairs. */
  function OptionLookups(f: MetaField, entityId: string, codes: TypeCodes): seq<(string, string)> {
    if f.name != "id" && !HasNoType(f) && f.typeCode.value == codes.tInt && Truthy(f.pseudoconstant)
    then [(entityId, f.name)]
    else []
  }

  /** `CivicrmEntity::baseFieldDefinitions`: each record's definition stored under its name, in metadata order. */
  function BaseFieldDefinitions(metadata: seq<MetaField>, entityId: string, codes: TypeCodes,
                                getOptions: (string, string) -> Value): (r: OMap<string, Descriptor>)
    ensures DistinctKeys(r)
  {
    IndexBy(seq(|metadata|, i requires 0 <= i < |metadata| =>
      (metadata[i].name, CreateBaseFieldDefinition(metadata[i], entityId, codes, getOptions))))
  }

  // ----- properties of a single derivation -----

  /** The `id` field is an unsigned, read-only integer whatever its metadata says. */
  lemma IdIsReadOnlyUnsignedInteger(f: MetaField, entityId: string, codes: TypeCodes,
                                    getOptions: (string, string) -> Value)
    requires f.name == "id"
    ensures var d := CreateBaseFieldDefinition(f, entityId, codes, getOptions);
      d.fieldType == IntegerType && d.readOnly && d.unsigned && d.allowedValues == None
    ensures OptionLookups(f, entityId, codes) == []
  {
  }

  /** Any field other than `id` is neither read-only nor unsigned. */
  lemma OnlyIdIsReadOnly(f: MetaField, entityId: string, codes: TypeCodes,
                         getOptions: (string, string) -> Value)
    requires f.name != "id"
    ensures var d := CreateBaseFieldDefinition(f, entityId, codes, getOptions);
      !d.readOnly && !d.unsigned
  {
  }

  /** A field other than `id` with a missing or empty type code is a plain string. */
  lemma UntypedIsString(f: MetaField, entityId: string, codes: TypeCodes,
                        getOptions: (string, string) -> Value)
    requires f.name != "id" && (f.typeCode == None || f.typeCode == Some(0))
    ensures CreateBaseFieldDefinition(f, entityId, codes, getOptions).fieldType == StringType
  {
  }

  /** An integer code with a non-empty pseudoconstant becomes a list of the options the CRM returns. */
  lemma PseudoconstantIntegerIsList(f: MetaField, entityId: string, codes: TypeCodes,
                                    getOptions: (string, string) -> Value)
    requires f.name != "id" && f.typeCode == Some(codes.tInt) && codes.tInt != 0
    requires Truthy(f.pseudoconstant)
    ensures var d := CreateBaseFieldDefinition(f, entityId, codes, getOptions);
      d.fieldType == ListIntegerType && d.allowedValues == Some(getOptions(entityId, f.name))
    ensures OptionLookups(f, entityId, codes) == [(entityId, f.name)]
  {
  }

  /**
    The options oracle is consulted at most once per field, for a
    pseudoconstant integer only, and only at the looked-up pair: two oracles
    that agree there give the same definition.
   */
  lemma {:induction false} OptionsConsultedOnlyWhenLookedUp(
    f: MetaField, entityId: string, codes: TypeCodes,
    o1: (string, string) -> Value, o2: (string, string) -> Value)
    requires forall p :: p in OptionLookups(f, entityId, codes) ==> o1(p.0, p.1) == o2(p.0, p.1)
    ensures CreateBaseFieldDefinition(f, entityId, codes, o1) == CreateBaseFieldDefinition(f, entityId, codes, o2)
    ensures |OptionLookups(f, entityId, codes)| <= 1
    ensures OptionLookups(f, entityId, codes) != [] <==>
      CreateBaseFieldDefinition(f, entityId, codes, o1).fieldType == ListIntegerType
  {
    if OptionLookups(f, entityId, codes) != [] {
      assert (entityId, f.name) in OptionLookups(f, entityId, codes);
    }
  }

  /** The codes every case of the switch matches. */
  function CaseCodes(codes: TypeCodes): set<int> {
    {codes.tInt, codes.tBoolean, codes.tMoney, codes.tFloat, codes.tString, codes.tText,
     codes.tCcnum, codes.tLongtext, codes.tEmail, codes.tUrl, codes.tDate, codes.tTime,
     codes.tDate + codes.tTime, codes.tEnum, codes.tTimestamp}
  }

  /** A code no case matches falls through to `any`; derivation never fails. */
  lemma UnknownCodeIsAny(f: MetaField, entityId: string, codes: TypeCodes,
                         getOptions: (string, string) -> Value)
    requires f.name != "id" && f.typeCode.Some? && f.typeCode.value != 0
    requires f.typeCode.value !in CaseCodes(codes)
    ensures CreateBaseFieldDefinition(f, entityId, codes, getOptions).fieldType == AnyType
  {
  }

  /** A field that reaches the switch with code `c` (the `id` override and the untyped fallback do not apply). */
  predicate ReachesSwitch(f: MetaField, c: int) {
    f.name != "id" && f.typeCode == Some(c) && c != 0
  }

  /** The integer code without a pseudoconstant gives a plain `integer`, and no options are looked up. */
  lemma IntegerCodeIsInteger(f: MetaField, entityId: string, codes: TypeCodes,
                             getOptions: (string, string) -> Value)
    requires ReachesSwitch(f, codes.tInt)
    requires !Truthy(f.pseudoconstant)
    ensures var d := CreateBaseFieldDefinition(f, entityId, codes, getOptions);
      d.fieldType == IntegerType && d.allowedValues == None && !d.unsigned
    ensures OptionLookups(f, entityId, codes) == []
  {
  }

  /** The boolean code gives `boolean`, which is never required, once the integer case is passed. */
  lemma BooleanCodeIsBoolean(f: MetaField, entityId: string, codes: TypeCodes,
                             getOptions: (string, string) -> Value)
    requires ReachesSwitch(f, codes.tBoolean)
    requires codes.tBoolean != codes.tInt
    ensures var d := CreateBaseFieldDefinition(f, entityId, codes, getOptions);
      d.fieldType == BooleanType && !d.required
  {
  }

  /** Money and float codes both give `float`, once the integer and boolean cases are passed. */
  lemma MoneyAndFloatAreFloat(f: MetaField, entityId: string, codes: TypeCodes,
                              getOptions: (string, string) -> Value, c: int)
    requires ReachesSwitch(f, c)
    requires c in {codes.tMoney, codes.tFloat}
    requires c !in {codes.tInt, codes.tBoolean}
    ensures CreateBaseFieldDefinition(f, entityId, codes, getOptions).fieldType == FloatType
  {
  }

  /** The codes of the cases that come before the string case. */
  function CodesBeforeString(codes: TypeCodes): set<int> {
    {codes.tInt, codes.tBoolean, codes.tMoney, codes.tFloat}
  }

  /** The string, text and credit-card codes give `string`, once the earlier cases are passed. */
  lemma StringCodesAreString(f: MetaField, entityId: string, codes: TypeCodes,
                             getOptions: (string, string) -> Value, c: int)
    requires ReachesSwitch(f, c)
    requires c in {codes.tString, codes.tText, codes.tCcnum}
    requires c !in CodesBeforeString(codes)
    ensures CreateBaseFieldDefinition(f, entityId, codes, getOptions).fieldType == StringType
  {
  }

  /** The long-text code gives `text_long` when no earlier case takes it. */
  lemma LongTextCodeIsTextLong(f: MetaField, entityId: string, codes: TypeCodes,
                               getOptions: (string, string) -> Value)
    requires ReachesSwitch(f, codes.tLongtext)
    requires codes.tLongtext !in CodesBeforeString(codes) + {codes.tString, codes.tText, codes.tCcnum}
    ensures CreateBaseFieldDefinition(f, entityId, codes, getOptions).fieldType == TextLongType
  {
  }

  /** The email code gives `email` limited to 255 characters. */
  lemma EmailHasMaxLength255(f: MetaField, entityId: string, codes: TypeCodes,
                             getOptions: (string, string) -> Value)
    requires ReachesSwitch(f, codes.tEmail)
    requires codes.tEmail !in {codes.tInt, codes.tBoolean, codes.tMoney, codes.tFloat, codes.tString,
                               codes.tText, codes.tCcnum, codes.tLongtext}
    ensures var d := CreateBaseFieldDefinition(f, entityId, codes, getOptions);
      d.fieldType == EmailType && d.maxLength == Some(255)
  {
  }

  /** The URL code gives `uri` when no earlier case takes it. */
  lemma UrlCodeIsUri(f: MetaField, entityId: string, codes: TypeCodes,
                     getOptions: (string, string) -> Value)
    requires ReachesSwitch(f, codes.tUrl)
    requires codes.tUrl !in CodesBeforeString(codes) +
      {codes.tString, codes.tText, codes.tCcnum, codes.tLongtext, codes.tEmail}
    ensures CreateBaseFieldDefinition(f, entityId, codes, getOptions).fieldType == UriType
  {
  }

  /** The codes of the cases that come before the date case. */
  function CodesBeforeDate(codes: TypeCodes): set<int> {
    {codes.tInt, codes.tBoolean, codes.tMoney, codes.tFloat, codes.tString, codes.tText,
     codes.tCcnum, codes.tLongtext, codes.tEmail, codes.tUrl}
  }

  /** The date code gives a date-only `datetime`; time and date+time give a full `datetime`. */
  lemma DateCodesAreDatetime(f: MetaField, entityId: string, codes: TypeCodes,
                             getOptions: (string, string) -> Value, c: int)
    requires ReachesSwitch(f, c)
    requires c in {codes.tDate, codes.tTime, codes.tDate + codes.tTime}
    requires c !in CodesBeforeDate(codes)
    ensures var d := CreateBaseFieldDefinition(f, entityId, codes, getOptions);
      d.fieldType == DatetimeType &&
      d.datetimeType == Some(if c == codes.tDate then DateOnly else DateAndTime)
  {
  }

  /** The codes of the cases that come before the enum case. */
  function CodesBeforeEnum(codes: TypeCodes): set<int> {
    CodesBeforeDate(codes) + {codes.tDate, codes.tTime, codes.tDate + codes.tTime}
  }

  /** The enum code gives `map` when no earlier case takes it. */
  lemma EnumCodeIsMap(f: MetaField, entityId: string, codes: TypeCodes,
                      getOptions: (string, string) -> Value)
    requires ReachesSwitch(f, codes.tEnum)
    requires codes.tEnum !in CodesBeforeEnum(codes)
    ensures CreateBaseFieldDefinition(f, entityId, codes, getOptions).fieldType == MapType
  {
  }

  /** The timestamp code gives `timestamp` when no earlier case takes it. */
  lemma TimestampCodeIsTimestamp(f: MetaField, entityId: string, codes: TypeCodes,
                                 getOptions: (string, string) -> Value)
    requires ReachesSwitch(f, codes.tTimestamp)
    requires codes.tTimestamp !in CodesBeforeEnum(codes) + {codes.tEnum}
    ensures CreateBaseFieldDefinition(f, entityId, codes, getOptions).fieldType == TimestampType
  {
  }

  /** A date-time setting is made exactly on `datetime` fields, the type whose values the load path rewrites. */
  lemma DatetimeSettingOnlyOnDatetime(f: MetaField, entityId: string, codes: TypeCodes,
                                      getOptions: (string, string) -> Value)
    ensures var d := CreateBaseFieldDefinition(f, entityId, codes, getOptions);
      d.datetimeType.Some? <==> TypeName(d.fieldType) == "datetime"
  {
  }

  /** When the long-text code equals the text code (as CiviCRM defines them), `text_long` is never produced. */
  lemma LongTextShadowedByText(f: MetaField, entityId: string, codes: TypeCodes,
                               getOptions: (string, string) -> Value)
    requires codes.tLongtext == codes.tText
    ensures CreateBaseFieldDefinition(f, entityId, codes, getOptions).fieldType != TextLongType
  {
  }

  /** When the enum code equals the string code (as CiviCRM defines them), `map` is never produced. */
  lemma EnumShadowedByString(f: MetaField, entityId: string, codes: TypeCodes,
                             getOptions: (string, string) -> Value)
    requires codes.tEnum == codes.tString
    ensures CreateBaseFieldDefinition(f, entityId, codes, getOptions).fieldType != MapType
  {
  }

  /** A boolean is never required; every other field is required exactly when its metadata says so. */
  lemma RequiredUnlessBoolean(f: MetaField, entityId: string, codes: TypeCodes,
                              getOptions: (string, string) -> Value)
    ensures var d := CreateBaseFieldDefinition(f, entityId, codes, getOptions);
      d.required <==> d.fieldType != BooleanType && IsSet(f.required) && Truthy(f.required)
  {
  }

  /** The label is the metadata title; the description is the metadata description, or "" when it is not set. */
  lemma LabelAndDescription(f: MetaField, entityId: string, codes: TypeCodes,
                            getOptions: (string, string) -> Value)
    ensures var d := CreateBaseFieldDefinition(f, entityId, codes, getOptions);
      d.labelText == f.title && d.description == (if f.description == Null then Str("") else f.description)
  {
  }

  // ----- properties of the whole schema -----

  /** Every record's name is a key of the schema, and nothing else is. */
  lemma SchemaKeys(metadata: seq<MetaField>, entityId: string, codes: TypeCodes,
                   getOptions: (string, string) -> Value, name: string)
    ensures HasKey(BaseFieldDefinitions(metadata, entityId, codes, getOptions), name) <==>
      exists i :: 0 <= i < |metadata| && metadata[i].name == name
  {
    var pairs := seq(|metadata|, i requires 0 <= i < |metadata| =>
      (metadata[i].name, CreateBaseFieldDefinition(metadata[i], entityId, codes, getOptions)));
    IndexByHasKey(pairs, name);
    assert forall i :: 0 <= i < |metadata| ==> pairs[i].0 == metadata[i].name;
  }

  /** Under a duplicated name the schema holds the definition of the last record with that name. */
  lemma SchemaLastRecordWins(metadata: seq<MetaField>, entityId: string, codes: TypeCodes,
                             getOptions: (string, string) -> Value, i: nat)
    requires i < |metadata|
    requires forall j :: i < j < |metadata| ==> metadata[j].name != metadata[i].name
    ensures Lookup(BaseFieldDefinitions(metadata, entityId, codes, getOptions), metadata[i].name) ==
      Some(CreateBaseFieldDefinition(metadata[i], entityId, codes, getOptions))
  {
    var pairs := seq(|metadata|, i requires 0 <= i < |metadata| =>
      (metadata[i].name, CreateBaseFieldDefinition(metadata[i], entityId, codes, getOptions)));
    IndexByLast(pairs, i);
  }

  /** With distinct names the schema has one entry per record, in metadata order. */
  lemma SchemaInMetadataOrder(metadata: seq<MetaField>, entityId: string, codes: TypeCodes,
                              getOptions: (string, string) -> Value)
    requires forall i, j :: 0 <= i < j < |metadata| ==> metadata[i].name != metadata[j].name
    ensures var schema := BaseFieldDefinitions(metadata, entityId, codes, getOptions);
      |schema| == |metadata| &&
      forall i :: 0 <= i < |metadata| ==>
        schema[i] == (metadata[i].name, CreateBaseFieldDefinition(metadata[i], entityId, codes, getOptions))
  {
    var pairs := seq(|metadata|, i requires 0 <= i < |metadata| =>
      (metadata[i].name, CreateBaseFieldDefinition(metadata[i], entityId, codes, getOptions)));
    IndexByDistinct(pairs);
  }
}
