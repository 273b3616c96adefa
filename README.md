# CiviCRM entity adapter for Drupal: schema derivation and storage translation

The `civicrm_entity` module lets Drupal treat CiviCRM records as Drupal
content entities. Two parts of it hold its translation logic, and this
project models both in Dafny and proves their properties.

- **Field schema deriver** (`CivicrmEntity::createBaseFieldDefinition` and
  `baseFieldDefinitions`). It turns each CiviCRM field-metadata record into a
  Drupal base field definition: field type, read-only and unsigned flags,
  allowed values, maximum length, datetime type, label, description and the
  required flag. It then keys the definitions by field name, in metadata order.
- **Storage translation engine** (`CiviEntityStorage`). On save it flattens an
  entity's field item lists into one parameter array and makes a single API
  `save` call. On delete it makes one API `delete` call per entity and stops at
  the first failure. On load it makes API `get` calls and stores each entity
  under its id. After a load, `initFieldValues` rewrites datetime values from
  CiviCRM's `YYYY-MM-DD hh:mm:ss` form into Drupal's `YYYY-MM-DDThh:mm:ss`
  storage form. Numeric values are treated as timestamps and formatted instead.

Files:

- `wrappers.dfy`: the `Option` datatype.
- `php_array.dfy`: PHP's ordered array. Assigning to a key that is already
  present overwrites it in place; assigning to a new key appends it.
- `php.dfy`: PHP values and the built-ins the code uses (`empty`,
  `is_numeric` with PHP 7 rules, `reset`, string conversion).
- `datetime_text.dfy`: the space-to-`T` rewrite. It also has the date-time
  shapes from section 5.6 of RFC 3339. The grammar there joins full-date and
  partial-time with "T", and its note allows a space instead.
- `civicrm_entity.dfy`: the schema deriver, as pure functions.
- `civicrm_api.dfy`: the CiviCRM API client. Each call returns an arbitrary
  response or fails. A ghost log records every call with its outcome.
- `civi_entity_storage.dfy`: the storage class, with specification functions
  for the save parameters and the load-side rewrite.

Modelling choices:

- The `CRM_Utils_Type::T_*` constants are not defined in this code base. They
  are a `TypeCodes` parameter. The `switch` is a first-match chain in source
  order, so codes that coincide resolve as PHP resolves them.
- `getOptions` is an oracle parameter of the deriver.
- Item emptiness depends on the field type, so it is a parameter
  (`isEmptyItem`).
- An entity's fields are a list of named field item lists. `Entity.Valid()`
  says no name occurs twice, as in the name-keyed array the framework keeps;
  `doSaveFieldItems` is given a valid entity and leaves it valid.
- The two date formatting calls are parameters: `isoFormat` on save and
  `formatTimestamp` on load. So is entity construction on load (`construct`,
  `idOf`).

Where the code and the module's stated intent differ, the model follows the
code:

- The long-text and enum cases come after the text and string cases. With
  CiviCRM's own constants (`T_LONGTEXT == T_TEXT` and `T_ENUM == T_STRING`)
  `text_long` and `map` are never produced. `FieldSchema.LongTextShadowedByText`
  and `FieldSchema.EnumShadowedByString` state this.
- Loading by ids does not skip an id that has no record. The code calls
  `reset()` on the empty response and hands the resulting `FALSE` to the
  entity constructor. The model passes that value to `construct` like any
  other; what the constructor then does is outside the model (see
  "Left out").
- The `id` field is special only when the metadata lists it. Nothing adds it
  otherwise.

## Model

| member | source | states |
|---|---|---|
| `FieldSchema.CreateBaseFieldDefinition` | src/Entity/CivicrmEntity.php:30-192 | Only the `id` field is read-only. The label is the metadata title and a description is always set. A boolean is never required, and a required definition had a set, truthy `required`. The lemmas below give the type each case of the switch yields. |
| `FieldSchema.SwitchOnType` | src/Entity/CivicrmEntity.php:48-180 | No case of the switch makes a field read-only or unsigned. Allowed values appear exactly on `list_integer`, a max length exactly on `email`, and a datetime type exactly on `datetime`. |
| `FieldSchema.BaseFieldDefinitions` | src/Entity/CivicrmEntity.php:19-28 | The schema holds each field name once. The lemmas `SchemaKeys`, `SchemaLastRecordWins` and `SchemaInMetadataOrder` state its keys and values. |
| `FieldSchema.IdIsReadOnlyUnsignedInteger` | src/Entity/CivicrmEntity.php:32-36 | A field named `id` yields an integer definition that is read-only and unsigned, with no allowed values, whatever its type code or pseudoconstant. No options are looked up for it. |
| `FieldSchema.OnlyIdIsReadOnly` | src/Entity/CivicrmEntity.php:30-192 | No field other than `id` is read-only or unsigned. |
| `FieldSchema.UntypedIsString` | src/Entity/CivicrmEntity.php:37-46 | A non-`id` field whose type code is missing or 0 yields a `string` definition. |
| `FieldSchema.PseudoconstantIntegerIsList` | src/Entity/CivicrmEntity.php:49-65 | An integer code with a non-empty pseudoconstant yields `list_integer`, whose allowed values are exactly what `getOptions(entity, name)` returns. That is the only lookup made. |
| `FieldSchema.OptionsConsultedOnlyWhenLookedUp` | src/Entity/CivicrmEntity.php:49-79 | At most one options lookup is made per field, and exactly when the result is `list_integer`. Two oracles that agree on that lookup give the same definition, so the oracle is consulted nowhere else. |
| `FieldSchema.UnknownCodeIsAny` | src/Entity/CivicrmEntity.php:177-179 | A non-empty code that matches no case yields `any`. Derivation never fails. |
| `FieldSchema.IntegerCodeIsInteger` | src/Entity/CivicrmEntity.php:49-79 | The integer code without a truthy pseudoconstant yields a plain `integer` with no allowed values. No options are looked up. |
| `FieldSchema.BooleanCodeIsBoolean` | src/Entity/CivicrmEntity.php:81-91 | The boolean code, when the integer case does not take it, yields `boolean`, which is never required. |
| `FieldSchema.MoneyAndFloatAreFloat` | src/Entity/CivicrmEntity.php:93-96 | A money or float code that the integer and boolean cases do not take yields `float`. |
| `FieldSchema.StringCodesAreString` | src/Entity/CivicrmEntity.php:98-111 | The string, text and credit-card codes yield `string` when no earlier case takes them. |
| `FieldSchema.LongTextCodeIsTextLong` | src/Entity/CivicrmEntity.php:113-124 | The long-text code yields `text_long` when no earlier case takes it. |
| `FieldSchema.EmailHasMaxLength255` | src/Entity/CivicrmEntity.php:126-140 | The email code, when no earlier case takes it, yields `email` with max_length 255. |
| `FieldSchema.UrlCodeIsUri` | src/Entity/CivicrmEntity.php:142-149 | The URL code yields `uri` when no earlier case takes it. |
| `FieldSchema.DateCodesAreDatetime` | src/Entity/CivicrmEntity.php:151-167 | The date code yields `datetime` of date-only type. Time, and date plus time, yield `datetime` of datetime type, when no earlier case takes the code. |
| `FieldSchema.EnumCodeIsMap` | src/Entity/CivicrmEntity.php:169-171 | The enum code yields `map` when no earlier case takes it. |
| `FieldSchema.TimestampCodeIsTimestamp` | src/Entity/CivicrmEntity.php:173-175 | The timestamp code yields `timestamp` when no earlier case takes it. |
| `FieldSchema.DatetimeSettingOnlyOnDatetime` | src/Entity/CivicrmEntity.php:151-167 | A datetime type is set exactly on definitions whose type is `datetime`. |
| `FieldSchema.LongTextShadowedByText` | src/Entity/CivicrmEntity.php:98-124 | If the long-text code equals the text code, `text_long` is never produced: the first matching case wins. |
| `FieldSchema.EnumShadowedByString` | src/Entity/CivicrmEntity.php:98-171 | If the enum code equals the string code, `map` is never produced. |
| `FieldSchema.RequiredUnlessBoolean` | src/Entity/CivicrmEntity.php:187-189 | A definition is required iff it is not boolean and the metadata `required` is set and truthy. So a boolean is never required. |
| `FieldSchema.LabelAndDescription` | src/Entity/CivicrmEntity.php:183-185 | The label is the metadata title. The description is the metadata description when set, and "" otherwise. |
| `FieldSchema.SchemaKeys` | src/Entity/CivicrmEntity.php:19-28 | The schema's keys are exactly the names of the metadata records. |
| `FieldSchema.SchemaLastRecordWins` | src/Entity/CivicrmEntity.php:23-25 | Under a duplicated name the schema holds the definition of the last record with that name. |
| `FieldSchema.SchemaInMetadataOrder` | src/Entity/CivicrmEntity.php:19-28 | With distinct names the schema has one entry per record, keyed by name, in metadata order. |
| `DateTimeText.SpacesToT` | src/CiviEntityStorage.php:205-206 | The rewrite keeps the length, turns every space into "T" and keeps every other character. |
| `DateTimeText.SpacesToTRemovesSpaces` | src/CiviEntityStorage.php:205-206 | No space remains after the rewrite. |
| `DateTimeText.SpacesToTIdempotent` | src/CiviEntityStorage.php:205-206 | Applying the rewrite twice equals applying it once. |
| `DateTimeText.SpacesToTInverse` | src/CiviEntityStorage.php:205-206 | On strings without "T", replacing "T" with a space undoes the rewrite. |
| `Php.NatToStringValue` | src/CiviEntityStorage.php:206 | The decimal digits PHP prints for a natural number read back as that number, with no leading zero except in "0". |
| `Php.IntToString` | src/CiviEntityStorage.php:206 | An integer's string form is its canonical decimal form: digits whose value is the integer, preceded by "-" when it is negative, with no leading zero. |
| `Php.ScalarToString` | src/CiviEntityStorage.php:206 | PHP's string cast of a scalar: NULL and FALSE give "", TRUE gives "1", a string is kept, and an integer gives its canonical decimal form. |
| `DateTimeText.StrReplaceSpaces` | src/CiviEntityStorage.php:206 | A scalar becomes its string cast with every space turned into "T", so no space is left. An array keeps its keys in order: each scalar entry is converted the same way and each nested array is copied unchanged. |
| `DateTimeText.CiviToStorage` | src/CiviEntityStorage.php:203-206 | CiviCRM's `YYYY-MM-DD hh:mm:ss` becomes `YYYY-MM-DDThh:mm:ss`. Only the separator changes. |
| `DateTimeText.StorageFormStable` | src/CiviEntityStorage.php:203-206 | A value already in storage form, or a date-only value, is unchanged, so it is never converted twice. |
| `DateTimeText.DateFormsAreNotNumeric` | src/CiviEntityStorage.php:200 | Date-only and date-time strings are never numeric, so they always take the rewrite branch rather than the timestamp branch. |
| `DateTimeText.RewriteKeepsNonNumeric` | src/CiviEntityStorage.php:200-206 | A non-numeric string stays non-numeric after the rewrite. |
| `EntityStorage.FilterEmptyItems` | src/CiviEntityStorage.php:132-135 | Filtering keeps only non-empty items, drawn from the list. The result is empty iff every item is empty. |
| `EntityStorage.FilterEmptyItemsCounts` | src/CiviEntityStorage.php:132-135 | Completeness: each non-empty item is kept as many times as it occurs, and each empty item is dropped. |
| `EntityStorage.FilterEmptyItemsConcat` | src/CiviEntityStorage.php:132-135 | Order is kept: filtering a concatenation is the concatenation of the filtered parts. |
| `EntityStorage.CiviEntityStorage.BuildDeltaList` | src/CiviEntityStorage.php:137-149 | The loop builds the list of each item's main value, datetime-formatted where the property is a date-time, keyed by delta 0, 1, ... |
| `EntityStorage.CiviEntityStorage.DoSaveFieldItems` | src/CiviEntityStorage.php:121-161 | Non-custom fields lose their empty items. Exactly one API `save` call is appended to the log, carrying the parameter array built from the fields. Field names stay distinct, and no custom-storage field is a key of the logged parameters. |
| `EntityStorage.SavedFieldsOmitCustom` | src/CiviEntityStorage.php:121-158 | Saving keeps distinct field names distinct, and no field with custom storage is among the parameters sent. |
| `EntityStorage.GatherKeys` | src/CiviEntityStorage.php:125-158 | For any per-field contribution, a name is a key of the `$params[$name] = $value` accumulation iff some field of that name contributes. |
| `EntityStorage.GatherLookup` | src/CiviEntityStorage.php:125-158 | For any per-field contribution and distinct names, each field's entry is exactly its contribution, or absent. |
| `EntityStorage.SaveParamsKeys` | src/CiviEntityStorage.php:125-158 | A name is a parameter iff some field of that name contributes a value. |
| `EntityStorage.SaveParamsLookup` | src/CiviEntityStorage.php:125-158 | With distinct field names, each field's parameter is exactly that field's contribution, or absent. |
| `EntityStorage.CustomStorageNeverSent` | src/CiviEntityStorage.php:128-130 | A field with custom storage never appears in the parameters. |
| `EntityStorage.EmptyFieldNeverSent` | src/CiviEntityStorage.php:132-135 | A field whose items are all empty contributes nothing. |
| `EntityStorage.NoEmptyValueSent` | src/CiviEntityStorage.php:155-157 | No parameter value is PHP-empty. |
| `EntityStorage.SingleValuedIsBare` | src/CiviEntityStorage.php:151-157 | A cardinality-1 field sends the bare main value of its first non-empty item, not a list. It sends nothing if that value is empty. |
| `EntityStorage.MultiValuedIsDeltaList` | src/CiviEntityStorage.php:140-157 | Any other field sends a list of its non-empty items' main values keyed by delta. The list is never omitted. |
| `EntityStorage.CiviEntityStorage.DoDeleteFieldItems` | src/CiviEntityStorage.php:166-178 | One `delete` call per entity, in order, with params `['id' => id]`. Every call before the last succeeded. It passes iff all of them did. On failure the last call's error is returned and no later entity is touched. |
| `EntityStorage.CiviEntityStorage.DoLoadMultiple` | src/CiviEntityStorage.php:64-87 | With no ids, a single `get` call with no params. With ids, one `get` per id, in order, stopping at the first failure. Results are keyed by the constructed entities' ids and built from the logged responses. |
| `EntityStorage.CiviEntityStorage.LoadByIds` | src/CiviEntityStorage.php:77-84 | One `get` per id, in order, with params `['id' => id]`. Every call before the last was answered; it stops at the first failure and returns that error. On success the result is built from the logged responses. |
| `EntityStorage.CiviEntityStorage.LoadAll` | src/CiviEntityStorage.php:67-75 | Each record of the response yields the entity built from `reset($record)`, stored under its id; a later record overwrites an earlier one with the same id. |
| `EntityStorage.FromIdResponsesStep` | src/CiviEntityStorage.php:77-83 | Each answered id lookup adds the entity built from `reset($response)` under its id. |
| `EntityStorage.IndexedUnderOwnId` | src/CiviEntityStorage.php:73-82 | Storing entities by `$entities[$entity->id()] = $entity` puts each under its own id, and each id appears once. |
| `EntityStorage.LoadedUnderOwnId` | src/CiviEntityStorage.php:67-83 | In both branches, with no ids and by id, every loaded entity is stored under its own id, and each id appears once. |
| `EntityStorage.CiviEntityStorage.Has` | src/CiviEntityStorage.php:92-94 | An entity exists iff it is not new. |
| `EntityStorage.CiviEntityStorage.CountFieldData` | src/CiviEntityStorage.php:106-108 | The answer is always falsy: 0 when a boolean was asked for, FALSE otherwise. |
| `EntityStorage.CiviEntityStorage.HasData` | src/CiviEntityStorage.php:113-116 | Never reports data. |
| `EntityStorage.CiviEntityStorage.InitFieldValues` | src/CiviEntityStorage.php:185-212 | Each field becomes its normalised form, and no field is added or removed. |
| `EntityStorage.InitFieldLeavesOthers` | src/CiviEntityStorage.php:188-195 | Empty fields, and fields whose type is not `datetime`, are left untouched. |
| `EntityStorage.InitFieldRewritesMainOnly` | src/CiviEntityStorage.php:195-210 | In a rewritten field, each item's main property becomes its normalised value. Every other property and the item count are unchanged. |
| `EntityStorage.NormalizeValue` | src/CiviEntityStorage.php:200-207 | An array stays an array, and any other value becomes a string. A non-numeric value takes the `str_replace` rewrite: a scalar becomes its string cast with every space turned into "T", and an array is rewritten entry by entry. |
| `EntityStorage.NormalizeNonNumericScalars` | src/CiviEntityStorage.php:200-207 | A NULL or FALSE item value becomes "" and a TRUE item value becomes "1"; none of them reaches the timestamp formatter. |
| `EntityStorage.NormalizeNonNumericString` | src/CiviEntityStorage.php:205-206 | A non-numeric string becomes the same string with every space turned into "T": same length, no space left. |
| `EntityStorage.NormalizeNumeric` | src/CiviEntityStorage.php:200-201 | A numeric value is replaced by its timestamp formatting. |
| `EntityStorage.NormalizeIdempotent` | src/CiviEntityStorage.php:197-208 | Normalising an already normalised string changes nothing. |
| `EntityStorage.NormalizeDateForms` | src/CiviEntityStorage.php:197-208 | CiviCRM date-times become storage form. Values already in storage form, and date-only values, are kept. |
| `EntityStorage.CiviEntityStorage.constructor` | src/CiviEntityStorage.php:43-46 | The storage keeps the API client it is given. |

## Left out

- The other constructor arguments, `createInstance` and the service-container
  lookups are dependency-injection plumbing. `getQueryServiceName` and every
  display or form option are UI configuration with no behaviour.
- The `parent::` calls into the SQL storage base class are left out.
  `doSaveFieldItems`, `doDeleteFieldItems` and `initFieldValues` begin where
  the parent step ends. The ordering "the API call comes after the parent
  step" is not stated, because the parent step is not modelled.
- `CiviCrmApi.Api`: the transport is not modelled. Every response and every
  failure is arbitrary. Only the sequence of calls, their arguments and their
  outcomes are recorded.
- `FieldSchema.BaseFieldDefinitions` takes the `getFields` result and the
  `getOptions` oracle as arguments. A failure of either call, which propagates
  uncaught in the code, is not modelled.
- Date formatting (`getDateTime()->format(...)` on save,
  `setTimestamp(...)->format(...)` on load) is a pair of function parameters.
  It depends on the time zone and locale. For the same reason there is no
  save-then-load round-trip lemma. The model proves the load side only: the
  rewrite is idempotent, and it is invertible on CiviCRM's form.
- Entity construction from a raw record, `$entity->id()`, `isNew()` and each
  field type's `isEmpty()` are framework code outside this model. They are
  parameters or plain fields of `EntityStorage.Entity`.
- The `$names` argument of `doSaveFieldItems` only reaches the parent step,
  which is not modelled. So do the `$values` and `$field_names` arguments of
  `initFieldValues`.
- `EntityStorage.CiviEntityStorage.DoLoadMultiple`: entity construction
  (`construct`) is assumed to succeed on any value. In PHP 7 the entity
  constructor takes an `array`, so a `FALSE` from `reset()` on an empty
  response (src/CiviEntityStorage.php:80-81), or a record that is not an
  array (lines 71-72), raises a `TypeError` there; the model instead builds
  an entity from that value and reports success.
- PHP floats are not part of `Php.Value`. `is_numeric` follows PHP 7, where
  trailing whitespace makes a string non-numeric.
- The RFC 3339 shapes check character classes only. They do not check month
  and day ranges, leap seconds, fractional seconds or the time offset.
- Metadata type codes are integers, and field names are strings. So PHP's
  loose `==` in the `id` test and in the `switch` is ordinary equality.
- `EntityStorage.NormalizeIdempotent`: stated for non-numeric string values
  only. A numeric string is replaced by its timestamp formatting on the first
  pass, and the formatted text is not known to be a fixed point. TRUE is not
  numeric, so the first pass turns it into "1" through `str_replace`; the
  second pass then reads "1" as a numeric timestamp and formats it.
