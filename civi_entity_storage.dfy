/**
  `CiviEntityStorage`: the entity storage that keeps CiviCRM entities in
  CiviCRM. Saving flattens an entity's field item lists into one parameter
  array and makes one API `save` call; deleting makes one API `delete` call
  per entity; loading makes API `get` calls and builds entities from the
  records; after loading, datetime values are rewritten from CiviCRM's form
  into Drupal's storage form.
 */
module EntityStorage {
  import opened Wrappers
  import opened PhpArray
  import opened Php
  import opened DateTimeText
  import opened CiviCrmApi

  /** The parts of a field's (storage) definition the storage reads. */
  datatype FieldDef = FieldDef(
    fieldType: string,        // getType()
    customStorage: bool,      // hasCustomStorage()
    cardinality: int,         // getCardinality(); -1 is unlimited
    mainProperty: string,     // getMainPropertyName()
    mainIsDateTime: bool)     // the main property is a DateTimeIso8601

  /** One field item: its property values, as `FieldItemInterface::getValue()` returns them. */
  type Item = OMap<string, Value>

  /** One field of an entity: its name, definition and item list. */
  datatype FieldItems = FieldItems(name: string, def: FieldDef, items: seq<Item>)

  /** A content entity, reduced to what the storage reads and writes. */
  class Entity {
    var id: Value
    var isNew: bool
    var fields: seq<FieldItems>

    /** The field list is keyed by name, as `getFields()` returns it, so no name occurs twice. */
    predicate Valid()
      reads this
    {
      DistinctNames(fields)
    }
  }

  /** `FieldItemList::isEmpty()`: no item is non-empty. Item emptiness is the field type's own test. */
  predicate ListIsEmpty(def: FieldDef, items: seq<Item>, isEmptyItem: (FieldDef, Item) -> bool) {
    forall k :: 0 <= k < |items| ==> isEmptyItem(def, items[k])
  }

  /** `filterEmptyItems()`: the non-empty items, in order, renumbered from delta 0. */
  function FilterEmptyItems(def: FieldDef, items: seq<Item>, isEmptyItem: (FieldDef, Item) -> bool): (r: seq<Item>)
    ensures |r| <= |items|
    ensures forall k :: 0 <= k < |r| ==> !isEmptyItem(def, r[k]) && r[k] in items
    ensures r == [] <==> ListIsEmpty(def, items, isEmptyItem)
  {
    if items == [] then []
    else
      var rest := FilterEmptyItems(def, items[1..], isEmptyItem);
      assert ListIsEmpty(def, items[1..], isEmptyItem) <==>
        forall k :: 1 <= k < |items| ==> isEmptyItem(def, items[k]);
      if isEmptyItem(def, items[0]) then rest else [items[0]] + rest
  }

  /** Completeness: every non-empty item survives as often as it occurs; empty items never do. */
  lemma {:induction false} FilterEmptyItemsCounts(def: FieldDef, items: seq<Item>,
                                                  isEmptyItem: (FieldDef, Item) -> bool, x: Item)
    ensures multiset(FilterEmptyItems(def, items, isEmptyItem))[x] ==
      if isEmptyItem(def, x) then 0 else multiset(items)[x]
  {
    if items != [] {
      assert items == [items[0]] + items[1..];
      FilterEmptyItemsCounts(def, items[1..], isEmptyItem, x);
    }
  }

  /** Filtering keeps order: filtering a concatenation concatenates the filtered parts. */
  lemma {:induction false} FilterEmptyItemsConcat(def: FieldDef, a: seq<Item>, b: seq<Item>,
                                                  isEmptyItem: (FieldDef, Item) -> bool)
    ensures FilterEmptyItems(def, a + b, isEmptyItem) ==
      FilterEmptyItems(def, a, isEmptyItem) + FilterEmptyItems(def, b, isEmptyItem)
  {
    if a != [] {
      assert (a + b)[1..] == a[1..] + b;
      FilterEmptyItemsConcat(def, a[1..], b, isEmptyItem);
    } else {
      assert a + b == b;
    }
  }

  // ----- save side -----

  /** The value sent for one item: its main property, formatted when it is a date-time. */
  function MainValue(def: FieldDef, item: Item, isoFormat: Value -> string): Value {
    var main := LookupOr(item, def.mainProperty, Null);
    if def.mainIsDateTime then Str(isoFormat(main)) else main
  }

  /** `$list`: each item's main value under its delta. */
  function DeltaList(def: FieldDef, items: seq<Item>, isoFormat: Value -> string): OMap<Key, Value> {
    seq(|items|, d requires 0 <= d < |items| => (IntKey(d), MainValue(def, items[d], isoFormat)))
  }

  /** What one field contributes to the save parameters, or None when it is left out. */
  function FieldParam(f: FieldItems, isEmptyItem: (FieldDef, Item) -> bool, isoFormat: Value -> string): Option<Value> {
    if f.def.customStorage then None
    else
      var kept := FilterEmptyItems(f.def, f.items, isEmptyItem);
      if kept == [] then None
      else
        var list := Arr(DeltaList(f.def, kept, isoFormat));
        var value := if f.def.cardinality == 1 then Reset(list) else list;
        if Empty(value) then None else Some(value)
  }

  /** The parameter array built by visiting `fields` in order, each storing what `param` gives under its name. */
  function Gather(fields: seq<FieldItems>, param: FieldItems -> Option<Value>): Params {
    if fields == [] then []
    else
      var params := Gather(fields[..|fields| - 1], param);
      var last := fields[|fields| - 1];
      match param(last)
      case None => params
      case Some(v) => Put(params, last.name, v)
  }

  /** `$params` after the field loop of `doSaveFieldItems` has visited `fields`. */
  function SaveParams(fields: seq<FieldItems>, isEmptyItem: (FieldDef, Item) -> bool,
                      isoFormat: Value -> string): Params
  {
    Gather(fields, f => FieldParam(f, isEmptyItem, isoFormat))
  }

  /** A field after `doSaveFieldItems`: its empty items are gone unless it has custom storage. */
  function SavedField(f: FieldItems, isEmptyItem: (FieldDef, Item) -> bool): FieldItems {
    if f.def.customStorage then f
    else f.(items := FilterEmptyItems(f.def, f.items, isEmptyItem))
  }

  function SavedFields(fields: seq<FieldItems>, isEmptyItem: (FieldDef, Item) -> bool): seq<FieldItems> {
    seq(|fields|, i requires 0 <= i < |fields| => SavedField(fields[i], isEmptyItem))
  }

  predicate DistinctNames(fields: seq<FieldItems>) {
    forall i, j :: 0 <= i < j < |fields| ==> fields[i].name != fields[j].name
  }

  // ----- load side -----

  /** The rewrite `initFieldValues` applies to one datetime value. */
  function NormalizeValue(v: Value, formatTimestamp: Value -> string): (r: Value)
    ensures r.Arr? <==> v.Arr?
    ensures !v.Arr? ==> r.Str?
    ensures v.Str? && !IsNumeric(v) ==> r == Str(SpacesToT(v.s))
    ensures !v.Arr? && !IsNumeric(v) ==> r == Str(SpacesToT(ScalarToString(v)))
    ensures !IsNumeric(v) ==> r == StrReplaceSpaces(v)
  {
    if IsNumeric(v) then Str(formatTimestamp(v)) else StrReplaceSpaces(v)
  }

  function NormalizeItem(def: FieldDef, item: Item, formatTimestamp: Value -> string): Item {
    Put(item, def.mainProperty, NormalizeValue(LookupOr(item, def.mainProperty, Null), formatTimestamp))
  }

  /** A field after `initFieldValues`: only non-empty datetime fields change. */
  function InitField(f: FieldItems, isEmptyItem: (FieldDef, Item) -> bool,
                     formatTimestamp: Value -> string): FieldItems
  {
    if ListIsEmpty(f.def, f.items, isEmptyItem) || f.def.fieldType != "datetime" then f
    else f.(items := seq(|f.items|, d requires 0 <= d < |f.items| =>
                           NormalizeItem(f.def, f.items[d], formatTimestamp)))
  }

  /** The records a `get` response holds, in order; `foreach` over a non-array visits nothing. */
  function Records(response: Value): seq<Value> {
    if response.Arr? then seq(|response.entries|, i requires 0 <= i < |response.entries| => response.entries[i].1)
    else []
  }

  /** One entity under its id, as `$entities[$entity->id()] = $entity` stores it. */
  function Keyed<E>(e: E, idOf: E -> Key): (Key, E) {
    (idOf(e), e)
  }

  /** The entities built from every record of one response, each from `reset($record)`. */
  function FromAllRecords<E>(response: Value, construct: Value -> E, idOf: E -> Key): OMap<Key, E> {
    var records := Records(response);
    IndexBy(seq(|records|, i requires 0 <= i < |records| => Keyed(construct(Reset(records[i])), idOf)))
  }

  /** The id lookup calls, all answered: each response's `reset()` becomes one entity. */
  function FromIdResponses<E>(calls: seq<Call>, construct: Value -> E, idOf: E -> Key): OMap<Key, E>
    requires forall j :: 0 <= j < |calls| ==> calls[j].GetCall? && calls[j].response.Ok?
  {
    IndexBy(seq(|calls|, j requires 0 <= j < |calls| => Keyed(construct(Reset(calls[j].response.value)), idOf)))
  }

  /** One more answered call stores one more entity. */
  lemma FromIdResponsesStep<E>(calls: seq<Call>, construct: Value -> E, idOf: E -> Key)
    requires calls != []
    requires forall j :: 0 <= j < |calls| ==> calls[j].GetCall? && calls[j].response.Ok?
    ensures var e := construct(Reset(calls[|calls| - 1].response.value));
      FromIdResponses(calls, construct, idOf) ==
      Put(FromIdResponses(calls[..|calls| - 1], construct, idOf), idOf(e), e)
  {
    var pairs := seq(|calls|, j requires 0 <= j < |calls| => Keyed(construct(Reset(calls[j].response.value)), idOf));
    var init := calls[..|calls| - 1];
    assert pairs[..|calls| - 1] ==
      seq(|init|, j requires 0 <= j < |init| => Keyed(construct(Reset(init[j].response.value)), idOf));
  }

  /** `$this->civicrmApi->get($entity, ['id' => $ids[j]])` for each j, in order. */
  predicate GetsById(calls: seq<Call>, entity: string, ids: seq<Value>) {
    |calls| <= |ids| &&
    forall j :: 0 <= j < |calls| ==>
      calls[j].GetCall? && calls[j].entity == entity && calls[j].params == [("id", ids[j])]
  }

  /** Every call but the last in `calls` succeeded. */
  predicate AllButLastOk(calls: seq<Call>) {
    forall j :: 0 <= j < |calls| - 1 ==> calls[j].GetCall? ==> calls[j].response.Ok?
  }

  /** One more lookup by the next id extends the lookups made so far. */
  lemma GetsByIdStep(calls: seq<Call>, entity: string, ids: seq<Value>, response: Result<Value>)
    requires GetsById(calls, entity, ids) && |calls| < |ids|
    ensures GetsById(calls + [GetCall(entity, [("id", ids[|calls|])], response)], entity, ids)
  {
  }

  /** After answered lookups, one more call leaves every call but the last answered. */
  lemma AnsweredThenOne(calls: seq<Call>, call: Call)
    requires forall j :: 0 <= j < |calls| ==> calls[j].GetCall? && calls[j].response.Ok?
    ensures AllButLastOk(calls + [call])
  {
    assert forall j :: 0 <= j < |calls| ==> (calls + [call])[j] == calls[j];
  }

  // ----- properties of the save parameters -----

  /** A prefix of a list with distinct names has distinct names. */
  lemma DistinctNamesPrefix(fields: seq<FieldItems>, n: nat)
    requires DistinctNames(fields) && n <= |fields|
    ensures DistinctNames(fields[..n])
  {
    forall a, b | 0 <= a < b < n ensures fields[..n][a].name != fields[..n][b].name {
      assert fields[..n][a] == fields[a] && fields[..n][b] == fields[b];
    }
  }

  /** A name is a key of the gathered array exactly when some field of that name contributes. */
  lemma {:induction false} GatherKeys(fields: seq<FieldItems>, param: FieldItems -> Option<Value>, name: string)
    ensures HasKey(Gather(fields, param), name) <==>
      exists i :: 0 <= i < |fields| && fields[i].name == name && param(fields[i]).Some?
  {
    if fields != [] {
      var init := fields[..|fields| - 1];
      var last := fields[|fields| - 1];
      GatherKeys(init, param, name);
      var params := Gather(init, param);
      if param(last).Some? {
        PutLookup(params, last.name, param(last).value);
        if name != last.name {
          assert Lookup(Put(params, last.name, param(last).value), name) == Lookup(params, name);
        }
      }
      if exists i :: 0 <= i < |init| && init[i].name == name && param(init[i]).Some? {
        var i :| 0 <= i < |init| && init[i].name == name && param(init[i]).Some?;
        assert fields[i] == init[i];
      }
      if exists i :: 0 <= i < |fields| && fields[i].name == name && param(fields[i]).Some? {
        var i :| 0 <= i < |fields| && fields[i].name == name && param(fields[i]).Some?;
        if i < |init| { assert init[i] == fields[i]; }
      }
    }
  }

  /** With distinct names, each field's entry in the gathered array is exactly its contribution. */
  lemma {:induction false} GatherLookup(fields: seq<FieldItems>, param: FieldItems -> Option<Value>, i: nat)
    requires DistinctNames(fields) && i < |fields|
    ensures Lookup(Gather(fields, param), fields[i].name) == param(fields[i])
  {
    var init := fields[..|fields| - 1];
    var last := fields[|fields| - 1];
    var params := Gather(init, param);
    if param(last).Some? {
      PutLookup(params, last.name, param(last).value);
    }
    if i < |init| {
      assert init[i] == fields[i];
      DistinctNamesPrefix(fields, |fields| - 1);
      GatherLookup(init, param, i);
    } else {
      GatherKeys(init, param, last.name);
      assert !HasKey(params, last.name) by {
        forall j | 0 <= j < |init| ensures init[j].name != last.name {
          assert init[j] == fields[j];
        }
      }
    }
  }

  /** A field name is a parameter exactly when some field of that name contributes a value. */
  lemma SaveParamsKeys(fields: seq<FieldItems>, isEmptyItem: (FieldDef, Item) -> bool,
                       isoFormat: Value -> string, name: string)
    ensures HasKey(SaveParams(fields, isEmptyItem, isoFormat), name) <==>
      exists i :: 0 <= i < |fields| && fields[i].name == name && FieldParam(fields[i], isEmptyItem, isoFormat).Some?
  {
    GatherKeys(fields, f => FieldParam(f, isEmptyItem, isoFormat), name);
  }

  /** With distinct field names, each field's parameter is exactly what that field contributes. */
  lemma SaveParamsLookup(fields: seq<FieldItems>, isEmptyItem: (FieldDef, Item) -> bool,
                         isoFormat: Value -> string, i: nat)
    requires DistinctNames(fields) && i < |fields|
    ensures Lookup(SaveParams(fields, isEmptyItem, isoFormat), fields[i].name) ==
      FieldParam(fields[i], isEmptyItem, isoFormat)
  {
    GatherLookup(fields, f => FieldParam(f, isEmptyItem, isoFormat), i);
  }

  /** A field with custom storage never reaches the CRM. */
  lemma CustomStorageNeverSent(fields: seq<FieldItems>, isEmptyItem: (FieldDef, Item) -> bool,
                               isoFormat: Value -> string, i: nat)
    requires DistinctNames(fields) && i < |fields| && fields[i].def.customStorage
    ensures !HasKey(SaveParams(fields, isEmptyItem, isoFormat), fields[i].name)
  {
    SaveParamsLookup(fields, isEmptyItem, isoFormat, i);
  }

  /** Visiting one more field appends its saved form. */
  lemma SavedFieldsPrefix(fields: seq<FieldItems>, isEmptyItem: (FieldDef, Item) -> bool, i: nat)
    requires i < |fields|
    ensures SavedFields(fields[..i + 1], isEmptyItem) ==
      SavedFields(fields[..i], isEmptyItem) + [SavedField(fields[i], isEmptyItem)]
  {
  }

  /** Visiting one more field stores its contribution, if any, under its name. */
  lemma SaveParamsPrefix(fields: seq<FieldItems>, isEmptyItem: (FieldDef, Item) -> bool,
                         isoFormat: Value -> string, i: nat)
    requires i < |fields|
    ensures SaveParams(fields[..i + 1], isEmptyItem, isoFormat) ==
      match FieldParam(fields[i], isEmptyItem, isoFormat)
      case None => SaveParams(fields[..i], isEmptyItem, isoFormat)
      case Some(v) => Put(SaveParams(fields[..i], isEmptyItem, isoFormat), fields[i].name, v)
  {
    assert fields[..i + 1][..i] == fields[..i];
  }

  /**
    Saving keeps the field names, so they stay distinct, and no field left
    with custom storage is among the parameters the save sends.
   */
  lemma SavedFieldsOmitCustom(fields: seq<FieldItems>, isEmptyItem: (FieldDef, Item) -> bool,
                              isoFormat: Value -> string)
    requires DistinctNames(fields)
    ensures DistinctNames(SavedFields(fields, isEmptyItem))
    ensures var saved := SavedFields(fields, isEmptyItem);
      forall i :: 0 <= i < |saved| && saved[i].def.customStorage ==>
        !HasKey(SaveParams(fields, isEmptyItem, isoFormat), saved[i].name)
  {
    var saved := SavedFields(fields, isEmptyItem);
    forall i | 0 <= i < |saved| && saved[i].def.customStorage
      ensures !HasKey(SaveParams(fields, isEmptyItem, isoFormat), saved[i].name)
    {
      CustomStorageNeverSent(fields, isEmptyItem, isoFormat, i);
    }
  }

  /** A field whose items are all empty contributes nothing. */
  lemma EmptyFieldNeverSent(f: FieldItems, isEmptyItem: (FieldDef, Item) -> bool, isoFormat: Value -> string)
    requires ListIsEmpty(f.def, f.items, isEmptyItem)
    ensures FieldParam(f, isEmptyItem, isoFormat) == None
  {
  }

  /** No parameter value is PHP-empty. */
  lemma NoEmptyValueSent(f: FieldItems, isEmptyItem: (FieldDef, Item) -> bool, isoFormat: Value -> string)
    ensures FieldParam(f, isEmptyItem, isoFormat).Some? ==> !Empty(FieldParam(f, isEmptyItem, isoFormat).value)
  {
  }

  /** A single-valued field sends the bare main value of its first non-empty item, unless that value is empty. */
  lemma SingleValuedIsBare(f: FieldItems, isEmptyItem: (FieldDef, Item) -> bool, isoFormat: Value -> string)
    requires !f.def.customStorage && f.def.cardinality == 1 && !ListIsEmpty(f.def, f.items, isEmptyItem)
    ensures var first := MainValue(f.def, FilterEmptyItems(f.def, f.items, isEmptyItem)[0], isoFormat);
      FieldParam(f, isEmptyItem, isoFormat) == if Empty(first) then None else Some(first)
  {
  }

  /** Any other field sends the list of its non-empty items' main values keyed by delta 0, 1, ... */
  lemma MultiValuedIsDeltaList(f: FieldItems, isEmptyItem: (FieldDef, Item) -> bool, isoFormat: Value -> string)
    requires !f.def.customStorage && f.def.cardinality != 1 && !ListIsEmpty(f.def, f.items, isEmptyItem)
    ensures var kept := FilterEmptyItems(f.def, f.items, isEmptyItem);
      FieldParam(f, isEmptyItem, isoFormat).Some? &&
      var list := FieldParam(f, isEmptyItem, isoFormat).value;
      list.Arr? && |list.entries| == |kept| > 0 &&
      forall d :: 0 <= d < |kept| ==> list.entries[d] == (IntKey(d), MainValue(f.def, kept[d], isoFormat))
  {
  }

  // ----- properties of the load-side rewrite -----

  /** A non-numeric string keeps its length and loses every space, each one turned into "T". */
  lemma NormalizeNonNumericString(s: string, formatTimestamp: Value -> string)
    requires !IsNumericString(s)
    ensures var r := NormalizeValue(Str(s), formatTimestamp);
      r.Str? && |r.s| == |s| && ' ' !in r.s &&
      forall k :: 0 <= k < |s| ==> r.s[k] == if s[k] == ' ' then 'T' else s[k]
  {
    SpacesToTRemovesSpaces(s);
  }

  /** A numeric value is read as a timestamp and formatted. */
  lemma NormalizeNumeric(v: Value, formatTimestamp: Value -> string)
    requires IsNumeric(v)
    ensures NormalizeValue(v, formatTimestamp) == Str(formatTimestamp(v))
  {
  }

  /** NULL and FALSE, which are not numeric, become "" and TRUE becomes "1": `str_replace` works on the string cast. */
  lemma NormalizeNonNumericScalars(formatTimestamp: Value -> string)
    ensures NormalizeValue(Null, formatTimestamp) == Str("")
    ensures NormalizeValue(Bool(false), formatTimestamp) == Str("")
    ensures NormalizeValue(Bool(true), formatTimestamp) == Str("1")
  {
    assert SpacesToT("1") == "1";
  }

  /** Normalizing a normalized string again changes nothing. */
  lemma NormalizeIdempotent(s: string, formatTimestamp: Value -> string)
    requires !IsNumericString(s)
    ensures var once := NormalizeValue(Str(s), formatTimestamp);
      NormalizeValue(once, formatTimestamp) == once
  {
    RewriteKeepsNonNumeric(s);
    SpacesToTIdempotent(s);
  }

  /** CiviCRM's `YYYY-MM-DD hh:mm:ss` becomes the storage form; a value already in storage form, or date-only, is kept. */
  lemma NormalizeDateForms(s: string, formatTimestamp: Value -> string)
    requires IsCiviDateTime(s) || IsStorageDateTime(s) || IsFullDate(s)
    ensures IsCiviDateTime(s) ==> NormalizeValue(Str(s), formatTimestamp) == Str(SpacesToT(s)) &&
                                  IsStorageDateTime(SpacesToT(s))
    ensures IsStorageDateTime(s) || IsFullDate(s) ==> NormalizeValue(Str(s), formatTimestamp) == Str(s)
  {
    DateFormsAreNotNumeric(s);
    if IsCiviDateTime(s) { CiviToStorage(s); } else { StorageFormStable(s); }
  }

  /** Empty fields and fields of any type other than `datetime` are left as they are. */
  lemma InitFieldLeavesOthers(f: FieldItems, isEmptyItem: (FieldDef, Item) -> bool, formatTimestamp: Value -> string)
    requires ListIsEmpty(f.def, f.items, isEmptyItem) || f.def.fieldType != "datetime"
    ensures InitField(f, isEmptyItem, formatTimestamp) == f
  {
  }

  /** In a rewritten field only the main property of each item changes, to its normalized value. */
  lemma InitFieldRewritesMainOnly(f: FieldItems, isEmptyItem: (FieldDef, Item) -> bool,
                                  formatTimestamp: Value -> string, d: nat, property: string)
    requires !ListIsEmpty(f.def, f.items, isEmptyItem) && f.def.fieldType == "datetime" && d < |f.items|
    ensures var g := InitField(f, isEmptyItem, formatTimestamp);
      g.name == f.name && g.def == f.def && |g.items| == |f.items| &&
      Lookup(g.items[d], property) ==
        if property == f.def.mainProperty
        then Some(NormalizeValue(LookupOr(f.items[d], property, Null), formatTimestamp))
        else Lookup(f.items[d], property)
  {
    PutLookup(f.items[d], f.def.mainProperty, NormalizeValue(LookupOr(f.items[d], f.def.mainProperty, Null), formatTimestamp));
  }

  /** Every loaded entity is stored under its own id, and at most once. */
  lemma IndexedUnderOwnId<E>(entities: seq<E>, idOf: E -> Key)
    ensures var loaded := IndexBy(seq(|entities|, i requires 0 <= i < |entities| => Keyed(entities[i], idOf)));
      DistinctKeys(loaded) && forall p :: p in loaded ==> p.0 == idOf(p.1)
  {
    var pairs := seq(|entities|, i requires 0 <= i < |entities| => Keyed(entities[i], idOf));
    IndexByEntries(pairs);
    forall p | p in pairs ensures p.0 == idOf(p.1) {
      var i :| 0 <= i < |pairs| && pairs[i] == p;
      assert pairs[i] == Keyed(entities[i], idOf);
    }
  }

  /** Both branches of `doLoadMultiple` store every entity under its own id, each id once. */
  lemma LoadedUnderOwnId<E>(response: Value, calls: seq<Call>, construct: Value -> E, idOf: E -> Key)
    ensures var loaded := FromAllRecords(response, construct, idOf);
      DistinctKeys(loaded) && forall p :: p in loaded ==> p.0 == idOf(p.1)
    ensures (forall j :: 0 <= j < |calls| ==> calls[j].GetCall? && calls[j].response.Ok?) ==>
      var loaded := FromIdResponses(calls, construct, idOf);
      DistinctKeys(loaded) && forall p :: p in loaded ==> p.0 == idOf(p.1)
  {
    var records := Records(response);
    var fromRecords := seq(|records|, i requires 0 <= i < |records| => construct(Reset(records[i])));
    IndexedUnderOwnId(fromRecords, idOf);
    assert seq(|fromRecords|, i requires 0 <= i < |fromRecords| => Keyed(fromRecords[i], idOf)) ==
      seq(|records|, i requires 0 <= i < |records| => Keyed(construct(Reset(records[i])), idOf));
    if forall j :: 0 <= j < |calls| ==> calls[j].GetCall? && calls[j].response.Ok? {
      var fromCalls := seq(|calls|, j requires 0 <= j < |calls| => construct(Reset(calls[j].response.value)));
      IndexedUnderOwnId(fromCalls, idOf);
      assert seq(|fromCalls|, j requires 0 <= j < |fromCalls| => Keyed(fromCalls[j], idOf)) ==
        seq(|calls|, j requires 0 <= j < |calls| => Keyed(construct(Reset(calls[j].response.value)), idOf));
    }
  }

  class CiviEntityStorage {
    var civicrmApi: Api
    /** `$this->entityType->get('civicrm_entity')`: the CiviCRM entity name. */
    var civicrmEntity: string

    /** Holds the API client and the CiviCRM entity name; the other collaborators are not modelled. */
    constructor (api: Api, civicrmEntity: string)
      ensures this.civicrmApi == api && this.civicrmEntity == civicrmEntity
    {
      this.civicrmApi := api;
      this.civicrmEntity := civicrmEntity;
    }

    /** `has($id, $entity)`: the entity exists exactly when it is not new. */
    function Has(id: Value, entity: Entity): (r: bool)
      reads entity
      ensures r <==> !entity.isNew
    {
      !entity.isNew
    }

    /** `countFieldData($storage_definition, $as_bool)`: always a falsy answer, 0 or FALSE. */
    function CountFieldData(storageDefinition: FieldDef, asBool: bool): (r: Value)
      ensures !Truthy(r)
      ensures asBool ==> r == Int(0)
      ensures !asBool ==> r == Bool(false)
    {
      if asBool then Int(0) else Bool(false)
    }

    /** `hasData()`: never reports stored data. */
    function HasData(): (r: bool)
      ensures !r
    {
      false
    }

    /**
      `doSaveFieldItems($entity, $names)`, after the parent storage step: filter
      each CRM-stored field, build the parameter array, and save it in one call.
     */
    method DoSaveFieldItems(entity: Entity, names: seq<string>, isEmptyItem: (FieldDef, Item) -> bool,
                            isoFormat: Value -> string) returns (r: Outcome)
      requires entity.Valid()
      modifies entity`fields, civicrmApi
      ensures entity.fields == SavedFields(old(entity.fields), isEmptyItem)
      ensures civicrmApi.log ==
        old(civicrmApi.log) + [SaveCall(civicrmEntity, SaveParams(old(entity.fields), isEmptyItem, isoFormat), r)]
      ensures entity.Valid()
      ensures forall i :: 0 <= i < |entity.fields| && entity.fields[i].def.customStorage ==>
        !HasKey(civicrmApi.log[|civicrmApi.log| - 1].params, entity.fields[i].name)
    {
      ghost var original := entity.fields;
      var params: Params := [];
      var i := 0;
      while i < |entity.fields|
        invariant 0 <= i <= |entity.fields| == |original|
        invariant entity.fields[..i] == SavedFields(original[..i], isEmptyItem)
        invariant entity.fields[i..] == original[i..]
        invariant params == SaveParams(original[..i], isEmptyItem, isoFormat)
        invariant civicrmApi.log == old(civicrmApi.log)
      {
        var f := entity.fields[i];
        assert f == original[i] by { assert entity.fields[i..][0] == original[i..][0]; }
        SavedFieldsPrefix(original, isEmptyItem, i);
        SaveParamsPrefix(original, isEmptyItem, isoFormat, i);
        ghost var done := entity.fields[..i];
        if !f.def.customStorage {
          var kept := FilterEmptyItems(f.def, f.items, isEmptyItem);
          entity.fields := entity.fields[i := f.(items := kept)];
          if kept != [] {
            var list := BuildDeltaList(f.def, kept, isoFormat);
            var value := if f.def.cardinality == 1 then Reset(Arr(list)) else Arr(list);
            if !Empty(value) {
              params := Put(params, f.name, value);
            }
          }
        }
        assert entity.fields[..i + 1] == done + [SavedField(f, isEmptyItem)];
        assert entity.fields[i + 1..] == original[i + 1..];
        i := i + 1;
      }
      assert original[..i] == original;
      r := civicrmApi.Save(civicrmEntity, params);
      SavedFieldsOmitCustom(original, isEmptyItem, isoFormat);
    }

    /** The inner loop of `doSaveFieldItems`: `$list[$delta] = $value` for each item. */
    static method BuildDeltaList(def: FieldDef, items: seq<Item>, isoFormat: Value -> string)
      returns (list: OMap<Key, Value>)
      ensures list == DeltaList(def, items, isoFormat)
    {
      list := [];
      var delta := 0;
      while delta < |items|
        invariant 0 <= delta <= |items|
        invariant list == DeltaList(def, items[..delta], isoFormat)
      {
        var main := LookupOr(items[delta], def.mainProperty, Null);
        var value := if def.mainIsDateTime then Str(isoFormat(main)) else main;
        assert !HasKey(list, IntKey(delta)) by {
          forall k | 0 <= k < |list| ensures list[k].0 != IntKey(delta) { }
        }
        PutShape(list, IntKey(delta), value);
        list := Put(list, IntKey(delta), value);
        assert items[..delta + 1][..delta] == items[..delta];
        delta := delta + 1;
      }
      assert items[..delta] == items;
    }

    /**
      `doDeleteFieldItems($entities)`, after the parent storage step: one
      `delete` call per entity, in order; the first failure is rethrown and
      ends the loop.
     */
    method DoDeleteFieldItems(entities: seq<Entity>) returns (r: Outcome)
      modifies civicrmApi
      ensures |old(civicrmApi.log)| <= |civicrmApi.log| <= |old(civicrmApi.log)| + |entities|
      ensures civicrmApi.log[..|old(civicrmApi.log)|] == old(civicrmApi.log)
      ensures forall j :: |old(civicrmApi.log)| <= j < |civicrmApi.log| ==>
        civicrmApi.log[j].DeleteCall? && civicrmApi.log[j].entity == civicrmEntity &&
        civicrmApi.log[j].params == [("id", entities[j - |old(civicrmApi.log)|].id)]
      ensures forall j :: |old(civicrmApi.log)| <= j < |civicrmApi.log| - 1 ==> civicrmApi.log[j].outcome == Pass
      ensures r == Pass ==> |civicrmApi.log| == |old(civicrmApi.log)| + |entities|
      ensures r.Fail? ==> |civicrmApi.log| > |old(civicrmApi.log)| && civicrmApi.log[|civicrmApi.log| - 1].outcome == r
      ensures r == Pass <==> forall j :: |old(civicrmApi.log)| <= j < |old(civicrmApi.log)| + |entities| ==>
        j < |civicrmApi.log| && civicrmApi.log[j].outcome == Pass
    {
      var start := |civicrmApi.log|;
      var i := 0;
      while i < |entities|
        invariant 0 <= i <= |entities|
        invariant |civicrmApi.log| == start + i
        invariant civicrmApi.log[..start] == old(civicrmApi.log)
        invariant forall j :: start <= j < |civicrmApi.log| ==>
          civicrmApi.log[j].DeleteCall? && civicrmApi.log[j].entity == civicrmEntity &&
          civicrmApi.log[j].params == [("id", entities[j - start].id)] && civicrmApi.log[j].outcome == Pass
      {
        var params: Params := [("id", entities[i].id)];
        var outcome := civicrmApi.Delete(civicrmEntity, params);
        if outcome.Fail? {
          return outcome;
        }
        i := i + 1;
      }
      return Pass;
    }

    /**
      `doLoadMultiple($ids)`: with no ids, one `get` of every record; with ids,
      one `get` per id. Each entity is stored under its own id.
     */
    method DoLoadMultiple<E>(ids: Option<seq<Value>>, construct: Value -> E, idOf: E -> Key)
      returns (r: Result<OMap<Key, E>>)
      modifies civicrmApi
      ensures |old(civicrmApi.log)| <= |civicrmApi.log|
      ensures civicrmApi.log[..|old(civicrmApi.log)|] == old(civicrmApi.log)
      ensures ids.None? ==>
        |civicrmApi.log| == |old(civicrmApi.log)| + 1 &&
        var call := civicrmApi.log[|old(civicrmApi.log)|];
        call.GetCall? && call.entity == civicrmEntity && call.params == [] &&
        r == match call.response
             case Ok(response) => Ok(FromAllRecords(response, construct, idOf))
             case Err(e) => Err(e)
      ensures ids.Some? ==>
        var calls := civicrmApi.log[|old(civicrmApi.log)|..];
        GetsById(calls, civicrmEntity, ids.value) && AllButLastOk(calls) &&
        (r.Ok? <==> |calls| == |ids.value| && forall j :: 0 <= j < |calls| ==> calls[j].response.Ok?) &&
        (r.Ok? ==> r.value == FromIdResponses(calls, construct, idOf)) &&
        (r.Err? ==> |calls| > 0 && calls[|calls| - 1].response == Err(r.error))
    {
      if ids.None? {
        var response := civicrmApi.Get(civicrmEntity, []);
        if response.Err? {
          return Err(response.error);
        }
        var entities := LoadAll(response.value, construct, idOf);
        return Ok(entities);
      }
      r := LoadByIds(ids.value, construct, idOf);
    }

    /** The `foreach ($ids as $id)` branch of `doLoadMultiple`. */
    method LoadByIds<E>(ids: seq<Value>, construct: Value -> E, idOf: E -> Key)
      returns (r: Result<OMap<Key, E>>)
      modifies civicrmApi
      ensures |old(civicrmApi.log)| <= |civicrmApi.log|
      ensures civicrmApi.log[..|old(civicrmApi.log)|] == old(civicrmApi.log)
      ensures var calls := civicrmApi.log[|old(civicrmApi.log)|..];
        GetsById(calls, civicrmEntity, ids) && AllButLastOk(calls) &&
        (r.Ok? <==> |calls| == |ids| && forall j :: 0 <= j < |calls| ==> calls[j].response.Ok?) &&
        (r.Ok? ==> r.value == FromIdResponses(calls, construct, idOf)) &&
        (r.Err? ==> |calls| > 0 && calls[|calls| - 1].response == Err(r.error))
    {
      ghost var calls: seq<Call> := [];
      var entities: OMap<Key, E> := [];
      var i := 0;
      while i < |ids|
        invariant 0 <= i <= |ids| && |calls| == i
        invariant civicrmApi.log == old(civicrmApi.log) + calls
        invariant GetsById(calls, civicrmEntity, ids)
        invariant forall j :: 0 <= j < i ==> calls[j].response.Ok?
        invariant entities == FromIdResponses(calls, construct, idOf)
      {
        ghost var previous := calls;
        var response := civicrmApi.Get(civicrmEntity, [("id", ids[i])]);
        GetsByIdStep(calls, civicrmEntity, ids, response);
        AnsweredThenOne(calls, GetCall(civicrmEntity, [("id", ids[i])], response));
        calls := calls + [GetCall(civicrmEntity, [("id", ids[i])], response)];
        if response.Err? {
          assert civicrmApi.log[|old(civicrmApi.log)|..] == calls;
          return Err(response.error);
        }
        var entity := construct(Reset(response.value));
        entities := Put(entities, idOf(entity), entity);
        assert calls[..i] == previous;
        FromIdResponsesStep(calls, construct, idOf);
        i := i + 1;
      }
      assert civicrmApi.log[|old(civicrmApi.log)|..] == calls;
      return Ok(entities);
    }

    /** The loop over every record of the unfiltered `get`. */
    static method LoadAll<E>(response: Value, construct: Value -> E, idOf: E -> Key)
      returns (entities: OMap<Key, E>)
      ensures entities == FromAllRecords(response, construct, idOf)
    {
      var records := Records(response);
      entities := [];
      var i := 0;
      while i < |records|
        invariant 0 <= i <= |records|
        invariant entities == IndexBy(seq(i, k requires 0 <= k < i => Keyed(construct(Reset(records[k])), idOf)))
      {
        var entity := construct(Reset(records[i]));
        ghost var pairs := seq(i + 1, k requires 0 <= k < i + 1 => Keyed(construct(Reset(records[k])), idOf));
        assert pairs[..i] == seq(i, k requires 0 <= k < i => Keyed(construct(Reset(records[k])), idOf));
        entities := Put(entities, idOf(entity), entity);
        i := i + 1;
      }
    }

    /**
      `initFieldValues($entity, ...)`, after the parent step: in every non-empty
      datetime field, each item's main value is rewritten into storage form.
     */
    method InitFieldValues(entity: Entity, isEmptyItem: (FieldDef, Item) -> bool, formatTimestamp: Value -> string)
      modifies entity`fields
      ensures |entity.fields| == |old(entity.fields)|
      ensures forall i :: 0 <= i < |entity.fields| ==>
        entity.fields[i] == InitField(old(entity.fields)[i], isEmptyItem, formatTimestamp)
    {
      var i := 0;
      while i < |entity.fields|
        invariant 0 <= i <= |entity.fields| == |old(entity.fields)|
        invariant forall k :: 0 <= k < i ==> entity.fields[k] == InitField(old(entity.fields)[k], isEmptyItem, formatTimestamp)
        invariant forall k :: i <= k < |entity.fields| ==> entity.fields[k] == old(entity.fields)[k]
      {
        var f := entity.fields[i];
        if !ListIsEmpty(f.def, f.items, isEmptyItem) && f.def.fieldType == "datetime" {
          var itemValues := f.items;
          var delta := 0;
          while delta < |itemValues|
            invariant 0 <= delta <= |itemValues| == |f.items|
            invariant forall d :: 0 <= d < delta ==> itemValues[d] == NormalizeItem(f.def, f.items[d], formatTimestamp)
            invariant forall d :: delta <= d < |itemValues| ==> itemValues[d] == f.items[d]
          {
            var item := itemValues[delta];
            var main := LookupOr(item, f.def.mainProperty, Null);
            var value := if IsNumeric(main) then Str(formatTimestamp(main)) else StrReplaceSpaces(main);
            itemValues := itemValues[delta := Put(item, f.def.mainProperty, value)];
            delta := delta + 1;
          }
          entity.fields := entity.fields[i := f.(items := itemValues)];
        }
        i := i + 1;
      }
    }
  }
}
