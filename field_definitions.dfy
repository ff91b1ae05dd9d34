// The field definition service: a user's own trade fields. A new field gets a
// normalised name that no other field of the user has and the next display
// order; system fields are protected from edits and deletion; deletion only
// deactivates; a reorder numbers the user's fields in the given order.

module FieldDefinitions {
  import opened Common
  import opened Domain
  import opened Text
  import opened Linq
  import TradeServices

  datatype FieldDefinitionCreateDto = FieldDefinitionCreateDto(
    fieldName: string,
    displayName: string,
    fieldType: int,
    options: Option<seq<string>>,
    defaultValue: Option<string>,
    isRequired: bool,
    helpText: Option<string>,
    category: Option<string>)

  datatype FieldDefinitionUpdateDto = FieldDefinitionUpdateDto(
    id: int,
    displayName: string,
    options: Option<seq<string>>,
    defaultValue: Option<string>,
    isRequired: bool,
    helpText: Option<string>,
    displayOrder: int,
    category: Option<string>)

  /** The JSON serializer the service stores option lists with; its output is not modelled. */
  type Serializer = seq<string> -> string

  function SerializedOptions(options: Option<seq<string>>, serialize: Serializer): Option<string> {
    match options
    case None => None
    case Some(o) => Some(serialize(o))
  }

  // ---------------------------------------------------------------------------
  // Field names
  // ---------------------------------------------------------------------------

  /** The stored form of a field name: lower case, spaces turned into underscores. */
  function NormalizeFieldName(name: string): (r: string)
    ensures |r| == |name|
    ensures ' ' !in r
    ensures forall i :: 0 <= i < |r| ==> r[i] == (if LowerChar(name[i]) == ' ' then '_' else LowerChar(name[i]))
  {
    ReplaceCharByChar(ToLower(name), ' ', '_');
    Replace(ToLower(name), " ", "_")
  }

  /** A stored name is its own normal form. */
  lemma NormalizeIdempotent(name: string)
    ensures NormalizeFieldName(NormalizeFieldName(name)) == NormalizeFieldName(name)
  {
    var n := NormalizeFieldName(name);
    var m := NormalizeFieldName(n);
    forall i | 0 <= i < |n| ensures m[i] == n[i] {
      assert LowerChar(n[i]) == n[i];
    }
  }

  /** The duplicate check of `CreateAsync` as written: the stored name and the
    * requested name are compared after lower-casing only. */
  predicate NameTakenAsWritten(fields: seq<FieldDefinition>, userId: int, name: string) {
    exists i :: 0 <= i < |fields| && fields[i].userId == userId && ToLower(fields[i].fieldName) == ToLower(name)
  }

  /** The duplicate check the service needs: the requested name is compared in
    * the form in which it would be stored. */
  predicate NameTaken(fields: seq<FieldDefinition>, userId: int, name: string) {
    exists i :: 0 <= i < |fields| && fields[i].userId == userId
      && NormalizeFieldName(fields[i].fieldName) == NormalizeFieldName(name)
  }

  /** Every name the written check rejects is rejected by the corrected one too. */
  lemma NameTakenCoversAsWritten(fields: seq<FieldDefinition>, userId: int, name: string)
    ensures NameTakenAsWritten(fields, userId, name) ==> NameTaken(fields, userId, name)
  {
    if NameTakenAsWritten(fields, userId, name) {
      var i :| 0 <= i < |fields| && fields[i].userId == userId && ToLower(fields[i].fieldName) == ToLower(name);
      assert NormalizeFieldName(fields[i].fieldName) == NormalizeFieldName(name);
    }
  }

  /** No two fields of one user share a stored name. */
  predicate DistinctNamesPerUser(fields: seq<FieldDefinition>) {
    forall i, j :: 0 <= i < j < |fields| && fields[i].userId == fields[j].userId ==>
      fields[i].fieldName != fields[j].fieldName
  }

  lemma AppendKeepsNames(fields: seq<FieldDefinition>, f: FieldDefinition)
    requires DistinctNamesPerUser(fields)
    requires forall i :: 0 <= i < |fields| && fields[i].userId == f.userId ==> fields[i].fieldName != f.fieldName
    ensures DistinctNamesPerUser(fields + [f])
  {
  }

  /** The unique index on (UserId, FieldName): the insert fails when the user
    * already has a field stored under exactly the new field's name. */
  predicate StoredNameClash(fields: seq<FieldDefinition>, userId: int, name: string) {
    exists i :: 0 <= i < |fields| && fields[i].userId == userId && fields[i].fieldName == NormalizeFieldName(name)
  }

  /** A stored name is in normal form: lower-case, no spaces. */
  predicate IsNormalName(name: string) {
    NormalizeFieldName(name) == name
  }

  /** A name the corrected check accepts differs, once normalised, from every
    * stored name of the user. */
  lemma FreeNameIsNew(fields: seq<FieldDefinition>, userId: int, name: string)
    requires !NameTaken(fields, userId, name)
    ensures forall i :: 0 <= i < |fields| && fields[i].userId == userId ==>
      fields[i].fieldName != NormalizeFieldName(name)
  {
    forall i | 0 <= i < |fields| && fields[i].userId == userId
      ensures fields[i].fieldName != NormalizeFieldName(name)
    {
      if fields[i].fieldName == NormalizeFieldName(name) {
        NormalizeIdempotent(name);
      }
    }
  }

  // ---------------------------------------------------------------------------
  // Orders and listing
  // ---------------------------------------------------------------------------

  /** Whether the user has any field, active or not. */
  predicate HasFieldOf(fields: seq<FieldDefinition>, userId: int) {
    exists i :: 0 <= i < |fields| && fields[i].userId == userId
  }

  /** `Max(f => f.DisplayOrder)` over the user's fields, 0 when there are none. */
  function MaxDisplayOrder(fields: seq<FieldDefinition>, userId: int): (m: int)
    ensures forall i :: 0 <= i < |fields| && fields[i].userId == userId ==> fields[i].displayOrder <= m
    ensures !HasFieldOf(fields, userId) ==> m == 0
    ensures HasFieldOf(fields, userId) ==>
      exists i :: 0 <= i < |fields| && fields[i].userId == userId && fields[i].displayOrder == m
  {
    if fields == [] then 0
    else
      var rest := MaxDisplayOrder(fields[1..], userId);
      assert forall i :: 1 <= i < |fields| ==> fields[i] == fields[1..][i - 1];
      assert HasFieldOf(fields[1..], userId) ==> HasFieldOf(fields, userId) by {
        if HasFieldOf(fields[1..], userId) {
          var i :| 0 <= i < |fields[1..]| && fields[1..][i].userId == userId;
          assert fields[i + 1].userId == userId;
        }
      }
      if fields[0].userId != userId then rest
      else if !HasFieldOf(fields[1..], userId) then fields[0].displayOrder
      else if fields[0].displayOrder >= rest then fields[0].displayOrder
      else rest
  }

  /** `OrderBy(DisplayOrder).ThenBy(DisplayName)`, the name compared ordinally. */
  predicate ListingLe(a: FieldDefinition, b: FieldDefinition) {
    a.displayOrder < b.displayOrder || (a.displayOrder == b.displayOrder && OrdinalLe(a.displayName, b.displayName))
  }

  lemma ListingLeIsPreorder()
    ensures TotalPreorder(ListingLe)
  {
    forall a: FieldDefinition, b: FieldDefinition ensures ListingLe(a, b) || ListingLe(b, a) {
      OrdinalLeTotal(a.displayName, b.displayName);
    }
    forall a: FieldDefinition, b: FieldDefinition, c: FieldDefinition | ListingLe(a, b) && ListingLe(b, c)
      ensures ListingLe(a, c)
    {
      if a.displayOrder == b.displayOrder == c.displayOrder {
        OrdinalLeTransitive(a.displayName, b.displayName, c.displayName);
      }
    }
  }

  function ActiveFieldsOf(fields: seq<FieldDefinition>, userId: int): (r: seq<FieldDefinition>)
    ensures forall f :: f in r <==> f in fields && f.userId == userId && f.isActive
  {
    if fields == [] then []
    else
      var head := if fields[0].userId == userId && fields[0].isActive then [fields[0]] else [];
      head + ActiveFieldsOf(fields[1..], userId)
  }

  /** `GetUserFieldsAsync`: the user's active fields by display order, then by display name. */
  function UserFields(fields: seq<FieldDefinition>, userId: int): (r: seq<FieldDefinition>)
    ensures forall f :: f in r <==> f in fields && f.userId == userId && f.isActive
    ensures SortedBy(r, ListingLe)
    ensures KeepsTiesInOrder(r, ActiveFieldsOf(fields, userId), ListingLe)
  {
    ListingLeIsPreorder();
    var active := ActiveFieldsOf(fields, userId);
    var r := SortBy(active, ListingLe);
    forall f ensures f in r <==> f in active {
      SortByMembers(active, ListingLe, f);
    }
    r
  }

  // ---------------------------------------------------------------------------
  // Reordering
  // ---------------------------------------------------------------------------

  /** The last position of `id` in the requested order. */
  function LastIndex(ids: seq<int>, id: int): (k: Option<nat>)
    ensures k.Some? ==> k.value < |ids| && ids[k.value] == id
    ensures k.Some? ==> forall i :: k.value < i < |ids| ==> ids[i] != id
    ensures k.None? ==> id !in ids
  {
    if ids == [] then None
    else if ids[|ids| - 1] == id then Some(|ids| - 1)
    else
      var k := LastIndex(ids[..|ids| - 1], id);
      assert ids == ids[..|ids| - 1] + [ids[|ids| - 1]];
      k
  }

  /** A field after the reorder: a field of the user whose id is listed takes
    * the position of its last listing, counted from 1, as its order. */
  function Reordered(f: FieldDefinition, userId: int, ids: seq<int>): (r: FieldDefinition)
    ensures f.userId != userId || f.id !in ids ==> r == f
    ensures f.userId == userId && f.id in ids ==>
      r == f.(displayOrder := LastIndex(ids, f.id).value + 1, order := LastIndex(ids, f.id).value + 1)
  {
    if f.userId == userId && LastIndex(ids, f.id).Some? then
      var p := LastIndex(ids, f.id).value + 1;
      f.(displayOrder := p, order := p)
    else f
  }

  /** The position of the field with an id (`GetByIdAsync`). */
  function IndexOfField(fields: seq<FieldDefinition>, id: int): (k: Option<nat>)
    ensures k.Some? ==> k.value < |fields| && fields[k.value].id == id
    ensures k.None? ==> forall i :: 0 <= i < |fields| ==> fields[i].id != id
  {
    if fields == [] then None
    else if fields[0].id == id then Some(0)
    else match IndexOfField(fields[1..], id)
      case None => None
      case Some(k) => Some(k + 1)
  }

  /** One more listed id changes only the field that id names. */
  lemma ReorderedStep(f: FieldDefinition, userId: int, ids: seq<int>, i: nat)
    requires i < |ids|
    ensures Reordered(f, userId, ids[..i + 1]) ==
      if f.userId == userId && f.id == ids[i] then f.(displayOrder := i + 1, order := i + 1)
      else Reordered(f, userId, ids[..i])
  {
    assert ids[..i + 1][..i] == ids[..i];
  }

  /** One turn of the loop of `ReorderFieldsAsync`: the field listed at
    * position `i`, when it is the user's, takes `i + 1` as its order. */
  method PlaceField(r: seq<FieldDefinition>, ghost fields: seq<FieldDefinition>, userId: int, ids: seq<int>, i: nat)
    returns (r2: seq<FieldDefinition>)
    requires TradeServices.UniqueDefinitionIds(fields) && i < |ids| && |r| == |fields|
    requires forall j :: 0 <= j < |r| ==> r[j] == Reordered(fields[j], userId, ids[..i])
    ensures |r2| == |fields|
    ensures forall j :: 0 <= j < |r2| ==> r2[j] == Reordered(fields[j], userId, ids[..i + 1])
  {
    forall j | 0 <= j < |fields|
      ensures Reordered(fields[j], userId, ids[..i + 1]) ==
        if fields[j].userId == userId && fields[j].id == ids[i] then r[j].(displayOrder := i + 1, order := i + 1)
        else r[j]
    {
      ReorderedStep(fields[j], userId, ids, i);
    }
    r2 := r;
    match IndexOfField(r, ids[i]) {
      case Some(k) =>
        assert forall j :: 0 <= j < |r| && j != k ==> fields[j].id != ids[i];
        if r[k].userId == userId {
          r2 := r[k := r[k].(displayOrder := i + 1, order := i + 1)];
        }
      case None =>
    }
  }

  /** The loop of `ReorderFieldsAsync` over the stored fields. */
  method ReorderFields(fields: seq<FieldDefinition>, userId: int, ids: seq<int>) returns (r: seq<FieldDefinition>)
    requires TradeServices.UniqueDefinitionIds(fields)
    ensures |r| == |fields|
    ensures forall j :: 0 <= j < |r| ==> r[j] == Reordered(fields[j], userId, ids)
  {
    r := fields;
    for i := 0 to |ids|
      invariant |r| == |fields|
      invariant forall j :: 0 <= j < |r| ==> r[j] == Reordered(fields[j], userId, ids[..i])
    {
      r := PlaceField(r, fields, userId, ids, i);
    }
    assert ids[..|ids|] == ids;
  }

  // ---------------------------------------------------------------------------
  // The service
  // ---------------------------------------------------------------------------

  /** A new field as `CreateAsync` builds it (before the database assigns the id). */
  function NewField(userId: int, d: FieldDefinitionCreateDto, id: int, displayOrder: int, now: int, serialize: Serializer)
    : (f: FieldDefinition)
    ensures f.id == id && f.userId == userId && f.fieldName == NormalizeFieldName(d.fieldName)
    ensures f.displayName == d.displayName && f.displayOrder == displayOrder && f.order == displayOrder
    ensures f.isActive && !f.isSystem
  {
    FieldDefinition(id, userId, "Trade", NormalizeFieldName(d.fieldName), d.displayName, d.fieldType, d.isRequired,
      SerializedOptions(d.options, serialize), d.defaultValue, d.helpText, d.category,
      displayOrder, displayOrder, true, false, now, None)
  }

  /** The message of the catch block around the insert. */
  const SaveFieldFailed := "could not save the field"

  /** What `CreateAsync` answers: blank names are refused; a name equal, after
    * lower-casing, to a stored one is a duplicate; a new name whose stored
    * form the user already has breaks the unique index, and the catch block
    * turns that into a general failure; otherwise the new field comes after
    * the user's last display order. */
  function CreateOutcome(fields: seq<FieldDefinition>, userId: int, d: FieldDefinitionCreateDto, id: int, now: int,
                         serialize: Serializer): (r: Result<FieldDefinition>)
    ensures IsBlank(d.fieldName) ==> r == Failure(Validation("field name is required"))
    ensures !IsBlank(d.fieldName) && IsBlank(d.displayName) ==> r == Failure(Validation("display name is required"))
    ensures !IsBlank(d.fieldName) && !IsBlank(d.displayName) && NameTakenAsWritten(fields, userId, d.fieldName) ==>
      r == Failure(DuplicateFieldName())
    ensures && !IsBlank(d.fieldName) && !IsBlank(d.displayName) && !NameTakenAsWritten(fields, userId, d.fieldName)
            && StoredNameClash(fields, userId, d.fieldName)
            ==> r == Failure(GeneralFailure(SaveFieldFailed))
    ensures r.Success? <==> (
      && !IsBlank(d.fieldName) && !IsBlank(d.displayName)
      && !NameTakenAsWritten(fields, userId, d.fieldName) && !StoredNameClash(fields, userId, d.fieldName))
    ensures r.Success? ==> (
      && r.value.id == id && r.value.userId == userId
      && r.value.fieldName == NormalizeFieldName(d.fieldName) && r.value.isActive && !r.value.isSystem
      && r.value.displayOrder == MaxDisplayOrder(fields, userId) + 1
      && forall i :: 0 <= i < |fields| && fields[i].userId == userId ==> fields[i].displayOrder < r.value.displayOrder)
  {
    if IsBlank(d.fieldName) then Failure(Validation("field name is required"))
    else if IsBlank(d.displayName) then Failure(Validation("display name is required"))
    else if NameTakenAsWritten(fields, userId, d.fieldName) then Failure(DuplicateFieldName())
    else if StoredNameClash(fields, userId, d.fieldName) then Failure(GeneralFailure(SaveFieldFailed))
    else Success(NewField(userId, d, id, MaxDisplayOrder(fields, userId) + 1, now, serialize))
  }

  /** A field `CreateAsync` adds never gives its user a second field of the
    * same stored name: the unique index refuses it. */
  lemma CreateKeepsNamesDistinct(fields: seq<FieldDefinition>, userId: int, d: FieldDefinitionCreateDto,
                                 id: int, now: int, serialize: Serializer)
    requires DistinctNamesPerUser(fields)
    ensures var r := CreateOutcome(fields, userId, d, id, now, serialize);
      r.Success? ==> DistinctNamesPerUser(fields + [r.value])
  {
    var r := CreateOutcome(fields, userId, d, id, now, serialize);
    if r.Success? {
      AppendKeepsNames(fields, r.value);
    }
  }

  /** With every stored name in normal form, the duplicate check and the unique
    * index together refuse exactly the names the user already has once
    * normalised; only the message differs. */
  lemma {:induction false} CreateRefusesTakenNames(fields: seq<FieldDefinition>, userId: int, d: FieldDefinitionCreateDto,
                                                   id: int, now: int, serialize: Serializer)
    requires forall i :: 0 <= i < |fields| ==> IsNormalName(fields[i].fieldName)
    requires !IsBlank(d.fieldName) && !IsBlank(d.displayName)
    ensures CreateOutcome(fields, userId, d, id, now, serialize).Success? <==> !NameTaken(fields, userId, d.fieldName)
  {
    NameTakenCoversAsWritten(fields, userId, d.fieldName);
    if NameTaken(fields, userId, d.fieldName) && !NameTakenAsWritten(fields, userId, d.fieldName) {
      var i :| 0 <= i < |fields| && fields[i].userId == userId
        && NormalizeFieldName(fields[i].fieldName) == NormalizeFieldName(d.fieldName);
      assert fields[i].fieldName == NormalizeFieldName(d.fieldName);
    }
    if StoredNameClash(fields, userId, d.fieldName) {
      var i :| 0 <= i < |fields| && fields[i].userId == userId && fields[i].fieldName == NormalizeFieldName(d.fieldName);
      NormalizeIdempotent(d.fieldName);
      assert NormalizeFieldName(fields[i].fieldName) == NormalizeFieldName(d.fieldName);
    }
  }

  /** The user has the field "a_b" and creates "a b": the duplicate check lets
    * it through, the unique index refuses "a_b", and the user sees the general
    * save failure instead of the duplicate-name message. */
  lemma DuplicateNameSlipsThrough(f: FieldDefinition, d: FieldDefinitionCreateDto, id: int, now: int, serialize: Serializer)
    requires f.userId == 1 && f.fieldName == "a_b"
    requires d.fieldName == "a b" && !IsBlank(d.displayName)
    ensures !NameTakenAsWritten([f], 1, "a b")
    ensures NormalizeFieldName("a b") == "a_b"
    ensures CreateOutcome([f], 1, d, id, now, serialize) == Failure(GeneralFailure(SaveFieldFailed))
  {
    assert ToLower(f.fieldName)[1] == '_';
    assert ToLower("a b")[1] == ' ';
    var n := NormalizeFieldName("a b");
    assert n == [n[0], n[1], n[2]];
    assert !IsBlank(d.fieldName) by { assert !IsWhiteSpace(d.fieldName[0]); }
    assert [f][0].fieldName == NormalizeFieldName(d.fieldName);
  }

  class FieldDefinitionService {
    var fields: seq<FieldDefinition>
    /** The identity the database gives the next inserted field. */
    var nextId: int

    predicate Valid()
      reads this
    {
      && TradeServices.UniqueDefinitionIds(fields)
      && (forall i :: 0 <= i < |fields| ==> fields[i].id < nextId)
      && DistinctNamesPerUser(fields)
    }

    constructor(initial: seq<FieldDefinition>, firstId: int)
      requires TradeServices.UniqueDefinitionIds(initial) && DistinctNamesPerUser(initial)
      requires forall i :: 0 <= i < |initial| ==> initial[i].id < firstId
      ensures Valid() && fields == initial && nextId == firstId
    {
      fields := initial;
      nextId := firstId;
    }

    /** `CreateAsync`: the duplicate check, then the insert under the unique
      * index on (UserId, FieldName). */
    method Create(userId: int, d: FieldDefinitionCreateDto, now: int, serialize: Serializer)
      returns (r: Result<FieldDefinition>)
      requires Valid()
      modifies this
      ensures Valid()
      ensures r == CreateOutcome(old(fields), userId, d, old(nextId), now, serialize)
      ensures r.Failure? ==> fields == old(fields) && nextId == old(nextId)
      ensures r.Success? ==> fields == old(fields) + [r.value] && nextId == old(nextId) + 1
    {
      r := CreateOutcome(fields, userId, d, nextId, now, serialize);
      if r.Success? {
        CreateKeepsNamesDistinct(fields, userId, d, nextId, now, serialize);
        Add(r.value);
      }
    }

    /** The insert of a field whose name is new for its user. */
    method Add(f: FieldDefinition)
      requires Valid() && f.id == nextId
      requires forall i :: 0 <= i < |fields| && fields[i].userId == f.userId ==> fields[i].fieldName != f.fieldName
      modifies this
      ensures Valid() && fields == old(fields) + [f] && nextId == old(nextId) + 1
    {
      AppendKeepsNames(fields, f);
      fields := fields + [f];
      nextId := nextId + 1;
    }

    /** `UpdateAsync`: a missing field is not found, a system field is refused;
      * otherwise the editable properties are replaced. */
    method Update(d: FieldDefinitionUpdateDto, now: int, serialize: Serializer) returns (r: Result<FieldDefinition>)
      requires Valid()
      modifies this
      ensures Valid()
      ensures IndexOfField(old(fields), d.id).None? ==> r == Failure(FieldNotFound()) && fields == old(fields)
      ensures IndexOfField(old(fields), d.id).Some? ==>
        var k := IndexOfField(old(fields), d.id).value;
        if old(fields)[k].isSystem then
          r == Failure(Validation("system fields cannot be edited")) && fields == old(fields)
        else
          var f := old(fields)[k].(displayName := d.displayName, options := SerializedOptions(d.options, serialize),
            defaultValue := d.defaultValue, isRequired := d.isRequired, helpText := d.helpText,
            displayOrder := d.displayOrder, order := d.displayOrder, category := d.category, updatedAt := Some(now));
          r == Success(f) && fields == old(fields)[k := f]
      ensures nextId == old(nextId)
    {
      match IndexOfField(fields, d.id) {
        case None =>
          return Failure(FieldNotFound());
        case Some(k) =>
          if fields[k].isSystem {
            return Failure(Validation("system fields cannot be edited"));
          }
          var f := fields[k].(displayName := d.displayName, options := SerializedOptions(d.options, serialize),
            defaultValue := d.defaultValue, isRequired := d.isRequired, helpText := d.helpText,
            displayOrder := d.displayOrder, order := d.displayOrder, category := d.category, updatedAt := Some(now));
          fields := fields[k := f];
          r := Success(f);
      }
    }

    /** `DeleteAsync`: a soft delete that system fields refuse. */
    method Delete(fieldId: int, now: int) returns (r: Result<bool>)
      requires Valid()
      modifies this
      ensures Valid()
      ensures IndexOfField(old(fields), fieldId).None? ==> r == Failure(FieldNotFound()) && fields == old(fields)
      ensures IndexOfField(old(fields), fieldId).Some? ==>
        var k := IndexOfField(old(fields), fieldId).value;
        if old(fields)[k].isSystem then r == Failure(CannotDeleteSystemField()) && fields == old(fields)
        else r == Success(true) && fields == old(fields)[k := old(fields)[k].(isActive := false, updatedAt := Some(now))]
      ensures nextId == old(nextId) && |fields| == |old(fields)|
    {
      match IndexOfField(fields, fieldId) {
        case None =>
          return Failure(FieldNotFound());
        case Some(k) =>
          if fields[k].isSystem {
            return Failure(CannotDeleteSystemField());
          }
          fields := fields[k := fields[k].(isActive := false, updatedAt := Some(now))];
          r := Success(true);
      }
    }

    /** `UpdateOptionsAsync`: only select and multi-select fields take options. */
    method UpdateOptions(fieldId: int, options: seq<string>, now: int, serialize: Serializer) returns (r: Result<bool>)
      requires Valid()
      modifies this
      ensures Valid()
      ensures IndexOfField(old(fields), fieldId).None? ==> r == Failure(FieldNotFound()) && fields == old(fields)
      ensures IndexOfField(old(fields), fieldId).Some? ==>
        var k := IndexOfField(old(fields), fieldId).value;
        var t := old(fields)[k].fieldType;
        if t != FieldTypeSelect && t != FieldTypeMultiSelect then
          r == Failure(Validation("this field is not a selection field")) && fields == old(fields)
        else
          r == Success(true) && fields == old(fields)[k := old(fields)[k].(options := Some(serialize(options)), updatedAt := Some(now))]
      ensures nextId == old(nextId)
    {
      match IndexOfField(fields, fieldId) {
        case None =>
          return Failure(FieldNotFound());
        case Some(k) =>
          if fields[k].fieldType != FieldTypeSelect && fields[k].fieldType != FieldTypeMultiSelect {
            return Failure(Validation("this field is not a selection field"));
          }
          fields := fields[k := fields[k].(options := Some(serialize(options)), updatedAt := Some(now))];
          r := Success(true);
      }
    }

    /** `ReorderFieldsAsync`. */
    method Reorder(userId: int, ids: seq<int>) returns (r: Result<bool>)
      requires Valid()
      modifies this
      ensures Valid()
      ensures r == Success(true) && nextId == old(nextId)
      ensures |fields| == |old(fields)|
      ensures forall j :: 0 <= j < |fields| ==> fields[j] == Reordered(old(fields)[j], userId, ids)
    {
      fields := ReorderFields(fields, userId, ids);
      r := Success(true);
    }
  }
}
