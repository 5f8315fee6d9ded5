/**
 * A ProcessWire field definition (class `Field`): a record with five native
 * settings, a bag of type-specific data, change tracking, and two transient
 * markers that tell the field manager to rename the field's table or to
 * convert its stored values when it next saves the field.
 *
 * The collaborators the class reaches through its service locator (the name
 * sanitizer, the field and fieldtype registries, the fieldgroup registry)
 * are parameters, gathered in `Env`.
 */
module FieldRecord {

  import opened Wrappers
  import opened PhpValues

  /** The field's value is loaded together with the page. */
  const FlagAutojoin: int := 1
  /** Every fieldgroup is required to contain the field. */
  const FlagGlobal: int := 4

  /** A fieldtype module object; `instance` tells apart two objects of the same class. */
  datatype Fieldtype = Fieldtype(name: string, instance: nat)

  /** The PHP values the record stores and hands out. */
  datatype Value =
    | Null
    | Bool(b: bool)
    | Int(i: PhpInt)
    | Str(s: string)
    | Type(fieldtype: Fieldtype)
    | Arr(entries: map<string, Value>)

  /** PHP's conversion of a value to a boolean. */
  predicate Truthy(v: Value)
  {
    match v
    case Null => false
    case Bool(b) => b
    case Int(i) => i != 0
    case Str(s) => s != "" && s != "0"
    case Type(_) => true
    case Arr(m) => |m| != 0
  }

  /** PHP 5's `(int)` cast; an object casts to 1. */
  function IntCast(v: Value): PhpInt
  {
    match v
    case Null => 0
    case Bool(b) => if b then 1 else 0
    case Int(i) => i
    case Str(s) => StrToInt(s)
    case Type(_) => 1
    case Arr(m) => if |m| == 0 then 0 else 1
  }

  /**
   * The integer string given for `id` or `flags` is stored as the integer it
   * spells: leading white space, a sign, leading zeros and a non-digit tail
   * are all allowed, and a value beyond the PHP range saturates.
   */
  lemma IntCastOfNumericString(ws: string, sign: string, zeros: string, n: nat, rest: string)
    requires forall i :: 0 <= i < |ws| ==> IsSpace(ws[i])
    requires IsSign(sign) && AllZeros(zeros)
    requires rest == [] || !IsDigit(rest[0])
    ensures IntCast(Str(ws + sign + zeros + Digits(n) + rest)) == Clamp(Signed(sign, n))
  {
    StrToIntOfPaddedInteger(ws, sign, zeros, n, rest);
  }

  /** A fieldgroup, seen through the ids of the fields it contains. */
  datatype Fieldgroup = Fieldgroup(name: string, fieldIds: seq<PhpInt>)

  /** The services the record looks up. */
  datatype Env = Env(
    fieldName: Value -> string,          // the sanitizer's fieldName()
    isNativeName: string -> bool,        // Fields::isNativeName()
    fields: Option<map<string, PhpInt>>, // the field registry: name to id, if present
    fieldtypes: map<string, Fieldtype>,  // the fieldtype registry, by name
    fieldgroups: seq<Fieldgroup>)        // the fieldgroup registry, in its order

  /** The exceptions the record throws. */
  datatype FieldError =
    | ReservedName(name: string)
    | DuplicateName(name: string)
    | DoubleUnderscore(name: string)
    | UnknownFieldtype(typeName: string)
    | InvalidFieldtype

  const NativeKeys: set<string> := {"id", "type", "name", "flags", "label"}

  /** The `settings` array; `fieldtype` is the entry stored under 'type'. */
  datatype Settings = Settings(id: PhpInt, fieldtype: Value, name: string, flags: PhpInt, fieldLabel: Value)
  {
    /** The entry under `key`, if `key` is one of the native settings. */
    function Lookup(key: string): (v: Option<Value>)
      ensures v.Some? <==> key in NativeKeys
    {
      if key == "id" then Some(Int(id))
      else if key == "type" then Some(fieldtype)
      else if key == "name" then Some(Str(name))
      else if key == "flags" then Some(Int(flags))
      else if key == "label" then Some(fieldLabel)
      else None
    }

    /** PHP's `isset($settings[$key])`: present and not null. */
    predicate Isset(key: string)
    {
      Lookup(key).Some? && Lookup(key).value != Null
    }

    /** `$settings[$key] = $v` for a native key. */
    function Store(key: string, v: Value): (s: Settings)
      requires key in NativeKeys
      requires key == "name" ==> v.Str?
      requires key == "id" || key == "flags" ==> v.Int?
      ensures s.Lookup(key) == Some(v)
      ensures forall k :: k != key ==> s.Lookup(k) == Lookup(k)
    {
      if key == "id" then this.(id := v.i)
      else if key == "type" then this.(fieldtype := v)
      else if key == "name" then this.(name := v.s)
      else if key == "flags" then this.(flags := v.i)
      else this.(fieldLabel := v)
    }
  }

  /** The value `set` stores for `key`: `id` and `flags` are cast to integers. */
  function Coerce(key: string, value: Value): Value
  {
    if key == "id" || key == "flags" then Int(IntCast(value)) else value
  }

  /** `strpos($name, '__') !== false` */
  predicate HasDoubleUnderscore(s: string)
  {
    exists i :: 0 <= i < |s| - 1 && s[i] == '_' && s[i + 1] == '_'
  }

  /** The registry holds a field of that name whose id is not `ownId`. */
  predicate TakenByOther(env: Env, name: string, ownId: int)
  {
    env.fields.Some? && name in env.fields.value && env.fields.value[name] != ownId
  }

  /** The validation `setName` runs, in its order: the sanitized name, or the first failure. */
  function CheckName(env: Env, ownId: int, raw: Value): Result<string, FieldError>
  {
    var name := env.fieldName(raw);
    if env.isNativeName(name) then Failure(ReservedName(name))
    else if TakenByOther(env, name, ownId) then Failure(DuplicateName(name))
    else if HasDoubleUnderscore(name) then Failure(DoubleUnderscore(name))
    else Success(name)
  }

  /** A name is accepted exactly when none of the three checks objects, and it is the sanitized input. */
  lemma CheckNameAccepts(env: Env, ownId: int, raw: Value)
    ensures var name := env.fieldName(raw);
      CheckName(env, ownId, raw) == Success(name) <==>
        !env.isNativeName(name) && !TakenByOther(env, name, ownId) && !HasDoubleUnderscore(name)
    ensures CheckName(env, ownId, raw).Success? ==> CheckName(env, ownId, raw).value == env.fieldName(raw)
  {
  }

  /** A reserved name or one with a double underscore is always refused. */
  lemma CheckNameRefuses(env: Env, ownId: int, raw: Value)
    ensures env.isNativeName(env.fieldName(raw)) ==> CheckName(env, ownId, raw) == Failure(ReservedName(env.fieldName(raw)))
    ensures HasDoubleUnderscore(env.fieldName(raw)) ==> CheckName(env, ownId, raw).Failure?
  {
  }

  /** A name another field owns is refused; a name the registry maps to this field's own id never fails the uniqueness check. */
  lemma CheckNameUniqueness(env: Env, ownId: int, raw: Value)
    ensures var name := env.fieldName(raw);
      (!env.isNativeName(name) && env.fields.Some? && name in env.fields.value && env.fields.value[name] != ownId)
      ==> CheckName(env, ownId, raw) == Failure(DuplicateName(name))
    ensures var name := env.fieldName(raw);
      (env.fields.Some? && name in env.fields.value && env.fields.value[name] == ownId)
      ==> CheckName(env, ownId, raw) != Failure(DuplicateName(name))
  {
  }

  /** What `setFieldtype` accepts: a fieldtype object, or the name of a registered fieldtype. */
  function ResolveFieldtype(env: Env, v: Value): Result<Fieldtype, FieldError>
  {
    match v
    case Type(t) => Success(t)
    case Str(s) => if s in env.fieldtypes then Success(env.fieldtypes[s]) else Failure(UnknownFieldtype(s))
    case _ => Failure(InvalidFieldtype)
  }

  /** Resolution fails exactly on an unregistered name or on a value that is neither a fieldtype nor a string. */
  lemma ResolveFieldtypeFails(env: Env, v: Value)
    ensures ResolveFieldtype(env, v).Failure? <==> (v.Str? && v.s !in env.fieldtypes) || (!v.Str? && !v.Type?)
    ensures v.Str? && v.s !in env.fieldtypes ==> ResolveFieldtype(env, v) == Failure(UnknownFieldtype(v.s))
    ensures !v.Str? && !v.Type? ==> ResolveFieldtype(env, v) == Failure(InvalidFieldtype)
  {
  }

  const TablePrefix: string := "field_"

  /** The name of the table holding a field's values. */
  function TableName(name: string): (t: string)
    ensures |t| == |TablePrefix| + |name|
    ensures t[..|TablePrefix|] == TablePrefix && t[|TablePrefix|..] == name
  {
    TablePrefix + name
  }

  /** Different field names never share a table. */
  lemma TableNameInjective(a: string, b: string)
    requires TableName(a) == TableName(b)
    ensures a == b
  {
    assert a == TableName(a)[|TablePrefix|..];
  }

  /** The fieldgroups of `gs`, in order, that contain a field with id `id`. */
  function FieldgroupsUsing(gs: seq<Fieldgroup>, id: int): (r: seq<Fieldgroup>)
    ensures |r| <= |gs|
  {
    if gs == [] then []
    else
      var last := gs[|gs| - 1];
      FieldgroupsUsing(gs[..|gs| - 1], id) + (if id in last.fieldIds then [last] else [])
  }

  /** A fieldgroup is in the result exactly when it is registered and contains the field. */
  lemma {:induction false} FieldgroupsUsingMembers(gs: seq<Fieldgroup>, id: int, g: Fieldgroup)
    ensures g in FieldgroupsUsing(gs, id) <==> g in gs && id in g.fieldIds
  {
    if gs != [] {
      var init := gs[..|gs| - 1];
      assert gs == init + [gs[|gs| - 1]];
      FieldgroupsUsingMembers(init, id, g);
    }
  }

  /** The result keeps the registry's order: filtering distributes over concatenation. */
  lemma {:induction false} FieldgroupsUsingAppend(a: seq<Fieldgroup>, b: seq<Fieldgroup>, id: int)
    ensures FieldgroupsUsing(a + b, id) == FieldgroupsUsing(a, id) + FieldgroupsUsing(b, id)
    decreases |b|
  {
    if b == [] {
      assert a + b == a;
    } else {
      var init := b[..|b| - 1];
      assert (a + b)[..|a + b| - 1] == a + init;
      assert (a + b)[|a + b| - 1] == b[|b| - 1];
      FieldgroupsUsingAppend(a, init, id);
    }
  }

  predicate Distinct<T(==)>(s: seq<T>)
  {
    forall i, j :: 0 <= i < j < |s| ==> s[i] != s[j]
  }

  /** Each registered fieldgroup appears in the result at most once. */
  lemma {:induction false} FieldgroupsUsingDistinct(gs: seq<Fieldgroup>, id: int)
    requires Distinct(gs)
    ensures Distinct(FieldgroupsUsing(gs, id))
  {
    if gs != [] {
      var init, last := gs[..|gs| - 1], gs[|gs| - 1];
      assert Distinct(init);
      FieldgroupsUsingDistinct(init, id);
      if id in last.fieldIds {
        var u := FieldgroupsUsing(init, id);
        assert last !in init;
        FieldgroupsUsingMembers(init, id, last);
        assert forall i :: 0 <= i < |u| ==> u[i] != last;
      }
    }
  }

  class Field {
    var settings: Settings
    var data: map<string, Value>
    var prevTable: Value
    var prevFieldtype: Value
    /** What `trackChange` has recorded, in order. */
    var changes: seq<string>

    /** Whatever `$this->type` reads is either falsy or a fieldtype object. */
    ghost predicate Valid()
      reads this
    {
      && (settings.fieldtype.Type? || !Truthy(settings.fieldtype))
      && ("type" in data ==> !Truthy(data["type"]))
    }

    constructor ()
      ensures Valid()
      ensures settings == Settings(0, Null, "", 0, Str(""))
      ensures data == map[] && prevTable == Null && prevFieldtype == Null && changes == []
    {
      settings := Settings(0, Null, "", 0, Str(""));
      data := map[];
      prevTable := Null;
      prevFieldtype := Null;
      changes := [];
    }

    /** The data bag's lookup: null for a missing key. */
    function BagGet(key: string): Value
      reads this
    {
      if key in data then data[key] else Null
    }

    function Get(key: string): Value
      reads this
    {
      if key == "table" then Str(GetTable())
      else if key == "prevTable" then prevTable
      else if key == "prevFieldtype" then prevFieldtype
      else if settings.Isset(key) then settings.Lookup(key).value
      else BagGet(key)
    }

    function GetTable(): string
      reads this
    {
      TableName(settings.name)
    }

    function ToString(): string
      reads this
    {
      settings.name
    }

    /** The table and the string form follow the current name. */
    lemma TableFollowsName()
      ensures GetTable() == TablePrefix + ToString()
      ensures Get("table") == Str(GetTable())
      ensures Get("name") == Str(ToString())
    {
    }

    /** With no type assigned, reading 'type' falls through to the data bag. */
    lemma UnsetTypeReadsBag()
      ensures settings.fieldtype == Null ==> Get("type") == BagGet("type")
      ensures settings.fieldtype != Null ==> Get("type") == settings.fieldtype
    {
    }

    lemma TypeSlotHoldsFieldtype()
      requires Valid()
      ensures Truthy(Get("type")) ==> Get("type").Type?
    {
    }

    /** The row handed to the field manager: the native settings plus the bag under 'data'. */
    function GetTableData(): (row: map<string, Value>)
      reads this
      ensures row.Keys == NativeKeys + {"data"}
      ensures row["data"] == Arr(data)
      ensures forall k :: k in NativeKeys ==> row[k] == settings.Lookup(k).value
    {
      map[
        "id" := Int(settings.id),
        "type" := settings.fieldtype,
        "name" := Str(settings.name),
        "flags" := Int(settings.flags),
        "label" := settings.fieldLabel,
        "data" := Arr(data)]
    }

    /** Reading a native setting that is set gives its column in the row; any other ordinary key reads the row's bag. */
    lemma GetAgreesWithTableData(key: string)
      requires key != "table" && key != "prevTable" && key != "prevFieldtype"
      ensures settings.Isset(key) ==> Get(key) == GetTableData()[key]
      ensures !settings.Isset(key) ==>
        Get(key) == (if key in GetTableData()["data"].entries then GetTableData()["data"].entries[key] else Null)
    {
    }

    /** The row determines the settings and the bag. */
    lemma TableDataRoundTrip()
      ensures DecodeRow(GetTableData()) == Some((settings, data))
    {
    }

    function GetDefaultValue(): (v: Value)
      reads this
      ensures if "default" in data && Truthy(data["default"]) then v == data["default"] else v == Null
    {
      var value := Get("default");
      if Truthy(value) then value else Null
    }

    /** How `setName` leaves the record, given its result. */
    twostate predicate RenamedBy(env: Env, raw: Value, new r: Result<Field, FieldError>)
      reads this
    {
      var oldName := old(settings.name);
      match CheckName(env, old(settings.id), raw)
      case Failure(e) =>
        && r == Failure(e)
        && settings == old(settings) && data == old(data)
        && prevTable == old(prevTable) && prevFieldtype == old(prevFieldtype) && changes == old(changes)
      case Success(name) =>
        && r == Success(this)
        && settings == old(settings).(name := name)
        && data == old(data) && prevFieldtype == old(prevFieldtype)
        && if name != oldName then
             && changes == old(changes) + ["name"]
             && prevTable == if Truthy(Str(oldName)) then Str(TableName(oldName)) else old(prevTable)
           else
             changes == old(changes) && prevTable == old(prevTable)
    }

    method SetName(env: Env, raw: Value) returns (r: Result<Field, FieldError>)
      requires Valid()
      modifies this
      ensures Valid()
      ensures RenamedBy(env, raw, r)
    {
      var checked := CheckName(env, settings.id, raw);
      if checked.Failure? {
        return Failure(checked.error);
      }
      var name := checked.value;
      if settings.name != name {
        changes := changes + ["name"];
        if Truthy(Str(settings.name)) {
          prevTable := Str(GetTable());
        }
      }
      settings := settings.(name := name);
      r := Success(this);
    }

    /** Same-class types: both fieldtype objects with equal names. */
    static predicate SameTypeName(current: Value, t: Fieldtype)
    {
      current.Type? && current.fieldtype.name == t.name
    }

    /** How `setFieldtype` leaves the record, given its result. */
    twostate predicate RetypedBy(env: Env, v: Value, new r: Result<Field, FieldError>)
      reads this
    {
      match ResolveFieldtype(env, v)
      case Failure(e) =>
        && r == Failure(e)
        && settings == old(settings) && data == old(data)
        && prevTable == old(prevTable) && prevFieldtype == old(prevFieldtype) && changes == old(changes)
      case Success(t) =>
        var current := old(Get("type"));
        && r == Success(this)
        && settings == old(settings).(fieldtype := Type(t))
        && data == old(data) && prevTable == old(prevTable)
        && if !Truthy(current) || !SameTypeName(current, t) then
             && changes == old(changes) + ["type:" + t.name]
             && prevFieldtype == if Truthy(current) then current else old(prevFieldtype)
           else
             changes == old(changes) && prevFieldtype == old(prevFieldtype)
    }

    method SetFieldtype(env: Env, v: Value) returns (r: Result<Field, FieldError>)
      requires Valid()
      modifies this
      ensures Valid()
      ensures RetypedBy(env, v, r)
    {
      var resolved := ResolveFieldtype(env, v);
      if resolved.Failure? {
        return Failure(resolved.error);
      }
      var t := resolved.value;
      var current := Get("type");
      if !Truthy(current) || current.fieldtype.name != t.name {
        changes := changes + ["type:" + t.name];
        if Truthy(current) {
          prevFieldtype := current;
        }
      }
      settings := settings.(fieldtype := Type(t));
      r := Success(this);
    }

    /** A key `set` stores as given (after the integer cast), rather than handing it to a setter or a marker. */
    static predicate IsPlainKey(key: string, value: Value)
    {
      key != "name" && !(key == "type" && Truthy(value)) && key != "prevTable" && key != "prevFieldtype"
    }

    method Set(env: Env, key: string, value: Value) returns (r: Result<Field, FieldError>)
      requires Valid()
      modifies this
      ensures Valid()
      ensures r.Success? ==> r.value == this
      ensures key == "name" ==> RenamedBy(env, value, r)
      ensures key == "type" && Truthy(value) ==> RetypedBy(env, value, r)
      ensures key == "prevTable" ==>
        && r == Success(this) && prevTable == value
        && settings == old(settings) && data == old(data) && prevFieldtype == old(prevFieldtype) && changes == old(changes)
      ensures key == "prevFieldtype" ==>
        && r == Success(this) && prevFieldtype == value
        && settings == old(settings) && data == old(data) && prevTable == old(prevTable) && changes == old(changes)
      ensures IsPlainKey(key, value) ==>
        && r == Success(this)
        && prevTable == old(prevTable) && prevFieldtype == old(prevFieldtype) && changes == old(changes)
        && if old(settings.Isset(key)) then
             settings == old(settings).Store(key, Coerce(key, value)) && data == old(data)
           else
             settings == old(settings) && data == old(data)[key := Coerce(key, value)]
      ensures IsPlainKey(key, value) && key != "table" && Coerce(key, value) != Null ==> Get(key) == Coerce(key, value)
    {
      if key == "name" {
        r := SetName(env, value);
        return;
      } else if key == "type" && Truthy(value) {
        r := SetFieldtype(env, value);
        return;
      } else if key == "prevTable" {
        prevTable := value;
        return Success(this);
      } else if key == "prevFieldtype" {
        prevFieldtype := value;
        return Success(this);
      }
      var v := Coerce(key, value);
      if settings.Isset(key) {
        settings := settings.Store(key, v);
      } else {
        data := data[key := v];
      }
      r := Success(this);
    }

    /** The registered fieldgroups that contain this field, in registry order. */
    method GetFieldgroups(env: Env) returns (groups: seq<Fieldgroup>)
      ensures groups == FieldgroupsUsing(env.fieldgroups, settings.id)
    {
      var all := env.fieldgroups;
      groups := [];
      var i := 0;
      while i < |all|
        invariant 0 <= i <= |all|
        invariant groups == FieldgroupsUsing(all[..i], settings.id)
      {
        assert all[..i + 1][..i] == all[..i];
        var members := all[i].fieldIds;
        var j := 0;
        while j < |members|
          invariant 0 <= j <= |members|
          invariant settings.id !in members[..j]
          invariant groups == FieldgroupsUsing(all[..i], settings.id)
        {
          if members[j] == settings.id {
            groups := groups + [all[i]];
            break;
          }
          assert members[..j + 1] == members[..j] + [members[j]];
          j := j + 1;
        }
        assert members[..|members|] == members;
        i := i + 1;
      }
      assert all[..|all|] == all;
    }

    method NumFieldgroups(env: Env) returns (n: nat)
      ensures n == |FieldgroupsUsing(env.fieldgroups, settings.id)|
    {
      var groups := GetFieldgroups(env);
      n := |groups|;
    }
  }

  /** Reads a table row back into settings and a data bag; the inverse of `Field.GetTableData`. */
  function DecodeRow(row: map<string, Value>): Option<(Settings, map<string, Value>)>
  {
    if row.Keys == NativeKeys + {"data"} && row["id"].Int? && row["name"].Str? && row["flags"].Int? && row["data"].Arr? then
      Some((Settings(row["id"].i, row["type"], row["name"].s, row["flags"].i, row["label"]), row["data"].entries))
    else None
  }

  /** The scenario of a field renamed twice and then refused a name with a double underscore. */
  method RenameWalkthrough(env: Env)
    requires env.fieldName(Str("price")) == "price" && env.fieldName(Str("cost")) == "cost"
    requires env.fieldName(Str("pri__ce")) == "pri__ce"
    requires !env.isNativeName("price") && !env.isNativeName("cost") && !env.isNativeName("pri__ce")
    requires env.fields == None
  {
    var f := new Field();
    assert !HasDoubleUnderscore("price") && !HasDoubleUnderscore("cost");
    var r := f.SetName(env, Str("price"));
    assert r.Success? && f.prevTable == Null && f.GetTable() == "field_price";
    r := f.SetName(env, Str("cost"));
    assert r.Success? && f.prevTable == Str("field_price") && f.GetTable() == "field_cost";
    assert "pri__ce"[3] == '_' && "pri__ce"[4] == '_';
    r := f.SetName(env, Str("pri__ce"));
    assert r == Failure(DoubleUnderscore("pri__ce")) && f.ToString() == "cost";
  }
}
