# ProcessWire `Field`, modelled in Dafny

This project models ProcessWire's `Field` class. A `Field` is one row of the
fields table: five native settings (`id`, `type`, `name`, `flags`, `label`), a
bag of type-specific data, a change log, and two transient markers. The
markers tell the `Fields` manager, at save time, to rename the field's table
(`prevTable`) or to convert its stored values (`prevFieldtype`).

Files:

- `wrappers.dfy`: `Option` and `Result`.
- `php_values.dfy`: PHP's 64-bit integer and PHP 5's `(int)` cast of a
  string. The cast works like C's `strtol` in base 10: leading white space,
  an optional sign, the longest run of digits, saturation at the bounds. A
  decimal rendering of each integer casts back to that integer.
- `field.dfy`: the PHP values the record stores (`Value`), the collaborators
  (`Env`), the validation functions, the fieldgroup filter, and `class Field`.
  It ends with `RenameWalkthrough`, a worked example of `setName` written
  from the contracts alone. A field is renamed from empty to `price`, then to
  `cost`, and then refused `pri__ce`. The walkthrough checks `prevTable` and
  the table name after each step.

The collaborators the class reaches through `fuel()` are parameters in `Env`:

- the sanitizer's `fieldName`, an uninterpreted function from the given value to a string;
- `Fields::isNativeName`, a predicate;
- the field registry, a map from name to id, which may be absent;
- the fieldtype registry, a map from name to `Fieldtype`;
- the fieldgroup registry, a sequence of fieldgroups, each seen through its field ids.

`set`, `setName` and `setFieldtype` change the record in place. They are
methods on `Field` with `modifies this`. The twostate predicates `RenamedBy`
and `RetypedBy` state the complete new state for each possible result. `Set`
reuses those predicates for the keys it hands over to the two setters. The
name checks (`CheckName`) and the type resolution (`ResolveFieldtype`) are pure
functions that the methods call. The lemmas about them state the error cases.

`get`, `getTable`, `__toString`, `getTableData` and `getDefaultValue` are
functions that read the record. `getFieldgroups` keeps the source's nested
loop with `break`, and is proved equal to the filter `FieldgroupsUsing`.

The class invariant `Valid()` says that whatever `$this->type` reads is
falsy or a `Fieldtype` object. `set('type', x)` with a truthy `x` always ends
in `setFieldtype`, and `setFieldtype` stores only fieldtypes. So `setFieldtype`'s
`$this->type->name` is always defined.

Four consequences of the code as written:

- A truthy `set('type', …)` always goes to `setFieldtype` (Field.php:70),
  which writes the type itself (Field.php:165). A falsy `set('type', …)`
  overwrites the type only while it is set, i.e. not null (Field.php:81).
  A new field has no type (Field.php:44), and in that state the falsy value
  goes to the data bag, where `get('type')` then reads it (Field.php:95).
- Once `label` has been set to null, every later `set('label', …)` and
  `get('label')` uses the data bag (Field.php:81, 95).
- `prevTable` is captured only when the old name is PHP-truthy
  (Field.php:132). The name `"0"` is falsy, so renaming a field called `"0"`
  does not record its old table.
- `setName` does not check that the name is non-empty. An empty sanitized
  name is stored if it passes the three checks.

## Model

| member | source | states |
|---|---|---|
| `PhpValues.StrToIntOfDecimal` | wire/core/Field.php:77-78 | The `(int)` cast of white space, then a decimal integer, then a non-digit gives that integer, saturated to the 64-bit range. |
| `PhpValues.DecimalRoundTrip` | wire/core/Field.php:77-78 | Each PHP integer, written in decimal, casts back to itself. |
| `PhpValues.StrToIntOfPaddedInteger` | wire/core/Field.php:77-78 | The `(int)` cast of white space, an optional `+`/`-`, any leading zeros, the digits of `n` and then a non-digit gives the signed `n`, saturated to the 64-bit range. |
| `PhpValues.StrToInt` | wire/core/Field.php:78 | PHP 5's cast of a string to an integer. Its contract is carried by `StrToIntOfPaddedInteger`, `StrToIntOfNoDigits`, `StrToIntOfDecimal` and `DecimalRoundTrip`. |
| `FieldRecord.IntCast` | wire/core/Field.php:78 | PHP 5's `(int)` cast of any modelled value. For strings, its contract is carried by `IntCastOfNumericString`. |
| `FieldRecord.IntCastOfNumericString` | wire/core/Field.php:77-78 | An integer string given for `id` or `flags` is stored as the integer it spells. White space before it, a sign, leading zeros and a non-digit tail are allowed; a value beyond the 64-bit range saturates. |
| `PhpValues.StrToIntOfNoDigits` | wire/core/Field.php:77-78 | White space and an optional sign followed by no digit cast to 0, so `set('id', 'abc')` stores 0. |
| `FieldRecord.Settings.Lookup` | wire/core/Field.php:42-48 | The settings array has an entry exactly for the five native keys. |
| `FieldRecord.Settings.Store` | wire/core/Field.php:81 | Writing a native setting makes that key read back the written value and leaves the other keys alone. |
| `FieldRecord.CheckName` | wire/core/Field.php:119-128 | The ordered checks of `setName`. Its contract is carried by `CheckNameAccepts`, `CheckNameRefuses` and `CheckNameUniqueness`. |
| `FieldRecord.CheckNameAccepts` | wire/core/Field.php:119-128 | A name is accepted exactly when it is not native, not owned by another id, and has no `__`. The stored name is then the sanitized input. |
| `FieldRecord.CheckNameRefuses` | wire/core/Field.php:121-128 | A reserved sanitized name fails as reserved. A sanitized name containing `__` always fails. |
| `FieldRecord.CheckNameUniqueness` | wire/core/Field.php:124-125 | A non-reserved name the registry gives to a different id fails as a duplicate. A name the registry gives to this field's own id never fails as a duplicate. |
| `FieldRecord.ResolveFieldtype` | wire/core/Field.php:150-159 | How `setFieldtype` resolves its argument. Its contract is carried by `ResolveFieldtypeFails`. |
| `FieldRecord.ResolveFieldtypeFails` | wire/core/Field.php:150-159 | Resolution fails exactly on an unregistered string, with "unknown fieldtype", or on a value that is neither a string nor a fieldtype, with "invalid fieldtype". |
| `FieldRecord.TableName` | wire/core/Field.php:285-287 | The table name is `field_` followed by the field name, and nothing else. |
| `FieldRecord.TableNameInjective` | wire/core/Field.php:285-287 | Two different names never give the same table. |
| `FieldRecord.FieldgroupsUsing` | wire/core/Field.php:198-209 | The filter never returns more fieldgroups than the registry holds. |
| `FieldRecord.FieldgroupsUsingMembers` | wire/core/Field.php:198-209 | A fieldgroup is in the result exactly when it is registered and contains a field with this id. |
| `FieldRecord.FieldgroupsUsingAppend` | wire/core/Field.php:200-207 | The result keeps registry order: the filter of `a + b` is the filter of `a` followed by the filter of `b`. |
| `FieldRecord.FieldgroupsUsingDistinct` | wire/core/Field.php:200-207 | If the registry lists each fieldgroup once, so does the result. |
| `FieldRecord.Field.constructor` | wire/core/Field.php:42-60 | A new field has id 0, no type, the empty name, flags 0, the empty label, an empty bag, no markers and no changes. The invariant holds. |
| `FieldRecord.Field.Get` | wire/core/Field.php:91-97 | The dispatch of `get`. Its contract is carried by `TableFollowsName`, `UnsetTypeReadsBag` and `GetAgreesWithTableData`, and by `Set`'s read-back clause. |
| `FieldRecord.Field.GetTable` | wire/core/Field.php:285-287 | The field's table. Its contract is carried by `TableFollowsName`, `TableName` and `TableNameInjective`. |
| `FieldRecord.Field.ToString` | wire/core/Field.php:293-295 | The field's string form. Its contract is carried by `TableFollowsName`. |
| `FieldRecord.Field.TableFollowsName` | wire/core/Field.php:285-295 | `getTable()` is `field_` plus `__toString()`. `get('table')` is `getTable()`. `get('name')` is the name. All read the current name. |
| `FieldRecord.Field.UnsetTypeReadsBag` | wire/core/Field.php:91-96 | With no type assigned, `get('type')` reads the data bag. Otherwise it reads the stored type. |
| `FieldRecord.Field.TypeSlotHoldsFieldtype` | wire/core/Field.php:161-163 | Under the invariant, a truthy `$this->type` is a fieldtype object. |
| `FieldRecord.Field.GetTableData` | wire/core/Field.php:105-109 | The row has exactly the five native keys and `data`. Each native key holds its setting; `data` holds the bag. |
| `FieldRecord.Field.GetAgreesWithTableData` | wire/core/Field.php:91-109 | `get` of a native setting that is set returns its column in the row. `get` of any other ordinary key returns the row bag's entry, or null. |
| `FieldRecord.Field.TableDataRoundTrip` | wire/core/Field.php:105-109 | Decoding the row gives back exactly the settings and the bag. |
| `FieldRecord.Field.GetDefaultValue` | wire/core/Field.php:215-220 | The result is the bag's `default` entry when that entry exists and is truthy. Otherwise it is null. |
| `FieldRecord.Field.SetName` | wire/core/Field.php:118-137 | On failure: the first error from the ordered checks is returned and nothing changes. On success: `this` is returned and only the name changes among the settings. If the name differs, `name` is logged, and `prevTable` becomes the old table when the old name was truthy. If the name is the same, the log and `prevTable` stay as they were. |
| `FieldRecord.Field.SetFieldtype` | wire/core/Field.php:148-168 | On failure: the resolution error is returned and nothing changes, the type included. On success: the type is replaced. `type:<name>` is logged, and the old type goes to `prevFieldtype`, only when there was no type or the names differ; `prevFieldtype` is set only when an old type existed. The invariant is kept. |
| `FieldRecord.Field.Set` | wire/core/Field.php:67-85 | `name` goes to `setName`. A truthy `type` goes to `setFieldtype`. The markers are written directly. Every other key is stored after the integer cast of `id`/`flags`: in the settings if it is set there, else in the bag. A non-null stored value under any key other than `table` reads back through `get`. Every success returns `this`. |
| `FieldRecord.Field.GetFieldgroups` | wire/core/Field.php:198-209 | The nested scan with `break` returns exactly the filter of the registry by this field's id. |
| `FieldRecord.Field.NumFieldgroups` | wire/core/Field.php:188-190 | The count is the length of that filter. |

## Left out

- `getInputfield` and `___getConfigInputfields` (Field.php:226-282): they build UI widgets through modules, the page tree and Inputfield classes. None of those is part of this model.
- `save` (Field.php:176-179): it only delegates to the database-backed `Fields` manager.
- The internals of the sanitizer, `Fields::isNativeName` and the fieldtype registry are not modelled. They are parameters in `Env`. The sanitizer receives the raw value given to `setName`.
- The `WireData` base class is not part of this model:
  - `parent::set` is a plain write into the bag map, with no change tracking of its own;
  - `parent::get` returns the bag entry, or null when there is none (the service and hook fallbacks of `Wire::get` are left out);
  - the special treatment of a `data` key is left out;
  - the switch that turns `trackChange` on and off is left out;
  - `trackChange` appends its argument to the `changes` sequence.
- PHP loose comparison is modelled as plain equality: keys in `set`/`get`, names at Field.php:124 and 130, type names at Field.php:161, and ids at Field.php:124 and 202.
- The field registry is looked up by name only. Lookup by a numeric id is left out.
- `FieldgroupsArray::add` is modelled as appending. Replacement of an item that has the same id is left out. `FieldgroupsUsingDistinct` covers a registry without repeats.
- PHP arrays are modelled as maps from string keys (`Arr`). Key order, for example the column order of `getTableData`'s row, is not modelled.
- `IntCast` follows PHP 5: exponent forms such as `"1e3"` cast by their leading digits, unlike PHP 7.1 and later. Among objects, only fieldtype objects are modelled, and they cast to 1.
- PHP floats are not modelled: `Value` has no float case. So the model does not capture that `(int)` truncates a float `id` or `flags` (Field.php:78: `set('flags', 5.9)` stores 5). Nor does it capture that `0.0` is falsy at Field.php:70 and 217, which makes `getDefaultValue()` return null for a `default` of `0.0`.
- Exceptions are modelled as `FieldError` values that carry the offending name. Their message text is not modelled.
