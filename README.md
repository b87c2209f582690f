# Rule builder: a verified model of the rule codec and editor

The rule builder is a custom element that a content-management host embeds
in its editing form. An editor composes a flat list of conditions (signal
field, comparison operator, value) joined by one logic operator (`$and` or
`$or`). The element stores the result in the host as a compact JSON
expression:

- no conditions: the empty object `{}`;
- a single `$and` condition: the bare `{ "<op>": { "field": …, "value": … } }`;
- anything else: `{ "<logic>": [ <condition>, … ] }`.

This project models the codec and validator (`ruleGroupToJSON`,
`jsonToRuleGroup`, `validateRuleGroup`, `createEmptyCondition`). It also
models the element's handlers as state transitions of one class, the
per-condition edits of the condition row, and the type declarations and
constant tables these depend on. It proves what the code promises about
each of them.

Modules, one per source file, plus two helpers:

- `Wrappers` (`wrappers.dfy`): `Option`.
- `JsValues` (`js_values.dfy`): JavaScript values as `JSON.parse` returns them, plus `undefined`.
  - Objects keep their members in `Object.keys` order.
  - Only `Object.keys`, property reads and truthiness are modelled.
  - An operation that throws a `TypeError` yields `None`.
- `RuleTypes` (`rule_types.dfy`): `app/src/types/index.ts`.
- `RuleUtils` (`rule_utils.dfy`): `app/src/utils/ruleUtils.ts`.
- `ConditionEditor` (`condition.dfy`): `app/src/components/Condition.tsx`.
- `App` (`app.dfy`): `app/src/App.tsx`.
  - The class `RuleBuilder` holds the group, the disabled flag and the log of calls made into the host SDK.

Modelling choices:

- **Unchecked casts stay unchecked.** The decoder copies `field`, `operator` and `value` from stored data without checking them.
  - `RuleCondition` keeps `field` and `value` as the JavaScript values they really are, and `operator` as the key it was read from.
  - The declared TypeScript types become the predicate `WellTyped`.
  - `DecodeIsLenient` shows a decoded condition that is not well typed.
- **Fresh ids.** `generateId` is replaced by a supply `ids: nat -> string`: decoded condition i gets `ids(i)`. `AddCondition` takes the new id as a parameter. Groups are compared with ids left out, through `Triples`.
- **Stored values.** The value the host stores arrives as a `StoredValue`: `Missing` (null), `Blank` (`''`), `Parsed(json)`, or `Unparseable` (`JSON.parse` throws).
  - What the element pushes is a `StoredText`: `EmptyText` (`''`) or `Serialized(json)`.
  - `Reload` takes `JSON.parse(JSON.stringify(j))` to give `j` back. That holds for the encodings of well-typed groups, which contain no `undefined` and no numbers, and `PersistedGroupReloads` is stated for those groups only.

Where the code and the prose design disagree, the model follows the code:

- **An empty group is not logic-preserving.** An empty `$or` group encodes to `{}`, and `{}` decodes to an empty `$and` group. So for an empty group the round trip yields `DefaultGroup` (see `RoundTrip`), not the original logic.
- **First key, not "single key".** The decoder takes the *first* key of a condition entry, and the *first* logic key of the top-level object. Other keys are ignored.
- **Any keyless value means "no rule".** Every parsed value with no keys decodes to the default group: `{}`, but also numbers, booleans, `""` and `[]`. A parsed `null` makes `Object.keys` throw, so it too decodes to the default group.
- **The disabled flag gates nothing in the handlers.** The handlers never consult it. Only the UI controls are disabled (`app/src/App.tsx:104`, `:139`; `app/src/components/Condition.tsx:134`), so `DisabledChanged` changes nothing else.
- **The mount effect pushes too.** The change effect also runs once for the initial group when the element mounts. With the host SDK present, it pushes `''` and a height of 300 before the host's `init` callback arrives. The constructor states this.

A single `$and` condition is stored unwrapped. So a condition whose operator is itself `$and` or `$or` cannot survive the round trip: `RoundTripFailsOnLogicOperator` shows it comes back as the default group. The editor only produces `OperatorType` operators, so `RoundTripWellTyped` covers every group it builds. Such an operator can only come from lenient decoding of unusual stored data.

## Model

| member | source | states |
|---|---|---|
| JsValues.Keys | app/src/utils/ruleUtils.ts:55 | `Object.keys` throws exactly on null and undefined |
| JsValues.Get | app/src/utils/ruleUtils.ts:66-70 | reading a property throws exactly on null and undefined |
| JsValues.MapOrThrow | app/src/utils/ruleUtils.ts:68-78 | `map` with a callback that may throw gives every result in order iff no call throws |
| RuleTypes.OperatorTypeMembers | app/src/types/index.ts:40 | `OperatorType` has exactly the nine operators, each spelled by its own key |
| RuleTypes.LogicOperatorMembers | app/src/types/index.ts:57 | `LogicOperator` is exactly `$and` or `$or`, and no operator key is a logic key |
| RuleTypes.SignalFieldsListEachFieldOnce | app/src/types/index.ts:85-146 | `SIGNAL_FIELDS` lists every `SignalField` at exactly one position |
| RuleTypes.SelectFieldsHaveOptions | app/src/types/index.ts:88-144 | every `select` entry of `SIGNAL_FIELDS` has a non-empty options list |
| RuleTypes.OnlyReturningVisitorIsBoolean | app/src/types/index.ts:109-113 | `returning_visitor` is the only boolean field, and no field is a text field |
| RuleTypes.OperatorsListEachOperatorOnce | app/src/types/index.ts:148-158 | `OPERATORS` lists every `OperatorType` at exactly one position |
| RuleUtils.EncodeCondition | app/src/utils/ruleUtils.ts:14-21 | a condition encodes to a one-key object: its operator, mapping to `{field, value}`; the id is dropped |
| RuleUtils.EncodeConditions | app/src/utils/ruleUtils.ts:14-21 | the encoded list has the conditions' length and order |
| RuleUtils.Encode | app/src/utils/ruleUtils.ts:13-36 | the result has the shape of `RuleJSON` or is `{}`; it has no keys iff there are no conditions; a single `$and` condition is unwrapped; every other non-empty group is `{logic: list}` |
| RuleUtils.FindLogicKey | app/src/utils/ruleUtils.ts:60-62 | finds the first key that is `$and` or `$or`, and finds nothing iff no key is one |
| RuleUtils.DecodePayload | app/src/utils/ruleUtils.ts:70-76 | the condition takes `field` and `value` from the payload unchecked; it throws iff the payload is null or undefined |
| RuleUtils.DecodeEntry | app/src/utils/ruleUtils.ts:69-77 | an entry decodes iff it has a first key whose payload is neither null nor undefined; the operator is that first key |
| RuleUtils.DecodeList | app/src/utils/ruleUtils.ts:68-78 | the list decodes iff every entry does; then there is one condition per entry, in order, entry i with id `ids(i)` |
| RuleUtils.DecodeWrapped | app/src/utils/ruleUtils.ts:64-83 | under logic key l the group decodes iff the value there is an array whose every entry decodes; then the group has logic l and one condition per entry, in order, entry i with id `ids(i)` |
| RuleUtils.DecodeParsed | app/src/utils/ruleUtils.ts:52-100 | the `try` body: a value with no keys gives the default group, `null`/`undefined` throw, a value with a logic key is read through its first logic key, and any other value decodes as one `$and` condition iff it decodes as an entry |
| RuleUtils.Decode | app/src/utils/ruleUtils.ts:41-105 | null, `''`, a parse failure and a parsed value with no keys (or null) give the default `$and` group; condition i has id `ids(i)` |
| RuleUtils.DecodeLogicWrapper | app/src/utils/ruleUtils.ts:59-83 | under the first logic key, an array gives that logic with one condition per entry, in order; a non-array or an entry that throws gives the default group |
| RuleUtils.DecodeBareCondition | app/src/utils/ruleUtils.ts:84-100 | an object without a logic key gives one `$and` condition whose operator is the first key, or the default group if that throws |
| RuleUtils.DecodeIsLenient | app/src/utils/ruleUtils.ts:74-75 | an unknown operator and field are carried through into a condition that is not well typed |
| RuleUtils.DecodeEncodedCondition | app/src/utils/ruleUtils.ts:69-76 | decoding an encoded condition gives it back with the new id |
| RuleUtils.DecodeEncodedList | app/src/utils/ruleUtils.ts:68-78 | decoding an encoded list gives every condition back, in order, with fresh ids |
| RuleUtils.RoundTrip | app/src/utils/ruleUtils.ts:13-105 | decode after encode restores logic and every (field, operator, value) in order for a non-empty group (unless a single `$and` condition's operator is a logic key); an empty group gives the default group |
| RuleUtils.RoundTripWellTyped | app/src/utils/ruleUtils.ts:27-35 | every non-empty group whose operators are `OperatorType` operators survives the round trip |
| RuleUtils.RoundTripFailsOnLogicOperator | app/src/utils/ruleUtils.ts:27-30 | a single `$and` condition with operator `$or` decodes back to the default group |
| RuleUtils.EncodeIsCanonical | app/src/utils/ruleUtils.ts:23-35 | unless the group is one `$and` condition whose operator is a logic key, every encoding is one of the canonical stored forms |
| RuleUtils.EncodeDecodedEntry | app/src/utils/ruleUtils.ts:69-77 | a `{op: {field, value}}` entry decodes, and re-encodes to itself |
| RuleUtils.EncodeDecodeBare | app/src/utils/ruleUtils.ts:84-100 | a bare condition whose operator is not a logic key decodes and re-encodes to itself |
| RuleUtils.EncodeDecodeWrapped | app/src/utils/ruleUtils.ts:60-83 | a logic key over a list (two or more under `$and`, one or more under `$or`) decodes and re-encodes to itself |
| RuleUtils.EncodeDecodeCanonical | app/src/utils/ruleUtils.ts:41-100 | every canonical stored form is reproduced exactly by decoding and re-encoding it |
| RuleUtils.OrExampleRoundTrip | app/src/utils/ruleUtils.ts:60-83 | the two-condition `$or` example decodes to the expected group and re-encodes to the same stored value |
| JsValues.Truthy | app/src/utils/ruleUtils.ts:124 | `condition.field` is falsy, so `!condition.field` is true, exactly for `undefined`, `null`, `false`, `0` and `''` |
| RuleUtils.AllComplete | app/src/utils/ruleUtils.ts:122-136 | `every` holds iff each condition has a truthy field, a non-empty operator, a non-null value and no empty list |
| RuleUtils.Validate | app/src/utils/ruleUtils.ts:117-137 | an empty group is valid; otherwise the group is valid iff every condition is complete |
| RuleUtils.ValidateWellTyped | app/src/utils/ruleUtils.ts:129-133 | for well-typed conditions the only invalid value is the empty list; `''` and `false` are valid |
| RuleUtils.EmptyCondition | app/src/utils/ruleUtils.ts:142-149 | the new condition is `industry` / `$eq` / `''` with the given id; it is well typed and complete |
| ConditionEditor.FindFieldIn | app/src/components/Condition.tsx:21 | `find` returns the first entry with that field name, or nothing iff no entry matches |
| ConditionEditor.FindField | app/src/components/Condition.tsx:18-21 | a field name finds its own `SIGNAL_FIELDS` entry; any other value finds nothing |
| ConditionEditor.DefaultValue | app/src/components/Condition.tsx:22-29 | the new value is `true` for a boolean field, the first option for a select field, and `''` for a text or unknown field; it is never null nor a list |
| ConditionEditor.DefaultValueOfField | app/src/components/Condition.tsx:25-28 | each table field's default value, e.g. `industry` gives `'pharma'` and `returning_visitor` gives `true` |
| ConditionEditor.ChangeField | app/src/components/Condition.tsx:20-36 | keeps id and operator, sets the new field and its default value; complete iff the field name and operator are non-empty |
| ConditionEditor.ChangeFieldWellTyped | app/src/components/Condition.tsx:31-35 | a change to a table field leaves a well-typed, complete condition |
| ConditionEditor.ChangeOperator | app/src/components/Condition.tsx:38-43 | only the operator changes (a scalar value stays scalar); completeness is unchanged between non-empty operators |
| ConditionEditor.ChangeValue | app/src/components/Condition.tsx:45-50 | only the value changes; complete iff field and operator are set and the value is not null, undefined or `[]` |
| ConditionEditor.CurrentValues | app/src/components/Condition.tsx:73-76 | a list is shown as itself, a scalar as a one-element list |
| ConditionEditor.InputFor | app/src/components/Condition.tsx:52-127 | the control is none (unknown field), yes/no (boolean), multiple choice (select with `$in`/`$nin`), single choice (other select) or text box |
| ConditionEditor.FromBooleanChoice | app/src/components/Condition.tsx:60 | the yes/no choice gives `true` iff `'true'` was selected |
| ConditionEditor.BooleanChoiceRoundTrip | app/src/components/Condition.tsx:59-60 | choosing the option shown for a boolean gives that boolean back, and each of the two options is the one shown for the boolean it gives |
| ConditionEditor.FromMultiChoice | app/src/components/Condition.tsx:82-85 | the multiple choice gives the selected option values, as a list of strings in order |
| ConditionEditor.ChoicesAreRuleValues | app/src/components/Condition.tsx:60-102 | every control yields a string, list of strings or boolean; an empty multiple choice makes the condition incomplete |
| ConditionEditor.ChoiceKeepsConditionWellTyped | app/src/components/Condition.tsx:45-102 | a value from any control keeps a well-typed condition well typed; a yes/no, single or text choice makes it complete, a multiple choice iff something is selected |
| App.StoredTextFor | app/src/App.tsx:49-50 | the pushed string is `''` iff there are no conditions, and otherwise the serialised encoding |
| App.Height | app/src/App.tsx:54-57 | the height is between 300 and 800: 300 + 60 per condition, capped at 800 |
| App.HeightMonotone | app/src/App.tsx:54-57 | more conditions never ask for less height |
| App.Persist | app/src/App.tsx:47-58 | the effect pushes the stored string and then the height iff the SDK is present and the group is valid |
| App.PersistedGroupReloads | app/src/App.tsx:47-51 | what is pushed for a group of well-typed conditions reloads to that group, ids aside (the default group if it is empty) |
| App.WithoutIndex | app/src/App.tsx:72 | `filter` drops exactly entry i and keeps the rest in order; an out-of-range i leaves the list equal |
| App.WithoutIndexKeepsValid | app/src/App.tsx:71-74 | removing a condition keeps a valid group valid |
| App.AddThenRemoveLast | app/src/App.tsx:71-82 | appending a new condition and removing the last index restores the conditions |
| App.AddRemoveOnEmptyGroup | app/src/App.tsx:71-82 | add then remove on the empty group gives the empty group, encoded `{}` and pushed as `''` |
| App.RuleBuilder.constructor | app/src/App.tsx:14-18 | the element starts with `{$and, []}`, disabled, having pushed `''` and height 300 if the SDK is present |
| App.RuleBuilder.Changed | app/src/App.tsx:47-59 | the change effect appends the effect's host calls and changes nothing else |
| App.RuleBuilder.Init | app/src/App.tsx:28-43 | with the SDK present, the group becomes the decoding of the host value, the disabled flag is taken, height 400 is asked, then the effect runs |
| App.RuleBuilder.DisabledChanged | app/src/App.tsx:40-42 | only the disabled flag changes |
| App.RuleBuilder.ChangeLogic | app/src/App.tsx:61-63 | only the logic changes; validity is unchanged |
| App.RuleBuilder.UpdateCondition | app/src/App.tsx:65-69 | only entry i is replaced; length, logic and every other entry are unchanged; a valid group stays valid with a complete update |
| App.RuleBuilder.RemoveCondition | app/src/App.tsx:71-74 | the conditions become `WithoutIndex` of the old ones; the logic is kept; validity is kept |
| App.RuleBuilder.AddCondition | app/src/App.tsx:76-82 | appends the `industry`/`$eq`/`''` condition with the fresh id; validity is kept |

## Left out

- Rendering is not modelled: JSX, CSS, the disabled overlay, the validation message and the JSON preview toggle. They are UI only. `InputFor` says which value control is shown, because that choice decides how a selection becomes a value.
- `window.CustomElement` is a host global. Its calls are modelled only as the `HostCall` entries the element appends to `RuleBuilder.calls`. A present or absent SDK is the constant `RuleBuilder.host`.
- React scheduling is not modelled. Each handler is one method: it sets the new group, then runs the change effect once, as React does for every new group object. `Init` is taken to arrive after the mount effect, as an asynchronous host callback does.
- `generateId` reads the clock and randomness. It is replaced by the id supply described above; uniqueness of ids is not modelled.
- `JSON.parse`, `JSON.stringify`, `formatJSON` and `console.error` are left out. They are library serialisation and logging; the model works on parsed values.
- Number literals and duplicate object keys in JSON text are not modelled. A parsed object's members are taken to have distinct keys, already in `Object.keys` order.
- `JsValues.Get`: inherited properties are not modelled, such as a string's or an array's `length` and prototype methods. The decoder reads only `field`, `value`, the logic keys and keys that `Object.keys` returned.
- `App.RuleBuilder.UpdateCondition` requires the index to be in range. The handler is only bound to indices of rendered conditions. JavaScript assignment past the end would pad the array with holes, which the model does not represent.
- `ConditionEditor.ChangeField` takes the new field as any string, not only a `SignalField`. The select offers only table fields; the unknown-field branch is kept because the code has it.
- `App.PersistedGroupReloads` is stated for groups of well-typed conditions only. `JSON.stringify` drops object members whose value is `undefined` and writes `undefined` list entries as `null`, so for a condition holding `undefined` the text pushed does not parse back to its encoding; `App.Reload` does not model that rewriting.
- `app/vite.config.ts` is build configuration and is not part of this model.
