/** The rule builder element: one rule group edited by the handlers, pushed
    to the host whenever it is valid, together with the height the element
    asks the host for. The host SDK is modelled as the sequence of calls the
    element makes into it. */
module App {
  import opened Wrappers
  import opened JsValues
  import opened RuleTypes
  import opened RuleUtils

  // ------------------------------------------------------- host boundary

  /** The string pushed as the element's value: `''` or `JSON.stringify` of
      an encoding, kept here as the encoded value itself. */
  datatype StoredText = EmptyText | Serialized(json: Json)

  /** A call into the host SDK. */
  datatype HostCall = SetValue(text: StoredText) | SetHeight(px: int)

  /** The string pushed for a group: `''` when the encoding has no keys,
      which happens exactly when the group has no conditions, and otherwise
      the serialised encoding. */
  function StoredTextFor(g: RuleGroup): (r: StoredText)
    ensures r == EmptyText <==> |g.conditions| == 0
    ensures r.Serialized? ==> r.json == Encode(g) && Keys(r.json).value != []
  {
    var json := Encode(g);
    if |Keys(json).value| > 0 then Serialized(json) else EmptyText
  }

  /** The value the host hands back at the next initialisation for a pushed
      string: `''` arrives as the empty string, and a serialised encoding
      parses back to the encoding. This identity holds for encodings without
      `undefined`, which `JSON.stringify` would drop or write as `null`. */
  function Reload(t: StoredText): StoredValue {
    match t
    case EmptyText => Blank
    case Serialized(j) => Parsed(j)
  }

  /** The height asked for with n conditions: 300 pixels plus 60 per
      condition, capped at 800. */
  function Height(n: nat): (r: int)
    ensures 300 <= r <= 800
    ensures r == 800 || r == 300 + 60 * n
    ensures n <= 8 ==> r == 300 + 60 * n
  {
    var total := 300 + n * 60;
    if total < 800 then total else 800
  }

  /** More conditions never ask for less height. */
  lemma HeightMonotone(m: nat, n: nat)
    requires m <= n
    ensures Height(m) <= Height(n)
  {
  }

  /** The effect run after every change of the group: when the host SDK is
      present and the group is valid, push its stored string and then its
      height; otherwise call nothing. */
  function Persist(host: bool, g: RuleGroup): (r: seq<HostCall>)
    ensures r == [] <==> !host || !Validate(g)
    ensures r != [] ==> r == [SetValue(StoredTextFor(g)), SetHeight(Height(|g.conditions|))]
  {
    if host && Validate(g) then
      [SetValue(StoredTextFor(g)), SetHeight(Height(|g.conditions|))]
    else []
  }

  /** What is pushed for a group of well-typed conditions reloads to that
      group: its logic and its conditions' (field, operator, value) come back
      in order when it has conditions, and DefaultGroup when it has none.
      Well-typed values hold no `undefined`, which `JSON.stringify` would drop
      or turn into `null`, so Reload's identity holds for them. */
  lemma PersistedGroupReloads(g: RuleGroup, ids: nat -> string)
    requires forall i :: 0 <= i < |g.conditions| ==> WellTyped(g.conditions[i])
    ensures var r := Decode(Reload(StoredTextFor(g)), ids);
            if |g.conditions| == 0 then r == DefaultGroup
            else r.logic == g.logic && Triples(r.conditions) == Triples(g.conditions)
  {
    RoundTripWellTyped(g, ids);
  }

  // ----------------------------------------------------- list operations

  /** `cs.filter((_, i) => i !== index)`: an index in range drops exactly
      that entry and keeps the others in order; any other index keeps the
      list as it is. */
  function WithoutIndex(cs: seq<RuleCondition>, index: int): (r: seq<RuleCondition>)
    ensures 0 <= index < |cs| ==>
              && |r| == |cs| - 1
              && (forall j :: 0 <= j < index ==> r[j] == cs[j])
              && (forall j :: index <= j < |r| ==> r[j] == cs[j + 1])
    ensures !(0 <= index < |cs|) ==> r == cs
    decreases |cs|
  {
    if |cs| == 0 then []
    else
      var n := |cs| - 1;
      var kept := WithoutIndex(cs[..n], index);
      assert forall j :: 0 <= j < n ==> cs[..n][j] == cs[j];
      if n == index then kept else kept + [cs[n]]
  }

  /** Removing an entry from a valid list keeps it valid. */
  lemma WithoutIndexKeepsValid(g: RuleGroup, index: int)
    ensures Validate(g) ==> Validate(g.(conditions := WithoutIndex(g.conditions, index)))
  {
    var cs := WithoutIndex(g.conditions, index);
    if Validate(g) && 0 <= index < |g.conditions| {
      assert forall j :: 0 <= j < |cs| ==> cs[j] in g.conditions;
    }
  }

  /** Adding a new condition and then removing the last one restores the
      conditions as they were. */
  lemma AddThenRemoveLast(cs: seq<RuleCondition>, id: string)
    ensures WithoutIndex(cs + [EmptyCondition(id)], |cs|) == cs
  {
    var r := WithoutIndex(cs + [EmptyCondition(id)], |cs|);
    assert forall j :: 0 <= j < |cs| ==> r[j] == cs[j];
  }

  /** Adding a condition to the empty group and removing it again gives back
      the empty group, which encodes to the empty object and is pushed as `''`. */
  lemma AddRemoveOnEmptyGroup(id: string)
    ensures var added := DefaultGroup.(conditions := DefaultGroup.conditions + [EmptyCondition(id)]);
            var removed := added.(conditions := WithoutIndex(added.conditions, 0));
            && removed == DefaultGroup
            && Encode(removed) == Obj([])
            && StoredTextFor(removed) == EmptyText
  {
    AddThenRemoveLast([], id);
  }

  // ---------------------------------------------------------- the element

  /** The element's state: the group being edited, whether the host has
      disabled editing, whether the host SDK is present, and every call made
      into the host so far. */
  class RuleBuilder {
    var group: RuleGroup
    var disabled: bool
    const host: bool
    var calls: seq<HostCall>

    /** Mounting the element: an empty `$and` group, disabled until the host
        says otherwise; the change effect runs once for the initial group. */
    constructor (host: bool)
      ensures group == DefaultGroup && disabled && this.host == host
      ensures calls == Persist(host, DefaultGroup)
      ensures host ==> calls == [SetValue(EmptyText), SetHeight(300)]
    {
      this.host := host;
      group := DefaultGroup;
      disabled := true;
      calls := Persist(host, DefaultGroup);
    }

    /** The change effect, run after each new group. */
    method Changed()
      modifies this
      ensures group == old(group) && disabled == old(disabled)
      ensures calls == old(calls) + Persist(host, group)
    {
      calls := calls + Persist(host, group);
    }

    /** The host's `init` callback: decode the stored value (condition i
        getting id ids(i)), take the disabled flag and ask for 400 pixels;
        then the change effect runs for the decoded group. Without the host
        SDK nothing happens. */
    method Init(stored: StoredValue, isDisabled: bool, ids: nat -> string)
      modifies this
      ensures host ==> group == Decode(stored, ids) && disabled == isDisabled
      ensures host ==> calls == old(calls) + [SetHeight(400)] + Persist(host, group)
      ensures !host ==> group == old(group) && disabled == old(disabled) && calls == old(calls)
    {
      if host {
        group := Decode(stored, ids);
        disabled := isDisabled;
        calls := calls + [SetHeight(400)];
        Changed();
      }
    }

    /** `onDisabledChanged`: only the disabled flag changes. */
    method DisabledChanged(isDisabled: bool)
      modifies this
      ensures disabled == isDisabled && group == old(group) && calls == old(calls)
    {
      disabled := isDisabled;
    }

    /** `handleLogicChange`: only the logic changes; the conditions and the
        group's validity stay as they were. */
    method ChangeLogic(newLogic: Logic)
      modifies this
      ensures group.logic == newLogic && group.conditions == old(group.conditions)
      ensures Validate(group) == Validate(old(group))
      ensures disabled == old(disabled) && calls == old(calls) + Persist(host, group)
    {
      group := group.(logic := newLogic);
      Changed();
    }

    /** `handleConditionUpdate`: copy the conditions, overwrite entry index
        in the copy, and store the copy. Only that entry changes; a valid
        group stays valid when the new condition is complete. */
    method UpdateCondition(index: nat, updated: RuleCondition)
      requires index < |group.conditions|
      modifies this
      ensures group.logic == old(group.logic)
      ensures |group.conditions| == |old(group.conditions)|
      ensures group.conditions[index] == updated
      ensures forall j :: 0 <= j < |group.conditions| && j != index ==>
                group.conditions[j] == old(group.conditions[j])
      ensures Validate(old(group)) && ConditionComplete(updated) ==> Validate(group)
      ensures disabled == old(disabled) && calls == old(calls) + Persist(host, group)
    {
      var cs := group.conditions;
      var copy := new RuleCondition[|cs|](i requires 0 <= i < |cs| => cs[i]);
      copy[index] := updated;
      group := group.(conditions := copy[..]);
      Changed();
    }

    /** `handleConditionRemove`: drop the entry at index, keeping the others
        in order; an index out of range leaves the conditions equal. */
    method RemoveCondition(index: int)
      modifies this
      ensures group.logic == old(group.logic)
      ensures group.conditions == WithoutIndex(old(group.conditions), index)
      ensures Validate(old(group)) ==> Validate(group)
      ensures disabled == old(disabled) && calls == old(calls) + Persist(host, group)
    {
      WithoutIndexKeepsValid(group, index);
      group := group.(conditions := WithoutIndex(group.conditions, index));
      Changed();
    }

    /** `handleAddCondition`: append a new `industry` / `$eq` / `''`
        condition with the fresh id; a valid group stays valid. */
    method AddCondition(id: string)
      modifies this
      ensures group.logic == old(group.logic)
      ensures group.conditions == old(group.conditions) + [EmptyCondition(id)]
      ensures Validate(old(group)) ==> Validate(group)
      ensures disabled == old(disabled) && calls == old(calls) + Persist(host, group)
    {
      group := group.(conditions := group.conditions + [EmptyCondition(id)]);
      Changed();
    }
  }
}
