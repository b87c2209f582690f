/** The rule codec and validator: encoding a group into its stored form,
    decoding the stored form back leniently, and checking that a group is
    complete enough to be stored. */
module RuleUtils {
  import opened Wrappers
  import opened JsValues
  import opened RuleTypes

  // ---------------------------------------------------------------- encode

  /** One condition as `{ [operator]: { field, value } }`; the id is dropped. */
  function EncodeCondition(c: RuleCondition): (r: Json)
    ensures IsOperatorCondition(r)
    ensures Keys(r) == Some([c.operator])
  {
    var payload := Obj([("field", c.field), ("value", c.value)]);
    assert MemberKeys(payload.members) == ["field", "value"];
    SingleMember(c.operator, payload);
    Obj([(c.operator, payload)])
  }

  /** The conditions encoded one by one, in order. */
  function EncodeConditions(cs: seq<RuleCondition>): (r: seq<Json>)
    ensures |r| == |cs|
    ensures forall i :: 0 <= i < |cs| ==> r[i] == EncodeCondition(cs[i])
  {
    seq(|cs|, i requires 0 <= i < |cs| => EncodeCondition(cs[i]))
  }

  /** `ruleGroupToJSON`: the empty object for no conditions, the bare
      condition for a single `$and` condition, and otherwise one logic key
      mapping to the encoded conditions. The result always has the shape of
      `RuleJSON` (or is the empty object), and has no keys exactly when the
      group has no conditions. */
  function Encode(g: RuleGroup): (r: Json)
    ensures IsRuleJson(r)
    ensures Keys(r).Some?
    ensures Keys(r) == Some([]) <==> |g.conditions| == 0
    ensures |g.conditions| == 1 && g.logic == And ==>
              r == EncodeCondition(g.conditions[0]) && Keys(r) == Some([g.conditions[0].operator])
    ensures |g.conditions| > 0 && !(|g.conditions| == 1 && g.logic == And) ==>
              && Keys(r) == Some([LogicKey(g.logic)])
              && Get(r, LogicKey(g.logic)) == Some(Arr(EncodeConditions(g.conditions)))
  {
    var conditions := EncodeConditions(g.conditions);
    if |conditions| == 0 then
      assert MemberKeys([]) == [];
      Obj([])
    else if |conditions| == 1 && g.logic == And then conditions[0]
    else
      SingleMember(LogicKey(g.logic), Arr(conditions));
      Obj([(LogicKey(g.logic), Arr(conditions))])
  }

  // ---------------------------------------------------------------- decode

  /** The host's stored value as the decoder receives it: null, the empty
      string, a text that `JSON.parse` turns into a value, or a text on which
      `JSON.parse` throws. */
  datatype StoredValue = Missing | Blank | Parsed(json: Json) | Unparseable

  /** The group the decoder falls back to. */
  const DefaultGroup: RuleGroup := RuleGroup(And, [])

  /** `Object.keys(parsed).find(key => key === '$and' || key === '$or')`:
      the first key that is a logic key. */
  function FindLogicKey(keys: seq<string>): (r: Option<Logic>)
    ensures r.None? <==> forall i :: 0 <= i < |keys| ==> !IsLogicKey(keys[i])
    ensures r.Some? ==> exists i :: 0 <= i < |keys| && keys[i] == LogicKey(r.value) &&
                                    forall j :: 0 <= j < i ==> !IsLogicKey(keys[j])
  {
    if |keys| == 0 then None
    else if keys[0] == "$and" then Some(And)
    else if keys[0] == "$or" then Some(Or)
    else
      var r := FindLogicKey(keys[1..]);
      assert forall i :: 1 <= i < |keys| ==> keys[i] == keys[1..][i - 1];
      if r.Some? then
        var i :| 0 <= i < |keys[1..]| && keys[1..][i] == LogicKey(r.value) &&
                 forall j :: 0 <= j < i ==> !IsLogicKey(keys[1..][j]);
        assert keys[i + 1] == LogicKey(r.value);
        r
      else r
  }

  /** A condition built from the payload `condData` of operator key op:
      `field` and `value` are read from it unchecked; reading them throws
      (`None`) when the payload is null or undefined. */
  function DecodePayload(data: Json, op: string, id: string): (r: Option<RuleCondition>)
    ensures r.None? <==> data.Undefined? || data.Null?
    ensures r.Some? ==> r.value == RuleCondition(id, Get(data, "field").value, op, Get(data, "value").value)
  {
    match Get(data, "field")
    case None => None
    case Some(field) =>
      match Get(data, "value")
      case None => None
      case Some(value) => Some(RuleCondition(id, field, op, value))
  }

  /** One entry of a condition list: its first key is the operator and that
      key's value the payload. `None` when evaluating the entry throws: the
      entry is null, has no keys, or its payload is null or undefined. */
  function DecodeEntry(entry: Json, id: string): (r: Option<RuleCondition>)
    ensures r.Some? <==> Keys(entry).Some? && |Keys(entry).value| > 0 &&
                         var data := Get(entry, Keys(entry).value[0]).value;
                         !data.Undefined? && !data.Null?
    ensures r.Some? ==>
              var data := Get(entry, Keys(entry).value[0]).value;
              r.value == RuleCondition(id, Get(data, "field").value, Keys(entry).value[0], Get(data, "value").value)
  {
    match Keys(entry)
    case None => None  // Object.keys of null throws
    case Some(keys) =>
      // With no keys the operator key is undefined; the entry has no property
      // of that name, so the payload is undefined and reading its field throws.
      if |keys| == 0 then None
      else DecodePayload(Get(entry, keys[0]).value, keys[0], id)
  }

  /** `conditionsList.map(...)`: every entry decoded, entry i taking the i-th
      fresh id; `None` as soon as one entry throws. */
  function DecodeList(items: seq<Json>, ids: nat -> string): (r: Option<seq<RuleCondition>>)
    ensures r.Some? <==> forall i :: 0 <= i < |items| ==> DecodeEntry(items[i], ids(i)).Some?
    ensures r.Some? ==> |r.value| == |items|
    ensures r.Some? ==> forall i :: 0 <= i < |items| ==> Some(r.value[i]) == DecodeEntry(items[i], ids(i))
  {
    MapOrThrow(items, (entry, i) => DecodeEntry(entry, ids(i)))
  }

  /** The conditions under the logic key l of the parsed value j: `None` when
      `.map` over them throws (they are not an array, or an entry throws). */
  function DecodeWrapped(j: Json, l: Logic, ids: nat -> string): (r: Option<RuleGroup>)
    ensures r.Some? <==>
              && Get(j, LogicKey(l)).Some? && Get(j, LogicKey(l)).value.Arr?
              && var items := Get(j, LogicKey(l)).value.items;
                 forall i :: 0 <= i < |items| ==> DecodeEntry(items[i], ids(i)).Some?
    ensures r.Some? ==>
              var items := Get(j, LogicKey(l)).value.items;
              && r.value.logic == l && |r.value.conditions| == |items|
              && forall i :: 0 <= i < |items| ==> Some(r.value.conditions[i]) == DecodeEntry(items[i], ids(i))
  {
    match Get(j, LogicKey(l))
    case None => None
    case Some(list) =>
      // `.map` exists only on arrays; on anything else the call throws.
      if !list.Arr? then None
      else
        match DecodeList(list.items, ids)
        case None => None
        case Some(cs) => Some(RuleGroup(l, cs))
  }

  /** The body of the `try` in `jsonToRuleGroup`, given the parsed value;
      `None` when it throws. */
  function DecodeParsed(j: Json, ids: nat -> string): (r: Option<RuleGroup>)
    ensures Keys(j).None? ==> r.None?
    ensures Keys(j) == Some([]) ==> r == Some(DefaultGroup)
    ensures Keys(j).Some? && |Keys(j).value| > 0 && FindLogicKey(Keys(j).value).Some? ==>
              r == DecodeWrapped(j, FindLogicKey(Keys(j).value).value, ids)
    ensures Keys(j).Some? && |Keys(j).value| > 0 && FindLogicKey(Keys(j).value).None? ==>
              && (r.Some? <==> DecodeEntry(j, ids(0)).Some?)
              && (r.Some? ==> r.value == RuleGroup(And, [DecodeEntry(j, ids(0)).value]))
  {
    match Keys(j)
    case None => None
    case Some(keys) =>
      if |keys| == 0 then Some(DefaultGroup)
      else
        match FindLogicKey(keys) {
          case Some(logic) => DecodeWrapped(j, logic, ids)
          case None =>
            match DecodeEntry(j, ids(0))
            case None => None
            case Some(c) => Some(RuleGroup(And, [c]))
        }
  }

  /** `jsonToRuleGroup`: condition i receives the fresh id ids(i); null, the
      empty string, a text that does not parse, a parsed value with no keys
      and every evaluation that throws yield DefaultGroup. */
  function Decode(stored: StoredValue, ids: nat -> string): (r: RuleGroup)
    ensures stored.Missing? || stored.Blank? || stored.Unparseable? ==> r == DefaultGroup
    ensures stored.Parsed? && (Keys(stored.json).None? || Keys(stored.json) == Some([])) ==> r == DefaultGroup
    ensures forall i :: 0 <= i < |r.conditions| ==> r.conditions[i].id == ids(i)
  {
    match stored
    case Missing => DefaultGroup
    case Blank => DefaultGroup
    case Unparseable => DefaultGroup
    case Parsed(j) =>
      match DecodeParsed(j, ids)
      case None => DefaultGroup
      case Some(g) => g
  }

  /** A parsed value with a logic key decodes, under its first logic key l,
      to one condition per array entry in order, each condition's operator
      being the entry's first key; a non-array value under l, or an entry
      that throws, makes the whole decode fall back to DefaultGroup. */
  lemma DecodeLogicWrapper(j: Json, l: Logic, ids: nat -> string)
    requires Keys(j).Some? && FindLogicKey(Keys(j).value) == Some(l)
    ensures var list := Get(j, LogicKey(l)).value;
            var r := Decode(Parsed(j), ids);
            if list.Arr? && forall i :: 0 <= i < |list.items| ==> DecodeEntry(list.items[i], ids(i)).Some? then
              && r.logic == l && |r.conditions| == |list.items|
              && forall i :: 0 <= i < |list.items| ==>
                   && r.conditions[i].operator == Keys(list.items[i]).value[0]
                   && Some(r.conditions[i]) == DecodeEntry(list.items[i], ids(i))
            else r == DefaultGroup
  {
    var keys := Keys(j).value;
    assert |keys| > 0;
  }

  /** A parsed value with keys but none of them a logic key decodes to a
      single `$and` condition whose operator is the first key and whose field
      and value come from that key's payload; DefaultGroup if that throws. */
  lemma DecodeBareCondition(j: Json, ids: nat -> string)
    requires Keys(j).Some? && |Keys(j).value| > 0 && FindLogicKey(Keys(j).value).None?
    ensures var r := Decode(Parsed(j), ids);
            if DecodeEntry(j, ids(0)).Some? then
              && r.logic == And && |r.conditions| == 1
              && r.conditions[0].operator == Keys(j).value[0]
              && Some(r.conditions[0]) == DecodeEntry(j, ids(0))
            else r == DefaultGroup
  {
  }

  /** The decoder carries field and operator strings through without checking
      them against `SignalField` and `OperatorType`: a stored condition with an
      unknown operator and field decodes to a condition that is not well typed. */
  lemma DecodeIsLenient(ids: nat -> string)
    ensures var stored := Obj([("$near", Obj([("field", Str("colour")), ("value", Num(1.0))]))]);
            var r := Decode(Parsed(stored), ids);
            && |r.conditions| == 1
            && r.conditions[0] == RuleCondition(ids(0), Str("colour"), "$near", Num(1.0))
            && !WellTyped(r.conditions[0])
  {
    var payload := Obj([("field", Str("colour")), ("value", Num(1.0))]);
    var stored := Obj([("$near", payload)]);
    SingleMember("$near", payload);
    assert FindLogicKey(["$near"]).None?;
    var c := RuleCondition(ids(0), Str("colour"), "$near", Num(1.0));
    assert DecodeEntry(stored, ids(0)) == Some(c);
    assert !IsOperatorType("$near");
  }

  // ------------------------------------------------------------ round trip

  /** A condition without its id: (field, operator, value). */
  function Triple(c: RuleCondition): (Json, string, Json) {
    (c.field, c.operator, c.value)
  }

  /** The conditions without their ids, in order. */
  function Triples(cs: seq<RuleCondition>): (r: seq<(Json, string, Json)>)
    ensures |r| == |cs|
  {
    seq(|cs|, i requires 0 <= i < |cs| => Triple(cs[i]))
  }

  /** Decoding one encoded condition gives the condition back with the new id. */
  lemma DecodeEncodedCondition(c: RuleCondition, id: string)
    ensures DecodeEntry(EncodeCondition(c), id) == Some(c.(id := id))
  {
    var payload := Obj([("field", c.field), ("value", c.value)]);
    SingleMember(c.operator, payload);
    TwoMembers("field", c.field, "value", c.value);
  }

  /** Decoding a list of encoded conditions gives them all back, in order,
      with fresh ids. */
  lemma DecodeEncodedList(cs: seq<RuleCondition>, ids: nat -> string)
    ensures var r := DecodeList(EncodeConditions(cs), ids);
            r.Some? && Triples(r.value) == Triples(cs) &&
            forall i :: 0 <= i < |cs| ==> r.value[i].id == ids(i)
  {
    var items := EncodeConditions(cs);
    forall i | 0 <= i < |cs|
      ensures DecodeEntry(items[i], ids(i)) == Some(cs[i].(id := ids(i)))
    {
      DecodeEncodedCondition(cs[i], ids(i));
    }
    var r := DecodeList(items, ids).value;
    assert forall i :: 0 <= i < |cs| ==> Triples(r)[i] == Triples(cs)[i];
  }

  /** The round trip of the stored form: decoding an encoded group restores
      its logic and its conditions' (field, operator, value) in order, ids
      aside, and an empty group comes back as DefaultGroup. A single `$and`
      condition is stored unwrapped, so its operator must not itself be a
      logic key (every `OperatorType` operator satisfies this). */
  lemma {:induction false} RoundTrip(g: RuleGroup, ids: nat -> string)
    requires |g.conditions| == 1 && g.logic == And ==> !IsLogicKey(g.conditions[0].operator)
    ensures var r := Decode(Parsed(Encode(g)), ids);
            if |g.conditions| == 0 then r == DefaultGroup
            else r.logic == g.logic && Triples(r.conditions) == Triples(g.conditions)
  {
    var j := Encode(g);
    if |g.conditions| == 0 {
    } else if |g.conditions| == 1 && g.logic == And {
      var c := g.conditions[0];
      assert FindLogicKey([c.operator]).None?;
      DecodeEncodedCondition(c, ids(0));
      var r := Decode(Parsed(j), ids);
      assert r.conditions == [c.(id := ids(0))];
      assert Triples(r.conditions)[0] == Triples(g.conditions)[0];
    } else {
      var l := g.logic;
      assert FindLogicKey([LogicKey(l)]) == Some(l);
      DecodeEncodedList(g.conditions, ids);
    }
  }

  /** Every group whose operators are all `OperatorType` operators survives
      the round trip. */
  lemma RoundTripWellTyped(g: RuleGroup, ids: nat -> string)
    requires forall i :: 0 <= i < |g.conditions| ==> IsOperatorType(g.conditions[i].operator)
    ensures |g.conditions| > 0 ==>
              var r := Decode(Parsed(Encode(g)), ids);
              r.logic == g.logic && Triples(r.conditions) == Triples(g.conditions)
  {
    if |g.conditions| == 1 {
      var o := ParseOperator(g.conditions[0].operator).value;
      LogicOperatorMembers(And, g.conditions[0].operator, o);
    }
    RoundTrip(g, ids);
  }

  /** The unwrapped single-condition form cannot tell a condition whose
      operator is `$or` from a logic wrapper: such a group does not survive
      the round trip. */
  lemma RoundTripFailsOnLogicOperator(ids: nat -> string)
    ensures var c := RuleCondition("c1", Str("industry"), "$or", Arr([]));
            var g := RuleGroup(And, [c]);
            Decode(Parsed(Encode(g)), ids) == DefaultGroup
  {
    var c := RuleCondition("c1", Str("industry"), "$or", Arr([]));
    var payload := Obj([("field", c.field), ("value", c.value)]);
    SingleMember("$or", payload);
    assert FindLogicKey(["$or"]) == Some(Or);
  }

  /** The canonical stored forms: the empty object, a bare condition whose
      operator is not a logic key, or a logic key over a list of conditions
      that is not a one-entry `$and` list nor empty. Every condition entry is
      `{ [op]: { field, value } }` with exactly those two keys. */
  predicate Canonical(j: Json) {
    || j == Obj([])
    || (IsOperatorCondition(j) && !IsLogicKey(j.members[0].0))
    || (&& j.Obj? && |j.members| == 1 && IsLogicKey(j.members[0].0)
        && j.members[0].1.Arr?
        && var items := j.members[0].1.items;
           && (forall i :: 0 <= i < |items| ==> IsOperatorCondition(items[i]))
           && (if j.members[0].0 == "$and" then |items| >= 2 else |items| >= 1))
  }

  /** Encoding lands in the canonical forms. */
  lemma EncodeIsCanonical(g: RuleGroup)
    requires |g.conditions| == 1 && g.logic == And ==> !IsLogicKey(g.conditions[0].operator)
    ensures Canonical(Encode(g))
  {
    var cs := EncodeConditions(g.conditions);
    if |g.conditions| > 0 && !(|g.conditions| == 1 && g.logic == And) {
      assert Encode(g) == Obj([(LogicKey(g.logic), Arr(cs))]);
    }
  }

  /** A canonical operator-condition entry is the encoding of the condition
      it decodes to. */
  lemma EncodeDecodedEntry(j: Json, id: string)
    requires IsOperatorCondition(j)
    ensures DecodeEntry(j, id).Some? && EncodeCondition(DecodeEntry(j, id).value) == j
  {
    var op := j.members[0].0;
    var payload := j.members[0].1;
    assert j == Obj([(op, payload)]);
    SingleMember(op, payload);
    var ms := payload.members;
    assert MemberKeys(ms)[0] == "field" && MemberKeys(ms)[1] == "value";
    assert ms == [("field", ms[0].1), ("value", ms[1].1)];
    assert Get(payload, "field") == Some(ms[0].1);
    assert Get(payload, "value") == Some(ms[1].1);
  }

  /** A bare condition whose operator is not a logic key decodes to a single
      `$and` condition that re-encodes to it. */
  lemma EncodeDecodeBare(j: Json, ids: nat -> string)
    requires IsOperatorCondition(j) && !IsLogicKey(j.members[0].0)
    ensures Encode(Decode(Parsed(j), ids)) == j
  {
    var op := j.members[0].0;
    SingleMember(op, j.members[0].1);
    assert j == Obj([(op, j.members[0].1)]);
    assert FindLogicKey([op]).None?;
    EncodeDecodedEntry(j, ids(0));
    var c := DecodeEntry(j, ids(0)).value;
    assert Decode(Parsed(j), ids) == RuleGroup(And, [c]);
  }

  /** A logic key over a list of conditions (at least two under `$and`, at
      least one under `$or`) decodes to a group that re-encodes to it. */
  lemma EncodeDecodeWrapped(l: Logic, items: seq<Json>, ids: nat -> string)
    requires forall i :: 0 <= i < |items| ==> IsOperatorCondition(items[i])
    requires if l == And then |items| >= 2 else |items| >= 1
    ensures var j := Obj([(LogicKey(l), Arr(items))]);
            Encode(Decode(Parsed(j), ids)) == j
  {
    var j := Obj([(LogicKey(l), Arr(items))]);
    SingleMember(LogicKey(l), Arr(items));
    assert FindLogicKey([LogicKey(l)]) == Some(l);
    forall i | 0 <= i < |items|
      ensures DecodeEntry(items[i], ids(i)).Some? && EncodeCondition(DecodeEntry(items[i], ids(i)).value) == items[i]
    {
      EncodeDecodedEntry(items[i], ids(i));
    }
    var cs := DecodeList(items, ids).value;
    assert Decode(Parsed(j), ids) == RuleGroup(l, cs);
    assert EncodeConditions(cs) == items;
  }

  /** The other half of the round trip: every canonical stored form is
      reproduced exactly by decoding and re-encoding it. With
      EncodeIsCanonical, the canonical forms are exactly what the encoder
      produces. */
  lemma EncodeDecodeCanonical(j: Json, ids: nat -> string)
    requires Canonical(j)
    ensures Encode(Decode(Parsed(j), ids)) == j
  {
    if j == Obj([]) {
      assert MemberKeys([]) == [];
    } else if IsOperatorCondition(j) && !IsLogicKey(j.members[0].0) {
      EncodeDecodeBare(j, ids);
    } else {
      var key := j.members[0].0;
      var items := j.members[0].1.items;
      var l := if key == "$and" then And else Or;
      assert j == Obj([(LogicKey(l), Arr(items))]);
      EncodeDecodeWrapped(l, items, ids);
    }
  }

  /** The stored value of a two-condition `$or` rule decodes to a two-condition
      `$or` group with those fields and values, and re-encodes to the same
      stored value. */
  lemma OrExampleRoundTrip(ids: nat -> string)
    ensures var e1 := Obj([("$eq", Obj([("field", Str("industry")), ("value", Str("pharma"))]))]);
            var e2 := Obj([("$in", Obj([("field", Str("solution")),
                                        ("value", Arr([Str("automation"), Str("digital")]))]))]);
            var stored := Obj([("$or", Arr([e1, e2]))]);
            var g := Decode(Parsed(stored), ids);
            && g == RuleGroup(Or, [RuleCondition(ids(0), Str("industry"), "$eq", Str("pharma")),
                                   RuleCondition(ids(1), Str("solution"), "$in",
                                                 Arr([Str("automation"), Str("digital")]))])
            && Encode(g) == stored
  {
    var p1 := Obj([("field", Str("industry")), ("value", Str("pharma"))]);
    var p2 := Obj([("field", Str("solution")), ("value", Arr([Str("automation"), Str("digital")]))]);
    var e1 := Obj([("$eq", p1)]);
    var e2 := Obj([("$in", p2)]);
    var stored := Obj([("$or", Arr([e1, e2]))]);
    assert MemberKeys(p1.members) == ["field", "value"];
    assert MemberKeys(p2.members) == ["field", "value"];
    assert Canonical(stored);
    EncodeDecodeCanonical(stored, ids);
    EncodeDecodedEntry(e1, ids(0));
    EncodeDecodedEntry(e2, ids(1));
    SingleMember("$eq", p1);
    SingleMember("$in", p2);
    assert Get(p1, "field") == Some(Str("industry"));
    assert Get(p1, "value") == Some(Str("pharma"));
    assert Get(p2, "field") == Some(Str("solution"));
    assert Get(p2, "value") == Some(Arr([Str("automation"), Str("digital")]));
    SingleMember("$or", Arr([e1, e2]));
    assert FindLogicKey(["$or"]) == Some(Or);
    DecodeLogicWrapper(stored, Or, ids);
  }

  // -------------------------------------------------------------- validate

  /** One condition of `validateRuleGroup`'s `every`: a truthy field, a
      non-empty operator, a value that is neither null nor undefined, and a
      non-empty list when the value is a list. */
  predicate ConditionComplete(c: RuleCondition) {
    && Truthy(c.field)
    && c.operator != ""
    && !c.value.Null? && !c.value.Undefined?
    && !(c.value.Arr? && |c.value.items| == 0)
  }

  /** `conditions.every(...)`, checked from the first condition on. */
  function AllComplete(cs: seq<RuleCondition>): (r: bool)
    ensures r <==> forall i :: 0 <= i < |cs| ==> ConditionComplete(cs[i])
  {
    if |cs| == 0 then true
    else if !ConditionComplete(cs[0]) then false
    else
      var rest := AllComplete(cs[1..]);
      assert forall i :: 1 <= i < |cs| ==> cs[i] == cs[1..][i - 1];
      rest
  }

  /** `validateRuleGroup`: an empty group is valid, and otherwise a group is
      valid exactly when each of its conditions is complete. */
  function Validate(g: RuleGroup): (r: bool)
    ensures |g.conditions| == 0 ==> r
    ensures r <==> forall i :: 0 <= i < |g.conditions| ==> ConditionComplete(g.conditions[i])
  {
    if |g.conditions| == 0 then true else AllComplete(g.conditions)
  }

  /** For a group of well-typed conditions (known field, `OperatorType`
      operator, string, list or boolean value), the only way to be invalid is
      an empty list value: an empty string and `false` are valid values. */
  lemma ValidateWellTyped(g: RuleGroup)
    requires forall i :: 0 <= i < |g.conditions| ==> WellTyped(g.conditions[i])
    ensures Validate(g) <==> forall i :: 0 <= i < |g.conditions| ==>
                               g.conditions[i].value != Arr([])
  {
    forall i | 0 <= i < |g.conditions|
      ensures ConditionComplete(g.conditions[i]) <==> g.conditions[i].value != Arr([])
    {
      var c := g.conditions[i];
      var f :| c.field == Str(FieldName(f));
      assert FieldName(f) != "";
      var o := ParseOperator(c.operator).value;
      assert OperatorKey(o) != "";
    }
  }

  /** `createEmptyCondition`, with the fresh id supplied by the caller: an
      `industry` / `$eq` / `''` condition, which is well typed and complete. */
  function EmptyCondition(id: string): (r: RuleCondition)
    ensures r.id == id && WellTyped(r) && ConditionComplete(r)
    ensures r.field == Str("industry") && r.operator == "$eq" && r.value == Str("")
  {
    var r := RuleCondition(id, Str("industry"), "$eq", Str(""));
    assert r.field == Str(FieldName(Industry));
    r
  }
}
