/** Which keys a resolved value has once it is made a mapping, told from the documents alone.  A list becomes a mapping
    too, if every element yields two things; an element that is a reference yields the keys of what it resolves to. */
module ContractKeys {

  import opened ContractResolver
  import opened ContractTermination

  predicate DescriptiveSiblings(fields: seq<Field>) {
    forall i :: 0 <= i < |fields| ==> fields[i].key == REF || IsDescriptive(fields[i].key)
  }

  function SiblingKeys(fields: seq<Field>): seq<Key> {
    if fields == [] then [] else (if fields[0].key == REF then [] else [fields[0].key]) + SiblingKeys(fields[1..])
  }

  /* ---------------------------------------------------------------- keys of merged mappings */

  function DropKey(keys: seq<Key>, key: Key): seq<Key> {
    if keys == [] then [] else (if keys[0] == key then [] else [keys[0]]) + DropKey(keys[1..], key)
  }

  function PutKey(keys: seq<Key>, key: Key): seq<Key> {
    if keys == [] then [key]
    else if keys[0] == key then [key] + DropKey(keys[1..], key)
    else [keys[0]] + PutKey(keys[1..], key)
  }

  function PutKeys(keys: seq<Key>, more: seq<Key>): seq<Key>
    decreases |more|
  {
    if more == [] then keys else PutKeys(PutKey(keys, more[0]), more[1..])
  }

  lemma KeysCons(f: Field, rest: seq<Field>)
    ensures Keys([f] + rest) == [f.key] + Keys(rest)
  {
    assert ([f] + rest)[1..] == rest;
  }

  lemma {:induction false} KeysOfDrop(fields: seq<Field>, key: Key)
    ensures Keys(Drop(fields, key)) == DropKey(Keys(fields), key)
  {
    if fields != [] {
      KeysOfDrop(fields[1..], key);
      KeysCons(fields[0], fields[1..]);
      assert [fields[0]] + fields[1..] == fields && Keys(fields)[1..] == Keys(fields[1..]);
      if fields[0].key != key {
        KeysCons(fields[0], Drop(fields[1..], key));
      }
    }
  }

  lemma {:induction false} KeysOfPut(fields: seq<Field>, f: Field)
    ensures Keys(Put(fields, f)) == PutKey(Keys(fields), f.key)
  {
    if fields == [] {
      KeysCons(f, []);
      assert [f] + [] == [f];
    } else {
      KeysCons(fields[0], fields[1..]);
      assert [fields[0]] + fields[1..] == fields && Keys(fields)[1..] == Keys(fields[1..]);
      if fields[0].key == f.key {
        KeysOfDrop(fields[1..], f.key);
        KeysCons(f, Drop(fields[1..], f.key));
      } else {
        KeysOfPut(fields[1..], f);
        KeysCons(fields[0], Put(fields[1..], f));
      }
    }
  }

  lemma {:induction false} KeysOfPutAll(fields: seq<Field>, more: seq<Field>)
    ensures Keys(PutAll(fields, more)) == PutKeys(Keys(fields), Keys(more))
    decreases |more|
  {
    if more != [] {
      KeysOfPut(fields, more[0]);
      KeysOfPutAll(Put(fields, more[0]), more[1..]);
      assert Keys(more)[1..] == Keys(more[1..]);
    }
  }

  lemma {:induction false} DroppedKey(keys: seq<Key>, key: Key, k: Key)
    ensures k in DropKey(keys, key) <==> k in keys && k != key
  {
    if keys != [] {
      DroppedKey(keys[1..], key, k);
      assert keys == [keys[0]] + keys[1..];
    }
  }

  lemma {:induction false} PutKeyMember(keys: seq<Key>, key: Key, k: Key)
    ensures k in PutKey(keys, key) <==> k in keys || k == key
  {
    if keys != [] {
      assert keys == [keys[0]] + keys[1..];
      if keys[0] == key {
        DroppedKey(keys[1..], key, k);
      } else {
        PutKeyMember(keys[1..], key, k);
      }
    }
  }

  lemma {:induction false} PutKeysMember(keys: seq<Key>, more: seq<Key>, k: Key)
    ensures k in PutKeys(keys, more) <==> k in keys || k in more
    decreases |more|
  {
    if more != [] {
      PutKeyMember(keys, more[0], k);
      PutKeysMember(PutKey(keys, more[0]), more[1..], k);
      assert more == [more[0]] + more[1..];
    }
  }

  /* ---------------------------------------------------------------- keys told from the documents */

  /** The keys of what a value resolves to, made a mapping; an error where dict() would raise one. */
  function MappingKeys(w: World, fuel: nat, node: Json, source: Path): Result<seq<Key>>
    decreases fuel, node, 1
  {
    match node
    case Obj(fields) =>
      if REF !in Keys(fields) then Ok(Keys(fields))
      else
        var ref := ReferenceOf(fields);
        var t := if ref.Ok? then Target(w, source, ref.value) else Err(NotAReference);
        if t.Ok? && fuel > 0 then ReferenceKeys(w, fuel, node, t.value) else Err(NotAMapping)
    case Arr(items) =>
      var keys := ListKeys(w, fuel, items, source);
      if keys.Ok? then Ok(PutKeys([], keys.value)) else Err(NotAMapping)
    case Str(text) => if text == "" then Ok([]) else Err(NotAMapping)
    case Leaf(_, _) => Err(NotAMapping)
  }

  function ReferenceKeys(w: World, fuel: nat, node: Json, t: Place): Result<seq<Key>>
    requires fuel > 0 && node.Obj?
    decreases fuel, node, 0
  {
    if !DescriptiveSiblings(node.fields) then Ok([ALL_OF])
    else
      var keys := MappingKeys(w, fuel - 1, t.value, t.path);
      if keys.Ok? then Ok(PutKeys(keys.value, SiblingKeys(node.fields))) else Err(NotAMapping)
  }

  function ListKeys(w: World, fuel: nat, items: seq<Json>, source: Path): Result<seq<Key>>
    decreases fuel, items, 0
  {
    if items == [] then Ok([])
    else
      var first, rest := PairKey(w, fuel, items[0], source), ListKeys(w, fuel, items[1..], source);
      if first.Ok? && rest.Ok? then Ok([first.value] + rest.value) else Err(NotAMapping)
  }

  /** The key that one element of a list becomes. */
  function PairKey(w: World, fuel: nat, item: Json, source: Path): Result<Key>
    decreases fuel, item, 2
  {
    match item
    case Arr(items) => if |items| == 2 && KeyOf(items[0]).Ok? then KeyOf(items[0]) else Err(NotAMapping)
    case Str(s) => if |s| == 2 then Ok(Name([s[0]])) else Err(NotAMapping)
    case Obj(_) =>
      var keys := MappingKeys(w, fuel, item, source);
      if keys.Ok? && |keys.value| == 2 then Ok(keys.value[0]) else Err(NotAMapping)
    case Leaf(_, _) => Err(NotAMapping)
  }

  /* ---------------------------------------------------------------- resolution keeps shapes apart */

  /** A mapping resolves to a mapping, and a text or a list only comes from a text or a list. */
  lemma ShapeKept(w: World, fuel: nat, node: Json, source: Path)
    requires Resolve(w, fuel, node, source).Ok?
    ensures var r := Resolve(w, fuel, node, source).value;
            && (r.Str? || r.Leaf? ==> node == r)
            && (node.Str? || node.Leaf? ==> node == r)
            && (r.Arr? <==> node.Arr?)
            && (r.Arr? ==> ResolveItems(w, fuel, node.items, source) == Ok(r.items))
  {
  }

  lemma {:induction false} ItemsKept(w: World, fuel: nat, items: seq<Json>, source: Path)
    requires ResolveItems(w, fuel, items, source).Ok?
    ensures var out := ResolveItems(w, fuel, items, source).value;
            |out| == |items| && forall i :: 0 <= i < |items| ==> Resolve(w, fuel, items[i], source) == Ok(out[i])
    decreases |items|
  {
    if items != [] {
      ItemsKept(w, fuel, items[1..], source);
    }
  }

  /** Siblings keep their keys. */
  lemma {:induction false} KeysKept(w: World, fuel: nat, fields: seq<Field>, source: Path)
    requires ResolveFields(w, fuel, fields, source).Ok?
    ensures Keys(ResolveFields(w, fuel, fields, source).value) == SiblingKeys(fields)
    decreases |fields|
  {
    if fields != [] {
      KeysKept(w, fuel, fields[1..], source);
      if fields[0].key != REF {
        var out := ResolveFields(w, fuel, fields, source).value;
        KeysCons(out[0], ResolveFields(w, fuel, fields[1..], source).value);
      }
    }
  }

  lemma {:induction false} SiblingKeyMember(fields: seq<Field>, k: Key)
    ensures k in SiblingKeys(fields) <==> k in Keys(fields) && k != REF
  {
    if fields != [] {
      SiblingKeyMember(fields[1..], k);
      KeysCons(fields[0], fields[1..]);
      assert [fields[0]] + fields[1..] == fields;
    }
  }

  lemma {:induction false} AllSiblings(fields: seq<Field>)
    requires REF !in Keys(fields)
    ensures SiblingKeys(fields) == Keys(fields)
  {
    if fields != [] {
      KeysCons(fields[0], fields[1..]);
      assert [fields[0]] + fields[1..] == fields;
      AllSiblings(fields[1..]);
    }
  }

  lemma DescriptiveIffKeys(fields: seq<Field>)
    ensures Descriptive(fields) <==> forall k :: k in Keys(fields) ==> IsDescriptive(k)
    ensures DescriptiveSiblings(fields) <==> forall k :: k in Keys(fields) && k != REF ==> IsDescriptive(k)
  {
    if k :| k in Keys(fields) && !IsDescriptive(k) {
      var i :| 0 <= i < |fields| && Keys(fields)[i] == k;
    }
    if i :| 0 <= i < |fields| && !IsDescriptive(fields[i].key) {
      assert Keys(fields)[i] in Keys(fields);
    }
    if k :| k in Keys(fields) && k != REF && !IsDescriptive(k) {
      var i :| 0 <= i < |fields| && Keys(fields)[i] == k;
    }
    if i :| 0 <= i < |fields| && fields[i].key != REF && !IsDescriptive(fields[i].key) {
      assert Keys(fields)[i] in Keys(fields);
    }
  }

  lemma DescriptiveKept(w: World, fuel: nat, fields: seq<Field>, source: Path)
    requires ResolveFields(w, fuel, fields, source).Ok?
    ensures Descriptive(ResolveFields(w, fuel, fields, source).value) <==> DescriptiveSiblings(fields)
  {
    var out := ResolveFields(w, fuel, fields, source).value;
    KeysKept(w, fuel, fields, source);
    DescriptiveIffKeys(fields);
    DescriptiveIffKeys(out);
    forall k ensures k in Keys(out) <==> k in Keys(fields) && k != REF {
      SiblingKeyMember(fields, k);
    }
  }

  /** A mapping that resolved had resolvable fields, and if it was a reference, a resolvable target. */
  lemma FieldsWhereResolved(w: World, fuel: nat, node: Json, source: Path)
    requires node.Obj? && Resolve(w, fuel, node, source).Ok?
    ensures ResolveFields(w, fuel, node.fields, source).Ok?
    ensures REF !in Keys(node.fields) ==> Resolve(w, fuel, node, source) == Ok(Obj(ResolveFields(w, fuel, node.fields, source).value))
    ensures REF in Keys(node.fields) ==>
              && ReferenceOf(node.fields).Ok?
              && var ref := ReferenceOf(node.fields).value;
                 && Target(w, source, ref).Ok? && fuel > 0
                 && var t := Target(w, source, ref).value;
                    && Resolve(w, fuel - 1, t.value, t.path).Ok?
                    && Resolve(w, fuel, node, source)
                       == Combine(Resolve(w, fuel - 1, t.value, t.path).value, ResolveFields(w, fuel, node.fields, source).value)
  {
  }

  /* ---------------------------------------------------------------- the keys are those of the resolved value */

  ghost predicate KeysAre(r: Json, keys: Result<seq<Key>>) {
    (AsMapping(r).Ok? <==> keys.Ok?) && (keys.Ok? ==> Keys(AsMapping(r).value) == keys.value)
  }

  /** Whether dict() takes a resolved value, and which keys it then has, shows on the unresolved one. */
  lemma {:induction false} MappingKeysKept(w: World, fuel: nat, node: Json, source: Path)
    requires Resolve(w, fuel, node, source).Ok?
    ensures KeysAre(Resolve(w, fuel, node, source).value, MappingKeys(w, fuel, node, source))
    decreases fuel, node, 1
  {
    ShapeKept(w, fuel, node, source);
    match node
    case Obj(fields) =>
      FieldsWhereResolved(w, fuel, node, source);
      KeysKept(w, fuel, fields, source);
      if REF in Keys(fields) {
        ReferenceKeysKept(w, fuel, node, source, Target(w, source, ReferenceOf(fields).value).value);
      } else {
        AllSiblings(fields);
      }
    case Arr(items) =>
      ListKeysKept(w, fuel, items, source);
      var out := ResolveItems(w, fuel, items, source).value;
      if PairsToFields(out).Ok? {
        KeysOfPutAll([], PairsToFields(out).value);
      }
    case _ =>
  }

  lemma {:induction false} ReferenceKeysKept(w: World, fuel: nat, node: Json, source: Path, t: Place)
    requires node.Obj? && fuel > 0
    requires Resolve(w, fuel - 1, t.value, t.path).Ok? && ResolveFields(w, fuel, node.fields, source).Ok?
    requires Combine(Resolve(w, fuel - 1, t.value, t.path).value, ResolveFields(w, fuel, node.fields, source).value).Ok?
    ensures KeysAre(Combine(Resolve(w, fuel - 1, t.value, t.path).value, ResolveFields(w, fuel, node.fields, source).value).value,
                    ReferenceKeys(w, fuel, node, t))
    decreases fuel, node, 0
  {
    var resolved, siblings := Resolve(w, fuel - 1, t.value, t.path).value, ResolveFields(w, fuel, node.fields, source).value;
    KeysKept(w, fuel, node.fields, source);
    DescriptiveKept(w, fuel, node.fields, source);
    if DescriptiveSiblings(node.fields) {
      MappingKeysKept(w, fuel - 1, t.value, t.path);
      KeysOfPutAll(AsMapping(resolved).value, siblings);
    } else {
      var field := Field(ALL_OF, Arr([resolved, Obj(siblings)]));
      KeysCons(field, []);
      assert [field] + [] == [field];
    }
  }

  lemma {:induction false} ListKeysKept(w: World, fuel: nat, items: seq<Json>, source: Path)
    requires ResolveItems(w, fuel, items, source).Ok?
    ensures var fields, keys := PairsToFields(ResolveItems(w, fuel, items, source).value), ListKeys(w, fuel, items, source);
            (fields.Ok? <==> keys.Ok?) && (keys.Ok? ==> Keys(fields.value) == keys.value)
    decreases fuel, items, 0
  {
    if items != [] {
      var out := ResolveItems(w, fuel, items, source).value;
      assert out[1..] == ResolveItems(w, fuel, items[1..], source).value;
      PairKept(w, fuel, items[0], source);
      ListKeysKept(w, fuel, items[1..], source);
      if PairOf(out[0]).Ok? && PairsToFields(out[1..]).Ok? {
        KeysCons(PairOf(out[0]).value, PairsToFields(out[1..]).value);
      }
    }
  }

  /** What an element becomes: its key as told, and as its value the resolved second item of a list, or a text or leaf. */
  lemma {:induction false} PairKept(w: World, fuel: nat, item: Json, source: Path)
    requires Resolve(w, fuel, item, source).Ok?
    ensures var pair, key := PairOf(Resolve(w, fuel, item, source).value), PairKey(w, fuel, item, source);
            && (pair.Ok? <==> key.Ok?)
            && (key.Ok? ==> pair.value.key == key.value)
            && (key.Ok? ==> if item.Arr? then |item.items| == 2 && Resolve(w, fuel, item.items[1], source) == Ok(pair.value.value)
                            else pair.value.value.Str? || pair.value.value.Leaf?)
    decreases fuel, item, 2
  {
    ShapeKept(w, fuel, item, source);
    match item
    case Arr(items) =>
      ItemsKept(w, fuel, items, source);
      if |items| == 2 {
        ShapeKept(w, fuel, items[0], source);
      }
    case Obj(fields) =>
      MappingKeysKept(w, fuel, item, source);
    case _ =>
  }
}
