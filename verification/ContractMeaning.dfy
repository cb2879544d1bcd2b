/** What a resolved contract is, said without the functions that compute it: where a reference leads, what a merge
    consists of, and from these a big-step meaning of references that resolution is proved to follow. */
module ContractMeaning {

  import opened JsonPointer
  import opened ContractResolver
  import opened ContractKeys
  import ContractTermination

  /* ---------------------------------------------------------------- looking things up */

  /** The first field under a key. */
  predicate FirstField(fields: seq<Field>, i: nat, key: Key) {
    i < |fields| && fields[i].key == key && forall j :: 0 <= j < i ==> fields[j].key != key
  }

  ghost predicate HasKey(fields: seq<Field>, key: Key) { exists i :: FirstField(fields, i, key) }

  lemma {:induction false} LookupFindsFirst(fields: seq<Field>, i: nat, key: Key)
    requires FirstField(fields, i, key)
    ensures Lookup(fields, key) == Ok(fields[i].value)
    decreases i
  {
    if i > 0 {
      LookupFindsFirst(fields[1..], i - 1, key);
    }
  }

  lemma {:induction false} LookupFinds(fields: seq<Field>, key: Key) returns (i: nat)
    requires Lookup(fields, key).Ok?
    ensures FirstField(fields, i, key)
  {
    i := 0;
    if fields[0].key != key {
      var k := LookupFinds(fields[1..], key);
      i := k + 1;
    }
  }

  lemma LookupIff(fields: seq<Field>, key: Key)
    ensures Lookup(fields, key).Ok? <==> HasKey(fields, key)
    ensures !HasKey(fields, key) ==> Lookup(fields, key) == Err(NoSuchKey)
    ensures key in Keys(fields) <==> HasKey(fields, key)
  {
    ContractTermination.LookupAnswers(fields, key);
    KeysLookup(fields, key);
    if Lookup(fields, key).Ok? {
      var i := LookupFinds(fields, key);
    }
    if i :| FirstField(fields, i, key) {
      LookupFindsFirst(fields, i, key);
    }
  }

  lemma {:induction false} KeysLookup(fields: seq<Field>, key: Key)
    ensures key in Keys(fields) <==> Lookup(fields, key).Ok?
    ensures !Lookup(fields, key).Ok? ==> Lookup(fields, key) == Err(NoSuchKey)
  {
    if fields != [] {
      KeysLookup(fields[1..], key);
      KeysCons(fields[0], fields[1..]);
      assert [fields[0]] + fields[1..] == fields;
    }
  }

  /** One step down: the value of the mapping's field named by a token. */
  ghost predicate StepsDown(v: Json, token: string, child: Json) {
    v.Obj? && exists i: nat :: FirstField(v.fields, i, Name(token)) && v.fields[i].value == child
  }

  /** A way through nested mappings. */
  ghost predicate Walk(trail: seq<Json>, tokens: seq<string>) {
    |trail| == |tokens| + 1 && forall i :: 0 <= i < |tokens| ==> StepsDown(trail[i], tokens[i], trail[i + 1])
  }

  lemma StepIsLookup(v: Json, token: string, child: Json)
    ensures StepsDown(v, token, child) <==> v.Obj? && Lookup(v.fields, Name(token)) == Ok(child)
  {
    if v.Obj? {
      LookupIff(v.fields, Name(token));
      forall i: nat | FirstField(v.fields, i, Name(token)) ensures Lookup(v.fields, Name(token)) == Ok(v.fields[i].value) {
        LookupFindsFirst(v.fields, i, Name(token));
      }
    }
  }

  lemma {:induction false} WalkIsNavigated(trail: seq<Json>, tokens: seq<string>)
    requires Walk(trail, tokens)
    ensures Navigate(trail[0], tokens) == Ok(trail[|tokens|])
    decreases |tokens|
  {
    if tokens != [] {
      StepIsLookup(trail[0], tokens[0], trail[1]);
      WalkIsNavigated(trail[1..], tokens[1..]);
    }
  }

  lemma {:induction false} NavigatedIsWalk(v: Json, tokens: seq<string>) returns (trail: seq<Json>)
    requires Navigate(v, tokens).Ok?
    ensures Walk(trail, tokens) && trail[0] == v && trail[|tokens|] == Navigate(v, tokens).value
    decreases |tokens|
  {
    trail := [v];
    if tokens != [] {
      var child := Lookup(v.fields, Name(tokens[0])).value;
      StepIsLookup(v, tokens[0], child);
      var rest := NavigatedIsWalk(child, tokens[1..]);
      trail := [v] + rest;
      forall i | 0 <= i < |tokens| ensures StepsDown(trail[i], tokens[i], trail[i + 1]) {
        if i > 0 {
          assert StepsDown(rest[i - 1], tokens[1..][i - 1], rest[i]);
        }
      }
    }
  }

  /* ---------------------------------------------------------------- where a reference leads */

  predicate IsLocal(url: Url) { url.scheme == "" && url.netloc == "" && url.query == "" }

  /** The document: the one the reference is in, or the one its path names as seen from there. */
  function Document(w: World, source: Path, url: Url): Path {
    if url.path == "" then source else w.join(source, w.unquote(url.path))
  }

  /** The place: in that document, along the fragment's tokens. */
  ghost predicate LeadsTo(w: World, source: Path, ref: string, place: Place, trail: seq<Json>) {
    var url := w.split(ref);
    && IsLocal(url) && place.path == Document(w, source, url) && w.inside(place.path) && place.path in w.files
    && Walk(trail, Tokens(w.unquote(url.fragment))) && trail[0] == w.files[place.path] && trail[|trail| - 1] == place.value
  }

  /** A reference leads exactly there. */
  lemma TargetIsDirect(w: World, source: Path, ref: string, place: Place)
    ensures Target(w, source, ref) == Ok(place) <==> exists trail :: LeadsTo(w, source, ref, place, trail)
  {
    var tokens := Tokens(w.unquote(w.split(ref).fragment));
    if trail :| LeadsTo(w, source, ref, place, trail) {
      WalkIsNavigated(trail, tokens);
    }
    if Target(w, source, ref) == Ok(place) {
      var trail := NavigatedIsWalk(w.files[place.path], tokens);
      assert LeadsTo(w, source, ref, place, trail);
    }
  }

  /** And fails for exactly one of four reasons. */
  lemma TargetErrors(w: World, source: Path, ref: string)
    ensures var url := w.split(ref);
            var path := Document(w, source, url);
            && (Target(w, source, ref) == Err(NotLocal) <==> url.scheme != "" || url.netloc != "" || url.query != "")
            && (Target(w, source, ref) == Err(Escapes) <==> IsLocal(url) && !w.inside(path))
            && (Target(w, source, ref) == Err(Unreadable) <==> IsLocal(url) && w.inside(path) && path !in w.files)
            && (Target(w, source, ref) == Err(NoSuchKey) <==> IsLocal(url) && w.inside(path) && path in w.files && NoWay(w, url, path))
            && (Target(w, source, ref).Err? ==> Target(w, source, ref).error in {NotLocal, Escapes, Unreadable, NoSuchKey})
  {
    var url := w.split(ref);
    var path, tokens := Document(w, source, url), Tokens(w.unquote(url.fragment));
    if path in w.files {
      NavigateFails(w.files[path], tokens);
      if Navigate(w.files[path], tokens).Ok? {
        var trail := NavigatedIsWalk(w.files[path], tokens);
      }
      if trail :| Walk(trail, tokens) && trail[0] == w.files[path] {
        WalkIsNavigated(trail, tokens);
      }
    }
  }

  ghost predicate NoWay(w: World, url: Url, path: Path)
    requires path in w.files
  {
    !exists trail :: Walk(trail, Tokens(w.unquote(url.fragment))) && trail[0] == w.files[path]
  }

  lemma {:induction false} NavigateFails(v: Json, tokens: seq<string>)
    ensures Navigate(v, tokens).Ok? || Navigate(v, tokens) == Err(NoSuchKey)
    decreases |tokens|
  {
    if tokens != [] && v.Obj? {
      KeysLookup(v.fields, Name(tokens[0]));
      if Lookup(v.fields, Name(tokens[0])).Ok? {
        NavigateFails(Lookup(v.fields, Name(tokens[0])).value, tokens[1..]);
      }
    }
  }

  /* ---------------------------------------------------------------- merging */

  /** The last field under a key. */
  predicate LastField(fields: seq<Field>, i: nat, key: Key) {
    i < |fields| && fields[i].key == key && forall j :: i < j < |fields| ==> fields[j].key != key
  }

  lemma {:induction false} DropLookup(fields: seq<Field>, key: Key, k: Key)
    ensures Lookup(Drop(fields, key), k) == if k == key then Err(NoSuchKey) else Lookup(fields, k)
  {
    if fields != [] {
      DropLookup(fields[1..], key, k);
      if fields[0].key == key {
        assert Drop(fields, key) == Drop(fields[1..], key);
      } else {
        assert Drop(fields, key)[1..] == Drop(fields[1..], key);
      }
    }
  }

  lemma {:induction false} PutLookup(fields: seq<Field>, f: Field, k: Key)
    ensures Lookup(Put(fields, f), k) == if k == f.key then Ok(f.value) else Lookup(fields, k)
  {
    if fields != [] {
      if fields[0].key == f.key {
        DropLookup(fields[1..], f.key, k);
        assert Put(fields, f)[1..] == Drop(fields[1..], f.key);
      } else {
        PutLookup(fields[1..], f, k);
        assert Put(fields, f)[1..] == Put(fields[1..], f);
      }
    }
  }

  /** Each key has the value last put there, or else the one it had. */
  lemma {:induction false} PutAllLookup(fields: seq<Field>, more: seq<Field>, k: Key)
    ensures !HasKey(more, k) ==> Lookup(PutAll(fields, more), k) == Lookup(fields, k)
    ensures forall i: nat :: LastField(more, i, k) ==> Lookup(PutAll(fields, more), k) == Ok(more[i].value)
    decreases |more|
  {
    if more != [] {
      PutAllLookup(Put(fields, more[0]), more[1..], k);
      PutLookup(fields, more[0], k);
      if i :| FirstField(more[1..], i, k) {
        LaterHasKey(more, i, k);
      }
      forall i: nat | LastField(more, i, k) ensures if i == 0 then !HasKey(more[1..], k) else LastField(more[1..], i - 1, k) {
        assert i > 0 ==> more[1..][i - 1] == more[i];
      }
      if more[0].key == k {
        assert FirstField(more, 0, k);
      }
    }
  }

  lemma HasKeyAt(fields: seq<Field>, i: nat)
    requires i < |fields|
    ensures HasKey(fields, fields[i].key)
  {
    KeysLookup(fields, fields[i].key);
    assert Keys(fields)[i] in Keys(fields);
    LookupIff(fields, fields[i].key);
  }

  lemma LaterHasKey(fields: seq<Field>, i: nat, k: Key)
    requires fields != [] && FirstField(fields[1..], i, k)
    ensures HasKey(fields, k) && !LastField(fields, 0, k)
  {
    HasKeyAt(fields, i + 1);
    assert fields[i + 1].key == k;
  }

  predicate Unique(keys: seq<Key>) { forall i, j :: 0 <= i < j < |keys| ==> keys[i] != keys[j] }

  /** The keys that come new to a mapping, in their order. */
  function NewKeys(keys: seq<Key>, more: seq<Key>): seq<Key>
    decreases |more|
  {
    if more == [] then []
    else if more[0] in keys then NewKeys(keys, more[1..])
    else [more[0]] + NewKeys(keys + [more[0]], more[1..])
  }

  lemma {:induction false} DropAbsent(keys: seq<Key>, key: Key)
    requires key !in keys
    ensures DropKey(keys, key) == keys
  {
    if keys != [] {
      DropAbsent(keys[1..], key);
    }
  }

  lemma {:induction false} PutKeyOrder(keys: seq<Key>, key: Key)
    requires Unique(keys)
    ensures PutKey(keys, key) == if key in keys then keys else keys + [key]
  {
    if keys != [] {
      if keys[0] == key {
        DropAbsent(keys[1..], key);
      } else {
        PutKeyOrder(keys[1..], key);
      }
    }
  }

  lemma Regroup(keys: seq<Key>, key: Key, rest: seq<Key>)
    ensures keys + [key] + rest == keys + ([key] + rest)
  {
  }

  lemma StaysUnique(keys: seq<Key>, key: Key)
    requires Unique(keys) && key !in keys
    ensures Unique(keys + [key])
  {
  }

  lemma {:induction false} PutKeysOrder(keys: seq<Key>, more: seq<Key>)
    requires Unique(keys)
    ensures PutKeys(keys, more) == keys + NewKeys(keys, more)
    decreases |more|
  {
    if more != [] {
      PutKeyOrder(keys, more[0]);
      if more[0] in keys {
        PutKeysOrder(keys, more[1..]);
      } else {
        var longer := keys + [more[0]];
        StaysUnique(keys, more[0]);
        PutKeysOrder(longer, more[1..]);
        Regroup(keys, more[0], NewKeys(longer, more[1..]));
      }
    }
  }

  /** One mapping laid over another: each key has the upper one's last value, or else the lower one's; the lower one's
      keys keep their places and new ones follow. */
  ghost predicate Overlays(base: seq<Field>, over: seq<Field>, out: seq<Field>) {
    && (forall k :: OverlaysAt(base, over, out, k))
    && (Unique(Keys(base)) ==> Keys(out) == Keys(base) + NewKeys(Keys(base), Keys(over)))
  }

  ghost predicate OverlaysAt(base: seq<Field>, over: seq<Field>, out: seq<Field>, k: Key) {
    if HasKey(over, k) then exists i: nat :: LastField(over, i, k) && Lookup(out, k) == Ok(over[i].value)
    else Lookup(out, k) == Lookup(base, k)
  }

  lemma {:induction false} HasLast(fields: seq<Field>, i: nat, k: Key) returns (last: nat)
    requires i < |fields| && fields[i].key == k
    ensures LastField(fields, last, k)
    decreases |fields| - i
  {
    last := i;
    if j: nat :| i < j < |fields| && fields[j].key == k {
      last := HasLast(fields, j, k);
    }
  }

  lemma PutAllOverlays(fields: seq<Field>, more: seq<Field>)
    ensures Overlays(fields, more, PutAll(fields, more))
  {
    forall k ensures OverlaysAt(fields, more, PutAll(fields, more), k) {
      PutAllLookup(fields, more, k);
      if i :| FirstField(more, i, k) {
        var last := HasLast(more, i, k);
      }
    }
    KeysOfPutAll(fields, more);
    if Unique(Keys(fields)) {
      PutKeysOrder(Keys(fields), Keys(more));
    }
  }

  /** A text or a scalar as a key. */
  predicate IsKey(v: Json, key: Key) {
    (v.Str? && key == Name(v.s)) || (v.Leaf? && key == Scalar(v.text, v.falsy))
  }

  /** Anything that yields two things is a key and a value: a list its items, a text its characters, a mapping its keys. */
  predicate IsPair(v: Json, f: Field) {
    || (v.Arr? && |v.items| == 2 && IsKey(v.items[0], f.key) && f.value == v.items[1])
    || (v.Str? && |v.s| == 2 && f == Field(Name(v.s[..1]), Str(v.s[1..])))
    || (v.Obj? && |v.fields| == 2 && f.key == v.fields[0].key && IsKey(f.value, v.fields[1].key))
  }

  predicate ArePairs(items: seq<Json>, pairs: seq<Field>) {
    |pairs| == |items| && forall i :: 0 <= i < |items| ==> IsPair(items[i], pairs[i])
  }

  /** What dict() makes of a value. */
  ghost predicate IsDict(v: Json, fields: seq<Field>) {
    match v
    case Obj(own) => fields == own
    case Arr(items) => exists pairs :: ArePairs(items, pairs) && Overlays([], pairs, fields)
    case Str(text) => text == "" && fields == []
    case Leaf(_, _) => false
  }

  lemma PairIsPair(v: Json)
    requires PairOf(v).Ok?
    ensures IsPair(v, PairOf(v).value)
  {
    if v.Str? {
      assert v.s[..1] == [v.s[0]] && v.s[1..] == [v.s[1]];
    }
  }

  lemma {:induction false} PairsArePairs(items: seq<Json>)
    requires PairsToFields(items).Ok?
    ensures ArePairs(items, PairsToFields(items).value)
  {
    if items != [] {
      PairIsPair(items[0]);
      PairsArePairs(items[1..]);
    }
  }

  lemma MappingIsDict(v: Json)
    requires AsMapping(v).Ok?
    ensures IsDict(v, AsMapping(v).value)
  {
    if v.Arr? {
      PairsArePairs(v.items);
      PutAllOverlays([], PairsToFields(v.items).value);
    }
  }

  /** A reference beside nothing but a description or a summary is its target with those laid over it; beside anything
      else both are kept, as the two parts of an allOf. */
  ghost predicate Merges(resolved: Json, siblings: seq<Field>, r: Json) {
    if forall i :: 0 <= i < |siblings| ==> siblings[i].key == Name("description") || siblings[i].key == Name("summary")
    then r.Obj? && exists base :: IsDict(resolved, base) && Overlays(base, siblings, r.fields)
    else r == Obj([Field(Name("allOf"), Arr([resolved, Obj(siblings)]))])
  }

  lemma CombineMerges(resolved: Json, siblings: seq<Field>)
    requires Combine(resolved, siblings).Ok?
    ensures Merges(resolved, siblings, Combine(resolved, siblings).value)
  {
    if Descriptive(siblings) {
      MappingIsDict(resolved);
      PutAllOverlays(AsMapping(resolved).value, siblings);
    }
  }

  /* ---------------------------------------------------------------- the meaning of a document */

  /** The text of a reference: a text, or nothing for a value that Python takes for false. */
  predicate RefersBy(fields: seq<Field>, i: nat, ref: string) {
    && FirstField(fields, i, Name("$ref"))
    && (fields[i].value == Str(ref) || (fields[i].value.Leaf? && fields[i].value.falsy && ref == ""))
  }

  /** How the parts of a resolved reference come about: where it leads, what is there, resolved as part of its own
      document, and the other fields, resolved as part of this one. */
  datatype Parts = Parts(i: nat, ref: string, place: Place, trail: seq<Json>, resolved: Json, siblings: seq<Field>)

  /** What a value means: lists and mappings item by item and in order, everything else itself, and references by
      following at most so many inside one another. */
  ghost predicate Means(w: World, depth: nat, node: Json, source: Path, r: Json)
    decreases depth, node, 1
  {
    match node
    case Arr(items) =>
      r.Arr? && |r.items| == |items| && forall i :: 0 <= i < |items| ==> Means(w, depth, items[i], source, r.items[i])
    case Obj(fields) =>
      if HasKey(fields, Name("$ref")) then exists parts :: MergedFrom(w, depth, node, source, parts, r)
      else r.Obj? && FieldsMean(w, depth, fields, source, r.fields)
    case _ => r == node
  }

  ghost predicate MergedFrom(w: World, depth: nat, node: Json, source: Path, parts: Parts, r: Json)
    requires node.Obj?
    decreases depth, node, 0
  {
    && RefersBy(node.fields, parts.i, parts.ref) && LeadsTo(w, source, parts.ref, parts.place, parts.trail)
    && depth > 0 && Means(w, depth - 1, parts.place.value, parts.place.path, parts.resolved)
    && FieldsMean(w, depth, node.fields, source, parts.siblings)
    && Merges(parts.resolved, parts.siblings, r)
  }

  /** Every field but the reference, in order, under its own key. */
  ghost predicate FieldsMean(w: World, depth: nat, fields: seq<Field>, source: Path, out: seq<Field>)
    decreases depth, fields, 0
  {
    if fields == [] then out == []
    else if fields[0].key == Name("$ref") then FieldsMean(w, depth, fields[1..], source, out)
    else
      assert fields[0].value < fields[0];
      && out != [] && out[0].key == fields[0].key && Means(w, depth, fields[0].value, source, out[0].value)
      && FieldsMean(w, depth, fields[1..], source, out[1..])
  }

  /** What resolution yields is what the document means. */
  lemma {:induction false} ResolvedMeans(w: World, fuel: nat, node: Json, source: Path)
    requires Resolve(w, fuel, node, source).Ok?
    ensures Means(w, fuel, node, source, Resolve(w, fuel, node, source).value)
    decreases fuel, node, 1
  {
    match node
    case Arr(items) =>
      ItemsKept(w, fuel, items, source);
      var out := ResolveItems(w, fuel, items, source).value;
      forall i | 0 <= i < |items| ensures Means(w, fuel, items[i], source, out[i]) {
        ResolvedMeans(w, fuel, items[i], source);
      }
    case Obj(fields) =>
      LookupIff(fields, REF);
      if REF in Keys(fields) {
        ReferenceMeans(w, fuel, node, source);
      } else {
        ResolvedFieldsMean(w, fuel, fields, source);
      }
    case _ =>
  }

  lemma {:induction false} ReferenceMeans(w: World, fuel: nat, node: Json, source: Path)
    requires node.Obj? && REF in Keys(node.fields) && Resolve(w, fuel, node, source).Ok?
    ensures exists parts :: MergedFrom(w, fuel, node, source, parts, Resolve(w, fuel, node, source).value)
    decreases fuel, node, 0
  {
    var ref := ReferenceOf(node.fields).value;
    var i := LookupFinds(node.fields, REF);
    LookupFindsFirst(node.fields, i, REF);
    var place := Target(w, source, ref).value;
    TargetIsDirect(w, source, ref, place);
    var trail :| LeadsTo(w, source, ref, place, trail);
    ResolvedMeans(w, fuel - 1, place.value, place.path);
    ResolvedFieldsMean(w, fuel, node.fields, source);
    var parts := Parts(i, ref, place, trail, Resolve(w, fuel - 1, place.value, place.path).value, ResolveFields(w, fuel, node.fields, source).value);
    CombineMerges(parts.resolved, parts.siblings);
    assert MergedFrom(w, fuel, node, source, parts, Resolve(w, fuel, node, source).value);
  }

  lemma {:induction false} ResolvedFieldsMean(w: World, fuel: nat, fields: seq<Field>, source: Path)
    requires ResolveFields(w, fuel, fields, source).Ok?
    ensures FieldsMean(w, fuel, fields, source, ResolveFields(w, fuel, fields, source).value)
    decreases fuel, fields, 0
  {
    if fields != [] {
      if fields[0].key != REF {
        assert fields[0].value < fields[0];
        ResolvedMeans(w, fuel, fields[0].value, source);
        var out := ResolveFields(w, fuel, fields, source).value;
        assert out[1..] == ResolveFields(w, fuel, fields[1..], source).value;
      }
      ResolvedFieldsMean(w, fuel, fields[1..], source);
    }
  }
}
