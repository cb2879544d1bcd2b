/** Resolving the references of the OpenAPI contract.

    `resolve` replaces every `$ref` by what it points at, in whatever document that is, keeping 3.1 siblings.
    Parsed documents are kept in a dictionary that the recursion fills.  The reference definition here reads
    every document afresh and bounds only how many references are followed inside one another, as the
    interpreter's stack does; running out of that bound is the outcome `Diverged`. */
module ContractResolver {

  import opened JsonPointer

  type Path = string

  /** A parsed YAML value.  Leaf stands for null, booleans and numbers, some of which Python takes for false.  Mappings
      keep their order, and their keys are texts or leaves. */
  datatype Json = Leaf(text: string, falsy: bool) | Str(s: string) | Arr(items: seq<Json>) | Obj(fields: seq<Field>)

  datatype Field = Field(key: Key, value: Json)

  datatype Key = Name(s: string) | Scalar(text: string, falsy: bool)

  datatype Url = Url(scheme: string, netloc: string, path: string, query: string, fragment: string)

  /** The checked-in files and the library functions that take references apart. */
  datatype World = World(files: map<Path, Json>, spec: Path, split: string -> Url, unquote: string -> string,
                         join: (Path, string) -> Path, inside: Path -> bool)

  datatype Error = NotLocal | Escapes | Unreadable | NoSuchKey | NotAReference | NotAMapping

  datatype Result<T> = Ok(value: T) | Err(error: Error) | Diverged

  datatype Place = Place(path: Path, value: Json)

  const REF: Key := Name("$ref")

  function Keys(fields: seq<Field>): (keys: seq<Key>)
    ensures |keys| == |fields|
    ensures forall i :: 0 <= i < |fields| ==> keys[i] == fields[i].key
  {
    if fields == [] then [] else [fields[0].key] + Keys(fields[1..])
  }

  function Lookup(fields: seq<Field>, key: Key): Result<Json> {
    if fields == [] then Err(NoSuchKey)
    else if fields[0].key == key then Ok(fields[0].value)
    else Lookup(fields[1..], key)
  }

  /** The text of a reference.  urlsplit takes null, zero and false for the empty text, and raises for other values
      that are not texts. */
  function ReferenceOf(fields: seq<Field>): Result<string> {
    match Lookup(fields, REF)
    case Ok(Str(ref)) => Ok(ref)
    case Ok(Leaf(_, true)) => Ok("")
    case _ => Err(NotAReference)
  }

  /** Follow the tokens through nested mappings; a list is not indexed by text. */
  function Navigate(v: Json, tokens: seq<string>): Result<Json>
    decreases |tokens|
  {
    if tokens == [] then Ok(v)
    else if !v.Obj? then Err(NoSuchKey)
    else match Lookup(v.fields, Name(tokens[0]))
      case Ok(child) => Navigate(child, tokens[1..])
      case Err(e) => Err(e)
      case Diverged => Diverged
  }

  /** The document a reference names. */
  function TargetPath(w: World, source: Path, ref: string): Result<Path> {
    var url := w.split(ref);
    if url.scheme != "" || url.netloc != "" || url.query != "" then Err(NotLocal)
    else
      var target := if url.path != "" then w.join(source, w.unquote(url.path)) else source;
      if w.inside(target) then Ok(target) else Err(Escapes)
  }

  /** What a reference in source points at, read straight from the files. */
  function Target(w: World, source: Path, ref: string): Result<Place> {
    match TargetPath(w, source, ref)
    case Err(e) => Err(e)
    case Diverged => Diverged
    case Ok(path) =>
      if path !in w.files then Err(Unreadable)
      else match Navigate(w.files[path], Tokens(w.unquote(w.split(ref).fragment)))
        case Ok(v) => Ok(Place(path, v))
        case Err(e) => Err(e)
        case Diverged => Diverged
  }

  /* ---------------------------------------------------------------- merging */

  /** A list or a mapping is not hashable, so it is no key. */
  function KeyOf(v: Json): Result<Key> {
    match v
    case Str(s) => Ok(Name(s))
    case Leaf(text, falsy) => Ok(Scalar(text, falsy))
    case _ => Err(NotAMapping)
  }

  function KeyValue(key: Key): Json { if key.Name? then Str(key.s) else Leaf(key.text, key.falsy) }

  /** What dict() makes of one element of a list: anything that yields two things is a key and a value.  A list yields
      its items, a text its characters, and a mapping its keys. */
  function PairOf(v: Json): Result<Field> {
    match v
    case Arr(items) =>
      if |items| == 2 && KeyOf(items[0]).Ok? then Ok(Field(KeyOf(items[0]).value, items[1])) else Err(NotAMapping)
    case Str(s) => if |s| == 2 then Ok(Field(Name([s[0]]), Str([s[1]]))) else Err(NotAMapping)
    case Obj(fields) => if |fields| == 2 then Ok(Field(fields[0].key, KeyValue(fields[1].key))) else Err(NotAMapping)
    case Leaf(_, _) => Err(NotAMapping)
  }

  function PairsToFields(items: seq<Json>): Result<seq<Field>> {
    if items == [] then Ok([])
    else match PairOf(items[0])
      case Err(e) => Err(e)
      case Diverged => Diverged
      case Ok(pair) =>
        match PairsToFields(items[1..])
        case Ok(rest) => Ok([pair] + rest)
        case Err(e) => Err(e)
        case Diverged => Diverged
  }

  function Drop(fields: seq<Field>, key: Key): seq<Field> {
    if fields == [] then [] else (if fields[0].key == key then [] else [fields[0]]) + Drop(fields[1..], key)
  }

  /** Assign to a key: in place where it is present, which is once in a mapping, and at the end otherwise. */
  function Put(fields: seq<Field>, f: Field): seq<Field> {
    if fields == [] then [f]
    else if fields[0].key == f.key then [f] + Drop(fields[1..], f.key)
    else [fields[0]] + Put(fields[1..], f)
  }

  function PutAll(fields: seq<Field>, more: seq<Field>): seq<Field>
    decreases |more|
  {
    if more == [] then fields else PutAll(Put(fields, more[0]), more[1..])
  }

  /** Python's dict(value): a mapping is itself, and a list of pairs becomes one, the last
      value of a repeated key winning. */
  function AsMapping(v: Json): Result<seq<Field>> {
    match v
    case Obj(fields) => Ok(fields)
    case Arr(items) =>
      (match PairsToFields(items)
       case Ok(fields) => Ok(PutAll([], fields))
       case Err(e) => Err(e)
       case Diverged => Diverged)
    case Str(text) => if text == "" then Ok([]) else Err(NotAMapping)
    case Leaf(_, _) => Err(NotAMapping)
  }

  predicate IsDescriptive(key: Key) { key == Name("description") || key == Name("summary") }

  predicate Descriptive(siblings: seq<Field>) {
    forall i :: 0 <= i < |siblings| ==> IsDescriptive(siblings[i].key)
  }

  /** A resolved reference and its resolved siblings as one value. */
  function Combine(resolved: Json, siblings: seq<Field>): Result<Json> {
    if Descriptive(siblings) then
      match AsMapping(resolved)
      case Ok(fields) => Ok(Obj(PutAll(fields, siblings)))
      case Err(e) => Err(e)
      case Diverged => Diverged
    else Ok(Obj([Field(ALL_OF, Arr([resolved, Obj(siblings)]))]))
  }

  const ALL_OF: Key := Name("allOf")

  /* ---------------------------------------------------------------- resolution without a cache */

  function Resolve(w: World, fuel: nat, node: Json, source: Path): Result<Json>
    decreases fuel, node, 1
  {
    match node
    case Arr(items) =>
      (match ResolveItems(w, fuel, items, source)
       case Ok(out) => Ok(Arr(out))
       case Err(e) => Err(e)
       case Diverged => Diverged)
    case Obj(fields) =>
      if REF in Keys(fields) then
        match ReferenceOf(fields)
        case Ok(ref) => ResolveReference(w, fuel, node, ref, source)
        case _ => Err(NotAReference)
      else
        (match ResolveFields(w, fuel, fields, source)
         case Ok(out) => Ok(Obj(out))
         case Err(e) => Err(e)
         case Diverged => Diverged)
    case _ => Ok(node)
  }

  function ResolveReference(w: World, fuel: nat, node: Json, ref: string, source: Path): Result<Json>
    requires node.Obj?
    decreases fuel, node, 0
  {
    match Target(w, source, ref)
    case Err(e) => Err(e)
    case Diverged => Diverged
    case Ok(place) =>
      if fuel == 0 then Diverged
      else match Resolve(w, fuel - 1, place.value, place.path)
        case Err(e) => Err(e)
        case Diverged => Diverged
        case Ok(resolved) =>
          match ResolveFields(w, fuel, node.fields, source)
          case Err(e) => Err(e)
          case Diverged => Diverged
          case Ok(siblings) => Combine(resolved, siblings)
  }

  function ResolveItems(w: World, fuel: nat, items: seq<Json>, source: Path): Result<seq<Json>>
    decreases fuel, items, 0
  {
    if items == [] then Ok([])
    else match Resolve(w, fuel, items[0], source)
      case Err(e) => Err(e)
      case Diverged => Diverged
      case Ok(first) =>
        match ResolveItems(w, fuel, items[1..], source)
        case Err(e) => Err(e)
        case Diverged => Diverged
        case Ok(rest) => Ok([first] + rest)
  }

  /** Every field except the reference itself. */
  function ResolveFields(w: World, fuel: nat, fields: seq<Field>, source: Path): Result<seq<Field>>
    decreases fuel, fields, 0
  {
    if fields == [] then Ok([])
    else if fields[0].key == REF then ResolveFields(w, fuel, fields[1..], source)
    else
      assert fields[0].value < fields[0];
      match Resolve(w, fuel, fields[0].value, source)
      case Err(e) => Err(e)
      case Diverged => Diverged
      case Ok(first) =>
        match ResolveFields(w, fuel, fields[1..], source)
        case Err(e) => Err(e)
        case Diverged => Diverged
        case Ok(rest) => Ok([Field(fields[0].key, first)] + rest)
  }

  /* ---------------------------------------------------------------- resolution with the documents cache */

  class ContractLoader {
    const world: World
    var documents: map<Path, Json>

    constructor (world: World)
      ensures this.world == world && Valid()
    {
      this.world, documents := world, map[];
    }

    /** Whatever is cached is what the file holds. */
    ghost predicate Valid()
      reads this
    {
      forall p :: p in documents ==> p in world.files && documents[p] == world.files[p]
    }

    method Fetch(path: Path) returns (r: Result<Json>)
      requires Valid()
      modifies this
      ensures Valid()
      ensures r == if path in world.files then Ok(world.files[path]) else Err(Unreadable)
    {
      if path !in documents {
        if path !in world.files {
          return Err(Unreadable);
        }
        documents := documents[path := world.files[path]];
      }
      r := Ok(documents[path]);
    }

    /** The recursion that shares and fills the cache gives what reading every file afresh gives. */
    method ResolveCached(fuel: nat, node: Json, source: Path) returns (r: Result<Json>)
      requires Valid()
      modifies this
      ensures Valid() && r == Resolve(world, fuel, node, source)
      decreases fuel, node, 1
    {
      match node {
        case Arr(items) =>
          var out := ItemsCached(fuel, items, source);
          r := match out case Ok(items) => Ok(Arr(items)) case Err(e) => Err(e) case Diverged => Diverged;
        case Obj(fields) =>
          if REF in Keys(fields) {
            match ReferenceOf(fields) {
              case Ok(ref) => r := ReferenceCached(fuel, node, ref, source);
              case _ => r := Err(NotAReference);
            }
          } else {
            var out := FieldsCached(fuel, fields, source);
            r := match out case Ok(fields) => Ok(Obj(fields)) case Err(e) => Err(e) case Diverged => Diverged;
          }
        case _ => r := Ok(node);
      }
    }

    method ReferenceCached(fuel: nat, node: Json, ref: string, source: Path) returns (r: Result<Json>)
      requires Valid() && node.Obj?
      modifies this
      ensures Valid() && r == ResolveReference(world, fuel, node, ref, source)
      decreases fuel, node, 0
    {
      var target := TargetPath(world, source, ref);
      if !target.Ok? {
        return if target.Err? then Err(target.error) else Diverged;
      }
      var document := Fetch(target.value);
      if !document.Ok? {
        return Err(Unreadable);
      }
      var value := Navigate(document.value, Tokens(world.unquote(world.split(ref).fragment)));
      if !value.Ok? {
        return if value.Err? then Err(value.error) else Diverged;
      }
      if fuel == 0 {
        return Diverged;
      }
      var resolved := ResolveCached(fuel - 1, value.value, target.value);
      if !resolved.Ok? {
        return resolved;
      }
      var siblings := FieldsCached(fuel, node.fields, source);
      if !siblings.Ok? {
        return if siblings.Err? then Err(siblings.error) else Diverged;
      }
      r := Combine(resolved.value, siblings.value);
    }

    method ItemsCached(fuel: nat, items: seq<Json>, source: Path) returns (r: Result<seq<Json>>)
      requires Valid()
      modifies this
      ensures Valid() && r == ResolveItems(world, fuel, items, source)
      decreases fuel, items, 0
    {
      if items == [] {
        return Ok([]);
      }
      var first := ResolveCached(fuel, items[0], source);
      if !first.Ok? {
        return if first.Err? then Err(first.error) else Diverged;
      }
      var rest := ItemsCached(fuel, items[1..], source);
      if !rest.Ok? {
        return rest;
      }
      r := Ok([first.value] + rest.value);
    }

    method FieldsCached(fuel: nat, fields: seq<Field>, source: Path) returns (r: Result<seq<Field>>)
      requires Valid()
      modifies this
      ensures Valid() && r == ResolveFields(world, fuel, fields, source)
      decreases fuel, fields, 0
    {
      if fields == [] {
        return Ok([]);
      }
      if fields[0].key == REF {
        r := FieldsCached(fuel, fields[1..], source);
        return;
      }
      assert fields[0].value < fields[0];
      var first := ResolveCached(fuel, fields[0].value, source);
      if !first.Ok? {
        return if first.Err? then Err(first.error) else Diverged;
      }
      var rest := FieldsCached(fuel, fields[1..], source);
      if !rest.Ok? {
        return rest;
      }
      r := Ok([Field(fields[0].key, first.value)] + rest.value);
    }

    /** load_contract: the specification itself is parsed outside the cache. */
    method LoadContract(fuel: nat) returns (r: Result<Json>)
      requires Valid()
      modifies this
      ensures Valid()
      ensures r == if world.spec in world.files then Resolve(world, fuel, world.files[world.spec], world.spec) else Err(Unreadable)
    {
      if world.spec !in world.files {
        return Err(Unreadable);
      }
      r := ResolveCached(fuel, world.files[world.spec], world.spec);
    }
  }
}
