/** Key-case conversion of JSON trees at the API boundary: `keysToSnake` and `keysToCamel`. */
module CaseTransform {
  import opened Text

  /** `key.replace(/[A-Z]/g, ch => "_" + ch.toLowerCase())`. */
  function ToSnake(key: string): string {
    if key == "" then ""
    else if IsUpper(key[0]) then ['_', ToLower(key[0])] + ToSnake(key[1..])
    else [key[0]] + ToSnake(key[1..])
  }

  predicate Hump(key: string) { |key| >= 2 && key[0] == '_' && IsLower(key[1]) }

  /** `key.replace(/_([a-z])/g, (_, ch) => ch.toUpperCase())`. */
  function ToCamel(key: string): string {
    if key == "" then ""
    else if Hump(key) then [ToUpper(key[1])] + ToCamel(key[2..])
    else [key[0]] + ToCamel(key[1..])
  }

  /** No uppercase ASCII letter. */
  predicate NoUpper(key: string) { forall i | 0 <= i < |key| :: !IsUpper(key[i]) }

  /** No underscore followed by a lowercase ASCII letter. */
  predicate NoHump(key: string) { forall i | 0 <= i < |key| - 1 :: !(key[i] == '_' && IsLower(key[i + 1])) }

  lemma {:induction false} SnakeHasNoUpper(key: string)
    ensures NoUpper(ToSnake(key))
  {
    if key != "" { SnakeHasNoUpper(key[1..]); }
  }

  lemma {:induction false} CamelHasNoHump(key: string)
    ensures NoHump(ToCamel(key))
    ensures ToCamel(key) != "" && IsLower(ToCamel(key)[0]) ==> key[0] == ToCamel(key)[0]
    ensures key != "" ==> ToCamel(key) != ""
  {
    if key == "" {
    } else if Hump(key) {
      CamelHasNoHump(key[2..]);
    } else {
      CamelHasNoHump(key[1..]);
    }
  }

  lemma SnakeCons(c: char, rest: string)
    ensures ToSnake([c] + rest) == (if IsUpper(c) then ['_', ToLower(c)] else [c]) + ToSnake(rest)
  {
    assert ([c] + rest)[1..] == rest;
  }

  lemma {:induction false} SnakeOfCamel(key: string)
    requires NoUpper(key)
    ensures ToSnake(ToCamel(key)) == key
  {
    if key == "" {
    } else if Hump(key) {
      SnakeOfCamel(key[2..]);
      CaseInverse(key[1]);
      SnakeCons(ToUpper(key[1]), ToCamel(key[2..]));
      assert key == ['_', key[1]] + key[2..];
    } else {
      SnakeOfCamel(key[1..]);
      SnakeCons(key[0], ToCamel(key[1..]));
      assert key == [key[0]] + key[1..];
    }
  }

  lemma CamelOfHump(c: char, rest: string)
    requires IsLower(c)
    ensures ToCamel(['_', c] + rest) == [ToUpper(c)] + ToCamel(rest)
  {
    assert (['_', c] + rest)[2..] == rest;
  }

  lemma CamelCons(c: char, rest: string)
    requires !Hump([c] + rest)
    ensures ToCamel([c] + rest) == [c] + ToCamel(rest)
  {
    assert ([c] + rest)[1..] == rest;
  }

  lemma {:induction false} CamelOfSnake(key: string)
    requires NoHump(key)
    ensures ToCamel(ToSnake(key)) == key
  {
    if key == "" {
    } else {
      assert forall i | 0 <= i < |key| - 1 :: key[1..][i] == key[i + 1];
      CamelOfSnake(key[1..]);
      var tail := ToSnake(key[1..]);
      assert key == [key[0]] + key[1..];
      if IsUpper(key[0]) {
        CaseInverse(key[0]);
        CamelOfHump(ToLower(key[0]), tail);
      } else {
        if |key| > 1 { assert tail[0] == if IsUpper(key[1]) then '_' else key[1]; }
        CamelCons(key[0], tail);
      }
    }
  }

  /** A key comes back from camel case exactly when it has no uppercase letter. */
  lemma SnakeCamelKeyIff(key: string)
    ensures ToSnake(ToCamel(key)) == key <==> NoUpper(key)
  {
    SnakeHasNoUpper(ToCamel(key));
    if NoUpper(key) { SnakeOfCamel(key); }
  }

  /** A key comes back from snake case exactly when no underscore is followed by a lowercase letter. */
  lemma CamelSnakeKeyIff(key: string)
    ensures ToCamel(ToSnake(key)) == key <==> NoHump(key)
  {
    CamelHasNoHump(ToSnake(key));
    if NoHump(key) { CamelOfSnake(key); }
  }

  // ------------------------------------------------------------------ trees

  /** Everything that is neither an array nor a plain object; `Other` stands for a Date, a Map and the like. */
  datatype Scalar = Null | Bool(b: bool) | Number(n: real) | Text(s: string) | Other(id: int)

  datatype Entry = Entry(key: string, value: Json)

  /** An object keeps its entries in insertion order. */
  datatype Json = Leaf(scalar: Scalar) | Arr(items: seq<Json>) | Obj(entries: seq<Entry>)

  /** `out[key] = value`: an existing key keeps its place. */
  function Put(out: seq<Entry>, key: string, value: Json): seq<Entry> {
    if out == [] then [Entry(key, value)]
    else if out[0].key == key then [Entry(key, value)] + out[1..]
    else [out[0]] + Put(out[1..], key, value)
  }

  /** The tree with every key of every object renamed by `f`. */
  function Rename(f: string -> string, v: Json): Json
    decreases v, 0
  {
    match v
    case Leaf(_) => v
    case Arr(items) => Arr(RenameItems(f, items))
    case Obj(entries) => Obj(RenameInto(f, entries, []))
  }

  function RenameItems(f: string -> string, items: seq<Json>): seq<Json>
    decreases items, 1
  {
    if items == [] then [] else [Rename(f, items[0])] + RenameItems(f, items[1..])
  }

  function RenameInto(f: string -> string, entries: seq<Entry>, out: seq<Entry>): seq<Entry>
    decreases entries, 1
  {
    if entries == [] then out
    else RenameInto(f, entries[1..], Put(out, f(entries[0].key), Rename(f, entries[0].value)))
  }

  /** `p` holds of every key at every depth. */
  predicate AllKeys(p: string -> bool, v: Json)
    decreases v, 0
  {
    match v
    case Leaf(_) => true
    case Arr(items) => forall i | 0 <= i < |items| :: AllKeys(p, items[i])
    case Obj(entries) => forall i | 0 <= i < |entries| :: p(entries[i].key) && AllKeys(p, entries[i].value)
  }

  predicate DistinctKeys(entries: seq<Entry>) {
    forall i, j | 0 <= i < j < |entries| :: entries[i].key != entries[j].key
  }

  /** Sibling keys differ, at every depth: what a JavaScript object guarantees. */
  predicate WellFormed(v: Json)
    decreases v, 0
  {
    match v
    case Leaf(_) => true
    case Arr(items) => forall i | 0 <= i < |items| :: WellFormed(items[i])
    case Obj(entries) => DistinctKeys(entries) && forall i | 0 <= i < |entries| :: WellFormed(entries[i].value)
  }

  lemma {:induction false} PutFresh(out: seq<Entry>, key: string, value: Json)
    requires forall i | 0 <= i < |out| :: out[i].key != key
    ensures Put(out, key, value) == out + [Entry(key, value)]
  {
    if out != [] {
      PutFresh(out[1..], key, value);
      assert out == [out[0]] + out[1..];
    }
  }

  /** The entries renamed one by one, as they come out when no two keys collide. */
  function Renamed(f: string -> string, entries: seq<Entry>): seq<Entry> {
    if entries == [] then []
    else [Entry(f(entries[0].key), Rename(f, entries[0].value))] + Renamed(f, entries[1..])
  }

  lemma {:induction false} RenamedAt(f: string -> string, entries: seq<Entry>, i: nat)
    requires i < |entries|
    ensures |Renamed(f, entries)| == |entries|
    ensures Renamed(f, entries)[i] == Entry(f(entries[i].key), Rename(f, entries[i].value))
  {
    if i > 0 { RenamedAt(f, entries[1..], i - 1); }
    else if |entries| > 1 { RenamedAt(f, entries[1..], 0); }
  }

  lemma RenameIntoStep(f: string -> string, entries: seq<Entry>, out: seq<Entry>)
    requires entries != [] && forall i | 0 <= i < |out| :: out[i].key != f(entries[0].key)
    ensures var e := Entry(f(entries[0].key), Rename(f, entries[0].value));
            && RenameInto(f, entries, out) == RenameInto(f, entries[1..], out + [e])
            && Renamed(f, entries) == [e] + Renamed(f, entries[1..])
  {
    PutFresh(out, f(entries[0].key), Rename(f, entries[0].value));
  }

  /** The keys of `out` stay clear of the keys to come. */
  predicate Clear(f: string -> string, entries: seq<Entry>, out: seq<Entry>) {
    forall i, j | 0 <= i < |out| && 0 <= j < |entries| :: out[i].key != f(entries[j].key)
  }

  lemma ClearStep(f: string -> string, entries: seq<Entry>, out: seq<Entry>, e: Entry)
    requires entries != [] && Apart(f, entries) && Clear(f, entries, out) && e.key == f(entries[0].key)
    ensures Apart(f, entries[1..]) && Clear(f, entries[1..], out + [e])
  {
  }

  /** Without collisions the loop over the entries keeps them all, in order. */
  lemma {:induction false} RenameIntoNoCollision(f: string -> string, entries: seq<Entry>, out: seq<Entry>)
    requires Apart(f, entries) && Clear(f, entries, out)
    ensures RenameInto(f, entries, out) == out + Renamed(f, entries)
    decreases |entries|
  {
    if entries == [] {
      assert out + [] == out;
    } else {
      var e, rest := Entry(f(entries[0].key), Rename(f, entries[0].value)), entries[1..];
      RenameIntoStep(f, entries, out);
      ClearStep(f, entries, out, e);
      hide Rename, RenameInto, Renamed, Apart, Clear;
      RenameIntoNoCollision(f, rest, out + [e]);
      assert out + [e] + Renamed(f, rest) == out + ([e] + Renamed(f, rest));
    }
  }

  lemma {:induction false} RenameItemsAt(f: string -> string, items: seq<Json>, i: nat)
    requires i < |items|
    ensures |RenameItems(f, items)| == |items| && RenameItems(f, items)[i] == Rename(f, items[i])
  {
    if i > 0 { RenameItemsAt(f, items[1..], i - 1); }
    else if |items| > 1 { RenameItemsAt(f, items[1..], 0); }
  }

  lemma RenamedLength(f: string -> string, entries: seq<Entry>)
    ensures |Renamed(f, entries)| == |entries|
  {
    if entries != [] { RenamedAt(f, entries, 0); }
  }

  lemma RenameItemsLength(f: string -> string, items: seq<Json>)
    ensures |RenameItems(f, items)| == |items|
  {
    if items != [] { RenameItemsAt(f, items, 0); }
  }

  /** `f` keeps the keys of the entries apart. */
  predicate Apart(f: string -> string, entries: seq<Entry>) {
    forall i, j | 0 <= i < j < |entries| :: f(entries[i].key) != f(entries[j].key)
  }

  lemma RenameObj(f: string -> string, entries: seq<Entry>)
    requires Apart(f, entries)
    ensures Rename(f, Obj(entries)) == Obj(Renamed(f, entries))
  {
    RenameIntoNoCollision(f, entries, []);
    assert [] + Renamed(f, entries) == Renamed(f, entries);
  }

  lemma RenamedApart(f: string -> string, g: string -> string, entries: seq<Entry>)
    requires forall i | 0 <= i < |entries| :: g(f(entries[i].key)) == entries[i].key
    requires DistinctKeys(entries)
    ensures Apart(f, entries) && Apart(g, Renamed(f, entries))
  {
    forall i, j | 0 <= i < j < |entries| ensures f(entries[i].key) != f(entries[j].key) {
      assert g(f(entries[i].key)) != g(f(entries[j].key));
    }
    var once := Renamed(f, entries);
    RenamedLength(f, entries);
    forall i, j | 0 <= i < j < |once| ensures g(once[i].key) != g(once[j].key) {
      RenamedAt(f, entries, i);
      RenamedAt(f, entries, j);
    }
  }

  /** Renaming with `f` and then with `g` gives the tree back when `g` undoes `f` on its keys. */
  lemma {:induction false} RenameBack(f: string -> string, g: string -> string, p: string -> bool, v: Json)
    requires forall k | p(k) :: g(f(k)) == k
    requires WellFormed(v) && AllKeys(p, v)
    ensures Rename(g, Rename(f, v)) == v
    decreases v, 1
  {
    match v
    case Leaf(_) =>
    case Arr(items) => RenameItemsBack(f, g, p, items);
    case Obj(entries) =>
      RenamedApart(f, g, entries);
      RenameObj(f, entries);
      RenameObj(g, Renamed(f, entries));
      RenamedBack(f, g, p, entries);
  }

  lemma {:induction false} RenameItemsBack(f: string -> string, g: string -> string, p: string -> bool,
                                           items: seq<Json>)
    requires forall k | p(k) :: g(f(k)) == k
    requires forall i | 0 <= i < |items| :: WellFormed(items[i]) && AllKeys(p, items[i])
    ensures RenameItems(g, RenameItems(f, items)) == items
    decreases items, 0
  {
    var once := RenameItems(f, items);
    RenameItemsLength(f, items);
    RenameItemsLength(g, once);
    forall i | 0 <= i < |items| ensures RenameItems(g, once)[i] == items[i] {
      RenameItemsAt(f, items, i);
      RenameItemsAt(g, once, i);
      RenameBack(f, g, p, items[i]);
    }
  }

  lemma {:induction false} RenamedBack(f: string -> string, g: string -> string, p: string -> bool, entries: seq<Entry>)
    requires forall k | p(k) :: g(f(k)) == k
    requires forall i | 0 <= i < |entries| :: p(entries[i].key)
    requires forall i | 0 <= i < |entries| :: WellFormed(entries[i].value) && AllKeys(p, entries[i].value)
    ensures Renamed(g, Renamed(f, entries)) == entries
    decreases entries, 0
  {
    var once := Renamed(f, entries);
    RenamedLength(f, entries);
    RenamedLength(g, once);
    forall i | 0 <= i < |entries| ensures Renamed(g, once)[i] == entries[i] {
      RenamedAt(f, entries, i);
      RenamedAt(g, once, i);
      RenameBack(f, g, p, entries[i].value);
    }
  }

  /** `p` holds of every key of the entries, and of every key below them. */
  predicate EntriesSatisfy(p: string -> bool, entries: seq<Entry>) {
    forall i | 0 <= i < |entries| :: p(entries[i].key) && AllKeys(p, entries[i].value)
  }

  lemma {:induction false} PutSatisfies(p: string -> bool, out: seq<Entry>, key: string, value: Json)
    requires EntriesSatisfy(p, out) && p(key) && AllKeys(p, value)
    ensures EntriesSatisfy(p, Put(out, key, value))
  {
    if out != [] && out[0].key != key { PutSatisfies(p, out[1..], key, value); }
  }

  lemma {:induction false} RenameIntoSatisfies(g: string -> string, p: string -> bool,
                                               entries: seq<Entry>, out: seq<Entry>)
    requires forall k :: p(g(k))
    requires EntriesSatisfy(p, out)
    ensures EntriesSatisfy(p, RenameInto(g, entries, out))
    decreases entries, 1
  {
    if entries != [] {
      RenameSatisfies(g, p, entries[0].value);
      PutSatisfies(p, out, g(entries[0].key), Rename(g, entries[0].value));
      RenameIntoSatisfies(g, p, entries[1..], Put(out, g(entries[0].key), Rename(g, entries[0].value)));
    }
  }

  /** Every key of a renamed tree lies in the range of the renaming. */
  lemma {:induction false} RenameSatisfies(g: string -> string, p: string -> bool, v: Json)
    requires forall k :: p(g(k))
    ensures AllKeys(p, Rename(g, v))
    decreases v, 0
  {
    match v
    case Leaf(_) =>
    case Arr(items) =>
      if items != [] { RenameItemsAt(g, items, 0); }
      forall i | 0 <= i < |items| ensures AllKeys(p, RenameItems(g, items)[i]) {
        RenameItemsAt(g, items, i);
        RenameSatisfies(g, p, items[i]);
      }
    case Obj(entries) => RenameIntoSatisfies(g, p, entries, []);
  }

  /** snake(camel(v)) gives `v` back exactly when no key at any depth has an uppercase letter. */
  lemma SnakeCamelIff(v: Json)
    requires WellFormed(v)
    ensures Rename(ToSnake, Rename(ToCamel, v)) == v <==> AllKeys(NoUpper, v)
  {
    forall k ensures NoUpper(ToSnake(k)) { SnakeHasNoUpper(k); }
    RenameSatisfies(ToSnake, NoUpper, Rename(ToCamel, v));
    if AllKeys(NoUpper, v) {
      forall k | NoUpper(k) ensures ToSnake(ToCamel(k)) == k { SnakeOfCamel(k); }
      RenameBack(ToCamel, ToSnake, NoUpper, v);
    }
  }

  /** camel(snake(v)) gives `v` back exactly when no key at any depth has a lowercase letter after an
      underscore. */
  lemma CamelSnakeIff(v: Json)
    requires WellFormed(v)
    ensures Rename(ToCamel, Rename(ToSnake, v)) == v <==> AllKeys(NoHump, v)
  {
    forall k ensures NoHump(ToCamel(k)) { CamelHasNoHump(k); }
    RenameSatisfies(ToCamel, NoHump, Rename(ToSnake, v));
    if AllKeys(NoHump, v) {
      forall k | NoHump(k) ensures ToCamel(ToSnake(k)) == k { CamelOfSnake(k); }
      RenameBack(ToSnake, ToCamel, NoHump, v);
    }
  }

  /** In the domains of the round trips no two keys collide. */
  lemma NoCollisions(k: string, k': string)
    requires k != k'
    ensures NoUpper(k) && NoUpper(k') ==> ToCamel(k) != ToCamel(k')
    ensures NoHump(k) && NoHump(k') ==> ToSnake(k) != ToSnake(k')
  {
    SnakeCamelKeyIff(k);
    SnakeCamelKeyIff(k');
    CamelSnakeKeyIff(k);
    CamelSnakeKeyIff(k');
  }

  /** Outside them they can: the two keys below become the same camel-case key. */
  lemma CollisionExample()
    ensures ToCamel("_a") == ToCamel("A")
  {
    assert ToCamel("_a") == "A" + ToCamel("");
    assert ToCamel("A") == "A" + ToCamel("");
  }

  // ------------------------------------------------------------------ the loops

  method KeysToSnake(v: Json) returns (r: Json)
    ensures r == Rename(ToSnake, v)
    decreases v
  {
    match v
    case Leaf(_) => r := v;
    case Arr(items) =>
      var mapped := [];
      for i := 0 to |items|
        invariant mapped + RenameItems(ToSnake, items[i..]) == RenameItems(ToSnake, items)
      {
        var item := KeysToSnake(items[i]);
        mapped := mapped + [item];
        assert items[i..][1..] == items[i + 1..];
      }
      r := Arr(mapped);
    case Obj(entries) =>
      var out := [];
      for i := 0 to |entries|
        invariant RenameInto(ToSnake, entries[i..], out) == RenameInto(ToSnake, entries, [])
      {
        var value := KeysToSnake(entries[i].value);
        out := Put(out, ToSnake(entries[i].key), value);
        assert entries[i..][1..] == entries[i + 1..];
      }
      r := Obj(out);
  }

  method KeysToCamel(v: Json) returns (r: Json)
    ensures r == Rename(ToCamel, v)
    decreases v
  {
    match v
    case Leaf(_) => r := v;
    case Arr(items) =>
      var mapped := [];
      for i := 0 to |items|
        invariant mapped + RenameItems(ToCamel, items[i..]) == RenameItems(ToCamel, items)
      {
        var item := KeysToCamel(items[i]);
        mapped := mapped + [item];
        assert items[i..][1..] == items[i + 1..];
      }
      r := Arr(mapped);
    case Obj(entries) =>
      var out := [];
      for i := 0 to |entries|
        invariant RenameInto(ToCamel, entries[i..], out) == RenameInto(ToCamel, entries, [])
      {
        var value := KeysToCamel(entries[i].value);
        out := Put(out, ToCamel(entries[i].key), value);
        assert entries[i..][1..] == entries[i + 1..];
      }
      r := Obj(out);
  }
}
