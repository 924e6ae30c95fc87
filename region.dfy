/**
 * The region registry: a fixed two-way table between 27 integer IDs and the regions'
 * display names, as the alert channel spells them.
 */
module Region {
  import opened Wrappers

  /** A region identifier (Go: `type ID int`). */
  type ID = int

  const Invalid: ID := 0
  const Crimea: ID := 1
  const Vinnytsia: ID := 2
  const Volyn: ID := 3
  const Dnipro: ID := 4
  const Donetsk: ID := 5
  const Zhytomyr: ID := 6
  const Zakarpattia: ID := 7
  const Zaporizhzhia: ID := 8
  const IvanoFrankivsk: ID := 9
  const Kyiv: ID := 10
  const Kirovohrad: ID := 11
  const Luhansk: ID := 12
  const Lviv: ID := 13
  const Mykolaiv: ID := 14
  const Odesa: ID := 15
  const Poltava: ID := 16
  const Rivne: ID := 17
  const Sumy: ID := 18
  const Ternopil: ID := 19
  const Kharkiv: ID := 20
  const Kherson: ID := 21
  const Khmelnytskyi: ID := 22
  const Cherkasy: ID := 23
  const Chernivtsi: ID := 24
  const Chernihiv: ID := 25
  const KyivCity: ID := 26
  const SevastopolCity: ID := 27

  /** The region names in ID order: the name of ID `i` is `Names[i - 1]`. */
  const Names: seq<string> := [
    "Автономна Республіка Крим",
    "Вінницька область",
    "Волинська область",
    "Дніпропетровська область",
    "Донецька область",
    "Житомирська область",
    "Закарпатська область",
    "Запорізька область",
    "Івано-Франківська область",
    "Київська область",
    "Кіровоградська область",
    "Луганська область",
    "Львівська область",
    "Миколаївська область",
    "Одеська область",
    "Полтавська область",
    "Рівненська область",
    "Сумська область",
    "Тернопільська область",
    "Харківська область",
    "Херсонська область",
    "Хмельницька область",
    "Черкаська область",
    "Чернівецька область",
    "Чернігівська область",
    "м. Київ",
    "м. Севастополь"
  ]

  /** The registry proper: every registered ID and its name. */
  const NamesById: map<ID, string> := map id | 1 <= id <= 27 :: Names[id - 1]

  /** The integers from `lo` up to but not including `hi`. */
  function Range(lo: int, hi: int): (s: set<int>)
    ensures forall x :: x in s <==> lo <= x < hi
    ensures lo <= hi ==> |s| == hi - lo
    decreases hi - lo
  {
    if lo >= hi then {} else {lo} + Range(lo + 1, hi)
  }

  lemma RangeRegistered()
    ensures forall id | 1 <= id <= 27 :: id in NamesById
  {
  }

  lemma RegisteredInRange()
    ensures forall id | id in NamesById :: 1 <= id <= 27
  {
  }

  /**
   * Whether an integer is a registered ID, as a range test: the same set as the keys of
   * `NamesById` (`IsRegisteredInTable`), but cheaper for the solver than unfolding the table.
   */
  predicate IsRegistered(id: ID) {
    1 <= id <= 27
  }

  /** `IsRegistered` says exactly which IDs the table holds. */
  lemma IsRegisteredInTable(id: ID)
    ensures IsRegistered(id) <==> id in NamesById
  {
    RangeRegistered();
    RegisteredInRange();
  }

  /** `Invalid` is never a registered ID. */
  lemma InvalidUnregistered()
    ensures Invalid !in NamesById
  {
  }

  /** The registered IDs are exactly 1 through 27. */
  lemma RegisteredIds()
    ensures NamesById.Keys == Range(1, 28)
  {
    RangeRegistered();
    RegisteredInRange();
  }

  /** A name's length and first two letters, which tell the registered names apart. */
  ghost function Signature(name: string): (int, char, char)
    requires |name| >= 2
  {
    (|name|, name[0], name[1])
  }

  /** The signatures of `Names`, in ID order. */
  ghost const Signatures: seq<(int, char, char)> := [
    (25, 'А', 'в'),
    (17, 'В', 'і'),
    (17, 'В', 'о'),
    (24, 'Д', 'н'),
    (16, 'Д', 'о'),
    (19, 'Ж', 'и'),
    (20, 'З', 'а'),
    (18, 'З', 'а'),
    (25, 'І', 'в'),
    (16, 'К', 'и'),
    (22, 'К', 'і'),
    (17, 'Л', 'у'),
    (17, 'Л', 'ь'),
    (20, 'М', 'и'),
    (15, 'О', 'д'),
    (18, 'П', 'о'),
    (18, 'Р', 'і'),
    (15, 'С', 'у'),
    (21, 'Т', 'е'),
    (18, 'Х', 'а'),
    (18, 'Х', 'е'),
    (19, 'Х', 'м'),
    (17, 'Ч', 'е'),
    (19, 'Ч', 'е'),
    (20, 'Ч', 'е'),
    (7, 'м', '.'),
    (14, 'м', '.')
  ]

  lemma SignaturesOfNames()
    ensures forall i | 0 <= i < 27 :: |Names[i]| >= 2 && Signature(Names[i]) == Signatures[i]
  {
  }

  lemma SignaturesDistinct()
    ensures forall i, j | 0 <= i < j < 27 :: Signatures[i] != Signatures[j]
  {
  }

  /** No two IDs share a name, so the name-to-ID table built at start-up is well defined. */
  lemma NamesInjective()
    ensures forall a, b | a in NamesById && b in NamesById && a != b :: NamesById[a] != NamesById[b]
  {
    SignaturesOfNames();
    SignaturesDistinct();
    forall a, b | a in NamesById && b in NamesById && a != b
      ensures NamesById[a] != NamesById[b]
    {
      if a < b {
        assert Signatures[a - 1] != Signatures[b - 1];
      } else {
        assert Signatures[b - 1] != Signatures[a - 1];
      }
    }
  }

  /** `idsByName`: the inverse of `NamesById`. */
  function IdsByName(): (m: map<string, ID>)
    ensures m.Keys == NamesById.Values
    ensures forall id | id in NamesById :: m[NamesById[id]] == id
    ensures forall name | name in m :: m[name] in NamesById && NamesById[m[name]] == name
  {
    NamesInjective();
    map id | id in NamesById.Keys :: NamesById[id] := id
  }

  /**
   * The package's `init`: fills `idsByName` from `NamesById`. Go ranges over the map in an
   * unspecified order; this visits the IDs in ascending order, and the table it builds does
   * not depend on the order because no two IDs share a name.
   */
  method BuildIdsByName() returns (idsByName: map<string, ID>)
    ensures idsByName == IdsByName()
  {
    NamesInjective();
    idsByName := map[];
    for id := 1 to 28
      invariant forall k | 1 <= k < id :: NamesById[k] in idsByName && idsByName[NamesById[k]] == k
      invariant forall name | name in idsByName :: 1 <= idsByName[name] < id && NamesById[idsByName[name]] == name
    {
      idsByName := idsByName[NamesById[id] := id];
    }
    InverseIsIdsByName(idsByName);
  }

  /** A table that inverts `NamesById` in both directions is `IdsByName()`. */
  lemma InverseIsIdsByName(m: map<string, ID>)
    requires forall id | id in NamesById :: NamesById[id] in m && m[NamesById[id]] == id
    requires forall name | name in m :: m[name] in NamesById && NamesById[m[name]] == name
    ensures m == IdsByName()
  {
    var inverse := IdsByName();
    assert m.Keys == inverse.Keys;
    assert forall name | name in m :: m[name] == inverse[name];
  }

  /** `Parse`: the ID of a region name, or `Invalid` and an error for a name not in the table. */
  function Parse(name: string): (r: Result<ID>)
    ensures r.Ok() <==> name in NamesById.Values
    ensures r.Ok() ==> r.value in NamesById && NamesById[r.value] == name
    ensures !r.Ok() ==> r.value == Invalid && r.err == Some(UnknownName(name))
  {
    var idsByName := IdsByName();
    if name in idsByName then Result(idsByName[name], None)
    else Result(Invalid, Some(UnknownName(name)))
  }

  /** `Count`: the number of registered regions. */
  function Count(): (n: int)
    ensures n == 27
  {
    RegisteredIds();
    |NamesById|
  }

  /** `ID.String`: the name of a registered ID, and "" for any other integer. */
  function String(id: ID): (name: string)
    ensures id in NamesById ==> name == NamesById[id]
    ensures id !in NamesById ==> name == ""
  {
    if id in NamesById then NamesById[id] else ""
  }

  /** Every registered ID survives the trip through its name. */
  lemma ParseOfString(id: ID)
    requires id in NamesById
    ensures Parse(String(id)) == Result(id, None)
  {
  }

  /** Every name `Parse` accepts is the `String` of the ID it returns. */
  lemma StringOfParse(name: string)
    requires Parse(name).Ok()
    ensures String(Parse(name).value) == name
  {
  }

  /** The name of an unregistered ID is "", which is no region's name. */
  lemma StringOfUnregistered(id: ID)
    requires id !in NamesById
    ensures String(id) == ""
    ensures Parse(String(id)) == Result(Invalid, Some(UnknownName("")))
  {
    assert "" !in NamesById.Values;
  }

  /** An order Go's map iteration over `table` may take: every key exactly once. */
  predicate IsOrderOf(order: seq<ID>, table: map<ID, string>) {
    && (forall i | 0 <= i < |order| :: order[i] in table)
    && (forall i, j | 0 <= i < j < |order| :: order[i] != order[j])
    && (forall id | id in table :: id in order)
  }

  /**
   * `Iterator`, driven to its end: `visit` (Go's yield) is called on the (id, name) pairs of
   * the table in the iteration order `order`, until it returns false or the table is
   * exhausted. The result lists the IDs `visit` was called with, in call order.
   */
  method Iterate(order: seq<ID>, visit: (ID, string) -> bool) returns (visited: seq<ID>)
    requires IsOrderOf(order, NamesById)
    ensures visited <= order
    ensures forall i | 0 <= i < |visited| :: visited[i] in NamesById
    ensures forall i, j | 0 <= i < j < |visited| :: visited[i] != visited[j]
    ensures forall i | 0 <= i < |visited| - 1 :: visit(visited[i], NamesById[visited[i]])
    ensures visited == order || (visited != [] && !visit(visited[|visited| - 1], NamesById[visited[|visited| - 1]]))
    ensures (forall id | id in NamesById :: visit(id, NamesById[id])) ==> forall id | id in NamesById :: id in visited
  {
    visited := IterateTable(NamesById, order, visit);
  }

  /** The loop of `Iterate`, over any table. */
  method IterateTable(table: map<ID, string>, order: seq<ID>, visit: (ID, string) -> bool) returns (visited: seq<ID>)
    requires IsOrderOf(order, table)
    ensures visited <= order
    ensures forall i | 0 <= i < |visited| :: visited[i] in table
    ensures forall i, j | 0 <= i < j < |visited| :: visited[i] != visited[j]
    ensures forall i | 0 <= i < |visited| - 1 :: visit(visited[i], table[visited[i]])
    ensures visited == order || (visited != [] && !visit(visited[|visited| - 1], table[visited[|visited| - 1]]))
    ensures (forall id | id in table :: visit(id, table[id])) ==> forall id | id in table :: id in visited
  {
    visited := [];
    for i := 0 to |order|
      invariant visited == order[..i]
      invariant forall k | 0 <= k < i :: visit(order[k], table[order[k]])
    {
      visited := visited + [order[i]];
      if !visit(order[i], table[order[i]]) {
        return;
      }
    }
  }

  /** Ascending ID order is one of the orders `Iterate` may take. */
  lemma AscendingIsIterationOrder()
    ensures IsOrderOf(seq(27, i => i + 1), NamesById)
  {
    var order := seq(27, i => i + 1);
    RangeRegistered();
    RegisteredInRange();
    forall id | id in NamesById
      ensures id in order
    {
      assert order[id - 1] == id;
    }
  }

  /** A name that is not in the table is rejected; here the one the repository's tests use. */
  lemma ParseUnknownName()
    ensures Parse("Курська Народна Республіка") == Result(Invalid, Some(UnknownName("Курська Народна Республіка")))
  {
  }
}
