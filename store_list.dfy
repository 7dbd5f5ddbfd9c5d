/** `ListSelectionView.init(units:selectionHandler:)`: the store units
    grouped by city, each group's units sorted by alias and the groups
    sorted by title.

    Swift's `String <` is modelled as lexicographic order on characters.
    The cities dictionary is walked in an unspecified order; that order is
    a parameter, and `sorted(by:)` promises only a sorted permutation, so
    the order among equal titles or equal aliases is left open. */
module StoreList {
  import opened Wrappers

  /** The fields of a `UnitModel` the list reads (`unit.id`, `alias`,
      `unit.cityID`, `unit.address.cityName`, `isSelected`). */
  datatype UnitModel = UnitModel(id: string, alias: string, cityID: string, cityName: string, isSelected: bool)

  /** `ListSelectionView.UnitGroup`. */
  datatype UnitGroup = UnitGroup(groupId: string, groupTitle: string, units: seq<UnitModel>)

  // ---------------------------------------------------------------------
  // String order

  /** `a < b` on strings: lexicographic, a proper prefix first. */
  predicate StrLt(a: string, b: string)
  {
    b != [] && (a == [] || a[0] < b[0] || (a[0] == b[0] && StrLt(a[1..], b[1..])))
  }

  lemma {:induction false} StrLtIrreflexive(a: string)
    ensures !StrLt(a, a)
  {
    if a != [] {
      StrLtIrreflexive(a[1..]);
    }
  }

  lemma {:induction false} StrLtTransitive(a: string, b: string, c: string)
    requires StrLt(a, b) && StrLt(b, c)
    ensures StrLt(a, c)
  {
    if a != [] && a[0] == b[0] && b[0] == c[0] {
      StrLtTransitive(a[1..], b[1..], c[1..]);
    }
  }

  /** Two different strings are ordered one way or the other. */
  lemma {:induction false} StrLtTotal(a: string, b: string)
    ensures a == b || StrLt(a, b) || StrLt(b, a)
  {
    if a != [] && b != [] && a[0] == b[0] {
      StrLtTotal(a[1..], b[1..]);
      if a[1..] == b[1..] {
        assert a == [a[0]] + a[1..] && b == [b[0]] + b[1..];
      }
    }
  }

  /** "not after": `!(b < a)`. */
  lemma NotAfterTransitive(a: string, b: string, c: string)
    requires !StrLt(b, a) && !StrLt(c, b)
    ensures !StrLt(c, a)
  {
    if StrLt(c, a) {
      StrLtTotal(a, b);
      if a == b {
      } else {
        StrLtTransitive(c, a, b);
      }
    }
  }

  // ---------------------------------------------------------------------
  // Sorting

  /** Ascending by `key`: no element is after a later one. */
  predicate SortedBy<T>(s: seq<T>, key: T -> string)
  {
    forall i, j :: 0 <= i < j < |s| ==> !StrLt(key(s[j]), key(s[i]))
  }

  function Insert<T>(x: T, s: seq<T>, key: T -> string): seq<T>
  {
    if s == [] || !StrLt(key(s[0]), key(x)) then [x] + s
    else [s[0]] + Insert(x, s[1..], key)
  }

  lemma {:induction false} InsertSpec<T>(x: T, s: seq<T>, key: T -> string)
    requires SortedBy(s, key)
    ensures multiset(Insert(x, s, key)) == multiset(s) + multiset{x}
    ensures SortedBy(Insert(x, s, key), key)
  {
    var r := Insert(x, s, key);
    if s == [] {
    } else if !StrLt(key(s[0]), key(x)) {
      assert r == [x] + s;
      forall j | 0 < j < |r|
        ensures !StrLt(key(r[j]), key(x))
      {
        if j > 1 {
          NotAfterTransitive(key(x), key(s[0]), key(s[j - 1]));
        }
      }
    } else {
      var rest := Insert(x, s[1..], key);
      InsertSpec(x, s[1..], key);
      assert s == [s[0]] + s[1..];
      assert r == [s[0]] + rest;
      forall j | 0 < j < |r|
        ensures !StrLt(key(r[j]), key(s[0]))
      {
        assert r[j] in multiset(rest);
        if r[j] == x {
          StrLtTotal(key(x), key(s[0]));
          if StrLt(key(x), key(s[0])) {
            StrLtTransitive(key(x), key(s[0]), key(x));
            StrLtIrreflexive(key(x));
          }
        } else {
          assert r[j] in s[1..];
        }
      }
    }
  }

  /** `sorted(by: { key($0) < key($1) })`. */
  function SortBy<T>(s: seq<T>, key: T -> string): seq<T>
  {
    if s == [] then [] else Insert(s[0], SortBy(s[1..], key), key)
  }

  /** The result is ascending and a permutation of the input. */
  lemma {:induction false} SortBySpec<T>(s: seq<T>, key: T -> string)
    ensures multiset(SortBy(s, key)) == multiset(s)
    ensures SortedBy(SortBy(s, key), key)
  {
    if s != [] {
      SortBySpec(s[1..], key);
      InsertSpec(s[0], SortBy(s[1..], key), key);
      assert s == [s[0]] + s[1..];
    }
  }

  // ---------------------------------------------------------------------
  // Cities

  /** `units.reduce(into: [:]) { $0[$1.cityID] = $1.cityName }`: a later
      unit's city name overwrites an earlier one's. */
  function Cities(units: seq<UnitModel>): map<string, string>
    decreases |units|
  {
    if units == [] then map[]
    else Cities(units[..|units| - 1])[units[|units| - 1].cityID := units[|units| - 1].cityName]
  }

  /** A city id is a key iff some unit has it; its name is that of the
      last such unit. */
  lemma {:induction false} CitiesSpec(units: seq<UnitModel>, c: string)
    ensures c in Cities(units) <==> exists i :: 0 <= i < |units| && units[i].cityID == c
    ensures c in Cities(units) ==>
      exists i :: 0 <= i < |units| && units[i].cityID == c && units[i].cityName == Cities(units)[c] &&
        forall j :: i < j < |units| ==> units[j].cityID != c
    decreases |units|
  {
    if units != [] {
      var n := |units| - 1;
      var init := units[..n];
      CitiesSpec(init, c);
      if units[n].cityID != c {
        if c in Cities(init) {
          var i :| 0 <= i < |init| && init[i].cityID == c && init[i].cityName == Cities(init)[c] &&
            forall j :: i < j < |init| ==> init[j].cityID != c;
          assert units[i] == init[i];
        }
        if exists i :: 0 <= i < |units| && units[i].cityID == c {
          var i :| 0 <= i < |units| && units[i].cityID == c;
          assert init[i] == units[i];
        }
      }
    }
  }

  /** The sort keys: a group's title, a unit's alias. */
  function Title(g: UnitGroup): string
  {
    g.groupTitle
  }

  function Alias(u: UnitModel): string
  {
    u.alias
  }

  /** The filter test for one city. */
  function InCity(c: string): UnitModel -> bool
  {
    (u: UnitModel) => u.cityID == c
  }

  /** `units.filter { $0.unit.cityID == cityId }`. */
  function UnitsOfCity(units: seq<UnitModel>, c: string): (r: seq<UnitModel>)
    ensures forall u :: u in r <==> u in units && u.cityID == c
    ensures |r| == CountWhere(units, InCity(c))
  {
    if units == [] then []
    else (if units[0].cityID == c then [units[0]] else []) + UnitsOfCity(units[1..], c)
  }

  /** A possible iteration order of the cities dictionary. */
  predicate IsCityOrder(order: seq<string>, cities: map<string, string>)
  {
    NoDuplicates(order) && (forall c :: c in order ==> c in cities) && (forall c :: c in cities ==> c in order)
  }

  /** The group built for one city. */
  function GroupOf(units: seq<UnitModel>, cities: map<string, string>, c: string): UnitGroup
    requires c in cities
  {
    UnitGroup(c, cities[c], SortBy(UnitsOfCity(units, c), Alias))
  }

  /** The groups before the final sort, in dictionary order. */
  function Unsorted(units: seq<UnitModel>, order: seq<string>): seq<UnitGroup>
    requires forall c :: c in order ==> c in Cities(units)
  {
    if order == [] then [] else [GroupOf(units, Cities(units), order[0])] + Unsorted(units, order[1..])
  }

  /** `unitGroups` for the dictionary order `order`. */
  function UnitGroups(units: seq<UnitModel>, order: seq<string>): seq<UnitGroup>
    requires IsCityOrder(order, Cities(units))
  {
    SortBy(Unsorted(units, order), Title)
  }

  lemma {:induction false} UnsortedSpec(units: seq<UnitModel>, order: seq<string>)
    requires forall c :: c in order ==> c in Cities(units)
    ensures |Unsorted(units, order)| == |order|
    ensures forall i :: 0 <= i < |order| ==> Unsorted(units, order)[i] == GroupOf(units, Cities(units), order[i])
  {
    if order != [] {
      UnsortedSpec(units, order[1..]);
    }
  }

  /** Every listed group is the group of one city of the order. */
  lemma SourceOf(units: seq<UnitModel>, order: seq<string>, g: UnitGroup) returns (p: nat)
    requires IsCityOrder(order, Cities(units))
    requires g in UnitGroups(units, order)
    ensures p < |order| && g == GroupOf(units, Cities(units), order[p])
  {
    var m := Unsorted(units, order);
    UnsortedSpec(units, order);
    SortBySpec(m, Title);
    assert g in multiset(m);
    p :| 0 <= p < |m| && m[p] == g;
  }

  /** A listed group is the group of its own city id. */
  lemma GroupIsCityGroup(units: seq<UnitModel>, order: seq<string>, g: UnitGroup)
    requires IsCityOrder(order, Cities(units))
    requires g in UnitGroups(units, order)
    ensures g.groupId in Cities(units) && g == GroupOf(units, Cities(units), g.groupId)
  {
    var p := SourceOf(units, order, g);
  }

  /** Every unit's city id is listed by the dictionary's order. */
  lemma UnitCityListed(units: seq<UnitModel>, order: seq<string>, u: UnitModel)
    requires IsCityOrder(order, Cities(units))
    requires u in units
    ensures u.cityID in order
  {
    var i :| 0 <= i < |units| && units[i] == u;
    CitiesSpec(units, u.cityID);
  }

  // ---------------------------------------------------------------------
  // What the list promises

  /** Every group's id is the city id of some unit. */
  lemma GroupHasUnits(units: seq<UnitModel>, order: seq<string>, g: UnitGroup)
    requires IsCityOrder(order, Cities(units))
    requires g in UnitGroups(units, order)
    ensures exists i :: 0 <= i < |units| && units[i].cityID == g.groupId
  {
    GroupIsCityGroup(units, order, g);
    CitiesSpec(units, g.groupId);
  }

  /** Every unit's city has a group. */
  lemma UnitHasGroup(units: seq<UnitModel>, order: seq<string>, u: UnitModel)
    requires IsCityOrder(order, Cities(units))
    requires u in units
    ensures exists g :: g in UnitGroups(units, order) && g.groupId == u.cityID
  {
    var m := Unsorted(units, order);
    UnsortedSpec(units, order);
    SortBySpec(m, Title);
    var i :| 0 <= i < |units| && units[i] == u;
    CitiesSpec(units, u.cityID);
    var p :| 0 <= p < |order| && order[p] == u.cityID;
    assert m[p] in multiset(UnitGroups(units, order));
  }

  /** No two groups share a city id. */
  lemma GroupIdsDistinct(units: seq<UnitModel>, order: seq<string>)
    requires IsCityOrder(order, Cities(units))
    ensures forall i, j :: 0 <= i < j < |UnitGroups(units, order)| ==>
              UnitGroups(units, order)[i].groupId != UnitGroups(units, order)[j].groupId
  {
    var m := Unsorted(units, order);
    var r := UnitGroups(units, order);
    forall i, j | 0 <= i < j < |r|
      ensures r[i].groupId != r[j].groupId
    {
      var p := SourceOf(units, order, r[i]);
      var q := SourceOf(units, order, r[j]);
      if p == q {
        UnsortedSpec(units, order);
        SortBySpec(m, Title);
        TwoOccurrences(r, i, j);
        MultiplicityOfDistinct(m, order, units, p);
        assert false;
      }
    }
  }

  /** An element at two positions occurs at least twice. */
  lemma TwoOccurrences<T>(s: seq<T>, i: nat, j: nat)
    requires i < j < |s| && s[i] == s[j]
    ensures multiset(s)[s[i]] >= 2
  {
    assert s == s[..j] + [s[j]] + s[j + 1..];
    assert s[i] in s[..j];
  }

  /** Groups built for distinct cities are distinct, so each occurs once. */
  lemma MultiplicityOfDistinct(m: seq<UnitGroup>, order: seq<string>, units: seq<UnitModel>, p: nat)
    requires forall c :: c in order ==> c in Cities(units)
    requires NoDuplicates(order) && p < |order| && m == Unsorted(units, order)
    ensures multiset(m)[GroupOf(units, Cities(units), order[p])] == 1
  {
    UnsortedSpec(units, order);
    assert NoDuplicates(m) by {
      forall a, b | 0 <= a < b < |m|
        ensures m[a] != m[b]
      {
        assert m[a].groupId == order[a] && m[b].groupId == order[b];
      }
    }
    DistinctMultiplicity(m, m[p]);
  }

  /** Each group is titled with the city name of the last unit, in input
      order, that has its city id. */
  lemma GroupTitleIsLastCityName(units: seq<UnitModel>, order: seq<string>, g: UnitGroup)
    requires IsCityOrder(order, Cities(units))
    requires g in UnitGroups(units, order)
    ensures exists i :: (0 <= i < |units| && units[i].cityID == g.groupId && units[i].cityName == g.groupTitle &&
                         forall j :: i < j < |units| ==> units[j].cityID != g.groupId)
  {
    GroupIsCityGroup(units, order, g);
    CitiesSpec(units, g.groupId);
  }

  /** Each group holds exactly the units of its city, sorted by alias. */
  lemma GroupUnitsAreItsCity(units: seq<UnitModel>, order: seq<string>, g: UnitGroup)
    requires IsCityOrder(order, Cities(units))
    requires g in UnitGroups(units, order)
    ensures multiset(g.units) == multiset(UnitsOfCity(units, g.groupId))
    ensures forall u :: u in g.units <==> u in units && u.cityID == g.groupId
    ensures SortedBy(g.units, Alias)
  {
    GroupIsCityGroup(units, order, g);
    SortBySpec(UnitsOfCity(units, g.groupId), Alias);
    forall u
      ensures u in g.units <==> u in units && u.cityID == g.groupId
    {
      assert u in g.units <==> u in multiset(g.units);
    }
  }

  /** The groups are sorted by title and are the per-city groups in some
      order. */
  lemma GroupsSortedByTitle(units: seq<UnitModel>, order: seq<string>)
    requires IsCityOrder(order, Cities(units))
    ensures SortedBy(UnitGroups(units, order), Title)
    ensures multiset(UnitGroups(units, order)) == multiset(Unsorted(units, order))
  {
    SortBySpec(Unsorted(units, order), Title);
  }

  // ---------------------------------------------------------------------
  // Counting

  function GroupSize(g: UnitGroup): int
  {
    |g.units|
  }

  /** Total number of units across a list of groups. */
  function UnitCount(gs: seq<UnitGroup>): int
  {
    SumOf(gs, GroupSize)
  }

  /** The number of units of each city. */
  function CityCount(units: seq<UnitModel>): string -> int
  {
    c => CountWhere(units, InCity(c))
  }

  /** The filter test for a set of cities. */
  function InCities(cs: seq<string>): UnitModel -> bool
  {
    (u: UnitModel) => u.cityID in cs
  }

  /** Counting the units of every city in `cs` counts the units whose city
      is one of `cs`. */
  lemma {:induction false} CountByCities(units: seq<UnitModel>, cs: seq<string>)
    requires NoDuplicates(cs)
    ensures SumOf(cs, CityCount(units)) == CountWhere(units, InCities(cs))
  {
    if cs == [] {
      CountNone(units, InCities(cs));
    } else {
      assert NoDuplicates(cs[1..]);
      CountByCities(units, cs[1..]);
      CountDisjointUnion(units, cs[0], cs[1..]);
      assert cs == [cs[0]] + cs[1..];
    }
  }

  lemma {:induction false} CountNone(units: seq<UnitModel>, p: UnitModel -> bool)
    requires forall u :: u in units ==> !p(u)
    ensures CountWhere(units, p) == 0
  {
    if units != [] {
      CountNone(units[1..], p);
    }
  }

  lemma {:induction false} CountDisjointUnion(units: seq<UnitModel>, c: string, rest: seq<string>)
    requires c !in rest
    ensures CountWhere(units, InCities([c] + rest)) ==
            CountWhere(units, InCity(c)) + CountWhere(units, InCities(rest))
  {
    if units != [] {
      CountDisjointUnion(units[1..], c, rest);
    }
  }

  lemma {:induction false} CountAll(units: seq<UnitModel>, cs: seq<string>)
    requires forall u :: u in units ==> u.cityID in cs
    ensures CountWhere(units, InCities(cs)) == |units|
  {
    if units != [] {
      CountAll(units[1..], cs);
    }
  }

  lemma {:induction false} UnsortedCount(units: seq<UnitModel>, order: seq<string>)
    requires forall c :: c in order ==> c in Cities(units)
    ensures UnitCount(Unsorted(units, order)) == SumOf(order, CityCount(units))
  {
    if order != [] {
      UnsortedCount(units, order[1..]);
      var members := UnitsOfCity(units, order[0]);
      SortBySpec(members, Alias);
      assert |SortBy(members, Alias)| == |multiset(members)|;
    }
  }

  /** No unit is lost or repeated: the groups hold as many units as the
      input. */
  lemma UnitCountPreserved(units: seq<UnitModel>, order: seq<string>)
    requires IsCityOrder(order, Cities(units))
    ensures UnitCount(UnitGroups(units, order)) == |units|
  {
    var m := Unsorted(units, order);
    SortBySpec(m, Title);
    SumOfPermutation(UnitGroups(units, order), m, GroupSize);
    UnsortedCount(units, order);
    CountByCities(units, order);
    forall u | u in units
      ensures u.cityID in order
    {
      UnitCityListed(units, order, u);
    }
    CountAll(units, order);
  }
}
