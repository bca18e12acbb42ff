/** The catalogue service: the filtered, sorted, paginated weapon listing,
    and lookup and deletion by id. */
module Weapons {
  import opened Common
  import opened Entities
  import opened Text
  import opened Sorting

  const DefaultPage := 1
  const DefaultLimit := 18

  /** The query parameters of the listing; every one may be left out. */
  datatype WeaponsFilter = WeaponsFilter(
    category: Option<WeaponCategory>,
    search: Option<string>,
    page: Option<int>,
    limit: Option<int>,
    minPrice: Option<int>,
    maxPrice: Option<int>,
    licenseLevel: Option<int>,
    sort: Option<string>)

  /** One page of the listing, with the number of matches and of pages. */
  datatype WeaponPage = WeaponPage(data: seq<Weapon>, total: int, page: int, lastPage: int)

  /** The `WHERE` clause the filter builds: each condition only when its
      parameter is given (and, for the search and the licence level, truthy). */
  predicate Matches(f: WeaponsFilter, w: Weapon) {
    && (f.category.Some? ==> w.category == f.category.value)
    && (f.search.Some? && f.search.value != "" ==>
          Contains(Lower(w.name), Lower(f.search.value)) || Contains(Lower(w.description), Lower(f.search.value)))
    && (f.minPrice.Some? ==> w.price >= f.minPrice.value)
    && (f.maxPrice.Some? ==> w.price <= f.maxPrice.value)
    && (f.licenseLevel.Some? && f.licenseLevel.value > 0 ==> w.requiredLicenseLevel == f.licenseLevel.value)
  }

  /** The `ORDER BY` clause: price for the two price sorts, id otherwise. */
  function RankOrder(sort: Option<string>): (Weapon, Weapon) -> bool {
    if sort == Some("low-to-high") then (a: Weapon, b: Weapon) => a.price <= b.price
    else if sort == Some("high-to-low") then (a: Weapon, b: Weapon) => a.price >= b.price
    else (a: Weapon, b: Weapon) => LexLe(a.id, b.id)
  }

  lemma RankOrderIsPreorder(sort: Option<string>)
    ensures TotalPreorder(RankOrder(sort))
  {
    if sort != Some("low-to-high") && sort != Some("high-to-low") {
      forall a: Weapon, b: Weapon
        ensures LexLe(a.id, b.id) || LexLe(b.id, a.id)
      {
        LexTotal(a.id, b.id);
      }
      forall a: Weapon, b: Weapon, c: Weapon | LexLe(a.id, b.id) && LexLe(b.id, c.id)
        ensures LexLe(a.id, c.id)
      {
        LexTransitive(a.id, b.id, c.id);
      }
    }
  }

  /** `skip(skip).take(take)`: at most `take` elements from index `skip` on. */
  function Window<T>(s: seq<T>, skip: int, take: int): (r: seq<T>)
    requires skip >= 0 && take >= 0
    ensures |r| <= take
    ensures skip + |r| <= |s| || |r| == 0
    ensures |r| == take || skip + |r| >= |s|
    ensures forall k :: 0 <= k < |r| ==> r[k] == s[skip + k]
  {
    var lo := if skip < |s| then skip else |s|;
    var hi := if skip + take < |s| then skip + take else |s|;
    s[lo..hi]
  }

  /** `Math.ceil(total / limit)` for a positive limit. */
  function CeilDiv(total: nat, limit: int): (q: int)
    requires limit >= 1
    ensures q * limit >= total
    ensures (q - 1) * limit < total || q == 0
    ensures q >= 0
  {
    (total + limit - 1) / limit
  }

  /** The filter read condition by condition, with a search term counted as
      a condition whenever it is given: `findAll` skips an empty term, and
      since every text contains the empty term, skipping it admits the same
      weapons. */
  lemma MatchMeaning(f: WeaponsFilter, w: Weapon)
    ensures Matches(f, w) <==>
      && (f.category.Some? ==> w.category == f.category.value)
      && (f.search.Some? ==>
            Contains(Lower(w.name), Lower(f.search.value)) || Contains(Lower(w.description), Lower(f.search.value)))
      && (f.minPrice.Some? ==> f.minPrice.value <= w.price)
      && (f.maxPrice.Some? ==> w.price <= f.maxPrice.value)
      && (f.licenseLevel.Some? && f.licenseLevel.value > 0 ==> w.requiredLicenseLevel == f.licenseLevel.value)
    ensures f.search == Some("") ==> (Matches(f, w) <==> Matches(f.(search := None), w))
  {
    if f.search == Some("") {
      assert OccursAt(Lower(w.name), Lower(""), 0);
    }
  }

  /** What sorting by `RankOrder(sort)` means for each sort parameter. */
  lemma RankedMeaning(s: seq<Weapon>, sort: Option<string>)
    requires SortedBy(s, RankOrder(sort))
    ensures sort == Some("low-to-high") ==> forall i, j :: 0 <= i < j < |s| ==> s[i].price <= s[j].price
    ensures sort == Some("high-to-low") ==> forall i, j :: 0 <= i < j < |s| ==> s[i].price >= s[j].price
    ensures sort != Some("low-to-high") && sort != Some("high-to-low") ==>
      forall i, j :: 0 <= i < j < |s| ==> LexLe(s[i].id, s[j].id)
  {
    forall i, j | 0 <= i < j < |s|
      ensures RankOrder(sort)(s[i], s[j])
    {
    }
  }

  /** The rows the pages before `page` take: `(page - 1) * limit`. */
  function Skip(page: int, limit: int): nat
    requires page >= 1 && limit >= 1
  {
    (page - 1) * limit
  }

  /** The page of the ranking `all` that starts after `skip` rows. */
  function Paginate(all: seq<Weapon>, page: int, skip: nat, limit: int): (r: WeaponPage)
    requires limit >= 1
    ensures r.page == page
    ensures |r.data| <= limit
    ensures skip + |r.data| <= |all| || |r.data| == 0
    ensures forall k :: 0 <= k < |r.data| ==> r.data[k] == all[skip + k]
    ensures |r.data| == limit || skip + |r.data| >= |all|
    ensures r.total == |all|
    ensures r.lastPage * limit >= r.total
    ensures r.lastPage == 0 || (r.lastPage - 1) * limit < r.total
  {
    WeaponPage(Window(all, skip, limit), |all|, page, CeilDiv(|all|, limit))
  }

  /** A page cut from a ranking of the matches holds only matches, in ranking order. */
  lemma PageOfRanking(weapons: map<Id, Weapon>, f: WeaponsFilter, all: seq<Weapon>, page: int, skip: nat, limit: int)
    requires limit >= 1
    requires multiset(all) == multiset(set w | w in weapons.Values && Matches(f, w))
    requires SortedBy(all, RankOrder(f.sort))
    ensures forall w :: w in Paginate(all, page, skip, limit).data ==> w in weapons.Values && Matches(f, w)
    ensures SortedBy(Paginate(all, page, skip, limit).data, RankOrder(f.sort))
  {
    var data := Paginate(all, page, skip, limit).data;
    forall w | w in data
      ensures w in weapons.Values && Matches(f, w)
    {
      var k :| 0 <= k < |data| && data[k] == w;
      assert w in multiset(all);
    }
    forall i, j | 0 <= i < j < |data|
      ensures RankOrder(f.sort)(data[i], data[j])
    {
      assert data[i] == all[skip + i] && data[j] == all[skip + j];
    }
  }

  /** `findAll`: the weapons matching the filter, ranked by the requested
      order, cut to the requested page. `ranked` is the whole ranking. */
  method FindAll(weapons: map<Id, Weapon>, f: WeaponsFilter) returns (r: WeaponPage, ghost ranked: seq<Weapon>)
    requires f.page.None? || f.page.value >= 1
    requires f.limit.None? || f.limit.value >= 1
    // every listed weapon is in the catalogue and meets each given condition
    ensures forall w :: w in r.data ==> w in weapons.Values
    ensures f.category.Some? ==> forall w :: w in r.data ==> w.category == f.category.value
    ensures f.search.Some? ==> forall w :: w in r.data ==>
      Contains(Lower(w.name), Lower(f.search.value)) || Contains(Lower(w.description), Lower(f.search.value))
    ensures f.minPrice.Some? ==> forall w :: w in r.data ==> f.minPrice.value <= w.price
    ensures f.maxPrice.Some? ==> forall w :: w in r.data ==> w.price <= f.maxPrice.value
    ensures f.licenseLevel.Some? && f.licenseLevel.value > 0 ==>
      forall w :: w in r.data ==> w.requiredLicenseLevel == f.licenseLevel.value
    // the listing is in the requested order
    ensures f.sort == Some("low-to-high") ==> forall i, j :: 0 <= i < j < |r.data| ==> r.data[i].price <= r.data[j].price
    ensures f.sort == Some("high-to-low") ==> forall i, j :: 0 <= i < j < |r.data| ==> r.data[i].price >= r.data[j].price
    ensures f.sort != Some("low-to-high") && f.sort != Some("high-to-low") ==>
      forall i, j :: 0 <= i < j < |r.data| ==> LexLe(r.data[i].id, r.data[j].id)
    // the ranking holds every match exactly once, in the requested order;
    // the page is the slice of it the page number selects
    ensures SortedBy(ranked, RankOrder(f.sort))
    ensures f.sort == Some("low-to-high") ==> forall i, j :: 0 <= i < j < |ranked| ==> ranked[i].price <= ranked[j].price
    ensures f.sort == Some("high-to-low") ==> forall i, j :: 0 <= i < j < |ranked| ==> ranked[i].price >= ranked[j].price
    ensures f.sort != Some("low-to-high") && f.sort != Some("high-to-low") ==>
      forall i, j :: 0 <= i < j < |ranked| ==> LexLe(ranked[i].id, ranked[j].id)
    ensures multiset(ranked) == multiset(set w | w in weapons.Values && Matches(f, w))
    ensures r.total == |ranked| == |set w | w in weapons.Values && Matches(f, w)|
    ensures WeaponsKeyed(weapons) ==> r.total == |set k | k in weapons && Matches(f, weapons[k])|
    ensures var page := if f.page.Some? then f.page.value else DefaultPage;
            var limit := if f.limit.Some? then f.limit.value else DefaultLimit;
            r == Paginate(ranked, page, Skip(page, limit), limit)
  {
    var page := if f.page.Some? then f.page.value else DefaultPage;
    var limit := if f.limit.Some? then f.limit.value else DefaultLimit;
    var matching := set w | w in weapons.Values && Matches(f, w);
    RankOrderIsPreorder(f.sort);
    var all := SortSet(matching, RankOrder(f.sort));
    ranked := all;
    var skip := Skip(page, limit);
    r := Paginate(all, page, skip, limit);
    PageOfRanking(weapons, f, all, page, skip, limit);
    forall w | w in r.data {
      MatchMeaning(f, w);
    }
    RankedMeaning(r.data, f.sort);
    RankedMeaning(ranked, f.sort);
    if WeaponsKeyed(weapons) {
      KeyedMatchCount(weapons, f);
    }
  }

  /** In a table whose rows sit under their own ids, the matching rows are as
      many as the matching keys. */
  lemma KeyedMatchCount(weapons: map<Id, Weapon>, f: WeaponsFilter)
    requires WeaponsKeyed(weapons)
    ensures |set w | w in weapons.Values && Matches(f, w)| == |set k | k in weapons && Matches(f, weapons[k])|
  {
    var rows := set w | w in weapons.Values && Matches(f, w);
    var keys := set k | k in weapons && Matches(f, weapons[k]);
    forall a, b | a in rows && b in rows && a.id == b.id
      ensures a == b
    {
      var ka :| ka in weapons && weapons[ka] == a;
      var kb :| kb in weapons && weapons[kb] == b;
    }
    IdsCount(rows);
    assert keys == set w | w in rows :: w.id by {
      forall k | k in keys
        ensures k in set w | w in rows :: w.id
      {
        assert weapons[k] in rows;
      }
    }
  }

  /** Rows with pairwise distinct ids have as many ids as rows. */
  lemma IdsCount(rows: set<Weapon>)
    requires forall a, b :: a in rows && b in rows && a.id == b.id ==> a == b
    ensures |set w | w in rows :: w.id| == |rows|
    decreases |rows|
  {
    if rows != {} {
      var x :| x in rows;
      var rest := rows - {x};
      IdsCount(rest);
      assert (set w | w in rows :: w.id) == (set w | w in rest :: w.id) + {x.id};
      assert x.id !in (set w | w in rest :: w.id);
    }
  }

  /** `findOne`: the weapon with that id, or not-found. */
  function FindOne(weapons: map<Id, Weapon>, id: Id): (r: Result<Weapon, Error>)
    ensures r.Success? <==> id in weapons
    ensures r.Success? ==> r.value == weapons[id]
    ensures r.Failure? ==> r.error == WeaponNotFound(id)
  {
    if id in weapons then Success(weapons[id]) else Failure(WeaponNotFound(id))
  }

  /** `remove`: delete the row; deleting nothing raises not-found. */
  function Remove(weapons: map<Id, Weapon>, id: Id): (r: Result<map<Id, Weapon>, Error>)
    ensures r.Failure? <==> id !in weapons
    ensures r.Failure? ==> r.error == WeaponNotFound(id)
    ensures r.Success? ==> r.value.Keys == weapons.Keys - {id}
    ensures r.Success? ==> forall k :: k in r.value ==> r.value[k] == weapons[k]
  {
    if id in weapons then Success(weapons - {id}) else Failure(WeaponNotFound(id))
  }
}
