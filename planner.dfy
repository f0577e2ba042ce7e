/**
 * The server `action` of the onboarding route: validate the submitted
 * fields, give every area name and every named chore a fresh id, build the
 * household, area, chore and area-to-chore rows, and insert them table by
 * table, stopping at the first insert that returns no rows.
 *
 * The planning is specified by functions over the validated data and the
 * ids `createId` returns, in call order; the loops of the source are
 * methods proved against those functions.
 */
module Planner {
  import opened Optional
  import opened Records
  import opened Schema
  import opened Store

  // ------------------------------------------------------ chore names

  /** `if (chore.name)`: the name is present and non-empty. */
  predicate Named(c: Chore)
  {
    c.name.Some? && c.name.value != ""
  }

  /** Some chore of `cs` is named `k`. */
  predicate NamedWith(cs: seq<Chore>, k: string)
  {
    exists i :: 0 <= i < |cs| && Named(cs[i]) && cs[i].name.value == k
  }

  /** How many `createId` calls the chore dictionary makes: one per named chore, duplicates included. */
  function NamedCount(cs: seq<Chore>): (n: nat)
    ensures n <= |cs|
  {
    if cs == [] then 0
    else NamedCount(cs[..|cs| - 1]) + (if Named(cs[|cs| - 1]) then 1 else 0)
  }

  predicate Distinct(xs: seq<string>)
  {
    forall i, j :: 0 <= i < j < |xs| ==> xs[i] != xs[j]
  }

  lemma KeysDistinct<T>(r: Rec<T>)
    requires DistinctKeys(r)
    ensures Distinct(Keys(r))
  {
    forall i, j | 0 <= i < j < |r| ensures Keys(r)[i] != Keys(r)[j] {
      KeysAt(r, i);
      KeysAt(r, j);
    }
  }

  // ------------------------------------------------------ dictionaries

  /** `areasDictionary`: each key of `areas`, in order, set to the next id. */
  function AreasDictionary(keys: seq<string>, ids: seq<string>): Rec<string>
    requires |ids| == |keys|
  {
    if keys == [] then []
    else
      var n := |keys| - 1;
      Put(AreasDictionary(keys[..n], ids[..n]), keys[n], ids[n])
  }

  /** `choresDictionary`: each named chore, in order, sets its name to the next id. */
  function ChoresDictionary(cs: seq<Chore>, ids: seq<string>): Rec<string>
    requires |ids| == NamedCount(cs)
  {
    if cs == [] then []
    else
      var n := |cs| - 1;
      var m := NamedCount(cs[..n]);
      var d := ChoresDictionary(cs[..n], ids[..m]);
      if Named(cs[n]) then Put(d, cs[n].name.value, ids[m]) else d
  }

  /** The area dictionary pairs the `i`-th key with the `i`-th id. */
  lemma {:induction false} AreasDictionaryEntries(keys: seq<string>, ids: seq<string>)
    requires |ids| == |keys| && Distinct(keys)
    ensures |AreasDictionary(keys, ids)| == |keys|
    ensures forall i :: 0 <= i < |keys| ==> AreasDictionary(keys, ids)[i] == (keys[i], ids[i])
    ensures DistinctKeys(AreasDictionary(keys, ids))
  {
    if keys != [] {
      var n := |keys| - 1;
      var d := AreasDictionary(keys[..n], ids[..n]);
      AreasDictionaryEntries(keys[..n], ids[..n]);
      assert keys[n] !in Keys(d) by {
        forall i | 0 <= i < n ensures Keys(d)[i] != keys[n] {
          KeysAt(d, i);
        }
      }
      PutAt(d, keys[n], ids[n]);
      PutDistinct(d, keys[n], ids[n]);
    }
  }

  lemma NamedWithSnoc(cs: seq<Chore>, k: string)
    requires cs != []
    ensures NamedWith(cs, k) <==>
      NamedWith(cs[..|cs| - 1], k) || (Named(cs[|cs| - 1]) && cs[|cs| - 1].name.value == k)
  {
    var n := |cs| - 1;
    if NamedWith(cs, k) {
      var i :| 0 <= i < |cs| && Named(cs[i]) && cs[i].name.value == k;
      if i < n {
        assert cs[..n][i] == cs[i];
      }
    }
    if NamedWith(cs[..n], k) {
      var i :| 0 <= i < n && Named(cs[..n][i]) && cs[..n][i].name.value == k;
      assert cs[i] == cs[..n][i];
    }
  }

  /**
   * Duplicate chore names collapse: the chore dictionary has one key per
   * distinct name of a named chore, and no other key.
   */
  lemma {:induction false} ChoresDictionaryKeys(cs: seq<Chore>, ids: seq<string>)
    requires |ids| == NamedCount(cs)
    ensures DistinctKeys(ChoresDictionary(cs, ids))
    ensures forall k :: k in Keys(ChoresDictionary(cs, ids)) <==> NamedWith(cs, k)
  {
    if cs != [] {
      var n := |cs| - 1;
      var m := NamedCount(cs[..n]);
      var d := ChoresDictionary(cs[..n], ids[..m]);
      ChoresDictionaryKeys(cs[..n], ids[..m]);
      forall k ensures NamedWith(cs, k) <==> NamedWith(cs[..n], k) || (Named(cs[n]) && cs[n].name.value == k) {
        NamedWithSnoc(cs, k);
      }
      if Named(cs[n]) {
        PutKeys(d, cs[n].name.value, ids[m]);
        PutDistinct(d, cs[n].name.value, ids[m]);
      }
    }
  }

  /** Replacing or adding one entry keeps the values drawn from `pool`, now with `v`. */
  lemma PutValuesFrom(d: Rec<string>, k: string, v: string, pool: seq<string>)
    requires DistinctKeys(d)
    requires forall i :: 0 <= i < |d| ==> d[i].1 in pool
    ensures forall i :: 0 <= i < |Put(d, k, v)| ==> Put(d, k, v)[i].1 == v || Put(d, k, v)[i].1 in pool
  {
    PutEntries(d, k, v);
  }

  /** Replacing or adding one entry whose value is new keeps the values distinct. */
  lemma PutValuesDistinct(d: Rec<string>, k: string, v: string, pool: seq<string>)
    requires DistinctKeys(d)
    requires forall i :: 0 <= i < |d| ==> d[i].1 in pool
    requires forall i, j :: 0 <= i < j < |d| ==> d[i].1 != d[j].1
    requires v !in pool
    ensures forall i, j :: 0 <= i < j < |Put(d, k, v)| ==> Put(d, k, v)[i].1 != Put(d, k, v)[j].1
  {
    var d' := Put(d, k, v);
    PutEntries(d, k, v);
    PutDistinct(d, k, v);
    forall i, j | 0 <= i < j < |d'| ensures d'[i].1 != d'[j].1 {
      if d'[i] == (k, v) && d'[j] != (k, v) {
        assert d'[j] == d[j] && d[j].1 in pool;
      } else if d'[i] != (k, v) && d'[j] == (k, v) {
        assert d'[i] == d[i] && d[i].1 in pool;
      } else if d'[i] != (k, v) && d'[j] != (k, v) {
        assert d'[i] == d[i] && d'[j] == d[j];
      }
    }
  }

  /** The chore dictionary's ids are pairwise distinct when the supplied ids are. */
  lemma {:induction false} ChoresDictionaryValues(cs: seq<Chore>, ids: seq<string>)
    requires |ids| == NamedCount(cs) && Distinct(ids)
    ensures forall i :: 0 <= i < |ChoresDictionary(cs, ids)| ==> ChoresDictionary(cs, ids)[i].1 in ids
    ensures forall i, j :: 0 <= i < j < |ChoresDictionary(cs, ids)| ==>
      ChoresDictionary(cs, ids)[i].1 != ChoresDictionary(cs, ids)[j].1
  {
    if cs != [] {
      var n := |cs| - 1;
      var m := NamedCount(cs[..n]);
      var d := ChoresDictionary(cs[..n], ids[..m]);
      ChoresDictionaryValues(cs[..n], ids[..m]);
      ChoresDictionaryKeys(cs[..n], ids[..m]);
      if Named(cs[n]) {
        var d' := Put(d, cs[n].name.value, ids[m]);
        assert ChoresDictionary(cs, ids) == d';
        assert ids[m] !in ids[..m];
        PutValuesFrom(d, cs[n].name.value, ids[m], ids[..m]);
        PutValuesDistinct(d, cs[n].name.value, ids[m], ids[..m]);
        forall i | 0 <= i < |d'| ensures d'[i].1 in ids {
          if d'[i].1 != ids[m] {
            var t :| 0 <= t < m && ids[..m][t] == d'[i].1;
            assert ids[t] == d'[i].1;
          }
        }
      } else {
        assert ids[..m] == ids;
      }
    }
  }

  // ------------------------------------------------------------- rows

  /** `areasToInsert`: one row per dictionary entry, tagged with the household id. */
  function AreaRows(ad: Rec<string>, householdId: string): seq<Row>
  {
    seq(|ad|, i requires 0 <= i < |ad| => AreaRow(ad[i].1, ad[i].0, householdId))
  }

  /** `choresToInsert`: one row per dictionary entry; nothing but the id and the name. */
  function ChoreRows(cd: Rec<string>): seq<Row>
  {
    seq(|cd|, i requires 0 <= i < |cd| => ChoreRow(cd[i].1, cd[i].0))
  }

  /** The links one area contributes: one per name in its list, looked up in the two dictionaries. */
  function EntryLinks(entry: (string, seq<string>), ad: Rec<string>, cd: Rec<string>): seq<Row>
  {
    seq(|entry.1|, j requires 0 <= j < |entry.1| => LinkRow(Get(ad, entry.0), Get(cd, entry.1[j])))
  }

  /** `areasToChoresInput`: the links of every area, in key order. */
  function Links(areas: Rec<seq<string>>, ad: Rec<string>, cd: Rec<string>): seq<Row>
  {
    if areas == [] then []
    else Links(areas[..|areas| - 1], ad, cd) + EntryLinks(areas[|areas| - 1], ad, cd)
  }

  /** The number of chore names listed over all areas, counting repeats. */
  function ListedCount(areas: Rec<seq<string>>): nat
  {
    if areas == [] then 0
    else ListedCount(areas[..|areas| - 1]) + |areas[|areas| - 1].1|
  }

  /** One link per listed chore name: the link count is the sum of the list lengths. */
  lemma {:induction false} LinksCount(areas: Rec<seq<string>>, ad: Rec<string>, cd: Rec<string>)
    ensures |Links(areas, ad, cd)| == ListedCount(areas)
  {
    if areas != [] {
      LinksCount(areas[..|areas| - 1], ad, cd);
    }
  }

  /** The `j`-th name of area `i` gets the link at offset `ListedCount(areas[..i]) + j`. */
  lemma {:induction false} LinkAt(areas: Rec<seq<string>>, ad: Rec<string>, cd: Rec<string>, i: nat, j: nat)
    requires i < |areas| && j < |areas[i].1|
    ensures ListedCount(areas[..i]) + j < |Links(areas, ad, cd)|
    ensures Links(areas, ad, cd)[ListedCount(areas[..i]) + j]
            == LinkRow(Get(ad, areas[i].0), Get(cd, areas[i].1[j]))
  {
    var n := |areas| - 1;
    LinksCount(areas[..n], ad, cd);
    LinksCount(areas, ad, cd);
    if i == n {
      assert areas[..n] == areas[..i];
    } else {
      assert areas[..n][..i] == areas[..i];
      LinkAt(areas[..n], ad, cd, i, j);
      assert areas[..n][i] == areas[i];
    }
  }

  // ------------------------------------------------------------- plan

  /** The rows `action` builds. */
  datatype Plan = Plan(household: Row, areaRows: seq<Row>, choreRows: seq<Row>, links: seq<Row>)

  /** `createId` calls: one per area, one per named chore, one for the household. */
  function IdsNeeded(v: Onboarding): nat
  {
    |v.areas| + NamedCount(v.chores) + 1
  }

  /**
   * The plan for validated data `v` when `createId` returns `ids` in call
   * order: the area ids first, then the chore ids, then the household id.
   */
  function PlanFor(v: Onboarding, ids: seq<string>): Plan
    requires |ids| == IdsNeeded(v)
  {
    var ad, cd, householdId := PlanAreas(v, ids), PlanChores(v, ids), ids[|ids| - 1];
    Plan(HouseholdRow(householdId, v.householdName), AreaRows(ad, householdId), ChoreRows(cd), Links(v.areas, ad, cd))
  }

  /** The area dictionary of the plan, built from the first `|v.areas|` ids. */
  function PlanAreas(v: Onboarding, ids: seq<string>): Rec<string>
    requires |ids| == IdsNeeded(v)
  {
    AreasDictionary(Keys(v.areas), ids[..|v.areas|])
  }

  /** The chore dictionary of the plan, built from the ids that follow the areas'. */
  function PlanChores(v: Onboarding, ids: seq<string>): Rec<string>
    requires |ids| == IdsNeeded(v)
  {
    ChoresDictionary(v.chores, ids[|v.areas|..|v.areas| + NamedCount(v.chores)])
  }

  /** Area `i`'s key maps to the `i`-th id. */
  lemma PlanAreaId(v: Onboarding, ids: seq<string>, i: nat)
    requires |ids| == IdsNeeded(v) && DistinctKeys(v.areas) && i < |v.areas|
    ensures i < |PlanAreas(v, ids)| && PlanAreas(v, ids)[i] == (v.areas[i].0, ids[i])
    ensures Get(PlanAreas(v, ids), v.areas[i].0) == Some(ids[i])
  {
    var ad := PlanAreas(v, ids);
    KeysDistinct(v.areas);
    AreasDictionaryEntries(Keys(v.areas), ids[..|v.areas|]);
    KeysAt(v.areas, i);
    GetAt(ad, i);
  }

  /** A chore name has an id in the plan exactly when some named chore carries it. */
  lemma PlanChoreLookup(v: Onboarding, ids: seq<string>, k: string)
    requires |ids| == IdsNeeded(v)
    ensures Get(PlanChores(v, ids), k).Some? <==> NamedWith(v.chores, k)
  {
    var a, c := |v.areas|, NamedCount(v.chores);
    ChoresDictionaryKeys(v.chores, ids[a..a + c]);
  }

  /**
   * One area row per area, in key order, with the area's own id and the
   * household row's id.
   */
  lemma PlanAreaRows(v: Onboarding, ids: seq<string>)
    requires |ids| == IdsNeeded(v) && DistinctKeys(v.areas)
    ensures var p := PlanFor(v, ids);
      && p.household == HouseholdRow(ids[|ids| - 1], v.householdName)
      && |p.areaRows| == |v.areas|
      && forall i :: 0 <= i < |v.areas| ==> p.areaRows[i] == AreaRow(ids[i], v.areas[i].0, p.household.id)
  {
    var p, ad := PlanFor(v, ids), PlanAreas(v, ids);
    assert p.areaRows == AreaRows(ad, ids[|ids| - 1]);
    KeysDistinct(v.areas);
    AreasDictionaryEntries(Keys(v.areas), ids[..|v.areas|]);
    forall i | 0 <= i < |v.areas| ensures p.areaRows[i] == AreaRow(ids[i], v.areas[i].0, p.household.id) {
      PlanAreaId(v, ids, i);
    }
  }

  /** One chore row per distinct name of a named chore, each with its own id. */
  lemma PlanChoreRows(v: Onboarding, ids: seq<string>)
    requires |ids| == IdsNeeded(v)
    ensures var p := PlanFor(v, ids);
      && (forall i, j :: 0 <= i < j < |p.choreRows| ==> p.choreRows[i].name != p.choreRows[j].name)
      && (forall k :: (exists i :: 0 <= i < |p.choreRows| && p.choreRows[i].name == k) <==> NamedWith(v.chores, k))
  {
    var a, c := |v.areas|, NamedCount(v.chores);
    var p, cd := PlanFor(v, ids), PlanChores(v, ids);
    ChoresDictionaryKeys(v.chores, ids[a..a + c]);
    assert p.choreRows == ChoreRows(cd);
    forall k ensures (exists i :: 0 <= i < |p.choreRows| && p.choreRows[i].name == k) <==> k in Keys(cd) {
      if k in Keys(cd) {
        var i :| 0 <= i < |cd| && Keys(cd)[i] == k;
        KeysAt(cd, i);
        assert p.choreRows[i].name == k;
      }
      if exists i :: 0 <= i < |p.choreRows| && p.choreRows[i].name == k {
        var i :| 0 <= i < |p.choreRows| && p.choreRows[i].name == k;
        KeysAt(cd, i);
      }
    }
  }

  /**
   * One link per listed chore name.  The link for the `j`-th name of area
   * `i` carries that area's id, and a chore id exactly when some named
   * chore has that name.
   */
  lemma PlanLinks(v: Onboarding, ids: seq<string>, i: nat, j: nat)
    requires |ids| == IdsNeeded(v) && DistinctKeys(v.areas)
    requires i < |v.areas| && j < |v.areas[i].1|
    ensures |PlanFor(v, ids).links| == ListedCount(v.areas)
    ensures ListedCount(v.areas[..i]) + j < |PlanFor(v, ids).links|
    ensures var l := PlanFor(v, ids).links[ListedCount(v.areas[..i]) + j];
      && l.LinkRow?
      && l.areaId == Some(ids[i])
      && (l.choreId.Some? <==> NamedWith(v.chores, v.areas[i].1[j]))
  {
    var ad, cd := PlanAreas(v, ids), PlanChores(v, ids);
    var ls, k := PlanFor(v, ids).links, ListedCount(v.areas[..i]) + j;
    assert ls == Links(v.areas, ad, cd);
    LinksCount(v.areas, ad, cd);
    LinkAt(v.areas, ad, cd, i, j);
    assert ls[k] == LinkRow(Get(ad, v.areas[i].0), Get(cd, v.areas[i].1[j]));
    PlanAreaId(v, ids, i);
    PlanChoreLookup(v, ids, v.areas[i].1[j]);
  }

  /** Every id in the plan's household, area and chore rows is different when the supplied ids are. */
  lemma PlanIdsDistinct(v: Onboarding, ids: seq<string>)
    requires |ids| == IdsNeeded(v) && DistinctKeys(v.areas) && Distinct(ids)
    ensures var p := PlanFor(v, ids);
      && (forall i :: 0 <= i < |p.areaRows| ==> p.areaRows[i].id != p.household.id)
      && (forall i :: 0 <= i < |p.choreRows| ==> p.choreRows[i].id != p.household.id)
      && (forall i, j :: 0 <= i < |p.areaRows| && 0 <= j < |p.choreRows| ==> p.areaRows[i].id != p.choreRows[j].id)
      && (forall i, j :: 0 <= i < j < |p.areaRows| ==> p.areaRows[i].id != p.areaRows[j].id)
      && (forall i, j :: 0 <= i < j < |p.choreRows| ==> p.choreRows[i].id != p.choreRows[j].id)
  {
    var p := PlanFor(v, ids);
    PlanAreaIdsDrawn(v, ids, p);
    PlanChoreIdsDrawn(v, ids, p);
    DrawnApart(p, ids, |v.areas|, NamedCount(v.chores));
  }

  /** Where the household's and the areas' ids come from: area `i` has the `i`-th id, the household the one after the `c` chore ids. */
  predicate AreaIdsDrawn(p: Plan, ids: seq<string>, a: nat, c: nat)
  {
    && a + c < |ids|
    && p.household.HouseholdRow? && p.household.id == ids[a + c]
    && |p.areaRows| == a
    && (forall i :: 0 <= i < a ==> p.areaRows[i].AreaRow? && p.areaRows[i].id == ids[i])
  }

  /** Where the chores' ids come from: every chore id lies in the `c` ids after the areas', and no two chores share one. */
  predicate ChoreIdsDrawn(p: Plan, ids: seq<string>, a: nat, c: nat)
  {
    && a + c <= |ids|
    && (forall j :: 0 <= j < |p.choreRows| ==> p.choreRows[j].ChoreRow? && p.choreRows[j].id in ids[a..a + c])
    && (forall i, j :: 0 <= i < j < |p.choreRows| ==> p.choreRows[i].id != p.choreRows[j].id)
  }

  lemma PlanAreaIdsDrawn(v: Onboarding, ids: seq<string>, p: Plan)
    requires |ids| == IdsNeeded(v) && DistinctKeys(v.areas) && p == PlanFor(v, ids)
    ensures AreaIdsDrawn(p, ids, |v.areas|, NamedCount(v.chores))
  {
    PlanAreaRows(v, ids);
    var a, c := |v.areas|, NamedCount(v.chores);
    assert |ids| - 1 == a + c;
    assert p.household.id == ids[a + c];
    assert forall i :: 0 <= i < a ==> p.areaRows[i].id == ids[i];
  }

  lemma PlanChoreIdsDrawn(v: Onboarding, ids: seq<string>, p: Plan)
    requires |ids| == IdsNeeded(v) && Distinct(ids) && p == PlanFor(v, ids)
    ensures ChoreIdsDrawn(p, ids, |v.areas|, NamedCount(v.chores))
  {
    PlanChoreIds(v, ids, p);
  }

  /** Ids drawn from distinct supplies are pairwise different across the plan. */
  lemma DrawnApart(p: Plan, ids: seq<string>, a: nat, c: nat)
    requires Distinct(ids) && AreaIdsDrawn(p, ids, a, c) && ChoreIdsDrawn(p, ids, a, c)
    ensures forall i :: 0 <= i < |p.areaRows| ==> p.areaRows[i].id != p.household.id
    ensures forall j :: 0 <= j < |p.choreRows| ==> p.choreRows[j].id != p.household.id
    ensures forall i, j :: 0 <= i < |p.areaRows| && 0 <= j < |p.choreRows| ==> p.areaRows[i].id != p.choreRows[j].id
    ensures forall i, j :: 0 <= i < j < |p.areaRows| ==> p.areaRows[i].id != p.areaRows[j].id
  {
    SliceApart(ids, a, c);
    forall i | 0 <= i < |p.areaRows| ensures p.areaRows[i].id != p.household.id {
      assert p.areaRows[i].id == ids[i];
    }
    forall i, j | 0 <= i < |p.areaRows| && 0 <= j < |p.choreRows| ensures p.areaRows[i].id != p.choreRows[j].id {
      assert p.areaRows[i].id == ids[i];
    }
    forall i, j | 0 <= i < j < |p.areaRows| ensures p.areaRows[i].id != p.areaRows[j].id {
      assert p.areaRows[i].id == ids[i] && p.areaRows[j].id == ids[j];
    }
  }

  /** With distinct ids, the ids before a slice and the one just after it are outside the slice. */
  lemma SliceApart(ids: seq<string>, a: nat, c: nat)
    requires Distinct(ids) && a + c < |ids|
    ensures forall i :: 0 <= i < a ==> ids[i] !in ids[a..a + c]
    ensures ids[a + c] !in ids[a..a + c]
  {
    var s := ids[a..a + c];
    forall i, t | 0 <= i < a && 0 <= t < c ensures s[t] != ids[i] {
      assert s[t] == ids[a + t];
    }
    forall t | 0 <= t < c ensures s[t] != ids[a + c] {
      assert s[t] == ids[a + t];
    }
  }

  /** Each chore row's id is one of the ids drawn for named chores, and no two are equal. */
  lemma PlanChoreIds(v: Onboarding, ids: seq<string>, p: Plan)
    requires |ids| == IdsNeeded(v) && Distinct(ids) && p == PlanFor(v, ids)
    ensures forall j :: 0 <= j < |p.choreRows| ==> p.choreRows[j].id in ids[|v.areas|..|v.areas| + NamedCount(v.chores)]
    ensures forall i, j :: 0 <= i < j < |p.choreRows| ==> p.choreRows[i].id != p.choreRows[j].id
  {
    var a, c := |v.areas|, NamedCount(v.chores);
    var cids, cd := ids[a..a + c], PlanChores(v, ids);
    assert Distinct(cids) by {
      forall i, j | 0 <= i < j < |cids| ensures cids[i] != cids[j] {
        assert cids[i] == ids[a + i] && cids[j] == ids[a + j];
      }
    }
    ChoresDictionaryValues(v.chores, cids);
    assert p.choreRows == ChoreRows(cd);
    forall j | 0 <= j < |p.choreRows| ensures p.choreRows[j].id == cd[j].1 {
    }
  }

  /** Only chore names reach the rows: descriptions, due dates and frequencies are never persisted. */
  lemma {:induction false} NamesOnly(cs: seq<Chore>, ds: seq<Chore>, ids: seq<string>)
    requires |cs| == |ds| && forall i :: 0 <= i < |cs| ==> cs[i].name == ds[i].name
    requires |ids| == NamedCount(cs)
    ensures NamedCount(ds) == NamedCount(cs)
    ensures ChoresDictionary(ds, ids) == ChoresDictionary(cs, ids)
  {
    if cs != [] {
      var n := |cs| - 1;
      NamesOnly(cs[..n], ds[..n], ids[..NamedCount(cs[..n])]);
    }
  }

  lemma PlanNamesOnly(v: Onboarding, w: Onboarding, ids: seq<string>)
    requires v.householdName == w.householdName && v.areas == w.areas
    requires |v.chores| == |w.chores| && forall i :: 0 <= i < |v.chores| ==> v.chores[i].name == w.chores[i].name
    requires |ids| == IdsNeeded(v)
    ensures IdsNeeded(w) == IdsNeeded(v) && PlanFor(w, ids) == PlanFor(v, ids)
  {
    var a, c := |v.areas|, NamedCount(v.chores);
    NamesOnly(v.chores, w.chores, ids[a..a + c]);
  }

  // -------------------------------------------------------------- loops

  /** `Object.keys(inputAreas).reduce(...)`: one `createId` call per key. */
  method BuildAreasDictionary(keys: seq<string>, gen: IdSupply) returns (d: Rec<string>)
    modifies gen
    ensures gen.count == old(gen.count) + |keys|
    ensures d == AreasDictionary(keys, Tokens(old(gen.count), |keys|))
  {
    d := [];
    var i := 0;
    ghost var from := gen.count;
    while i < |keys|
      invariant 0 <= i <= |keys| && gen.count == from + i
      invariant d == AreasDictionary(keys[..i], Tokens(from, i))
    {
      var id := gen.CreateId();
      AreasDictionaryStep(keys, from, i);
      d := Put(d, keys[i], id);
      i := i + 1;
    }
    assert keys[..i] == keys;
  }

  /** One more key: the dictionary so far, with the key set to the next id. */
  lemma AreasDictionaryStep(keys: seq<string>, from: nat, i: nat)
    requires i < |keys|
    ensures AreasDictionary(keys[..i + 1], Tokens(from, i + 1))
            == Put(AreasDictionary(keys[..i], Tokens(from, i)), keys[i], Token(from + i))
  {
    assert keys[..i + 1][..i] == keys[..i];
    assert Tokens(from, i + 1)[..i] == Tokens(from, i);
  }

  /** `inputChores.reduce(...)`: one `createId` call per named chore. */
  method BuildChoresDictionary(cs: seq<Chore>, gen: IdSupply) returns (d: Rec<string>)
    modifies gen
    ensures gen.count == old(gen.count) + NamedCount(cs)
    ensures d == ChoresDictionary(cs, Tokens(old(gen.count), NamedCount(cs)))
  {
    d := [];
    var i := 0;
    ghost var from := gen.count;
    while i < |cs|
      invariant 0 <= i <= |cs| && gen.count == from + NamedCount(cs[..i])
      invariant d == ChoresDictionary(cs[..i], Tokens(from, NamedCount(cs[..i])))
    {
      ChoresDictionaryStep(cs, from, i);
      if cs[i].name.Some? && cs[i].name.value != "" {
        ghost var k := gen.count;
        var id := gen.CreateId();
        assert id == Token(k);
        d := Put(d, cs[i].name.value, id);
      }
      i := i + 1;
    }
    assert cs[..i] == cs;
  }

  /** One more chore: the dictionary so far, with a named chore's name set to the next id. */
  lemma ChoresDictionaryStep(cs: seq<Chore>, from: nat, i: nat)
    requires i < |cs|
    ensures NamedCount(cs[..i + 1]) == NamedCount(cs[..i]) + if Named(cs[i]) then 1 else 0
    ensures var d := ChoresDictionary(cs[..i], Tokens(from, NamedCount(cs[..i])));
      ChoresDictionary(cs[..i + 1], Tokens(from, NamedCount(cs[..i + 1])))
      == if Named(cs[i]) then Put(d, cs[i].name.value, Token(from + NamedCount(cs[..i]))) else d
  {
    assert cs[..i + 1][..i] == cs[..i] && cs[..i + 1][i] == cs[i];
    var m, m' := NamedCount(cs[..i]), NamedCount(cs[..i + 1]);
    assert Tokens(from, m')[..m] == Tokens(from, m);
  }

  /** The nested `forEach` that pushes one link per (area, chore name) pair. */
  method BuildLinks(areas: Rec<seq<string>>, ad: Rec<string>, cd: Rec<string>) returns (links: seq<Row>)
    ensures links == Links(areas, ad, cd)
  {
    links := [];
    var i := 0;
    while i < |areas|
      invariant 0 <= i <= |areas|
      invariant links == Links(areas[..i], ad, cd)
    {
      var (areaName, chores) := areas[i];
      var j := 0;
      while j < |chores|
        invariant 0 <= j <= |chores|
        invariant links == Links(areas[..i], ad, cd) + EntryLinks((areaName, chores[..j]), ad, cd)
      {
        assert EntryLinks((areaName, chores[..j + 1]), ad, cd)
               == EntryLinks((areaName, chores[..j]), ad, cd) + [LinkRow(Get(ad, areaName), Get(cd, chores[j]))];
        links := links + [LinkRow(Get(ad, areaName), Get(cd, chores[j]))];
        j := j + 1;
      }
      assert chores[..j] == chores;
      assert areas[..i + 1][..i] == areas[..i];
      i := i + 1;
    }
    assert areas[..i] == areas;
  }

  // -------------------------------------------------------------- inserts

  datatype Insert = Insert(table: Table, rows: seq<Row>)

  /** The household insert always runs; the others only when they have rows. */
  function StepFor(t: Table, rows: seq<Row>): seq<Insert>
  {
    if t != Households && rows == [] then [] else [Insert(t, rows)]
  }

  /** The inserts of a plan, in the order `action` issues them. */
  function Steps(p: Plan): seq<Insert>
  {
    StepFor(Households, [p.household])
    + (StepFor(Areas, p.areaRows) + (StepFor(Chores, p.choreRows) + StepFor(AreasToChores, p.links)))
  }

  function Rank(t: Table): nat
  {
    match t
    case Households => 0
    case Areas => 1
    case Chores => 2
    case AreasToChores => 3
  }

  function RowsOf(p: Plan, t: Table): seq<Row>
  {
    match t
    case Households => [p.household]
    case Areas => p.areaRows
    case Chores => p.choreRows
    case AreasToChores => p.links
  }

  /**
   * The inserts run household, areas, chores, links; each carries the
   * plan's rows for its table, none is empty, and a table is inserted into
   * exactly when it has rows.
   */
  lemma StepsShape(p: Plan)
    ensures Steps(p) != [] && Steps(p)[0] == Insert(Households, [p.household])
    ensures forall i, j :: 0 <= i < j < |Steps(p)| ==> Rank(Steps(p)[i].table) < Rank(Steps(p)[j].table)
    ensures forall i :: 0 <= i < |Steps(p)| ==> Steps(p)[i].rows == RowsOf(p, Steps(p)[i].table) != []
    ensures forall t :: (exists i :: 0 <= i < |Steps(p)| && Steps(p)[i].table == t) <==> RowsOf(p, t) != []
  {
    StepsOrdered(p);
    StepsTables(p);
  }

  /** Steps go households, areas, chores, links, each with that table's rows. */
  lemma StepsOrdered(p: Plan)
    ensures Steps(p) != [] && Steps(p)[0] == Insert(Households, [p.household])
    ensures forall i, j :: 0 <= i < j < |Steps(p)| ==> Rank(Steps(p)[i].table) < Rank(Steps(p)[j].table)
    ensures forall i :: 0 <= i < |Steps(p)| ==> Steps(p)[i].rows == RowsOf(p, Steps(p)[i].table) != []
  {
    var h, a, c, l := StepFor(Households, [p.household]), StepFor(Areas, p.areaRows), StepFor(Chores, p.choreRows), StepFor(AreasToChores, p.links);
    RankedJoin(c, l, 3);
    RankedJoin(a, c + l, 2);
    RankedJoin(h, a + (c + l), 1);
    StepsRows(p);
  }

  /** The ranks of `xs` increase strictly. */
  predicate Ranked(xs: seq<Insert>)
  {
    forall i, j :: 0 <= i < j < |xs| ==> Rank(xs[i].table) < Rank(xs[j].table)
  }

  /**
   * An insert of rank `r - 1` or none, followed by a ranked run of ranks at
   * least `r`, is a ranked run of ranks at least `r - 1`.
   */
  lemma RankedJoin(xs: seq<Insert>, ys: seq<Insert>, r: nat)
    requires 1 <= r && |xs| <= 1 && Ranked(ys)
    requires forall i :: 0 <= i < |xs| ==> Rank(xs[i].table) == r - 1
    requires forall j :: 0 <= j < |ys| ==> r <= Rank(ys[j].table)
    ensures Ranked(xs + ys)
    ensures forall k :: 0 <= k < |xs + ys| ==> r - 1 <= Rank((xs + ys)[k].table)
  {
    var zs := xs + ys;
    forall i, j | 0 <= i < j < |zs| ensures Rank(zs[i].table) < Rank(zs[j].table) {
      assert zs[j] == ys[j - |xs|];
      if i < |xs| {
        assert zs[i] == xs[i];
      } else {
        assert zs[i] == ys[i - |xs|];
      }
    }
    forall k | 0 <= k < |zs| ensures r - 1 <= Rank(zs[k].table) {
      if k < |xs| {
        assert zs[k] == xs[k];
      } else {
        assert zs[k] == ys[k - |xs|];
      }
    }
  }

  /** Each step carries its table's rows, and none is empty. */
  lemma StepsRows(p: Plan)
    ensures Steps(p) != [] && Steps(p)[0] == Insert(Households, [p.household])
    ensures forall i :: 0 <= i < |Steps(p)| ==> Steps(p)[i].rows == RowsOf(p, Steps(p)[i].table) != []
  {
    var h, a, c, l := StepFor(Households, [p.household]), StepFor(Areas, p.areaRows), StepFor(Chores, p.choreRows), StepFor(AreasToChores, p.links);
    var xs := Steps(p);
    forall i | 0 <= i < |xs| ensures xs[i].rows == RowsOf(p, xs[i].table) != [] {
      if i < 1 {
        assert xs[i] == h[i];
      } else if i < 1 + |a| {
        assert xs[i] == a[i - 1];
      } else if i < 1 + |a| + |c| {
        assert xs[i] == c[i - 1 - |a|];
      } else {
        assert xs[i] == l[i - 1 - |a| - |c|];
      }
    }
  }

  /** A table gets a step exactly when the plan has rows for it. */
  lemma StepsTables(p: Plan)
    ensures forall t :: (exists i :: 0 <= i < |Steps(p)| && Steps(p)[i].table == t) <==> RowsOf(p, t) != []
  {
    var xs := Steps(p);
    var a, c, l := StepFor(Areas, p.areaRows), StepFor(Chores, p.choreRows), StepFor(AreasToChores, p.links);
    assert xs == [Insert(Households, [p.household])] + (a + (c + l));
    forall t | RowsOf(p, t) != [] ensures exists i :: 0 <= i < |xs| && xs[i].table == t {
      match t
      case Households => assert xs[0].table == t;
      case Areas => assert xs[1].table == t;
      case Chores => assert xs[1 + |a|].table == t;
      case AreasToChores => assert xs[1 + |a| + |c|].table == t;
    }
  }

  /** The message `action` throws when the insert into `t` returns no rows. */
  function FailureMessage(t: Table): string
  {
    match t
    case Households => HouseholdFailure
    case Areas => AreasFailure
    case Chores => ChoresFailure
    case AreasToChores => LinksFailure
  }

  const HouseholdFailure := "Could not create household"
  const AreasFailure := "Could not create areas"
  const ChoresFailure := "Could not create chores"
  const LinksFailure := "Could not create areas to chores"

  /** The success body `{ succes: 'ok' }`, key spelled as in the source. */
  const SuccessBody: (string, string) := ("succes", "ok")

  /** What `action` answers: the 400 body, the success body, or an error thrown to the route's boundary. */
  datatype Response =
    | ValidationFailed(errors: FlatErrors, fields: RawFields)
    | Succeeded(body: (string, string))
    | Thrown(message: string)

  /** The status: 400 for the validation answer, 500 for an error reaching the route's boundary. */
  function Status(r: Response): nat
  {
    match r
    case ValidationFailed(_, _) => 400
    case Succeeded(_) => 200
    case Thrown(_) => 500
  }

  /** The inserts attempted: all of them, up to and including the first that a table refuses. */
  function Attempted(xs: seq<Insert>, refuses: set<Table>): seq<Insert>
  {
    if xs == [] then []
    else if xs[0].table in refuses then [xs[0]]
    else [xs[0]] + Attempted(xs[1..], refuses)
  }

  /** The answer: the first refused insert's message, or success when none is refused. */
  function Outcome(xs: seq<Insert>, refuses: set<Table>): (r: Response)
    ensures r == Succeeded(SuccessBody) || r.Thrown?
  {
    if xs == [] then Succeeded(SuccessBody)
    else if xs[0].table in refuses then Thrown(FailureMessage(xs[0].table))
    else Outcome(xs[1..], refuses)
  }

  function TablesOf(xs: seq<Insert>): seq<Table>
  {
    if xs == [] then [] else [xs[0].table] + TablesOf(xs[1..])
  }

  /** The rows stored into `t` by the inserts `xs`. */
  function Written(xs: seq<Insert>, refuses: set<Table>, t: Table): seq<Row>
  {
    if xs == [] then []
    else (if xs[0].table == t && t !in refuses then xs[0].rows else []) + Written(xs[1..], refuses, t)
  }

  /**
   * Short-circuit: the attempted inserts are a prefix of the plan's; all
   * but the last were accepted; the answer is an error exactly when some
   * insert is refused, and it is then the last attempted insert's message.
   */
  lemma {:induction false} ShortCircuit(xs: seq<Insert>, refuses: set<Table>)
    ensures Attempted(xs, refuses) <= xs
    ensures forall i :: 0 <= i < |Attempted(xs, refuses)| - 1 ==> Attempted(xs, refuses)[i].table !in refuses
    ensures Outcome(xs, refuses) == Succeeded(SuccessBody) ==> Attempted(xs, refuses) == xs
    ensures Outcome(xs, refuses).Thrown? ==>
      var a := Attempted(xs, refuses);
      a != [] && a[|a| - 1].table in refuses && Outcome(xs, refuses) == Thrown(FailureMessage(a[|a| - 1].table))
  {
    if xs != [] && xs[0].table !in refuses {
      ShortCircuit(xs[1..], refuses);
      var a := Attempted(xs[1..], refuses);
      assert Attempted(xs, refuses) == [xs[0]] + a;
      assert xs == [xs[0]] + xs[1..];
    }
  }

  /** The inserts end in an error exactly when one of them is refused, and never in a validation answer. */
  lemma {:induction false} RefusedStops(xs: seq<Insert>, refuses: set<Table>)
    ensures !Outcome(xs, refuses).ValidationFailed?
    ensures Outcome(xs, refuses).Thrown? <==> exists i :: 0 <= i < |xs| && xs[i].table in refuses
  {
    if xs != [] && xs[0].table !in refuses {
      RefusedStops(xs[1..], refuses);
      if exists i :: 0 <= i < |xs[1..]| && xs[1..][i].table in refuses {
        var i :| 0 <= i < |xs[1..]| && xs[1..][i].table in refuses;
        assert xs[i + 1].table in refuses;
      }
      if exists i :: 0 <= i < |xs| && xs[i].table in refuses {
        var i :| 0 <= i < |xs| && xs[i].table in refuses;
        assert xs[1..][i - 1].table in refuses;
      }
    }
  }

  lemma {:induction false} TablesOfConcat(xs: seq<Insert>, ys: seq<Insert>)
    ensures TablesOf(xs + ys) == TablesOf(xs) + TablesOf(ys)
  {
    if xs != [] {
      assert (xs + ys)[1..] == xs[1..] + ys;
      TablesOfConcat(xs[1..], ys);
    } else {
      assert xs + ys == ys;
    }
  }

  lemma Reassociate<T>(a: seq<T>, b: seq<T>, c: seq<T>)
    ensures a + (b + c) == (a + b) + c
  {
  }

  lemma {:induction false} WrittenConcat(xs: seq<Insert>, ys: seq<Insert>, refuses: set<Table>, t: Table)
    ensures Written(xs + ys, refuses, t) == Written(xs, refuses, t) + Written(ys, refuses, t)
  {
    if xs != [] {
      var h := if xs[0].table == t && t !in refuses then xs[0].rows else [];
      var a, b := Written(xs[1..], refuses, t), Written(ys, refuses, t);
      assert (xs + ys)[0] == xs[0] && (xs + ys)[1..] == xs[1..] + ys;
      WrittenConcat(xs[1..], ys, refuses, t);
      assert Written(xs + ys, refuses, t) == h + (a + b);
      Reassociate(h, a, b);
    } else {
      assert xs + ys == ys;
    }
  }

  /** The rows of every table, as they stand. */
  function Stored(db: Database): (m: Table -> seq<Row>)
    reads db
    ensures forall t :: m(t) == db.Contents(t)
  {
    var households, areas, chores, links := db.households, db.areas, db.chores, db.links;
    (t: Table) =>
      match t
      case Households => households
      case Areas => areas
      case Chores => chores
      case AreasToChores => links
  }

  /**
   * The database holds the rows `stored0` plus what the inserts `done`
   * wrote, and its log is `log0` followed by their tables.
   */
  ghost predicate Tracks(db: Database, log0: seq<Table>, stored0: Table -> seq<Row>, done: seq<Insert>)
    reads db
  {
    && db.log == log0 + TablesOf(done)
    && forall t :: db.Contents(t) == stored0(t) + Written(done, db.refuses, t)
  }

  lemma Regroup(rows: seq<Row>, xs: seq<Insert>, ys: seq<Insert>, refuses: set<Table>, t: Table)
    ensures (rows + Written(xs, refuses, t)) + Written(ys, refuses, t) == rows + Written(xs + ys, refuses, t)
  {
    WrittenConcat(xs, ys, refuses, t);
  }

  /** The answer and the attempts when `step` runs before `rest`. */
  lemma Advance(step: seq<Insert>, rest: seq<Insert>, refuses: set<Table>)
    requires |step| <= 1
    ensures step != [] && step[0].table in refuses ==>
      && Outcome(step + rest, refuses) == Thrown(FailureMessage(step[0].table))
      && Attempted(step + rest, refuses) == step
    ensures step == [] || step[0].table !in refuses ==>
      && Outcome(step + rest, refuses) == Outcome(rest, refuses)
      && Attempted(step + rest, refuses) == step + Attempted(rest, refuses)
  {
    if step != [] {
      assert (step + rest)[1..] == rest;
    } else {
      assert step + rest == rest;
    }
  }

  /**
   * With the inserts `done` accepted and `step + rest` still to run, the
   * run either stops at `step` or goes on with `rest`.
   */
  lemma StepTaken(all: seq<Insert>, done: seq<Insert>, step: seq<Insert>, rest: seq<Insert>, refuses: set<Table>)
    requires |step| <= 1
    requires Attempted(all, refuses) == done + Attempted(step + rest, refuses)
    requires Outcome(all, refuses) == Outcome(step + rest, refuses)
    ensures step != [] && step[0].table in refuses ==>
      && Outcome(all, refuses) == Thrown(FailureMessage(step[0].table))
      && Attempted(all, refuses) == done + step
    ensures step == [] || step[0].table !in refuses ==>
      && Outcome(all, refuses) == Outcome(rest, refuses)
      && Attempted(all, refuses) == (done + step) + Attempted(rest, refuses)
  {
    Advance(step, rest, refuses);
    var tail := Attempted(rest, refuses);
    Reassociate(done, step, tail);
  }

  /**
   * One guarded insert of `action`: `step` holds the insert, or nothing
   * when the source skips an empty one.  The answer says whether the run
   * goes on, that is whether no insert was refused.
   */
  method InsertStep(step: seq<Insert>, db: Database, ghost log0: seq<Table>, ghost stored0: Table -> seq<Row>,
                    ghost done: seq<Insert>) returns (accepted: bool)
    requires |step| <= 1 && (step != [] ==> step[0].rows != []) && Tracks(db, log0, stored0, done)
    modifies db
    ensures accepted <==> step == [] || step[0].table !in db.refuses
    ensures Tracks(db, log0, stored0, done + step)
  {
    accepted := true;
    if step != [] {
      var returned := db.Insert(step[0].table, step[0].rows);
      // `!returned || returned.length === 0`
      accepted := returned != [];
    }
    OneStep(step, db.refuses);
    Recorded(db, log0, stored0, done, step, old(db.log), old(Stored(db)));
  }

  /** What a single guarded insert, or none, logs and stores. */
  lemma OneStep(step: seq<Insert>, refuses: set<Table>)
    requires |step| <= 1
    ensures TablesOf(step) == if step == [] then [] else [step[0].table]
    ensures forall t :: Written(step, refuses, t) == if step != [] && step[0].table == t && t !in refuses then step[0].rows else []
  {
    if step != [] {
      assert step[1..] == [];
    }
  }

  /** The database after one more insert. */
  lemma Recorded(db: Database, log0: seq<Table>, stored0: Table -> seq<Row>, done: seq<Insert>,
                 step: seq<Insert>, log1: seq<Table>, stored1: Table -> seq<Row>)
    requires |step| <= 1
    requires log1 == log0 + TablesOf(done)
    requires forall t :: stored1(t) == stored0(t) + Written(done, db.refuses, t)
    requires db.log == log1 + TablesOf(step)
    requires forall t :: db.Contents(t) == stored1(t) + Written(step, db.refuses, t)
    ensures Tracks(db, log0, stored0, done + step)
  {
    TablesOfConcat(done, step);
    forall t ensures db.Contents(t) == stored0(t) + Written(done + step, db.refuses, t) {
      Regroup(stored0(t), done, step, db.refuses, t);
    }
  }

  /**
   * The four guarded inserts of `action`, in order, each throwing its
   * message when its table returns no rows.
   */
  method Persist(p: Plan, db: Database) returns (resp: Response)
    modifies db
    ensures resp == Outcome(Steps(p), db.refuses)
    ensures Tracks(db, old(db.log), old(Stored(db)), Attempted(Steps(p), db.refuses))
  {
    ghost var rs, log0, stored0 := db.refuses, db.log, Stored(db);
    var household, areas, chores, links := StepFor(Households, [p.household]), StepFor(Areas, p.areaRows),
                                           StepFor(Chores, p.choreRows), StepFor(AreasToChores, p.links);
    ghost var all := Steps(p);
    assert all == household + (areas + (chores + links));
    assert Attempted(all, rs) == [] + Attempted(all, rs);
    assert Tracks(db, log0, stored0, []);

    StepTaken(all, [], household, areas + (chores + links), rs);
    var ok := InsertStep(household, db, log0, stored0, []);
    if !ok {
      return Thrown(FailureMessage(Households));
    }
    ghost var done := [] + household;
    StepTaken(all, done, areas, chores + links, rs);
    ok := InsertStep(areas, db, log0, stored0, done);
    if !ok {
      return Thrown(FailureMessage(Areas));
    }
    done := done + areas;
    StepTaken(all, done, chores, links, rs);
    ok := InsertStep(chores, db, log0, stored0, done);
    if !ok {
      return Thrown(FailureMessage(Chores));
    }
    done := done + chores;
    assert links == links + [];
    StepTaken(all, done, links, [], rs);
    ok := InsertStep(links, db, log0, stored0, done);
    if !ok {
      return Thrown(FailureMessage(AreasToChores));
    }
    resp := Succeeded(SuccessBody);
  }

  // -------------------------------------------------------------- action

  /** The area ids are the first ids drawn. */
  lemma AreaIdsFirst(v: Onboarding, from: nat)
    ensures PlanAreas(v, Tokens(from, IdsNeeded(v))) == AreasDictionary(Keys(v.areas), Tokens(from, |Keys(v.areas)|))
  {
    var a := |v.areas|;
    TokensSplit(from, a, NamedCount(v.chores) + 1);
    assert Tokens(from, IdsNeeded(v))[..a] == Tokens(from, |Keys(v.areas)|);
  }

  /** The chore ids are drawn next, after the area ids. */
  lemma ChoreIdsNext(v: Onboarding, from: nat)
    ensures PlanChores(v, Tokens(from, IdsNeeded(v)))
            == ChoresDictionary(v.chores, Tokens(from + |Keys(v.areas)|, NamedCount(v.chores)))
  {
    var a, c := |v.areas|, NamedCount(v.chores);
    TokensSplit(from, a, c + 1);
    TokensSplit(from + a, c, 1);
    assert Tokens(from, a + c + 1)[a..a + c] == Tokens(from, a + c + 1)[a..][..c];
    assert Tokens(from, IdsNeeded(v))[a..a + c] == Tokens(from + |Keys(v.areas)|, c);
  }

  /** The rows built from the dictionaries and the household id, each drawn in call order, are the plan's. */
  lemma PlanBuilt(v: Onboarding, from: nat, k: nat, householdId: string, ad: Rec<string>, cd: Rec<string>, links: seq<Row>)
    requires ad == AreasDictionary(Keys(v.areas), Tokens(from, |Keys(v.areas)|))
    requires cd == ChoresDictionary(v.chores, Tokens(from + |Keys(v.areas)|, NamedCount(v.chores)))
    requires k == from + |Keys(v.areas)| + NamedCount(v.chores) && householdId == Token(k)
    requires links == Links(v.areas, ad, cd)
    ensures Plan(HouseholdRow(householdId, v.householdName), AreaRows(ad, householdId), ChoreRows(cd), links)
      == PlanFor(v, Tokens(from, IdsNeeded(v)))
  {
    AreaIdsFirst(v, from);
    ChoreIdsNext(v, from);
  }

  /**
   * The rows `action` builds: the ids are drawn first (areas, named
   * chores, household, in that order), then the rows and the links are
   * assembled from the two dictionaries.
   */
  method BuildPlan(v: Onboarding, gen: IdSupply) returns (plan: Plan)
    modifies gen
    ensures gen.count == old(gen.count) + IdsNeeded(v)
    ensures plan == PlanFor(v, Tokens(old(gen.count), IdsNeeded(v)))
  {
    ghost var from := gen.count;
    var areasDictionary := BuildAreasDictionary(Keys(v.areas), gen);
    assert gen.count == from + |Keys(v.areas)|;
    var choresDictionary := BuildChoresDictionary(v.chores, gen);
    ghost var k := gen.count;
    assert k == from + |Keys(v.areas)| + NamedCount(v.chores);
    var householdId := gen.CreateId();
    var links := BuildLinks(v.areas, areasDictionary, choresDictionary);
    plan := Plan(HouseholdRow(householdId, v.householdName), AreaRows(areasDictionary, householdId),
                 ChoreRows(choresDictionary), links);
    PlanBuilt(v, from, k, householdId, areasDictionary, choresDictionary, links);
  }

  /**
   * `action`: validate; on failure answer 400 with the flattened issues and
   * the fields, calling nothing; otherwise build the plan and run its
   * inserts.  The answer is then the first refused insert's message, or
   * success; the database holds what the accepted inserts wrote.
   */
  method Action(fields: RawFields, gen: IdSupply, db: Database) returns (resp: Response)
    modifies gen, db
    ensures !OnboardingOk(fields) ==>
      && resp == ValidationFailed(Flatten(OnboardingIssues(fields)), fields)
      && gen.count == old(gen.count) && db.log == old(db.log)
      && forall t :: db.Contents(t) == old(db.Contents(t))
    ensures OnboardingOk(fields) ==>
      var v := ValidateOnboarding(fields).value;
      var steps := Steps(PlanFor(v, Tokens(old(gen.count), IdsNeeded(v))));
      && gen.count == old(gen.count) + IdsNeeded(v)
      && resp == Outcome(steps, db.refuses)
      && Tracks(db, old(db.log), old(Stored(db)), Attempted(steps, db.refuses))
  {
    var result := ValidateOnboarding(fields);
    if result.Failure? {
      resp := ValidationFailed(Flatten(result.error), fields);
      return;
    }
    resp := CreateHousehold(result.value, gen, db);
  }

  /** The part of `action` after validation: draw the ids, build the rows, run the inserts. */
  method CreateHousehold(v: Onboarding, gen: IdSupply, db: Database) returns (resp: Response)
    modifies gen, db
    ensures var steps := Steps(PlanFor(v, Tokens(old(gen.count), IdsNeeded(v))));
      && gen.count == old(gen.count) + IdsNeeded(v)
      && resp == Outcome(steps, db.refuses)
      && Tracks(db, old(db.log), old(Stored(db)), Attempted(steps, db.refuses))
  {
    var plan := BuildPlan(v, gen);
    resp := Persist(plan, db);
  }

  // ---------------------------------------------------- a worked example

  /** Two areas listing three chores, as the wizard submits them. */
  const DreamAreas: Rec<seq<string>> := [("Kitchen", ["Dishes", "Mop floor"]), ("Bathroom", ["Dust"])]

  const DreamRawChores := [RawChore(Some("Dishes"), None, None, None, None),
    RawChore(Some("Mop floor"), None, None, None, None), RawChore(Some("Dust"), None, None, None, None)]

  /** The same chores once validated: names only. */
  const DreamChores := [Chore(Some("Dishes"), None, None, None, None),
    Chore(Some("Mop floor"), None, None, None, None), Chore(Some("Dust"), None, None, None, None)]

  /** The submission for household `h`. */
  function DreamHouse(h: string): RawFields
  {
    RawFields(h, DreamAreas, DreamRawChores)
  }

  lemma DreamPartsValid()
    ensures AreasOk(DreamAreas) && ChoresOk(DreamRawChores)
  {
    assert AreaOk(DreamAreas[0]) && AreaOk(DreamAreas[1]);
  }

  /** Three different names take three ids and give three dictionary entries. */
  lemma DreamHouseChores(cids: seq<string>)
    requires |cids| == 3
    ensures NamedCount(DreamChores) == 3
    ensures |ChoresDictionary(DreamChores, cids)| == 3
  {
    var cs := DreamChores;
    assert cs[..2][..1] == cs[..1] && cs[..1][..0] == [] && cs[..1][0] == cs[0] && cs[..2][1] == cs[1];
    assert cs[..|cs| - 1] == cs[..2];
    assert NamedCount(cs[..1]) == 1 && NamedCount(cs[..2]) == 2;
    assert cids[..2][..1] == cids[..1] && cids[..1][..0] == [] && cids[..1][0] == cids[0] && cids[..2][1] == cids[1];
    assert cids[..|cids| - 1] == cids[..2];
    assert |"Dishes"| == 6 && |"Mop floor"| == 9 && |"Dust"| == 4;
    var d0 := ChoresDictionary(cs[..0], cids[..0]);
    assert d0 == [];
    var d1 := ChoresDictionary(cs[..1], cids[..1]);
    assert d1 == Put(d0, "Dishes", cids[0]);
    assert d1 == [("Dishes", cids[0])];
    var d2 := ChoresDictionary(cs[..2], cids[..2]);
    assert d2 == Put(d1, "Mop floor", cids[1]);
    assert d2 == [("Dishes", cids[0]), ("Mop floor", cids[1])];
    assert ChoresDictionary(cs, cids) == Put(d2, "Dust", cids[2]);
    assert Keys(d2) == ["Dishes", "Mop floor"];
    PutKeys(d2, "Dust", cids[2]);
  }

  /** The plan of the validated submission, counted table by table. */
  lemma DreamHouseRows(h: string, ids: seq<string>)
    requires |ids| == IdsNeeded(Onboarding(h, DreamAreas, DreamChores))
    ensures var p := PlanFor(Onboarding(h, DreamAreas, DreamChores), ids);
      |p.areaRows| == 2 && |p.choreRows| == 3 && |p.links| == 3
  {
    var w := Onboarding(h, DreamAreas, DreamChores);
    DreamHouseChores(ids[2..5]);
    PlanAreaRows(w, ids);
    LinksCount(w.areas, PlanAreas(w, ids), PlanChores(w, ids));
    assert w.areas[..1][..0] == [];
    assert ListedCount(w.areas[..1]) == 2;
  }

  lemma DreamHouseOk(h: string)
    requires 1 <= Utf16Length(h) <= 50
    ensures OnboardingOk(DreamHouse(h))
  {
    DreamPartsValid();
  }

  /** With a valid household name, validation keeps the name, the areas and the chore names. */
  lemma DreamHouseValidated(h: string)
    requires 1 <= Utf16Length(h) <= 50
    ensures OnboardingOk(DreamHouse(h))
    ensures var v := ValidateOnboarding(DreamHouse(h)).value;
      && v.householdName == h && v.areas == DreamAreas
      && |v.chores| == |DreamChores|
      && forall i :: 0 <= i < |v.chores| ==> v.chores[i].name == DreamChores[i].name
  {
    DreamHouseOk(h);
    DreamNamesAgree();
  }

  lemma DreamNamesAgree()
    ensures |DreamRawChores| == |DreamChores|
    ensures forall i :: 0 <= i < |DreamChores| ==> DreamRawChores[i].name == DreamChores[i].name
  {
  }

  /** A plan with rows for every table runs four inserts, and succeeds when nothing is refused. */
  lemma FourInserts(p: Plan)
    requires p.areaRows != [] && p.choreRows != [] && p.links != []
    ensures |Steps(p)| == 4 && Outcome(Steps(p), {}) == Succeeded(SuccessBody)
  {
    RefusedStops(Steps(p), {});
  }

  /**
   * Validated data with those two areas and three chore names, under any
   * household name, takes six ids.  Its plan has one household row, two
   * area rows, three chore rows and three links, so four inserts run, and
   * a database that refuses nothing answers success.
   */
  lemma DreamHousePlanned(v: Onboarding, ids: seq<string>)
    requires v.areas == DreamAreas && |v.chores| == |DreamChores|
    requires forall i :: 0 <= i < |v.chores| ==> v.chores[i].name == DreamChores[i].name
    requires |ids| == 6
    ensures IdsNeeded(v) == 6
    ensures var p := PlanFor(v, ids);
      && |p.areaRows| == 2 && |p.choreRows| == 3 && |p.links| == 3
      && |Steps(p)| == 4 && Outcome(Steps(p), {}) == Succeeded(SuccessBody)
  {
    var w := Onboarding(v.householdName, DreamAreas, DreamChores);
    DreamHouseChores(ids[2..5]);
    PlanNamesOnly(w, v, ids);
    DreamHouseRows(v.householdName, ids);
    FourInserts(PlanFor(v, ids));
  }

  /**
   * With a household name of the wrong length the same submission is
   * rejected: the flattened errors file one message under `householdName`,
   * the schema's minimum or maximum one, and nothing under any other field.
   */
  lemma BadHouseholdRejected(h: string)
    requires !(1 <= Utf16Length(h) <= 50)
    ensures !OnboardingOk(DreamHouse(h))
    ensures Flatten(OnboardingIssues(DreamHouse(h))).fieldErrors.Keys == {HouseholdNameField}
    ensures Under(Flatten(OnboardingIssues(DreamHouse(h))), HouseholdNameField)
            == [if h == [] then NameTooShort else NameTooLong]
  {
    DreamPartsValid();
    HouseholdNameOnly(DreamHouse(h));
  }
}
