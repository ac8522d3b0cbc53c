/**
 Family assignment of app/laptops/family_service.py: resolving a new laptop's family, moving
 laptops between families and grouping the unassigned ones, over a table of laptops by id.
 */
module Families {
  import opened Common

  type Id = nat
  type FamilyId = nat

  /** Product names and the seed keys computed from them. */
  type Name(==)
  type Key(==,!new)

  /** One laptop row; `family` is null while nobody has established it. */
  datatype Laptop = Laptop(name: Name, brand: nat, family: Option<FamilyId>)

  datatype Family = Family(brand: nat, key: Key, verified: bool)

  type Table = map<Id, Laptop>

  /** The families of the assigned laptops with this seed key, one of them left out of account. */
  function FamiliesOfKey(t: Table, keyOf: Name -> Key, key: Key, excluded: Option<Id>): set<FamilyId> {
    set id | id in t && t[id].family.Some? && keyOf(t[id].name) == key && excluded != Some(id) :: t[id].family.value
  }

  /** The families that have members. */
  function Populated(t: Table): set<FamilyId> {
    set id | id in t && t[id].family.Some? :: t[id].family.value
  }

  function Unassigned(t: Table): set<Id> {
    set id | id in t && t[id].family.None?
  }

  /** The unassigned laptops whose key straddles two or more families. */
  function Straddling(t: Table, keyOf: Name -> Key): set<Id> {
    set id | id in t && t[id].family.None? && |FamiliesOfKey(t, keyOf, keyOf(t[id].name), None)| > 1
  }

  /** The keys of the unassigned laptops that no assigned laptop shares. */
  function OrphanKeys(t: Table, keyOf: Name -> Key): set<Key> {
    set id | id in t && t[id].family.None?
        && FamiliesOfKey(t, keyOf, keyOf(t[id].name), None) == {} :: keyOf(t[id].name)
  }

  function Moved(t: Table, ids: set<Id>, target: Option<FamilyId>): Table {
    map id | id in t :: if id in ids then t[id].(family := target) else t[id]
  }

  /** Where one laptop belongs once the families of `created` exist. */
  ghost predicate IsPlaced(t: Table, keyOf: Name -> Key, created: map<Key, FamilyId>, id: Id, family: Option<FamilyId>)
    requires id in t
  {
    var key := keyOf(t[id].name);
    var existing := FamiliesOfKey(t, keyOf, key, None);
    if t[id].family.Some? then family == t[id].family
    else if |existing| > 1 then family == None
    else if |existing| == 1 then family.Some? && existing == {family.value}
    else key in created && family == Some(created[key])
  }

  /** What grouping the unassigned laptops of t leaves: `created` is the new family of each orphan key. */
  ghost predicate Regrouped(t: Table, after: Table, keyOf: Name -> Key, created: map<Key, FamilyId>) {
    && after.Keys == t.Keys
    && created.Keys == OrphanKeys(t, keyOf)
    && forall id :: id in t ==> && after[id] == t[id].(family := after[id].family)
                                && IsPlaced(t, keyOf, created, id, after[id].family)
  }

  datatype MoveReport = MoveReport(moved: nat, stayed: nat, missing: seq<Id>, emptied: set<FamilyId>)
  datatype RegroupReport = RegroupReport(created: nat, placed: nat, leftNull: nat)

  class FamilyStore {
    const keyOf: Name -> Key
    var laptops: Table
    var families: map<FamilyId, Family>

    constructor (keyOf: Name -> Key)
      ensures this.keyOf == keyOf && laptops == map[] && families == map[]
    {
      this.keyOf := keyOf;
      laptops, families := map[], map[];
    }

    /** Every family id a laptop holds is a row of the family table. */
    ghost predicate Valid()
      reads this
    {
      Populated(laptops) <= families.Keys
    }

    method ResolveFamilyId(name: Name, excluded: Option<Id>) returns (family: Option<FamilyId>)
      ensures var found := FamiliesOfKey(laptops, keyOf, keyOf(name), excluded);
              if |found| == 1 then family.Some? && found == {family.value} else family == None
    {
      var key := keyOf(name);
      var found: set<FamilyId> := {};
      var left := laptops.Keys;
      while left != {}
        invariant left <= laptops.Keys
        invariant found == FamiliesOfKey(laptops - left, keyOf, key, excluded)
        decreases |left|
      {
        var id :| id in left;
        if laptops[id].family.Some? && excluded != Some(id) && keyOf(laptops[id].name) == key {
          found := found + {laptops[id].family.value};
        }
        OneMoreRow(laptops, left, id, keyOf, key, excluded);
        left := left - {id};
      }
      assert laptops - {} == laptops;
      if |found| == 1 {
        var f :| f in found;
        OnlyElement(found, f);
        return Some(f);
      }
      return None;
    }

    /** Moves every laptop of `ids`, or, when one of them is unknown, none. */
    method MoveLaptops(ids: seq<Id>, target: Option<FamilyId>) returns (report: MoveReport)
      requires Valid() && (target.Some? ==> target.value in families)
      modifies this`laptops
      ensures Valid()
      ensures (forall id :: id in report.missing <==> id in ids && id !in old(laptops)) && Distinct(report.missing)
      ensures report.missing != [] ==> laptops == old(laptops) && report == MoveReport(0, 0, report.missing, {})
      ensures report.missing == [] ==>
                && laptops == Moved(old(laptops), Elements(ids), target)
                && report.moved == |Outside(old(laptops), Elements(ids), target)|
                && report.moved + report.stayed == |Elements(ids)|
                && report.emptied == Populated(old(laptops)) - Populated(laptops)
    {
      var wanted := WithoutRepeats(ids);
      var missing := [];
      for i := 0 to |wanted|
        invariant forall id :: id in missing <==> id in wanted[..i] && id !in laptops
        invariant Distinct(missing)
      {
        if wanted[i] !in laptops {
          missing := missing + [wanted[i]];
        }
      }
      assert wanted[..|wanted|] == wanted;
      if missing != [] {
        return MoveReport(0, 0, missing, {});
      }
      ghost var before := laptops;
      var sources := {};
      for i := 0 to |wanted|
        invariant forall f :: f in sources <==> exists j :: 0 <= j < i && laptops[wanted[j]].family == Some(f)
      {
        if laptops[wanted[i]].family.Some? {
          sources := sources + {laptops[wanted[i]].family.value};
        }
      }
      if target.Some? {
        sources := sources - {target.value};
      }
      var moved, stayed := MoveAll(wanted, target);
      var emptied := Emptied(sources);
      EmptiedAreSources(before, wanted, target, sources);
      DistinctCount(wanted, |wanted|);
      assert wanted[..|wanted|] == wanted;
      report := MoveReport(moved, stayed, [], emptied);
    }

    method MoveAll(wanted: seq<Id>, target: Option<FamilyId>) returns (moved: nat, stayed: nat)
      requires Distinct(wanted) && forall id :: id in wanted ==> id in laptops
      modifies this`laptops
      ensures laptops == Moved(old(laptops), Elements(wanted), target)
      ensures moved + stayed == |wanted|
      ensures moved == |Outside(old(laptops), Elements(wanted), target)|
    {
      moved, stayed := 0, 0;
      for i := 0 to |wanted|
        invariant laptops == Moved(old(laptops), Elements(wanted[..i]), target)
        invariant moved + stayed == i && moved == |Outside(old(laptops), Elements(wanted[..i]), target)|
      {
        var id := wanted[i];
        assert id !in wanted[..i];
        assert Elements(wanted[..i + 1]) == Elements(wanted[..i]) + {id};
        OneMoreOutside(old(laptops), Elements(wanted[..i]), id, target);
        OneMoreMoved(old(laptops), Elements(wanted[..i]), id, target);
        if laptops[id].family == target {
          stayed := stayed + 1;
        } else {
          laptops := laptops[id := laptops[id].(family := target)];
          moved := moved + 1;
        }
      }
      assert wanted[..|wanted|] == wanted;
    }

    /** The families among `sources` that no laptop is left in. */
    method Emptied(sources: set<FamilyId>) returns (emptied: set<FamilyId>)
      ensures emptied == sources - Populated(laptops)
    {
      var remaining: set<FamilyId> := {};
      var left := laptops.Keys;
      while left != {}
        invariant left <= laptops.Keys
        invariant remaining == Populated(laptops - left)
        decreases |left|
      {
        var id :| id in left;
        if laptops[id].family.Some? {
          remaining := remaining + {laptops[id].family.value};
        }
        OneMorePopulated(laptops, left, id);
        left := left - {id};
      }
      assert laptops - {} == laptops;
      emptied := sources - remaining;
    }

    /** One pass over the assigned laptops: the families of each key. */
    method FamiliesByKey() returns (byKey: map<Key, set<FamilyId>>)
      ensures HoldsFamilies(byKey, laptops, keyOf)
    {
      byKey := map[];
      var left := laptops.Keys;
      assert laptops - left == map[];
      while left != {}
        invariant left <= laptops.Keys && HoldsFamilies(byKey, laptops - left, keyOf)
        decreases |left|
      {
        var id :| id in left;
        OneMoreFamily(byKey, laptops, left, id, keyOf);
        if laptops[id].family.Some? {
          var key := keyOf(laptops[id].name);
          byKey := byKey[key := FamiliesIn(byKey, key) + {laptops[id].family.value}];
        }
        left := left - {id};
      }
      assert laptops - {} == laptops;
    }

    /** The unassigned laptops, grouped by key. */
    method GroupUnassigned() returns (groups: map<Key, set<Id>>)
      ensures HoldsGroups(groups, laptops, keyOf)
    {
      groups := map[];
      var left := laptops.Keys;
      assert laptops - left == map[];
      while left != {}
        invariant left <= laptops.Keys && HoldsGroups(groups, laptops - left, keyOf)
        decreases |left|
      {
        var id :| id in left;
        OneMoreMember(groups, laptops, left, id, keyOf);
        if laptops[id].family.None? {
          var key := keyOf(laptops[id].name);
          groups := groups[key := MembersIn(groups, key) + {id}];
        }
        left := left - {id};
      }
      assert laptops - {} == laptops;
    }

    method AssignAll(members: set<Id>, target: FamilyId)
      requires members <= laptops.Keys
      modifies this`laptops
      ensures laptops == Moved(old(laptops), members, Some(target))
    {
      var left := members;
      while left != {}
        invariant left <= members
        invariant laptops == Moved(old(laptops), members - left, Some(target))
        decreases |left|
      {
        var id :| id in left;
        laptops := laptops[id := laptops[id].(family := Some(target))];
        left := left - {id};
      }
      assert members - {} == members;
    }

    /** A new family for a key; its id is one the table has never used. */
    method CreateFamily(key: Key, brand: nat) returns (id: FamilyId)
      modifies this`families
      ensures id !in old(families) && families == old(families)[id := Family(brand, key, false)]
    {
      ghost var n := Bound(families.Keys);
      assert n !in families;
      id :| id !in families;
      families := families[id := Family(brand, key, false)];
    }

    /** Adopts the one family the key has, founds one when it has none, and keeps out of it when it has more. */
    method PlaceGroup(key: Key, members: set<Id>, existing: set<FamilyId>) returns (target: Option<FamilyId>)
      requires members != {} && members <= laptops.Keys
      modifies this`laptops, this`families
      ensures Chosen(existing, target) && Founded(existing, old(families), families, old(laptops), members, key, target)
      ensures laptops == if target.Some? then Moved(old(laptops), members, target) else old(laptops)
    {
      if |existing| > 1 {
        return None;
      }
      var id;
      if |existing| == 1 {
        id :| id in existing;
        OnlyElement(existing, id);
      } else {
        var first :| first in members;
        id := CreateFamily(key, laptops[first].brand);
      }
      AssignAll(members, id);
      target := Some(id);
    }

    /** Places one group and records the family it founds, if any. */
    method PlaceNext(key: Key, members: set<Id>, existing: set<FamilyId>, ghost t: Table,
        ghost known: map<FamilyId, Family>, ghost before: map<Key, FamilyId>, ghost pending: set<Key>)
      returns (target: Option<FamilyId>, ghost created: map<Key, FamilyId>)
      requires Progress(t, laptops, known, families, keyOf, before, pending) && key in pending
      requires members == GroupOf(t, keyOf, key) && members != {} && existing == FamiliesOfKey(t, keyOf, key, None)
      modifies this`laptops, this`families
      ensures Progress(t, laptops, known, families, keyOf, created, pending - {key})
      ensures target.None? <==> |existing| > 1
      ensures |created| == |before| + if existing == {} then 1 else 0
    {
      ghost var now, had := laptops, families;
      target := PlaceGroup(key, members, existing);
      created := if existing == {} then before[key := target.value] else before;
      OneGroupDone(t, now, laptops, known, had, families, keyOf, before, created, pending, key, existing, target);
    }

    /** Places one group and counts it. */
    method CountNext(key: Key, members: set<Id>, existing: set<FamilyId>, before: RegroupReport, ghost t: Table,
        ghost known: map<FamilyId, Family>, ghost had: map<Key, FamilyId>, ghost pending: set<Key>)
      returns (report: RegroupReport, ghost created: map<Key, FamilyId>)
      requires Progress(t, laptops, known, families, keyOf, had, pending) && key in pending
      requires members == GroupOf(t, keyOf, key) && members != {} && existing == FamiliesOfKey(t, keyOf, key, None)
      requires ReportSoFar(t, keyOf, had, pending, before)
      modifies this`laptops, this`families
      ensures Progress(t, laptops, known, families, keyOf, created, pending - {key})
      ensures ReportSoFar(t, keyOf, created, pending - {key}, report)
    {
      var target;
      target, created := PlaceNext(key, members, existing, t, known, had, pending);
      report := before;
      if target.None? {
        report := report.(leftNull := report.leftNull + |members|);
      } else {
        report := report.(created := report.created + if existing == {} then 1 else 0,
                          placed := report.placed + |members|);
      }
      GroupReported(t, keyOf, had, created, pending, key, before, report);
    }

    method PlaceGroups(byKey: map<Key, set<FamilyId>>, groups: map<Key, set<Id>>)
      returns (report: RegroupReport, ghost created: map<Key, FamilyId>)
      requires Valid() && HoldsFamilies(byKey, laptops, keyOf) && HoldsGroups(groups, laptops, keyOf)
      modifies this`laptops, this`families
      ensures Progress(old(laptops), laptops, old(families), families, keyOf, created, {})
      ensures ReportSoFar(old(laptops), keyOf, created, {}, report)
    {
      ghost var t, known := laptops, families;
      report := RegroupReport(0, 0, 0);
      created := map[];
      var pending := groups.Keys;
      NothingPlaced(t, keyOf, groups, known);
      NothingCounted(t, keyOf, groups);
      while pending != {}
        invariant pending <= groups.Keys
        invariant Progress(t, laptops, known, families, keyOf, created, pending)
        invariant ReportSoFar(t, keyOf, created, pending, report)
        decreases |pending|
      {
        var key :| key in pending;
        assert groups[key] == MembersIn(groups, key);
        report, created := CountNext(key, groups[key], FamiliesIn(byKey, key), report, t, known, created, pending);
        pending := pending - {key};
      }
    }

    /**
     Groups every unassigned laptop, key by key, and touches no other. `created` is the new
     family of each key that had none.
     */
    method RegroupUnassigned() returns (report: RegroupReport, ghost created: map<Key, FamilyId>)
      requires Valid()
      modifies this`laptops, this`families
      ensures Valid() && Regrouped(old(laptops), laptops, keyOf, created)
      ensures NewFamilies(old(families), families, created)
      ensures report.created == |created| && report.leftNull == |Straddling(old(laptops), keyOf)|
      ensures report.placed + report.leftNull == |Unassigned(old(laptops))|
    {
      ghost var t := laptops;
      var byKey := FamiliesByKey();
      var groups := GroupUnassigned();
      report, created := PlaceGroups(byKey, groups);
      AllPlaced(t, laptops, keyOf, created);
      AllCounted(t, keyOf);
    }
  }

  function Elements(ids: seq<Id>): set<Id> {
    set id | id in ids
  }

  ghost predicate Distinct<T>(s: seq<T>) {
    forall i, j :: 0 <= i < j < |s| ==> s[i] != s[j]
  }

  /** The laptops of `ids` that are not in the target family. */
  function Outside(t: Table, ids: set<Id>, target: Option<FamilyId>): set<Id> {
    set id | id in ids && id in t && t[id].family != target
  }

  lemma OneMoreMoved(t: Table, ids: set<Id>, id: Id, target: Option<FamilyId>)
    requires id !in ids && id in t
    ensures Moved(t, ids, target)[id] == t[id]
    ensures Moved(t, ids + {id}, target) == Moved(t, ids, target)[id := t[id].(family := target)]
    ensures t[id].family == target ==> Moved(t, ids + {id}, target) == Moved(t, ids, target)
  {
    assert t[id].family == target ==> t[id].(family := target) == t[id];
  }

  lemma OneMoreOutside(t: Table, ids: set<Id>, id: Id, target: Option<FamilyId>)
    requires id !in ids && id in t
    ensures |Outside(t, ids + {id}, target)| == |Outside(t, ids, target)| + if t[id].family != target then 1 else 0
  {
    assert Outside(t, ids + {id}, target) == Outside(t, ids, target) + if t[id].family != target then {id} else {};
  }

  /** The first occurrence of each id, in order. */
  method WithoutRepeats(ids: seq<Id>) returns (out: seq<Id>)
    ensures Distinct(out) && Elements(out) == Elements(ids) && forall id :: id in out <==> id in ids
  {
    out := [];
    for i := 0 to |ids|
      invariant Distinct(out) && Elements(out) == Elements(ids[..i])
    {
      assert Elements(ids[..i + 1]) == Elements(ids[..i]) + {ids[i]};
      if ids[i] !in out {
        assert Elements(out + [ids[i]]) == Elements(out) + {ids[i]};
        out := out + [ids[i]];
      } else {
        assert ids[i] in Elements(out);
      }
    }
    assert ids[..|ids|] == ids;
    forall id
      ensures id in out <==> id in ids
    {
      assert id in Elements(out) <==> id in Elements(ids);
    }
  }

  lemma OnlyElement<T>(s: set<T>, x: T)
    requires |s| == 1 && x in s
    ensures s == {x}
  {
    assert |s - {x}| == 0;
  }

  lemma OneMoreRow(t: Table, left: set<Id>, id: Id, keyOf: Name -> Key, key: Key, excluded: Option<Id>)
    requires id in left && left <= t.Keys
    ensures FamiliesOfKey(t - (left - {id}), keyOf, key, excluded) ==
            FamiliesOfKey(t - left, keyOf, key, excluded) +
            if t[id].family.Some? && excluded != Some(id) && keyOf(t[id].name) == key then {t[id].family.value} else {}
  {
    var less, more := t - left, t - (left - {id});
    assert forall k :: k in more <==> k in less || k == id;
    assert forall k :: k in less ==> less[k] == t[k] == more[k];
    if t[id].family.Some? && excluded != Some(id) && keyOf(t[id].name) == key {
      assert more[id].family.value in FamiliesOfKey(more, keyOf, key, excluded);
    }
  }

  lemma OneMorePopulated(t: Table, left: set<Id>, id: Id)
    requires id in left && left <= t.Keys
    ensures Populated(t - (left - {id})) ==
            Populated(t - left) + if t[id].family.Some? then {t[id].family.value} else {}
  {
    var less, more := t - left, t - (left - {id});
    assert forall k :: k in more <==> k in less || k == id;
    assert forall k :: k in less ==> less[k] == t[k] == more[k];
    if t[id].family.Some? {
      assert more[id].family.value in Populated(more);
    }
  }

  /** Only a family some moved laptop left can have lost its last member. */
  lemma EmptiedAreSources(t: Table, wanted: seq<Id>, target: Option<FamilyId>, sources: set<FamilyId>)
    requires forall id :: id in wanted ==> id in t
    requires forall f :: f in sources <==>
               target != Some(f) && exists j :: 0 <= j < |wanted| && t[wanted[j]].family == Some(f)
    ensures var after := Moved(t, Elements(wanted), target);
            sources - Populated(after) == Populated(t) - Populated(after)
  {
    var after := Moved(t, Elements(wanted), target);
    forall f | f in Populated(t) && f !in Populated(after)
      ensures f in sources
    {
      var id :| id in t && t[id].family == Some(f);
      assert after[id].family != Some(f);
      assert id in wanted;
      var j :| 0 <= j < |wanted| && wanted[j] == id;
    }
  }

  lemma ElementsOfMore(ids: seq<Id>, id: Id)
    ensures Elements(ids + [id]) == Elements(ids) + {id}
    ensures id !in ids ==> |Elements(ids + [id])| == |Elements(ids)| + 1
  {
    assert Elements(ids + [id]) == Elements(ids) + {id};
  }

  lemma {:induction false} DistinctCount(ids: seq<Id>, n: nat)
    requires n <= |ids| && Distinct(ids)
    ensures |Elements(ids[..n])| == n
  {
    if n == 0 {
    } else {
      var m := n - 1;
      DistinctCount(ids, m);
      assert ids[..n] == ids[..m] + [ids[m]];
      ElementsOfMore(ids[..m], ids[m]);
      assert ids[m] !in ids[..m];
    }
  }

  // --- Grouping ----------------------------------------------------------------------------

  function FamiliesIn(byKey: map<Key, set<FamilyId>>, key: Key): set<FamilyId> {
    if key in byKey then byKey[key] else {}
  }

  function MembersIn(groups: map<Key, set<Id>>, key: Key): set<Id> {
    if key in groups then groups[key] else {}
  }

  ghost predicate HoldsFamilies(byKey: map<Key, set<FamilyId>>, t: Table, keyOf: Name -> Key) {
    forall k :: FamiliesIn(byKey, k) == FamiliesOfKey(t, keyOf, k, None)
  }

  ghost predicate HoldsGroups(groups: map<Key, set<Id>>, t: Table, keyOf: Name -> Key) {
    && (forall k :: k in groups ==> groups[k] != {})
    && forall k :: MembersIn(groups, k) == GroupOf(t, keyOf, k)
  }

  /** The unassigned laptops with this key. */
  function GroupOf(t: Table, keyOf: Name -> Key, key: Key): set<Id> {
    set id | id in t && t[id].family.None? && keyOf(t[id].name) == key
  }

  /** The unassigned laptops whose key is no longer pending. */
  function DoneWith(t: Table, keyOf: Name -> Key, pending: set<Key>): set<Id> {
    set id | id in t && t[id].family.None? && keyOf(t[id].name) !in pending
  }

  /** Ids never run out. */
  lemma {:induction false} Bound(ids: set<FamilyId>) returns (n: nat)
    ensures forall id :: id in ids ==> id < n
    decreases ids
  {
    if ids == {} {
      n := 0;
    } else {
      var id :| id in ids;
      var m := Bound(ids - {id});
      n := if id < m then m else id + 1;
      assert forall j :: j in ids ==> j == id || j in ids - {id};
    }
  }

  /** The family table grew by one unverified family per created key. */
  ghost predicate NewFamilies(before: map<FamilyId, Family>, after: map<FamilyId, Family>,
      created: map<Key, FamilyId>) {
    && after.Keys == before.Keys + created.Values && before.Keys !! created.Values
    && (forall f :: f in before ==> after[f] == before[f])
    && (forall k :: k in created ==> after[created[k]].key == k && !after[created[k]].verified)
  }

  /** The rows once every key but the pending ones is done. */
  ghost predicate Grouped(t: Table, now: Table, keyOf: Name -> Key, created: map<Key, FamilyId>, pending: set<Key>) {
    && now.Keys == t.Keys
    && created.Keys == OrphanKeys(t, keyOf) - pending
    && forall id :: id in t ==> RowIsDone(t, now, keyOf, created, pending, id)
  }

  ghost predicate RowIsDone(t: Table, now: Table, keyOf: Name -> Key, created: map<Key, FamilyId>, pending: set<Key>,
      id: Id)
    requires id in t && id in now
  {
    && now[id] == t[id].(family := now[id].family)
    && if t[id].family.None? && keyOf(t[id].name) !in pending then IsPlaced(t, keyOf, created, id, now[id].family)
       else now[id] == t[id]
  }

  lemma OneMoreFamily(byKey: map<Key, set<FamilyId>>, t: Table, left: set<Id>, id: Id, keyOf: Name -> Key)
    requires id in left && left <= t.Keys && HoldsFamilies(byKey, t - left, keyOf)
    ensures var key := keyOf(t[id].name);
            var after := if t[id].family.None? then byKey
                         else byKey[key := FamiliesIn(byKey, key) + {t[id].family.value}];
            HoldsFamilies(after, t - (left - {id}), keyOf)
  {
    var key := keyOf(t[id].name);
    var after := if t[id].family.Some? then byKey[key := FamiliesIn(byKey, key) + {t[id].family.value}] else byKey;
    forall k
      ensures FamiliesIn(after, k) == FamiliesOfKey(t - (left - {id}), keyOf, k, None)
    {
      OneMoreRow(t, left, id, keyOf, k, None);
    }
  }

  lemma OneMoreInGroup(t: Table, left: set<Id>, id: Id, keyOf: Name -> Key, key: Key)
    requires id in left && left <= t.Keys
    ensures GroupOf(t - (left - {id}), keyOf, key) ==
            GroupOf(t - left, keyOf, key) + if t[id].family.None? && keyOf(t[id].name) == key then {id} else {}
  {
    var less, more := t - left, t - (left - {id});
    assert forall k :: k in more <==> k in less || k == id;
  }

  lemma OneMoreMember(groups: map<Key, set<Id>>, t: Table, left: set<Id>, id: Id, keyOf: Name -> Key)
    requires id in left && left <= t.Keys && HoldsGroups(groups, t - left, keyOf)
    ensures var key := keyOf(t[id].name);
            var after := if t[id].family.None? then groups[key := MembersIn(groups, key) + {id}] else groups;
            HoldsGroups(after, t - (left - {id}), keyOf)
  {
    var key := keyOf(t[id].name);
    var after := if t[id].family.None? then groups[key := MembersIn(groups, key) + {id}] else groups;
    forall k
      ensures MembersIn(after, k) == GroupOf(t - (left - {id}), keyOf, k)
    {
      OneMoreInGroup(t, left, id, keyOf, k);
    }
  }

  /** What the grouping has done to the rows and to the family table so far. */
  ghost predicate Progress(t: Table, now: Table, known: map<FamilyId, Family>, families: map<FamilyId, Family>,
      keyOf: Name -> Key, created: map<Key, FamilyId>, pending: set<Key>) {
    && Grouped(t, now, keyOf, created, pending)
    && NewFamilies(known, families, created)
    && Populated(now) <= families.Keys
  }

  ghost predicate Counted(t: Table, keyOf: Name -> Key, pending: set<Key>, placed: nat, leftNull: nat) {
    && leftNull == |Straddling(t, keyOf) * DoneWith(t, keyOf, pending)|
    && placed + leftNull == |DoneWith(t, keyOf, pending)|
  }

  ghost predicate ReportSoFar(t: Table, keyOf: Name -> Key, created: map<Key, FamilyId>, pending: set<Key>,
      report: RegroupReport) {
    report.created == |created| && Counted(t, keyOf, pending, report.placed, report.leftNull)
  }

  lemma EveryGroupIsPending(t: Table, keyOf: Name -> Key, groups: map<Key, set<Id>>, id: Id)
    requires HoldsGroups(groups, t, keyOf) && id in t && t[id].family.None?
    ensures keyOf(t[id].name) in groups
  {
    assert id in GroupOf(t, keyOf, keyOf(t[id].name));
    assert MembersIn(groups, keyOf(t[id].name)) != {};
  }

  lemma NothingPlaced(t: Table, keyOf: Name -> Key, groups: map<Key, set<Id>>, families: map<FamilyId, Family>)
    requires Populated(t) <= families.Keys && HoldsGroups(groups, t, keyOf)
    ensures Progress(t, t, families, families, keyOf, map[], groups.Keys)
  {
    forall id | id in t && t[id].family.None?
      ensures keyOf(t[id].name) in groups
    {
      EveryGroupIsPending(t, keyOf, groups, id);
    }
    assert OrphanKeys(t, keyOf) - groups.Keys == {};
    assert Grouped(t, t, keyOf, map[], groups.Keys);
    assert NewFamilies(families, families, map[]);
  }

  lemma NothingCounted(t: Table, keyOf: Name -> Key, groups: map<Key, set<Id>>)
    requires HoldsGroups(groups, t, keyOf)
    ensures Counted(t, keyOf, groups.Keys, 0, 0)
  {
    forall id
      ensures id !in DoneWith(t, keyOf, groups.Keys)
    {
      if id in t && t[id].family.None? {
        EveryGroupIsPending(t, keyOf, groups, id);
      }
    }
    assert DoneWith(t, keyOf, groups.Keys) == {};
  }

  lemma GroupDone(t: Table, keyOf: Name -> Key, pending: set<Key>, key: Key)
    requires key in pending
    ensures |DoneWith(t, keyOf, pending - {key})| == |DoneWith(t, keyOf, pending)| + |GroupOf(t, keyOf, key)|
    ensures |Straddling(t, keyOf) * DoneWith(t, keyOf, pending - {key})| ==
            |Straddling(t, keyOf) * DoneWith(t, keyOf, pending)|
            + if |FamiliesOfKey(t, keyOf, key, None)| > 1 then |GroupOf(t, keyOf, key)| else 0
  {
    var before, after := DoneWith(t, keyOf, pending), DoneWith(t, keyOf, pending - {key});
    var group := GroupOf(t, keyOf, key);
    assert after == before + group && before !! group;
    var left := Straddling(t, keyOf);
    if |FamiliesOfKey(t, keyOf, key, None)| > 1 {
      assert group <= left;
      assert left * after == left * before + group;
    } else {
      assert left !! group;
      assert left * after == left * before;
    }
  }

  lemma LeftAsItWas(t: Table, now: Table, keyOf: Name -> Key, created: map<Key, FamilyId>, pending: set<Key>, key: Key)
    requires Grouped(t, now, keyOf, created, pending) && key in pending
    requires |FamiliesOfKey(t, keyOf, key, None)| > 1
    ensures Grouped(t, now, keyOf, created, pending - {key})
  {
    assert OrphanKeys(t, keyOf) - pending == OrphanKeys(t, keyOf) - (pending - {key});
  }

  lemma PlacedOneGroup(t: Table, now: Table, keyOf: Name -> Key, before: map<Key, FamilyId>,
      created: map<Key, FamilyId>, pending: set<Key>, key: Key, target: FamilyId)
    requires Grouped(t, now, keyOf, before, pending) && key in pending && GroupOf(t, keyOf, key) != {}
    requires var existing := FamiliesOfKey(t, keyOf, key, None);
             || (existing == {target} && created == before)
             || (existing == {} && created == before[key := target])
    ensures Grouped(t, Moved(now, GroupOf(t, keyOf, key), Some(target)), keyOf, created, pending - {key})
  {
    if FamiliesOfKey(t, keyOf, key, None) == {} {
      PlacedInNewFamily(t, now, keyOf, before, pending, key, target);
    } else {
      PlacedInOldFamily(t, now, keyOf, before, pending, key, target);
    }
  }

  lemma PlacedInOldFamily(t: Table, now: Table, keyOf: Name -> Key, created: map<Key, FamilyId>, pending: set<Key>,
      key: Key, target: FamilyId)
    requires Grouped(t, now, keyOf, created, pending) && key in pending && GroupOf(t, keyOf, key) != {}
    requires FamiliesOfKey(t, keyOf, key, None) == {target}
    ensures Grouped(t, Moved(now, GroupOf(t, keyOf, key), Some(target)), keyOf, created, pending - {key})
  {
    KeyIsDone(t, keyOf, pending, key);
    RowsAreDone(t, now, keyOf, created, created, pending, key, target);
  }

  lemma PlacedInNewFamily(t: Table, now: Table, keyOf: Name -> Key, before: map<Key, FamilyId>, pending: set<Key>,
      key: Key, target: FamilyId)
    requires Grouped(t, now, keyOf, before, pending) && key in pending && GroupOf(t, keyOf, key) != {}
    requires FamiliesOfKey(t, keyOf, key, None) == {}
    ensures Grouped(t, Moved(now, GroupOf(t, keyOf, key), Some(target)), keyOf, before[key := target], pending - {key})
  {
    KeyIsDone(t, keyOf, pending, key);
    RowsAreDone(t, now, keyOf, before, before[key := target], pending, key, target);
  }

  lemma RowsAreDone(t: Table, now: Table, keyOf: Name -> Key, before: map<Key, FamilyId>,
      created: map<Key, FamilyId>, pending: set<Key>, key: Key, target: FamilyId)
    requires now.Keys == t.Keys && key in pending
    requires forall id :: id in t ==> RowIsDone(t, now, keyOf, before, pending, id)
    requires forall k :: k in before && k != key ==> k in created && created[k] == before[k]
    requires var existing := FamiliesOfKey(t, keyOf, key, None);
             existing == {target} || (existing == {} && key in created && created[key] == target)
    ensures var after := Moved(now, GroupOf(t, keyOf, key), Some(target));
            forall id :: id in t ==> RowIsDone(t, after, keyOf, created, pending - {key}, id)
  {
    var after := Moved(now, GroupOf(t, keyOf, key), Some(target));
    forall id | id in t
      ensures RowIsDone(t, after, keyOf, created, pending - {key}, id)
    {
      assert RowIsDone(t, now, keyOf, before, pending, id);
      if id in GroupOf(t, keyOf, key) {
        GroupRowIsDone(t, now, after, keyOf, before, created, pending, key, target, id);
      } else {
        OtherRowStaysDone(t, now, after, keyOf, before, created, pending, key, id);
      }
    }
  }

  lemma GroupRowIsDone(t: Table, now: Table, after: Table, keyOf: Name -> Key, before: map<Key, FamilyId>,
      created: map<Key, FamilyId>, pending: set<Key>, key: Key, target: FamilyId, id: Id)
    requires id in t && id in now && id in after && key in pending && id in GroupOf(t, keyOf, key)
    requires RowIsDone(t, now, keyOf, before, pending, id) && after[id] == now[id].(family := Some(target))
    requires var existing := FamiliesOfKey(t, keyOf, key, None);
             existing == {target} || (existing == {} && key in created && created[key] == target)
    ensures RowIsDone(t, after, keyOf, created, pending - {key}, id)
  {
  }

  lemma OtherRowStaysDone(t: Table, now: Table, after: Table, keyOf: Name -> Key, before: map<Key, FamilyId>,
      created: map<Key, FamilyId>, pending: set<Key>, key: Key, id: Id)
    requires id in t && id in now && id in after && key in pending && id !in GroupOf(t, keyOf, key)
    requires RowIsDone(t, now, keyOf, before, pending, id) && after[id] == now[id]
    requires forall k :: k in before && k != key ==> k in created && created[k] == before[k]
    ensures RowIsDone(t, after, keyOf, created, pending - {key}, id)
  {
  }

  /** An orphan key leaves the pending ones together with its new family. */
  lemma KeyIsDone(t: Table, keyOf: Name -> Key, pending: set<Key>, key: Key)
    requires key in pending && GroupOf(t, keyOf, key) != {}
    ensures OrphanKeys(t, keyOf) - (pending - {key}) ==
            OrphanKeys(t, keyOf) - pending + if FamiliesOfKey(t, keyOf, key, None) == {} then {key} else {}
  {
    var orphans := OrphanKeys(t, keyOf);
    if FamiliesOfKey(t, keyOf, key, None) == {} {
      var id :| id in GroupOf(t, keyOf, key);
      assert key in orphans;
    } else {
      assert key !in orphans;
    }
  }

  lemma GroupCounted(t: Table, keyOf: Name -> Key, pending: set<Key>, key: Key, placed: nat, leftNull: nat)
    requires key in pending && Counted(t, keyOf, pending, placed, leftNull)
    ensures var n := |GroupOf(t, keyOf, key)|;
            if |FamiliesOfKey(t, keyOf, key, None)| > 1 then Counted(t, keyOf, pending - {key}, placed, leftNull + n)
            else Counted(t, keyOf, pending - {key}, placed + n, leftNull)
  {
    GroupDone(t, keyOf, pending, key);
  }

  lemma GroupReported(t: Table, keyOf: Name -> Key, had: map<Key, FamilyId>, created: map<Key, FamilyId>,
      pending: set<Key>, key: Key, before: RegroupReport, report: RegroupReport)
    requires key in pending && ReportSoFar(t, keyOf, had, pending, before)
    requires var n, existing := |GroupOf(t, keyOf, key)|, FamiliesOfKey(t, keyOf, key, None);
             && report.created == before.created + |created| - |had|
             && report.leftNull == before.leftNull + (if |existing| > 1 then n else 0)
             && report.placed == before.placed + (if |existing| > 1 then 0 else n)
    ensures ReportSoFar(t, keyOf, created, pending - {key}, report)
  {
    GroupCounted(t, keyOf, pending, key, before.placed, before.leftNull);
  }

  lemma AllPlaced(t: Table, now: Table, keyOf: Name -> Key, created: map<Key, FamilyId>)
    requires Grouped(t, now, keyOf, created, {})
    ensures Regrouped(t, now, keyOf, created)
  {
    assert OrphanKeys(t, keyOf) - {} == OrphanKeys(t, keyOf);
  }

  lemma AllCounted(t: Table, keyOf: Name -> Key)
    ensures DoneWith(t, keyOf, {}) == Unassigned(t)
            && Straddling(t, keyOf) * DoneWith(t, keyOf, {}) == Straddling(t, keyOf)
  {
  }

  /** The key's one family is adopted; with several there is no choice. */
  ghost predicate Chosen(existing: set<FamilyId>, target: Option<FamilyId>) {
    && (target.None? <==> |existing| > 1)
    && (|existing| == 1 ==> existing == {target.value})
  }

  /** A family is founded exactly when the key had none, with the brand of one of its laptops. */
  ghost predicate Founded(existing: set<FamilyId>, had: map<FamilyId, Family>, families: map<FamilyId, Family>,
      t: Table, members: set<Id>, key: Key, target: Option<FamilyId>)
    requires members <= t.Keys && (existing == {} ==> target.Some?)
  {
    if existing != {} then families == had
    else
      && target.value !in had
      && exists id :: id in members && families == had[target.value := Family(t[id].brand, key, false)]
  }

  lemma OneGroupDone(t: Table, now: Table, after: Table, known: map<FamilyId, Family>, had: map<FamilyId, Family>,
      families: map<FamilyId, Family>, keyOf: Name -> Key, before: map<Key, FamilyId>, created: map<Key, FamilyId>,
      pending: set<Key>, key: Key, existing: set<FamilyId>, target: Option<FamilyId>)
    requires Progress(t, now, known, had, keyOf, before, pending) && key in pending && GroupOf(t, keyOf, key) != {}
    requires existing == FamiliesOfKey(t, keyOf, key, None) && Chosen(existing, target)
    requires Founded(existing, had, families, now, GroupOf(t, keyOf, key), key, target)
    requires after == if target.Some? then Moved(now, GroupOf(t, keyOf, key), target) else now
    requires created == if existing == {} then before[key := target.value] else before
    ensures Progress(t, after, known, families, keyOf, created, pending - {key})
  {
    if |existing| > 1 {
      LeftAsItWas(t, now, keyOf, before, pending, key);
    } else if existing == {} {
      FamilyFounded(known, had, families, before, key, target.value);
      PopulatedAfterMove(now, GroupOf(t, keyOf, key), target.value);
      PlacedOneGroup(t, now, keyOf, before, before[key := target.value], pending, key, target.value);
    } else {
      PopulatedAfterMove(now, GroupOf(t, keyOf, key), target.value);
      assert target.value in Populated(now);
      PlacedOneGroup(t, now, keyOf, before, before, pending, key, target.value);
    }
  }

  lemma FamilyFounded(known: map<FamilyId, Family>, had: map<FamilyId, Family>, families: map<FamilyId, Family>,
      before: map<Key, FamilyId>, key: Key, id: FamilyId)
    requires NewFamilies(known, had, before) && key !in before && id !in had
    requires exists b :: families == had[id := Family(b, key, false)]
    ensures NewFamilies(known, families, before[key := id])
  {
    var created := before[key := id];
    assert created.Values == before.Values + {id} by {
      assert key in created;
      forall k | k in before
        ensures before[k] in created.Values
      {
        assert created[k] == before[k];
      }
    }
  }

  lemma PopulatedAfterMove(t: Table, ids: set<Id>, target: FamilyId)
    ensures Populated(Moved(t, ids, Some(target))) <= Populated(t) + {target}
  {
  }

  // --- What grouping promises ----------------------------------------------------------------

  lemma FamiliesAfterRegroup(t: Table, after: Table, keyOf: Name -> Key, created: map<Key, FamilyId>, key: Key,
      f: FamilyId)
    requires Regrouped(t, after, keyOf, created) && f in FamiliesOfKey(after, keyOf, key, None)
    ensures var existing := FamiliesOfKey(t, keyOf, key, None);
            f in existing || (existing == {} && key in created && f == created[key])
  {
    var id :| id in after && after[id].family == Some(f) && keyOf(after[id].name) == key;
    assert IsPlaced(t, keyOf, created, id, after[id].family);
  }

  lemma FamiliesStay(t: Table, after: Table, keyOf: Name -> Key, created: map<Key, FamilyId>, key: Key)
    requires Regrouped(t, after, keyOf, created)
    ensures FamiliesOfKey(t, keyOf, key, None) <= FamiliesOfKey(after, keyOf, key, None)
  {
    forall f | f in FamiliesOfKey(t, keyOf, key, None)
      ensures f in FamiliesOfKey(after, keyOf, key, None)
    {
      var id :| id in t && t[id].family == Some(f) && keyOf(t[id].name) == key;
      assert after[id].family == Some(f) && keyOf(after[id].name) == key;
    }
  }

  /** A key the grouping placed has one family from then on, the one a new laptop of that name resolves to. */
  lemma PlacedKeysResolve(t: Table, after: Table, keyOf: Name -> Key, created: map<Key, FamilyId>, id: Id)
    requires Regrouped(t, after, keyOf, created) && id in t && t[id].family.None? && after[id].family.Some?
    ensures FamiliesOfKey(after, keyOf, keyOf(after[id].name), None) == {after[id].family.value}
  {
    var key, f := keyOf(t[id].name), after[id].family.value;
    assert IsPlaced(t, keyOf, created, id, after[id].family);
    assert f in FamiliesOfKey(after, keyOf, key, None);
    forall g | g in FamiliesOfKey(after, keyOf, key, None)
      ensures g == f
    {
      FamiliesAfterRegroup(t, after, keyOf, created, key, g);
    }
  }

  /** Exactly the laptops whose key spans two or more families are left unassigned. */
  lemma LeftNullIffStraddling(t: Table, after: Table, keyOf: Name -> Key, created: map<Key, FamilyId>)
    requires Regrouped(t, after, keyOf, created)
    ensures Unassigned(after) == Straddling(t, keyOf) == Straddling(after, keyOf)
  {
    forall id | id in t
      ensures id in Unassigned(after) <==> id in Straddling(t, keyOf)
    {
      assert IsPlaced(t, keyOf, created, id, after[id].family);
    }
    forall id | id in Straddling(t, keyOf)
      ensures id in Straddling(after, keyOf)
    {
      var key := keyOf(t[id].name);
      FamiliesStay(t, after, keyOf, created, key);
      SubsetIsSmaller(FamiliesOfKey(t, keyOf, key, None), FamiliesOfKey(after, keyOf, key, None));
      assert id in Unassigned(after);
    }
    assert Straddling(after, keyOf) <= Unassigned(after);
  }

  /** Grouping a second time changes nothing and founds nothing. */
  lemma RegroupIsIdempotent(t: Table, once: Table, twice: Table, keyOf: Name -> Key, created: map<Key, FamilyId>,
      again: map<Key, FamilyId>)
    requires Regrouped(t, once, keyOf, created) && Regrouped(once, twice, keyOf, again)
    ensures twice == once && again == map[]
  {
    LeftNullIffStraddling(t, once, keyOf, created);
    LeftNullIffStraddling(once, twice, keyOf, again);
    forall id | id in once
      ensures twice[id] == once[id]
    {
      assert IsPlaced(once, keyOf, again, id, twice[id].family);
      assert id in Unassigned(twice) <==> id in Unassigned(once);
      assert twice[id].family == once[id].family;
    }
    assert OrphanKeys(once, keyOf) == {};
    assert again.Keys == {};
  }

  /** Grouping puts an unassigned laptop where resolving its name would have put it, whenever that names a family. */
  lemma RegroupAgreesWithResolve(t: Table, after: Table, keyOf: Name -> Key, created: map<Key, FamilyId>, id: Id,
      f: FamilyId)
    requires Regrouped(t, after, keyOf, created) && id in t && t[id].family.None?
    requires FamiliesOfKey(t, keyOf, keyOf(t[id].name), Some(id)) == {f}
    ensures after[id].family == Some(f)
  {
    var key := keyOf(t[id].name);
    var some, all := FamiliesOfKey(t, keyOf, key, Some(id)), FamiliesOfKey(t, keyOf, key, None);
    forall g | g in all
      ensures g in some
    {
      var j :| j in t && t[j].family == Some(g) && keyOf(t[j].name) == key;
      assert j != id;
    }
    assert all == some;
    assert IsPlaced(t, keyOf, created, id, after[id].family);
  }

  /**
   A merge is carried forward: once every assigned laptop of a key has been moved into one
   family, resolving that key names the family, and grouping sends it every laptop left over.
   */
  lemma MergeIsCarriedForward(t: Table, ids: set<Id>, target: FamilyId, after: Table, keyOf: Name -> Key,
      created: map<Key, FamilyId>, key: Key)
    requires forall id :: id in t && t[id].family.Some? && keyOf(t[id].name) == key ==> id in ids
    requires exists id :: id in t && id in ids && keyOf(t[id].name) == key
    requires Regrouped(Moved(t, ids, Some(target)), after, keyOf, created)
    ensures FamiliesOfKey(Moved(t, ids, Some(target)), keyOf, key, None) == {target}
    ensures forall id :: id in t && keyOf(t[id].name) == key ==> after[id].family == Some(target)
  {
    var m := Moved(t, ids, Some(target));
    var found := FamiliesOfKey(m, keyOf, key, None);
    var one :| one in t && one in ids && keyOf(t[one].name) == key;
    assert m[one].family == Some(target) && keyOf(m[one].name) == key;
    assert target in found;
    forall f | f in found
      ensures f == target
    {
      var id :| id in m && m[id].family == Some(f) && keyOf(m[id].name) == key;
    }
    assert found == {target};
    forall id | id in t && keyOf(t[id].name) == key
      ensures after[id].family == Some(target)
    {
      assert IsPlaced(m, keyOf, created, id, after[id].family);
    }
  }
}
