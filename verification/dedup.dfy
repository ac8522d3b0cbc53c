/**
 Family deduplication of app/laptops/family_service.py: an ordered list keeps one item per
 family, in the place of the family's first item.
 */
module Deduplication {
  import opened Common

  type FamilyId = nat

  /** Items without a family are all first; an item with one is first if no earlier item shares it. */
  predicate IsFirst<T>(items: seq<T>, familyOf: T -> Option<FamilyId>, i: nat)
    requires i < |items|
  {
    familyOf(items[i]).None? || forall j :: 0 <= j < i ==> familyOf(items[j]) != familyOf(items[i])
  }

  /** The indices of the first items among the first n, in order. */
  function Slots<T>(items: seq<T>, familyOf: T -> Option<FamilyId>, n: nat): seq<nat>
    requires n <= |items|
  {
    if n == 0 then [] else Slots(items, familyOf, n - 1) + if IsFirst(items, familyOf, n - 1) then [n - 1] else []
  }

  function Pick<T>(prefer: Option<(T, T) -> T>, incumbent: T, challenger: T): T {
    match prefer
    case Some(p) => p(incumbent, challenger)
    case None => incumbent
  }

  /** Who represents a family after the first n items: each member in turn challenges the incumbent. */
  function Champion<T>(items: seq<T>, familyOf: T -> Option<FamilyId>, prefer: Option<(T, T) -> T>, f: FamilyId, n: nat)
      : Option<T>
    requires n <= |items|
  {
    if n == 0 then None
    else
      var incumbent := Champion(items, familyOf, prefer, f, n - 1);
      if familyOf(items[n - 1]) != Some(f) then incumbent
      else if incumbent.None? then Some(items[n - 1])
      else Some(Pick(prefer, incumbent.value, items[n - 1]))
  }

  /** What stands in the slot of item i once the first n items have been seen. */
  function Standing<T>(items: seq<T>, familyOf: T -> Option<FamilyId>, prefer: Option<(T, T) -> T>, i: nat, n: nat): T
    requires i < n <= |items|
  {
    match familyOf(items[i])
    case None => items[i]
    case Some(f) => Champion(items, familyOf, prefer, f, n).GetOr(items[i])
  }

  /** The positions below n where an item opens a slot, in order. */
  ghost predicate AreFirsts<T>(items: seq<T>, familyOf: T -> Option<FamilyId>, s: seq<nat>, n: nat)
    requires n <= |items|
  {
    && (forall k :: 0 <= k < |s| ==> s[k] < n && IsFirst(items, familyOf, s[k]))
    && (forall k, l :: 0 <= k < l < |s| ==> s[k] < s[l])
    && (forall i :: 0 <= i < n && IsFirst(items, familyOf, i) ==> i in s)
  }

  lemma {:induction false} SlotsAreTheFirsts<T>(items: seq<T>, familyOf: T -> Option<FamilyId>, n: nat)
    requires n <= |items|
    ensures AreFirsts(items, familyOf, Slots(items, familyOf, n), n)
  {
    if n == 0 {
    } else {
      var m := n - 1;
      SlotsAreTheFirsts(items, familyOf, m);
      OneMoreItem(items, familyOf, Slots(items, familyOf, m), m);
      assert Slots(items, familyOf, n) ==
             Slots(items, familyOf, m) + if IsFirst(items, familyOf, m) then [m] else [];
    }
  }

  lemma OneMoreItem<T>(items: seq<T>, familyOf: T -> Option<FamilyId>, s: seq<nat>, m: nat)
    requires m < |items| && AreFirsts(items, familyOf, s, m)
    ensures AreFirsts(items, familyOf, s + if IsFirst(items, familyOf, m) then [m] else [], m + 1)
  {
    if IsFirst(items, familyOf, m) {
      forall i | 0 <= i <= m && IsFirst(items, familyOf, i)
        ensures i in s + [m]
      {
        assert i < m ==> i in s;
      }
    } else {
      assert s + [] == s;
    }
  }

  /** Slot p was opened by an item of family f. */
  ghost predicate Holds<T>(items: seq<T>, familyOf: T -> Option<FamilyId>, slots: seq<nat>, p: nat, f: FamilyId) {
    p < |slots| && slots[p] < |items| && familyOf(items[slots[p]]) == Some(f)
  }

  ghost predicate Known<T>(items: seq<T>, familyOf: T -> Option<FamilyId>, position: map<FamilyId, nat>, n: nat)
    requires n <= |items|
  {
    forall i :: 0 <= i < n && familyOf(items[i]).Some? ==> familyOf(items[i]).value in position
  }

  ghost predicate Held<T>(items: seq<T>, familyOf: T -> Option<FamilyId>, position: map<FamilyId, nat>,
      slots: seq<nat>) {
    forall f :: f in position ==> Holds(items, familyOf, slots, position[f], f)
  }

  /** Every family seen so far has its place, and the place is one of its slots. */
  ghost predicate Placed<T>(items: seq<T>, familyOf: T -> Option<FamilyId>, position: map<FamilyId, nat>, n: nat)
    requires n <= |items|
  {
    Known(items, familyOf, position, n) && Held(items, familyOf, position, Slots(items, familyOf, n))
  }

  ghost predicate Filled<T>(items: seq<T>, familyOf: T -> Option<FamilyId>, prefer: Option<(T, T) -> T>, out: seq<T>,
      n: nat)
    requires n <= |items|
  {
    var s := Slots(items, familyOf, n);
    |out| == |s| && forall k :: 0 <= k < |s| ==> s[k] < n && out[k] == Standing(items, familyOf, prefer, s[k], n)
  }

  /** One item per slot, each the one standing in it at the end. */
  method Deduplicate<T>(items: seq<T>, familyOf: T -> Option<FamilyId>, prefer: Option<(T, T) -> T>)
    returns (out: seq<T>)
    ensures Filled(items, familyOf, prefer, out, |items|)
  {
    out := [];
    var position: map<FamilyId, nat> := map[];
    for i := 0 to |items|
      invariant Filled(items, familyOf, prefer, out, i) && Placed(items, familyOf, position, i)
    {
      var item := items[i];
      match familyOf(item) {
        case None =>
          PassesThrough(items, familyOf, prefer, out, position, i);
          out := out + [item];
        case Some(f) =>
          if f !in position {
            OpensItsSlot(items, familyOf, prefer, out, position, i);
            position := position[f := |out|];
            out := out + [item];
          } else {
            Challenges(items, familyOf, prefer, out, position, i);
            out := out[position[f] := Pick(prefer, out[position[f]], item)];
          }
      }
    }
  }

  lemma PassesThrough<T>(items: seq<T>, familyOf: T -> Option<FamilyId>, prefer: Option<(T, T) -> T>, out: seq<T>,
      position: map<FamilyId, nat>, n: nat)
    requires n < |items| && Filled(items, familyOf, prefer, out, n) && Placed(items, familyOf, position, n)
    requires familyOf(items[n]).None?
    ensures Filled(items, familyOf, prefer, out + [items[n]], n + 1) && Placed(items, familyOf, position, n + 1)
  {
    var s, s' := Slots(items, familyOf, n), Slots(items, familyOf, n + 1);
    assert s' == s + [n];
  }

  lemma OpensItsSlot<T>(items: seq<T>, familyOf: T -> Option<FamilyId>, prefer: Option<(T, T) -> T>, out: seq<T>,
      position: map<FamilyId, nat>, n: nat)
    requires n < |items| && Filled(items, familyOf, prefer, out, n) && Placed(items, familyOf, position, n)
    requires familyOf(items[n]).Some? && familyOf(items[n]).value !in position
    ensures Filled(items, familyOf, prefer, out + [items[n]], n + 1)
    ensures Placed(items, familyOf, position[familyOf(items[n]).value := |out|], n + 1)
  {
    var f := familyOf(items[n]).value;
    assert forall i :: 0 <= i < n ==> familyOf(items[i]) != Some(f);
    NewFamilyStands(items, familyOf, prefer, f, n);
    FillsANewSlot(items, familyOf, prefer, out, n);
    assert IsFirst(items, familyOf, n);
    PlacesANewFamily(items, familyOf, position, n, |out|);
  }

  lemma FillsANewSlot<T>(items: seq<T>, familyOf: T -> Option<FamilyId>, prefer: Option<(T, T) -> T>, out: seq<T>,
      n: nat)
    requires n < |items| && Filled(items, familyOf, prefer, out, n)
    requires familyOf(items[n]).Some? && forall i :: 0 <= i < n ==> familyOf(items[i]) != familyOf(items[n])
    requires Champion(items, familyOf, prefer, familyOf(items[n]).value, n) == None
    ensures Filled(items, familyOf, prefer, out + [items[n]], n + 1)
  {
    var s := Slots(items, familyOf, n);
    assert Slots(items, familyOf, n + 1) == s + [n];
    assert Standing(items, familyOf, prefer, n, n + 1) == items[n];
    forall k | 0 <= k < |s|
      ensures Standing(items, familyOf, prefer, s[k], n + 1) == out[k]
    {
      assert familyOf(items[s[k]]) != familyOf(items[n]);
    }
  }

  lemma PlacesANewFamily<T>(items: seq<T>, familyOf: T -> Option<FamilyId>, position: map<FamilyId, nat>, n: nat,
      p: nat)
    requires n < |items| && Placed(items, familyOf, position, n) && p == |Slots(items, familyOf, n)|
    requires familyOf(items[n]).Some? && IsFirst(items, familyOf, n)
    ensures Placed(items, familyOf, position[familyOf(items[n]).value := p], n + 1)
  {
    KnowsOneMore(items, familyOf, position, n, p);
    HoldsOneMore(items, familyOf, position, Slots(items, familyOf, n), n, familyOf(items[n]).value);
  }

  lemma KnowsOneMore<T>(items: seq<T>, familyOf: T -> Option<FamilyId>, position: map<FamilyId, nat>, n: nat, p: nat)
    requires n < |items| && Known(items, familyOf, position, n) && familyOf(items[n]).Some?
    ensures Known(items, familyOf, position[familyOf(items[n]).value := p], n + 1)
  {
  }

  lemma HoldsOneMore<T>(items: seq<T>, familyOf: T -> Option<FamilyId>, position: map<FamilyId, nat>, slots: seq<nat>,
      n: nat, g: FamilyId)
    requires Held(items, familyOf, position, slots) && n < |items| && familyOf(items[n]) == Some(g)
    ensures Held(items, familyOf, position[g := |slots|], slots + [n])
  {
    NewSlotHolds(items, familyOf, slots, n, g);
    forall f | f in position && f != g
      ensures Holds(items, familyOf, slots + [n], position[f], f)
    {
      StillHolds(items, familyOf, slots, n, position[f], f);
    }
  }

  lemma NewSlotHolds<T>(items: seq<T>, familyOf: T -> Option<FamilyId>, slots: seq<nat>, n: nat, f: FamilyId)
    requires n < |items| && familyOf(items[n]) == Some(f)
    ensures Holds(items, familyOf, slots + [n], |slots|, f)
  {
  }

  lemma StillHolds<T>(items: seq<T>, familyOf: T -> Option<FamilyId>, slots: seq<nat>, n: nat, p: nat, f: FamilyId)
    requires Holds(items, familyOf, slots, p, f)
    ensures Holds(items, familyOf, slots + [n], p, f)
  {
  }

  lemma Challenges<T>(items: seq<T>, familyOf: T -> Option<FamilyId>, prefer: Option<(T, T) -> T>, out: seq<T>,
      position: map<FamilyId, nat>, n: nat)
    requires n < |items| && Filled(items, familyOf, prefer, out, n) && Placed(items, familyOf, position, n)
    requires familyOf(items[n]).Some? && familyOf(items[n]).value in position
    ensures var p := position[familyOf(items[n]).value];
            && p < |out|
            && Filled(items, familyOf, prefer, out[p := Pick(prefer, out[p], items[n])], n + 1)
            && Placed(items, familyOf, position, n + 1)
  {
    var f := familyOf(items[n]).value;
    var s, p := Slots(items, familyOf, n), position[f];
    assert Holds(items, familyOf, s, p, f);
    OpenedBefore(items, familyOf, n, p);
    FillsAChallengedSlot(items, familyOf, prefer, out, n, p);
    StaysPlaced(items, familyOf, position, n);
  }

  /** An item whose family already has a slot opens none. */
  lemma OpenedBefore<T>(items: seq<T>, familyOf: T -> Option<FamilyId>, n: nat, p: nat)
    requires n < |items| && p < |Slots(items, familyOf, n)| && familyOf(items[n]).Some?
    requires Holds(items, familyOf, Slots(items, familyOf, n), p, familyOf(items[n]).value)
    ensures !IsFirst(items, familyOf, n)
  {
    SlotsAreTheFirsts(items, familyOf, n);
    assert familyOf(items[Slots(items, familyOf, n)[p]]) == familyOf(items[n]);
  }

  lemma StaysPlaced<T>(items: seq<T>, familyOf: T -> Option<FamilyId>, position: map<FamilyId, nat>, n: nat)
    requires n < |items| && Placed(items, familyOf, position, n) && !IsFirst(items, familyOf, n)
    requires familyOf(items[n]).Some? && familyOf(items[n]).value in position
    ensures Placed(items, familyOf, position, n + 1)
  {
    assert Slots(items, familyOf, n + 1) == Slots(items, familyOf, n);
  }

  lemma FillsAChallengedSlot<T>(items: seq<T>, familyOf: T -> Option<FamilyId>, prefer: Option<(T, T) -> T>,
      out: seq<T>, n: nat, p: nat)
    requires n < |items| && Filled(items, familyOf, prefer, out, n) && !IsFirst(items, familyOf, n)
    requires p < |out| && familyOf(items[Slots(items, familyOf, n)[p]]) == familyOf(items[n])
    ensures Filled(items, familyOf, prefer, out[p := Pick(prefer, out[p], items[n])], n + 1)
  {
    var s := Slots(items, familyOf, n);
    assert Slots(items, familyOf, n + 1) == s;
    ChampionStands(items, familyOf, prefer, familyOf(items[n]).value, s[p], n);
    forall k | 0 <= k < |s| && k != p
      ensures Standing(items, familyOf, prefer, s[k], n + 1) == out[k]
    {
      OneSlotEach(items, familyOf, n, k, p);
    }
  }

  /** Before a family's first item it has no champion. */
  lemma {:induction false} NewFamilyStands<T>(items: seq<T>, familyOf: T -> Option<FamilyId>,
      prefer: Option<(T, T) -> T>, f: FamilyId, n: nat)
    requires n <= |items| && forall i :: 0 <= i < n ==> familyOf(items[i]) != Some(f)
    ensures Champion(items, familyOf, prefer, f, n) == None
  {
    if n == 0 {
    } else {
      NewFamilyStands(items, familyOf, prefer, f, n - 1);
    }
  }

  lemma {:induction false} ChampionStands<T>(items: seq<T>, familyOf: T -> Option<FamilyId>,
      prefer: Option<(T, T) -> T>, f: FamilyId, i: nat, n: nat)
    requires i < n <= |items| && familyOf(items[i]) == Some(f)
    ensures Champion(items, familyOf, prefer, f, n).Some?
  {
    if i < n - 1 {
      ChampionStands(items, familyOf, prefer, f, i, n - 1);
    }
  }

  /** No two slots belong to one family. */
  lemma OneSlotEach<T>(items: seq<T>, familyOf: T -> Option<FamilyId>, n: nat, k: nat, l: nat)
    requires n <= |items| && k < |Slots(items, familyOf, n)| && l < |Slots(items, familyOf, n)| && k != l
    ensures var s := Slots(items, familyOf, n);
            && s[k] < n && s[l] < n
            && (familyOf(items[s[k]]).Some? ==> familyOf(items[s[k]]) != familyOf(items[s[l]]))
  {
    SlotsAreTheFirsts(items, familyOf, n);
    var s := Slots(items, familyOf, n);
    assert if k < l then s[k] < s[l] && IsFirst(items, familyOf, s[l])
           else s[l] < s[k] && IsFirst(items, familyOf, s[k]);
  }

  // --- One item per family, in order -----------------------------------------------------------

  function FamiliesIn<T>(items: seq<T>, familyOf: T -> Option<FamilyId>, n: nat): set<FamilyId>
    requires n <= |items|
  {
    set i | 0 <= i < n && familyOf(items[i]).Some? :: familyOf(items[i]).value
  }

  function Familyless<T>(items: seq<T>, familyOf: T -> Option<FamilyId>, n: nat): nat
    requires n <= |items|
  {
    if n == 0 then 0 else Familyless(items, familyOf, n - 1) + if familyOf(items[n - 1]).None? then 1 else 0
  }

  /** The result has one item for each family and one for each family-less item. */
  lemma {:induction false} SlotsAreCounted<T>(items: seq<T>, familyOf: T -> Option<FamilyId>, n: nat)
    requires n <= |items|
    ensures |Slots(items, familyOf, n)| == |FamiliesIn(items, familyOf, n)| + Familyless(items, familyOf, n)
  {
    if n == 0 {
      assert FamiliesIn(items, familyOf, 0) == {};
    } else {
      SlotsAreCounted(items, familyOf, n - 1);
      var before, after := FamiliesIn(items, familyOf, n - 1), FamiliesIn(items, familyOf, n);
      match familyOf(items[n - 1]) {
        case None =>
          assert after == before;
        case Some(f) =>
          assert after == before + {f};
          FirstIffNew(items, familyOf, n - 1, f);
      }
    }
  }

  lemma FirstIffNew<T>(items: seq<T>, familyOf: T -> Option<FamilyId>, n: nat, f: FamilyId)
    requires n < |items| && familyOf(items[n]) == Some(f)
    ensures IsFirst(items, familyOf, n) <==> f !in FamiliesIn(items, familyOf, n)
  {
    if !IsFirst(items, familyOf, n) {
      var j :| 0 <= j < n && familyOf(items[j]) == familyOf(items[n]);
      assert familyOf(items[j]).value in FamiliesIn(items, familyOf, n);
    }
  }

  /** `prefer` answers with one of the two it was asked about. */
  ghost predicate Chooses<T(!new)>(prefer: Option<(T, T) -> T>) {
    forall a, b {:trigger Pick(prefer, a, b)} :: Pick(prefer, a, b) == a || Pick(prefer, a, b) == b
  }

  lemma {:induction false} ChampionIsAMember<T(!new)>(items: seq<T>, familyOf: T -> Option<FamilyId>,
      prefer: Option<(T, T) -> T>, f: FamilyId, n: nat)
    requires n <= |items| && Chooses(prefer)
    ensures var c := Champion(items, familyOf, prefer, f, n);
            c.Some? ==> familyOf(c.value) == Some(f) && c.value in items
  {
    if n == 0 {
    } else {
      ChampionIsAMember(items, familyOf, prefer, f, n - 1);
    }
  }

  lemma StandsForItsFamily<T(!new)>(items: seq<T>, familyOf: T -> Option<FamilyId>, prefer: Option<(T, T) -> T>, i: nat)
    requires i < |items| && Chooses(prefer)
    ensures var x := Standing(items, familyOf, prefer, i, |items|);
            x in items && familyOf(x) == familyOf(items[i])
  {
    if familyOf(items[i]).Some? {
      ChampionStands(items, familyOf, prefer, familyOf(items[i]).value, i, |items|);
      ChampionIsAMember(items, familyOf, prefer, familyOf(items[i]).value, |items|);
    }
  }

  /**
   The item in each place belongs to that place's family and comes from the list, and no
   family has two places.
   */
  lemma OnePerFamily<T(!new)>(items: seq<T>, familyOf: T -> Option<FamilyId>, prefer: Option<(T, T) -> T>, out: seq<T>)
    requires Filled(items, familyOf, prefer, out, |items|) && Chooses(prefer)
    ensures |out| == |FamiliesIn(items, familyOf, |items|)| + Familyless(items, familyOf, |items|)
    ensures forall k :: 0 <= k < |out| ==>
              out[k] in items && familyOf(out[k]) == familyOf(items[Slots(items, familyOf, |items|)[k]])
    ensures forall k, l :: 0 <= k < l < |out| ==> familyOf(out[k]).None? || familyOf(out[k]) != familyOf(out[l])
  {
    var n := |items|;
    var s := Slots(items, familyOf, n);
    SlotsAreCounted(items, familyOf, n);
    forall k | 0 <= k < |out|
      ensures out[k] in items && familyOf(out[k]) == familyOf(items[s[k]])
    {
      StandsForItsFamily(items, familyOf, prefer, s[k]);
    }
    forall k, l | 0 <= k < l < |out|
      ensures familyOf(out[k]).None? || familyOf(out[k]) != familyOf(out[l])
    {
      OneSlotEach(items, familyOf, n, k, l);
    }
  }

  /** Every family of the list has a place. */
  lemma EveryFamilyHasAPlace<T(!new)>(items: seq<T>, familyOf: T -> Option<FamilyId>, prefer: Option<(T, T) -> T>,
      out: seq<T>, i: nat)
    returns (k: nat)
    requires Filled(items, familyOf, prefer, out, |items|) && Chooses(prefer) && i < |items| && familyOf(items[i]).Some?
    ensures k < |out| && familyOf(out[k]) == familyOf(items[i]) && Slots(items, familyOf, |items|)[k] <= i
  {
    var s := Slots(items, familyOf, |items|);
    var j := FirstOf(items, familyOf, familyOf(items[i]).value, i);
    SlotsAreTheFirsts(items, familyOf, |items|);
    k :| 0 <= k < |s| && s[k] == j;
    OnePerFamily(items, familyOf, prefer, out);
  }

  lemma {:induction false} FirstOf<T>(items: seq<T>, familyOf: T -> Option<FamilyId>, f: FamilyId, i: nat)
    returns (j: nat)
    requires i < |items| && familyOf(items[i]) == Some(f)
    ensures j <= i && familyOf(items[j]) == Some(f) && IsFirst(items, familyOf, j)
    decreases i
  {
    if IsFirst(items, familyOf, i) {
      j := i;
    } else {
      var k :| 0 <= k < i && familyOf(items[k]) == familyOf(items[i]);
      j := FirstOf(items, familyOf, f, k);
    }
  }

  /** Deduplicating a second time changes nothing. */
  lemma DeduplicatingTwiceIsOnce<T(!new)>(items: seq<T>, familyOf: T -> Option<FamilyId>, prefer: Option<(T, T) -> T>,
      once: seq<T>, twice: seq<T>)
    requires Filled(items, familyOf, prefer, once, |items|) && Chooses(prefer)
    requires Filled(once, familyOf, prefer, twice, |once|)
    ensures twice == once
  {
    OnePerFamily(items, familyOf, prefer, once);
    AllAreFirst(once, familyOf, |once|);
    forall k | 0 <= k < |once|
      ensures twice[k] == once[k]
    {
      if familyOf(once[k]).Some? {
        OnlyMemberStands(once, familyOf, prefer, k, |once|);
      }
    }
  }

  lemma {:induction false} AllAreFirst<T>(items: seq<T>, familyOf: T -> Option<FamilyId>, n: nat)
    requires n <= |items|
    requires forall k, l :: 0 <= k < l < |items| ==>
               familyOf(items[k]).None? || familyOf(items[k]) != familyOf(items[l])
    ensures var s := Slots(items, familyOf, n);
            |s| == n && forall k :: 0 <= k < n ==> s[k] == k
  {
    if n == 0 {
    } else {
      AllAreFirst(items, familyOf, n - 1);
    }
  }

  lemma {:induction false} OnlyMemberStands<T>(items: seq<T>, familyOf: T -> Option<FamilyId>,
      prefer: Option<(T, T) -> T>, k: nat, n: nat)
    requires k < n <= |items| && familyOf(items[k]).Some?
    requires forall j :: 0 <= j < |items| && j != k ==> familyOf(items[j]) != familyOf(items[k])
    ensures Champion(items, familyOf, prefer, familyOf(items[k]).value, n) == Some(items[k])
  {
    if k == n - 1 {
      NewFamilyStands(items, familyOf, prefer, familyOf(items[k]).value, n - 1);
    } else {
      OnlyMemberStands(items, familyOf, prefer, k, n - 1);
    }
  }

  // --- Who represents a family -------------------------------------------------------------------

  /** With no preference, the family's first item. */
  lemma {:induction false} FirstMemberStands<T>(items: seq<T>, familyOf: T -> Option<FamilyId>, i: nat, n: nat)
    requires i < n <= |items| && familyOf(items[i]).Some? && IsFirst(items, familyOf, i)
    ensures Champion(items, familyOf, None, familyOf(items[i]).value, n) == Some(items[i])
  {
    if i == n - 1 {
      NewFamilyStands(items, familyOf, None, familyOf(items[i]).value, n - 1);
    } else {
      FirstMemberStands(items, familyOf, i, n - 1);
    }
  }

  function Distance(a: real, b: real): real {
    if a < b then b - a else a - b
  }

  function ClosestToBudget<T>(priceOf: T -> real, budget: real): (T, T) -> T {
    (incumbent: T, challenger: T) =>
      if Distance(priceOf(challenger), budget) < Distance(priceOf(incumbent), budget) then challenger else incumbent
  }

  /** The other price is at least as far from the budget, on the same side or on the other one. */
  predicate NoNearer(price: real, other: real, budget: real) {
    if price >= budget then other >= price || other <= budget - (price - budget)
    else other <= price || other >= budget + (budget - price)
  }

  /** A budget preference shows the member nearest the budget, and the earliest of those equally near. */
  lemma {:induction false} NearestMemberStands<T>(items: seq<T>, familyOf: T -> Option<FamilyId>, priceOf: T -> real,
      budget: real, f: FamilyId, n: nat)
    returns (i: nat)
    requires n <= |items| && exists j :: 0 <= j < n && familyOf(items[j]) == Some(f)
    ensures i < n && familyOf(items[i]) == Some(f)
    ensures Champion(items, familyOf, Some(ClosestToBudget(priceOf, budget)), f, n) == Some(items[i])
    ensures forall j :: 0 <= j < n && familyOf(items[j]) == Some(f) ==>
              && Distance(priceOf(items[i]), budget) <= Distance(priceOf(items[j]), budget)
              && (j < i ==> Distance(priceOf(items[i]), budget) < Distance(priceOf(items[j]), budget))
    ensures forall j :: 0 <= j < n && familyOf(items[j]) == Some(f) ==>
              NoNearer(priceOf(items[i]), priceOf(items[j]), budget)
  {
    if exists j :: 0 <= j < n - 1 && familyOf(items[j]) == Some(f) {
      i := NearestMemberStands(items, familyOf, priceOf, budget, f, n - 1);
      if familyOf(items[n - 1]) == Some(f)
          && Distance(priceOf(items[n - 1]), budget) < Distance(priceOf(items[i]), budget) {
        i := n - 1;
      }
    } else {
      i := n - 1;
      NewFamilyStands(items, familyOf, Some(ClosestToBudget(priceOf, budget)), f, n - 1);
    }
  }
}
