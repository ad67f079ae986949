/**
 Per-session storage budgets: items with sizes and times, and eviction when an addition exceeds the limit.
 */
module DiskBudget {
  import opened Common

  datatype Category = Artifact | Transcript | File | Cache

  datatype Strategy = OldestFirst | Lru | LargestFirst | Reject

  datatype Item = Item(id: string, category: Category, size: nat, createdAt: int, lastAccessed: int)

  datatype BudgetError = ItemTooLarge(itemSize: nat, limit: nat) | BudgetExceeded

  datatype Budget = Budget(limit: nat, used: nat, strategy: Strategy, items: seq<Item>)

  function Sum(items: seq<Item>): nat {
    if items == [] then 0 else items[0].size + Sum(items[1..])
  }

  lemma {:induction false} SumConcat(a: seq<Item>, b: seq<Item>)
    ensures Sum(a + b) == Sum(a) + Sum(b)
  {
    if a == [] {
      assert a + b == b;
    } else {
      assert (a + b)[1..] == a[1..] + b;
      SumConcat(a[1..], b);
    }
  }

  lemma SingleSum(item: Item)
    ensures Sum([item]) == item.size
  {
    assert [item][1..] == [];
  }

  lemma {:induction false} SumRemoveAt(items: seq<Item>, i: nat)
    requires i < |items|
    ensures Sum(RemoveAt(items, i)) == Sum(items) - items[i].size
  {
    var r := RemoveAt(items, i);
    if i == 0 {
      assert r == items[1..];
    } else {
      assert r[0] == items[0] && r[1..] == RemoveAt(items[1..], i - 1);
      SumRemoveAt(items[1..], i - 1);
    }
  }

  // ---------------------------------------------------------------- choosing a victim

  function Key(s: Strategy, item: Item): int {
    if s == OldestFirst then item.createdAt else item.lastAccessed
  }

  /** Item `i` is evicted before item `j`: smaller key first and earlier position first; or, by size, larger first
      and later position first. */
  predicate Ranks(items: seq<Item>, s: Strategy, i: nat, j: nat)
    requires i < |items| && j < |items|
  {
    if s == LargestFirst
    then items[i].size > items[j].size || (items[i].size == items[j].size && i > j)
    else Key(s, items[i]) < Key(s, items[j]) || (Key(s, items[i]) == Key(s, items[j]) && i < j)
  }

  /** The foremost of the first `k` items, the protected position left aside. */
  function Best(items: seq<Item>, s: Strategy, protected: nat, k: nat): (v: Option<nat>)
    requires k <= |items|
    ensures v.Some? ==> v.value < k && v.value != protected
    ensures v.Some? ==> forall j :: 0 <= j < k && j != protected && j != v.value ==> Ranks(items, s, v.value, j)
    ensures v.None? <==> k == 0 || (k == 1 && protected == 0)
  {
    if k == 0 then None
    else
      var b := Best(items, s, protected, k - 1);
      if k - 1 == protected then b
      else if b.None? then Some(k - 1)
      else if Ranks(items, s, b.value, k - 1) then b
      else
        RanksBeyond(items, s, protected, k - 1, b.value);
        Some(k - 1)
  }

  /** Whatever ranks before the foremost ranks before all. */
  lemma RanksBeyond(items: seq<Item>, s: Strategy, protected: nat, k: nat, b: nat)
    requires b < k < |items| && !Ranks(items, s, b, k)
    requires forall j :: 0 <= j < k && j != protected && j != b ==> Ranks(items, s, b, j)
    ensures forall j :: 0 <= j < k && j != protected ==> Ranks(items, s, k, j)
  {
    forall j | 0 <= j < k && j != protected ensures Ranks(items, s, k, j) {
      assert j != b ==> Ranks(items, s, b, j);
    }
  }

  function Victim(items: seq<Item>, s: Strategy, protected: nat): Option<nat> {
    if s == Reject then None else Best(items, s, protected, |items|)
  }

  // ---------------------------------------------------------------- evicting

  /** What stays and what goes, in order of eviction; `protected` keeps its value as positions shift. */
  function Evict(items: seq<Item>, s: Strategy, protected: nat, limit: nat): (seq<Item>, seq<Item>)
    decreases |items|
  {
    if Sum(items) <= limit || Victim(items, s, protected).None? then (items, [])
    else
      var v := Victim(items, s, protected).value;
      var (kept, gone) := Evict(RemoveAt(items, v), s, protected, limit);
      (kept, [items[v]] + gone)
  }

  function Ids(items: seq<Item>): seq<string> {
    seq(|items|, i requires 0 <= i < |items| => items[i].id)
  }

  function AddOp(b: Budget, item: Item): (Budget, Result<seq<string>, BudgetError>) {
    var items := b.items + [item];
    if item.size > b.limit then (b, Err(ItemTooLarge(item.size, b.limit)))
    else if b.strategy == Reject && b.used + item.size > b.limit then (b, Err(BudgetExceeded))
    else
      var (kept, gone) := Evict(items, b.strategy, |items| - 1, b.limit);
      (b.(items := kept, used := Sum(kept)), Ok(Ids(gone)))
  }

  lemma MultisetRemoveAt(items: seq<Item>, v: nat)
    requires v < |items|
    ensures multiset(items) == multiset(RemoveAt(items, v)) + multiset{items[v]}
  {
    assert items == items[..v] + [items[v]] + items[v + 1..];
  }

  /** Nothing is lost in between: what stays and what goes make up what was there. */
  lemma {:induction false} EvictConserves(items: seq<Item>, s: Strategy, protected: nat, limit: nat)
    ensures var (kept, gone) := Evict(items, s, protected, limit);
            multiset(kept) + multiset(gone) == multiset(items)
    decreases |items|
  {
    if Sum(items) > limit && Victim(items, s, protected).Some? {
      var v := Victim(items, s, protected).value;
      EvictConserves(RemoveAt(items, v), s, protected, limit);
      MultisetRemoveAt(items, v);
      var gone := Evict(RemoveAt(items, v), s, protected, limit).1;
      assert multiset([items[v]] + gone) == multiset{items[v]} + multiset(gone);
    }
  }

  /** What stays keeps its order. */
  lemma {:induction false} EvictKeepsOrder(items: seq<Item>, s: Strategy, protected: nat, limit: nat)
    ensures IsSubsequence(Evict(items, s, protected, limit).0, items)
    decreases |items|
  {
    if Sum(items) > limit && Victim(items, s, protected).Some? {
      var v := Victim(items, s, protected).value;
      EvictKeepsOrder(RemoveAt(items, v), s, protected, limit);
      SubsequenceOfRemoveAt(Evict(RemoveAt(items, v), s, protected, limit).0, items, v);
    } else {
      SubsequenceReflexive(items);
    }
  }

  /** Nothing is evicted needlessly: what stays, with the item evicted last, was over the limit. */
  lemma {:induction false} EvictOnlyWhenNeeded(items: seq<Item>, s: Strategy, protected: nat, limit: nat)
    ensures var (kept, gone) := Evict(items, s, protected, limit);
            && (Sum(items) <= limit ==> kept == items && gone == [])
            && (gone != [] ==> Sum(kept) + gone[|gone| - 1].size > limit)
    decreases |items|
  {
    if Sum(items) > limit && Victim(items, s, protected).Some? {
      var v := Victim(items, s, protected).value;
      var rest := RemoveAt(items, v);
      EvictStep(items, s, protected, limit, v);
      EvictOnlyWhenNeeded(rest, s, protected, limit);
      var (kept, gone) := Evict(rest, s, protected, limit);
      if gone == [] {
        EvictNothing(rest, s, protected, limit);
        SumRemoveAt(items, v);
      } else {
        assert ([items[v]] + gone)[|gone|] == gone[|gone| - 1];
      }
    }
  }

  /** Eviction gets below the limit: the only item it might be unable to remove fits by itself. */
  lemma {:induction false} EvictReachesLimit(items: seq<Item>, s: Strategy, protected: nat, limit: nat)
    requires s != Reject && |items| - 1 <= protected
    requires items != [] && protected == |items| - 1 ==> items[|items| - 1].size <= limit
    ensures Sum(Evict(items, s, protected, limit).0) <= limit
    decreases |items|
  {
    if Sum(items) > limit {
      if Victim(items, s, protected).Some? {
        EvictReachesLimit(RemoveAt(items, Victim(items, s, protected).value), s, protected, limit);
      } else {
        assert |items| == 1 ==> items[1..] == [];
      }
    }
  }

  // ---------------------------------------------------------------- which items go: by time

  function At(items: seq<Item>, positions: seq<nat>): seq<Item>
    requires forall k :: 0 <= k < |positions| ==> positions[k] < |items|
  {
    seq(|positions|, k requires 0 <= k < |positions| => items[positions[k]])
  }

  ghost predicate Increasing(ps: seq<nat>, n: nat) {
    && (forall k :: 0 <= k < |ps| ==> ps[k] < n)
    && (forall k, l :: 0 <= k < l < |ps| ==> ps[k] < ps[l])
  }

  /** Positions `gone` leave the list in ranked order, and before any of the positions `alive`. */
  ghost predicate InRankOrder(items: seq<Item>, s: Strategy, gone: seq<nat>, alive: seq<nat>) {
    && (forall k :: 0 <= k < |gone| ==> gone[k] < |items|)
    && (forall k :: 0 <= k < |alive| ==> alive[k] < |items|)
    && (forall k, l :: 0 <= k < l < |gone| ==> Ranks(items, s, gone[k], gone[l]))
    && (forall k, l :: 0 <= k < |gone| && 0 <= l < |alive| ==> Ranks(items, s, gone[k], alive[l]))
  }

  /** `alive` and `gone` divide the positions `all` between them. */
  ghost predicate Divides(all: seq<nat>, gone: seq<nat>, alive: seq<nat>) {
    forall x: nat :: x in all <==> x in gone || x in alive
  }

  lemma RankedByPosition(items: seq<Item>, s: Strategy, ps: seq<nat>, i: nat, j: nat)
    requires s != LargestFirst && Increasing(ps, |items|) && i < |ps| && j < |ps| && Ranks(At(items, ps), s, i, j)
    ensures Ranks(items, s, ps[i], ps[j])
  {
  }

  lemma AtRemoveAt(items: seq<Item>, ps: seq<nat>, v: nat)
    requires Increasing(ps, |items|) && v < |ps|
    ensures Increasing(RemoveAt(ps, v), |items|)
    ensures At(items, RemoveAt(ps, v)) == RemoveAt(At(items, ps), v)
    ensures forall x: nat :: x in ps <==> x in RemoveAt(ps, v) || x == ps[v]
  {
    assert ps == ps[..v] + [ps[v]] + ps[v + 1..];
  }

  /** One eviction, of position `p`, in front of those `gone` from the rest. */
  lemma PrependVictim(items: seq<Item>, s: Strategy, ps: seq<nat>, v: nat, gone: seq<nat>, alive: seq<nat>)
    requires Increasing(ps, |items|) && v < |ps|
    requires forall j :: 0 <= j < |ps| && j != v ==> Ranks(items, s, ps[v], ps[j])
    requires Divides(RemoveAt(ps, v), gone, alive) && InRankOrder(items, s, gone, alive)
    ensures Divides(ps, [ps[v]] + gone, alive) && InRankOrder(items, s, [ps[v]] + gone, alive)
  {
    AtRemoveAt(items, ps, v);
    var rest, g := RemoveAt(ps, v), [ps[v]] + gone;
    forall x: nat | x in rest ensures x < |items| && Ranks(items, s, ps[v], x) {
      var k :| 0 <= k < |rest| && rest[k] == x;
      assert x == ps[if k < v then k else k + 1];
    }
    forall k, l | 0 <= k < l < |g| ensures Ranks(items, s, g[k], g[l]) {
      assert g[l] == gone[l - 1] && gone[l - 1] in gone;
      assert k > 0 ==> g[k] == gone[k - 1];
    }
    forall k, l | 0 <= k < |g| && 0 <= l < |alive| ensures Ranks(items, s, g[k], alive[l]) {
      assert alive[l] in alive;
      assert k > 0 ==> g[k] == gone[k - 1];
    }
  }

  /** The last item has the latest key, and fits by itself. */
  ghost predicate EndsWithNewest(items: seq<Item>, s: Strategy, limit: nat) {
    && items != [] && items[|items| - 1].size <= limit
    && (forall i :: 0 <= i < |items| ==> Key(s, items[i]) <= Key(s, items[|items| - 1]))
  }

  /** The newest item is never the foremost: its key is the latest and its position the last. */
  lemma NewestIsNotVictim(items: seq<Item>, s: Strategy, protected: nat, limit: nat)
    requires s == OldestFirst || s == Lru
    requires EndsWithNewest(items, s, limit) && limit < Sum(items) && |items| - 1 <= protected
    ensures var v := Victim(items, s, protected);
            && v.Some? && v.value < |items| - 1
            && forall j :: 0 <= j < |items| && j != v.value ==> Ranks(items, s, v.value, j)
  {
    SingleSum(items[0]);
    assert items != [items[0]];
    var v := Victim(items, s, protected).value;
    assert v == |items| - 1 ==> !Ranks(items, s, v, 0);
  }

  /** The last of the positions `ps` has the latest key, and fits by itself. */
  ghost predicate NewestLast(items: seq<Item>, s: Strategy, ps: seq<nat>, limit: nat) {
    && Increasing(ps, |items|) && ps != []
    && items[ps[|ps| - 1]].size <= limit
    && (forall k :: 0 <= k < |ps| ==> Key(s, items[ps[k]]) <= Key(s, items[ps[|ps| - 1]]))
  }

  lemma NewestLastEnds(items: seq<Item>, s: Strategy, ps: seq<nat>, limit: nat)
    requires NewestLast(items, s, ps, limit)
    ensures EndsWithNewest(At(items, ps), s, limit)
  {
  }

  lemma RemoveKeepsNewestLast(items: seq<Item>, s: Strategy, ps: seq<nat>, limit: nat, v: nat)
    requires NewestLast(items, s, ps, limit) && v < |ps| - 1
    ensures NewestLast(items, s, RemoveAt(ps, v), limit)
    ensures RemoveAt(ps, v)[|ps| - 2] == ps[|ps| - 1]
  {
    AtRemoveAt(items, ps, v);
    var rest := RemoveAt(ps, v);
    forall k | 0 <= k < |rest| ensures Key(s, items[rest[k]]) <= Key(s, items[rest[|rest| - 1]]) {
      assert rest[k] == ps[if k < v then k else k + 1];
    }
  }

  /** The next victim ranks before all others still in the list. */
  lemma NextVictim(items: seq<Item>, s: Strategy, ps: seq<nat>, protected: nat, limit: nat) returns (v: nat)
    requires s == OldestFirst || s == Lru
    requires NewestLast(items, s, ps, limit) && |ps| - 1 <= protected && Sum(At(items, ps)) > limit
    ensures Victim(At(items, ps), s, protected) == Some(v) && v < |ps| - 1
    ensures forall j :: 0 <= j < |ps| && j != v ==> Ranks(items, s, ps[v], ps[j])
  {
    var list := At(items, ps);
    NewestLastEnds(items, s, ps, limit);
    NewestIsNotVictim(list, s, protected, limit);
    v := Victim(list, s, protected).value;
    forall j | 0 <= j < |ps| && j != v ensures Ranks(items, s, ps[v], ps[j]) {
      RankedByPosition(items, s, ps, v, j);
    }
  }

  lemma EvictStep(items: seq<Item>, s: Strategy, protected: nat, limit: nat, v: nat)
    requires Sum(items) > limit && Victim(items, s, protected) == Some(v) && v < |items|
    ensures var rest := Evict(RemoveAt(items, v), s, protected, limit);
            Evict(items, s, protected, limit) == (rest.0, [items[v]] + rest.1)
  {
  }

  lemma Reassociate(a: seq<Item>, x: Item, b: seq<Item>)
    ensures a + ([x] + b) == (a + [x]) + b
  {
  }

  /** With nothing evicted the list is as it was. */
  lemma EvictNothing(items: seq<Item>, s: Strategy, protected: nat, limit: nat)
    requires Evict(items, s, protected, limit).1 == []
    ensures Evict(items, s, protected, limit).0 == items
  {
  }

  /**
   Of the positions `ps`, `gone` went and `alive` stayed: gone in ranked order and before anything alive, the last
   position alive, the total within the limit, and over it with one eviction fewer.
   */
  ghost predicate SmallestPrefix(items: seq<Item>, s: Strategy, limit: nat, ps: seq<nat>, gone: seq<nat>, alive: seq<nat>) {
    && Divides(ps, gone, alive) && InRankOrder(items, s, gone, alive)
    && Increasing(alive, |items|) && alive != [] && ps != [] && alive[|alive| - 1] == ps[|ps| - 1]
    && Sum(At(items, alive)) <= limit
    && (gone != [] ==> Sum(At(items, alive)) + items[gone[|gone| - 1]].size > limit)
  }

  /** Evicting from `list` keeps the items at positions `alive` and removes those at `gone`, in that order. */
  ghost predicate Parts(list: seq<Item>, s: Strategy, protected: nat, limit: nat, items: seq<Item>, gone: seq<nat>,
                        alive: seq<nat>) {
    && (forall k :: 0 <= k < |gone| ==> gone[k] < |items|)
    && (forall k :: 0 <= k < |alive| ==> alive[k] < |items|)
    && Evict(list, s, protected, limit).0 == At(items, alive)
    && Evict(list, s, protected, limit).1 == At(items, gone)
  }

  /** Every position, in order. */
  ghost predicate AllOf(all: seq<nat>, n: nat) {
    |all| == n && forall k :: 0 <= k < |all| ==> all[k] == k
  }

  lemma ExtendPrefix(items: seq<Item>, s: Strategy, limit: nat, ps: seq<nat>, v: nat, gone: seq<nat>, alive: seq<nat>)
    requires Increasing(ps, |items|) && v < |ps| - 1
    requires forall j :: 0 <= j < |ps| && j != v ==> Ranks(items, s, ps[v], ps[j])
    requires SmallestPrefix(items, s, limit, RemoveAt(ps, v), gone, alive)
    requires gone == [] ==> Sum(At(items, alive)) + items[ps[v]].size > limit
    ensures SmallestPrefix(items, s, limit, ps, [ps[v]] + gone, alive)
  {
    PrependVictim(items, s, ps, v, gone, alive);
    var g := [ps[v]] + gone;
    assert gone != [] ==> g[|g| - 1] == gone[|gone| - 1];
  }

  /**
   Under `OldestFirst` and `Lru`, when no key is later than the newest item's: the newest item survives, although
   its protected position is out of date after the first eviction, and what goes is the smallest-key prefix of
   minimal length.  The positions `ps` are those still in the list.
   */
  lemma {:induction false} EvictIsSmallestPrefix(items: seq<Item>, s: Strategy, ps: seq<nat>, list: seq<Item>,
                                                 protected: nat, limit: nat) returns (gone: seq<nat>, alive: seq<nat>)
    requires s == OldestFirst || s == Lru
    requires NewestLast(items, s, ps, limit) && |ps| - 1 <= protected && list == At(items, ps)
    ensures SmallestPrefix(items, s, limit, ps, gone, alive)
    ensures Parts(list, s, protected, limit, items, gone, alive)
    decreases |ps|
  {
    if Sum(list) <= limit {
      gone, alive := [], ps;
    } else {
      var v := NextVictim(items, s, ps, protected, limit);
      RemoveKeepsNewestLast(items, s, ps, limit, v);
      AtRemoveAt(items, ps, v);
      var g, a := EvictIsSmallestPrefix(items, s, RemoveAt(ps, v), RemoveAt(list, v), protected, limit);
      EvictStep(list, s, protected, limit, v);
      if g == [] {
        EvictNothing(RemoveAt(list, v), s, protected, limit);
        SumRemoveAt(list, v);
      }
      ExtendPrefix(items, s, limit, ps, v, g, a);
      AtCons(items, ps[v], g);
      gone, alive := [ps[v]] + g, a;
    }
  }

  lemma AllPositions(items: seq<Item>) returns (all: seq<nat>)
    ensures AllOf(all, |items|)
  {
    all := seq(|items|, k => k);
  }

  lemma AllNewestLast(items: seq<Item>, s: Strategy, limit: nat, all: seq<nat>)
    requires EndsWithNewest(items, s, limit)
    requires AllOf(all, |items|)
    ensures NewestLast(items, s, all, limit) && At(items, all) == items
  {
  }

  /** The same for the whole list, as an addition starts it: the last item is the new and the protected one. */
  lemma AdditionEvictsSmallestPrefix(items: seq<Item>, s: Strategy, limit: nat, all: seq<nat>)
    returns (gone: seq<nat>, alive: seq<nat>)
    requires s == OldestFirst || s == Lru
    requires NewestLast(items, s, all, limit) && At(items, all) == items
    ensures SmallestPrefix(items, s, limit, all, gone, alive) && Parts(items, s, |items| - 1, limit, items, gone, alive)
  {
    gone, alive := EvictIsSmallestPrefix(items, s, all, items, |items| - 1, limit);
  }

  lemma AtCons(items: seq<Item>, p: nat, ps: seq<nat>)
    requires p < |items| && forall k :: 0 <= k < |ps| ==> ps[k] < |items|
    ensures At(items, [p] + ps) == [items[p]] + At(items, ps)
  {
  }

  // ---------------------------------------------------------------- which items go: by size

  /** Does the last item outlive the eviction? */
  predicate LastSurvives(items: seq<Item>, s: Strategy, protected: nat, limit: nat)
    decreases |items|
  {
    if Sum(items) <= limit || Victim(items, s, protected).None? then true
    else
      var v := Victim(items, s, protected).value;
      v != |items| - 1 && LastSurvives(RemoveAt(items, v), s, protected, limit)
  }

  lemma {:induction false} SurvivorIsKept(items: seq<Item>, s: Strategy, protected: nat, limit: nat)
    requires items != []
    ensures var (kept, gone) := Evict(items, s, protected, limit);
            var last := items[|items| - 1];
            if LastSurvives(items, s, protected, limit) then kept != [] && kept[|kept| - 1] == last else last in gone
    decreases |items|
  {
    if Sum(items) > limit && Victim(items, s, protected).Some? {
      var v := Victim(items, s, protected).value;
      EvictStep(items, s, protected, limit, v);
      if v != |items| - 1 {
        var rest := RemoveAt(items, v);
        assert rest[|rest| - 1] == items[|items| - 1];
        SurvivorIsKept(rest, s, protected, limit);
      }
    }
  }

  /** Total size of the items no larger than `size`. */
  function SumUpTo(items: seq<Item>, size: nat): nat {
    if items == [] then 0
    else (if items[0].size <= size then items[0].size else 0) + SumUpTo(items[1..], size)
  }

  lemma {:induction false} SumUpToRemoveAt(items: seq<Item>, size: nat, i: nat)
    requires i < |items|
    ensures SumUpTo(RemoveAt(items, i), size)
            == SumUpTo(items, size) - (if items[i].size <= size then items[i].size else 0)
  {
    var r := RemoveAt(items, i);
    if i == 0 {
      assert r == items[1..];
    } else {
      assert r[0] == items[0] && r[1..] == RemoveAt(items[1..], i - 1);
      SumUpToRemoveAt(items[1..], size, i - 1);
    }
  }

  lemma {:induction false} SumUpToBounds(items: seq<Item>, size: nat)
    ensures SumUpTo(items, size) <= Sum(items)
    ensures (forall i :: 0 <= i < |items| ==> items[i].size <= size) ==> SumUpTo(items, size) == Sum(items)
  {
    if items != [] {
      SumUpToBounds(items[1..], size);
    }
  }

  /** Without protection the last item survives exactly when it fits beside all items no larger than itself. */
  lemma {:induction false} UnprotectedSurvivesIff(items: seq<Item>, protected: nat, limit: nat)
    requires items != [] && |items| <= protected
    ensures LastSurvives(items, LargestFirst, protected, limit)
            <==> SumUpTo(items, items[|items| - 1].size) <= limit
    decreases |items|
  {
    var last := |items| - 1;
    SumUpToBounds(items, items[last].size);
    if Sum(items) > limit {
      var v := Victim(items, LargestFirst, protected).value;
      if v == last {
        forall i | 0 <= i < |items| ensures items[i].size <= items[last].size {
          assert i != v ==> Ranks(items, LargestFirst, v, i);
        }
      } else {
        assert Ranks(items, LargestFirst, v, last);
        SumUpToRemoveAt(items, items[last].size, v);
        UnprotectedSurvivesIff(RemoveAt(items, v), protected, limit);
      }
    }
  }

  /**
   Under `LargestFirst` only the first victim is certainly another item.  The new item survives exactly when it
   fits beside those items no larger than itself that remain once that first victim is gone.
   */
  lemma LargestFirstSurvivesIff(others: seq<Item>, item: Item, limit: nat)
    requires others != [] && item.size <= limit
    ensures var items := others + [item];
            var first := Best(items, LargestFirst, |others|, |items|);
            && first.Some? && first.value < |others|
            && (LastSurvives(items, LargestFirst, |others|, limit) <==>
                  Sum(items) <= limit || SumUpTo(RemoveAt(items, first.value), item.size) <= limit)
  {
    var items := others + [item];
    var first := Best(items, LargestFirst, |others|, |items|);
    var rest := RemoveAt(items, first.value);
    assert rest[|rest| - 1] == item;
    if Sum(items) > limit {
      UnprotectedSurvivesIff(rest, |others|, limit);
    }
  }

  // ---------------------------------------------------------------- runs

  datatype Event =
    | Add(id: string, category: Category, size: nat, now: int)
    | Touch(id: string, now: int)
    | Remove(id: string)

  function IndexOf(items: seq<Item>, id: string, i: nat): (r: Option<nat>)
    requires i <= |items|
    ensures r.Some? ==> i <= r.value < |items| && items[r.value].id == id
    ensures r.Some? ==> forall j :: i <= j < r.value ==> items[j].id != id
    ensures r.None? ==> forall j :: i <= j < |items| ==> items[j].id != id
    decreases |items| - i
  {
    if i == |items| then None else if items[i].id == id then Some(i) else IndexOf(items, id, i + 1)
  }

  function TouchOp(b: Budget, id: string, now: int): Budget {
    var p := IndexOf(b.items, id, 0);
    if p.None? then b else b.(items := b.items[p.value := b.items[p.value].(lastAccessed := now)])
  }

  function RemoveOp(b: Budget, id: string): Budget {
    var p := IndexOf(b.items, id, 0);
    if p.None? then b
    else b.(items := RemoveAt(b.items, p.value), used := SaturatingSub(b.used, b.items[p.value].size))
  }

  /** A touch sets the access time of the first item with that id, and changes nothing else. */
  lemma TouchMeans(b: Budget, id: string, now: int)
    ensures var n := TouchOp(b, id, now);
            && n == b.(items := n.items) && |n.items| == |b.items|
            && (forall i :: 0 <= i < |b.items| && (b.items[i].id != id || exists j :: 0 <= j < i && b.items[j].id == id)
                  ==> n.items[i] == b.items[i])
            && (forall i :: 0 <= i < |b.items| && b.items[i].id == id && (forall j :: 0 <= j < i ==> b.items[j].id != id)
                  ==> n.items[i] == b.items[i].(lastAccessed := now))
  {
  }

  /** A removal takes out the first item with that id, and its size; without one it changes nothing. */
  lemma RemoveMeans(b: Budget, id: string)
    requires b.used == Sum(b.items)
    ensures var n := RemoveOp(b, id);
            && n.limit == b.limit && n.strategy == b.strategy && n.used == Sum(n.items)
            && ((forall i :: 0 <= i < |b.items| ==> b.items[i].id != id) ==> n == b)
            && (forall i :: 0 <= i < |b.items| && b.items[i].id == id && (forall j :: 0 <= j < i ==> b.items[j].id != id)
                  ==> n.items == b.items[..i] + b.items[i + 1..] && n.used == b.used - b.items[i].size)
  {
    var p := IndexOf(b.items, id, 0);
    if p.Some? {
      SumRemoveAt(b.items, p.value);
    }
  }

  function Apply(b: Budget, e: Event): Budget {
    match e
    case Add(id, category, size, now) => AddOp(b, Item(id, category, size, now, now)).0
    case Touch(id, now) => TouchOp(b, id, now)
    case Remove(id) => RemoveOp(b, id)
  }

  /** The total is right and within the limit, and no time lies after `clock`. */
  ghost predicate Inv(b: Budget, clock: int) {
    && b.used == Sum(b.items) <= b.limit
    && (forall i :: 0 <= i < |b.items| ==> b.items[i].createdAt <= clock && b.items[i].lastAccessed <= clock)
  }

  lemma {:induction false} SumUpdate(items: seq<Item>, i: nat, item: Item)
    requires i < |items| && item.size == items[i].size
    ensures Sum(items[i := item]) == Sum(items)
  {
    if i > 0 {
      assert items[i := item][1..] == items[1..][i - 1 := item];
      SumUpdate(items[1..], i - 1, item);
    } else {
      assert items[i := item][1..] == items[1..];
    }
  }

  lemma KeptWasThere(items: seq<Item>, kept: seq<Item>, gone: seq<Item>)
    requires multiset(kept) + multiset(gone) == multiset(items)
    ensures forall x :: x in kept ==> x in items
  {
    forall x | x in kept ensures x in items {
      assert x in multiset(kept);
      assert x in multiset(items);
    }
  }

  /** The eviction of an addition that is not refused. */
  lemma AddingEvicts(b: Budget, item: Item, items: seq<Item>)
    requires b.used == Sum(b.items) <= b.limit && items == b.items + [item] && !Refused(b, item)
    ensures var (kept, gone) := Evict(items, b.strategy, |items| - 1, b.limit);
            && Sum(kept) <= b.limit && multiset(kept) + multiset(gone) == multiset(items)
            && forall x :: x in kept ==> x in items
  {
    SumConcat(b.items, [item]);
    SingleSum(item);
    var (kept, gone) := Evict(items, b.strategy, |items| - 1, b.limit);
    EvictConserves(items, b.strategy, |items| - 1, b.limit);
    KeptWasThere(items, kept, gone);
    if b.strategy != Reject {
      EvictReachesLimit(items, b.strategy, |items| - 1, b.limit);
    }
  }

  predicate Refused(b: Budget, item: Item) {
    item.size > b.limit || (b.strategy == Reject && b.used + item.size > b.limit)
  }

  lemma AddUnfolds(b: Budget, item: Item, items: seq<Item>)
    requires !Refused(b, item) && items == b.items + [item]
    ensures var (kept, gone) := Evict(items, b.strategy, |items| - 1, b.limit);
            AddOp(b, item) == (b.(items := kept, used := Sum(kept)), Ok(Ids(gone)))
  {
  }

  /** An addition that succeeds ends within the limit and loses no item; one that fails changes nothing. */
  lemma AddIsSound(b: Budget, item: Item)
    requires b.used == Sum(b.items) <= b.limit
    ensures var (n, r) := AddOp(b, item);
            && n.limit == b.limit && n.strategy == b.strategy
            && n.used == Sum(n.items) <= n.limit
            && (r == Err(ItemTooLarge(item.size, b.limit)) <==> item.size > b.limit)
            && (r == Err(BudgetExceeded) <==>
                  item.size <= b.limit && b.strategy == Reject && Sum(b.items) + item.size > b.limit)
            && (r.Err? ==> n == b && (item.size > b.limit || b.strategy == Reject))
            && (r.Ok? ==> exists gone :: Reports(r.value, gone)
                                         && multiset(n.items) + multiset(gone) == multiset(b.items + [item]))
            && (r.Ok? && Sum(b.items) + item.size <= b.limit ==> n.items == b.items + [item] && r.value == [])
    ensures forall x :: x in AddOp(b, item).0.items ==> x in b.items || x == item
  {
    if !Refused(b, item) {
      var items := b.items + [item];
      AddUnfolds(b, item, items);
      AddingEvicts(b, item, items);
      var gone := Evict(items, b.strategy, |items| - 1, b.limit).1;
      assert Reports(Ids(gone), gone);
      if Sum(b.items) + item.size <= b.limit {
        AddFits(b, item);
      }
    }
  }

  /** The ids of the items, in order. */
  ghost predicate Reports(ids: seq<string>, items: seq<Item>) {
    |ids| == |items| && forall i :: 0 <= i < |ids| ==> ids[i] == items[i].id
  }

  lemma StepKeepsInv(b: Budget, clock: int, e: Event)
    requires Inv(b, clock) && (e.Remove? || clock <= e.now)
    ensures Inv(Apply(b, e), if e.Remove? then clock else e.now)
    ensures Apply(b, e).limit == b.limit && Apply(b, e).strategy == b.strategy
  {
    match e
    case Add(id, category, size, now) =>
      var item := Item(id, category, size, now, now);
      AddIsSound(b, item);
      var n := AddOp(b, item).0;
      forall i | 0 <= i < |n.items| ensures n.items[i].createdAt <= now && n.items[i].lastAccessed <= now {
        assert n.items[i] in n.items;
      }
    case Touch(id, now) =>
      var p := IndexOf(b.items, id, 0);
      if p.Some? {
        SumUpdate(b.items, p.value, b.items[p.value].(lastAccessed := now));
      }
    case Remove(id) =>
      var p := IndexOf(b.items, id, 0);
      if p.Some? {
        SumRemoveAt(b.items, p.value);
      }
  }

  ghost predicate Ordered(clock: int, es: seq<Event>)
    decreases |es|
  {
    es == [] ||
    if es[0].Remove? then Ordered(clock, es[1..]) else clock <= es[0].now && Ordered(es[0].now, es[1..])
  }

  function Run(b: Budget, es: seq<Event>): Budget
    decreases |es|
  {
    if es == [] then b else Run(Apply(b, es[0]), es[1..])
  }

  /** Over every run the recorded total is the sum of the sizes and never exceeds the limit. */
  lemma {:induction false} EveryRunKeepsInv(b: Budget, clock: int, es: seq<Event>) returns (end: int)
    requires Inv(b, clock) && Ordered(clock, es)
    ensures clock <= end && Inv(Run(b, es), end)
    ensures Run(b, es).limit == b.limit && Run(b, es).strategy == b.strategy
    decreases |es|
  {
    if es == [] {
      end := clock;
    } else {
      StepKeepsInv(b, clock, es[0]);
      end := EveryRunKeepsInv(Apply(b, es[0]), if es[0].Remove? then clock else es[0].now, es[1..]);
    }
  }

  lemma NewItemIsLast(items: seq<Item>, s: Strategy, limit: nat, all: seq<nat>, gone: seq<nat>, alive: seq<nat>)
    requires SmallestPrefix(items, s, limit, all, gone, alive)
    requires AllOf(all, |items|)
    ensures At(items, alive)[|alive| - 1] == items[|items| - 1]
  {
  }

  lemma AdditionEndsWithNewest(b: Budget, item: Item, items: seq<Item>)
    requires item.createdAt == item.lastAccessed && Inv(b, item.createdAt) && item.size <= b.limit
    requires items == b.items + [item]
    ensures items[|items| - 1] == item && EndsWithNewest(items, b.strategy, b.limit)
  {
  }

  /** Item `i` was used before item `j`, or just then and stands before it. */
  ghost predicate UsedBefore(items: seq<Item>, i: nat, j: nat)
    requires i < |items| && j < |items|
  {
    items[i].lastAccessed < items[j].lastAccessed || (items[i].lastAccessed == items[j].lastAccessed && i < j)
  }

  /** Item `i` was created before item `j`, or just then and stands before it. */
  ghost predicate CreatedBefore(items: seq<Item>, i: nat, j: nat)
    requires i < |items| && j < |items|
  {
    items[i].createdAt < items[j].createdAt || (items[i].createdAt == items[j].createdAt && i < j)
  }

  /** Why `i` goes and `j` does not: it is staler, in the strategy's sense, or larger. */
  ghost predicate GoesFirst(items: seq<Item>, s: Strategy, i: nat, j: nat)
    requires i < |items| && j < |items|
  {
    && (s == Lru ==> UsedBefore(items, i, j))
    && (s == OldestFirst ==> CreatedBefore(items, i, j))
    && (s == LargestFirst ==> items[i].size > items[j].size || (items[i].size == items[j].size && i > j))
  }

  /** The victim, told by the items' own times and sizes. */
  lemma VictimMeans(items: seq<Item>, s: Strategy, protected: nat)
    ensures var v := Victim(items, s, protected);
            && (v.None? <==> s == Reject || items == [] || (|items| == 1 && protected == 0))
            && (v.Some? ==> v.value < |items| && v.value != protected)
            && (v.Some? ==> forall j: nat :: j < |items| && j != protected && j != v.value ==> GoesFirst(items, s, v.value, j))
  {
    var v := Victim(items, s, protected);
    if v.Some? {
      forall j: nat | j < |items| && j != protected && j != v.value ensures GoesFirst(items, s, v.value, j) {
        assert Ranks(items, s, v.value, j);
      }
    }
  }

  /** Under `Lru` the items evicted were used before those kept; under `OldestFirst` they were created before them. */
  ghost predicate StalestGo(items: seq<Item>, s: Strategy, gone: seq<nat>, alive: seq<nat>) {
    && (forall k :: 0 <= k < |gone| ==> gone[k] < |items|)
    && (forall k :: 0 <= k < |alive| ==> alive[k] < |items|)
    && (s == Lru ==>
          && (forall k, l :: 0 <= k < |gone| && 0 <= l < |alive| ==> UsedBefore(items, gone[k], alive[l]))
          && (forall k, l :: 0 <= k < l < |gone| ==> UsedBefore(items, gone[k], gone[l])))
    && (s == OldestFirst ==>
          && (forall k, l :: 0 <= k < |gone| && 0 <= l < |alive| ==> CreatedBefore(items, gone[k], alive[l]))
          && (forall k, l :: 0 <= k < l < |gone| ==> CreatedBefore(items, gone[k], gone[l])))
  }

  lemma RanksByTime(items: seq<Item>, i: nat, j: nat)
    requires i < |items| && j < |items|
    ensures Ranks(items, Lru, i, j) <==> UsedBefore(items, i, j)
    ensures Ranks(items, OldestFirst, i, j) <==> CreatedBefore(items, i, j)
  {
  }

  lemma RankOrderIsStalest(items: seq<Item>, s: Strategy, gone: seq<nat>, alive: seq<nat>)
    requires InRankOrder(items, s, gone, alive)
    ensures StalestGo(items, s, gone, alive)
  {
    forall i, j | 0 <= i < |items| && 0 <= j < |items|
      ensures Ranks(items, Lru, i, j) <==> UsedBefore(items, i, j)
      ensures Ranks(items, OldestFirst, i, j) <==> CreatedBefore(items, i, j)
    {
      RanksByTime(items, i, j);
    }
  }

  /** One addition under a time-based strategy: what goes, what stays, and the new item last among it. */
  lemma AddEvictsSmallestPrefix(b: Budget, item: Item, items: seq<Item>)
    returns (all: seq<nat>, gone: seq<nat>, alive: seq<nat>)
    requires b.strategy == OldestFirst || b.strategy == Lru
    requires item.createdAt == item.lastAccessed && Inv(b, item.createdAt) && item.size <= b.limit
    requires items == b.items + [item]
    ensures AllOf(all, |items|)
    ensures SmallestPrefix(items, b.strategy, b.limit, all, gone, alive)
    ensures AddOp(b, item).0.items == At(items, alive) && AddOp(b, item).1 == Ok(Ids(At(items, gone)))
    ensures AddOp(b, item).0.items[|alive| - 1] == item
    ensures StalestGo(items, b.strategy, gone, alive)
  {
    AdditionEndsWithNewest(b, item, items);
    AddUnfolds(b, item, items);
    all := AllPositions(items);
    AllNewestLast(items, b.strategy, b.limit, all);
    gone, alive := AdditionEvictsSmallestPrefix(items, b.strategy, b.limit, all);
    NewItemIsLast(items, b.strategy, b.limit, all, gone, alive);
    RankOrderIsStalest(items, b.strategy, gone, alive);
  }

  /**
   After any run under a time-based strategy, a new item that fits by itself is kept, and what is evicted for it
   is the smallest-key prefix of minimal length.
   */
  lemma NewItemSurvives(limit: nat, s: Strategy, es: seq<Event>, clock: int, item: Item)
    returns (all: seq<nat>, gone: seq<nat>, alive: seq<nat>)
    requires s == OldestFirst || s == Lru
    requires item.createdAt == item.lastAccessed && item.size <= limit
    requires Ordered(clock, es + [Add(item.id, item.category, item.size, item.createdAt)])
    ensures var b := Run(Budget(limit, 0, s, []), es);
            var items := b.items + [item];
            && AllOf(all, |items|)
            && SmallestPrefix(items, s, limit, all, gone, alive)
            && AddOp(b, item).0.items == At(items, alive) && AddOp(b, item).1 == Ok(Ids(At(items, gone)))
            && AddOp(b, item).0.items[|alive| - 1] == item
            && StalestGo(items, s, gone, alive)
  {
    var b0, e := Budget(limit, 0, s, []), Add(item.id, item.category, item.size, item.createdAt);
    OrderedPrefix(clock, es, e);
    var end := EveryRunKeepsInv(b0, clock, es);
    RunInv(b0, clock, es, e);
    all, gone, alive := AddEvictsSmallestPrefix(Run(b0, es), item, Run(b0, es).items + [item]);
  }

  /** Under `LargestFirst`: the new item fits beside everything, or beside the smaller items once the first victim is gone. */
  ghost predicate FitsBySize(others: seq<Item>, item: Item, limit: nat) {
    var items := others + [item];
    Sum(items) <= limit ||
    (var first := Best(items, LargestFirst, |others|, |items|);
     first.Some? && SumUpTo(RemoveAt(items, first.value), item.size) <= limit)
  }

  lemma FitsIffSurvives(others: seq<Item>, item: Item, limit: nat)
    requires item.size <= limit
    ensures FitsBySize(others, item, limit) <==> LastSurvives(others + [item], LargestFirst, |others|, limit)
  {
    if others == [] {
      assert others + [item] == [item];
      SingleSum(item);
    } else {
      LargestFirstSurvivesIff(others, item, limit);
    }
  }

  lemma OnlyOne(items: seq<Item>, item: Item, kept: seq<Item>, gone: seq<Item>)
    requires item !in items && multiset(kept) + multiset(gone) == multiset(items + [item])
    ensures item in kept <==> item !in gone
  {
    assert multiset(items)[item] == 0;
    assert multiset(items + [item])[item] == 1;
    assert item in kept <==> multiset(kept)[item] > 0;
    assert item in gone <==> multiset(gone)[item] > 0;
  }

  /** One addition by size: whether the new item is kept, or reported among the evicted. */
  lemma AddBySize(b: Budget, item: Item, items: seq<Item>)
    requires b.strategy == LargestFirst && item.size <= b.limit && items == b.items + [item]
    ensures var (n, r) := AddOp(b, item);
            && r.Ok?
            && (FitsBySize(b.items, item, b.limit) ==> n.items != [] && n.items[|n.items| - 1] == item)
            && (!FitsBySize(b.items, item, b.limit) ==> item.id in r.value)
            && (item !in b.items ==> (item in n.items <==> FitsBySize(b.items, item, b.limit)))
  {
    AddUnfolds(b, item, items);
    FitsIffSurvives(b.items, item, b.limit);
    assert items[|items| - 1] == item;
    SurvivorIsKept(items, LargestFirst, |items| - 1, b.limit);
    EvictConserves(items, LargestFirst, |items| - 1, b.limit);
    var (kept, gone) := Evict(items, LargestFirst, |items| - 1, b.limit);
    if item in gone {
      var i :| 0 <= i < |gone| && gone[i] == item;
      assert Ids(gone)[i] == item.id;
    }
    if item !in b.items {
      OnlyOne(b.items, item, kept, gone);
    }
  }

  /** After any run under `LargestFirst`: exactly when the item being added is itself kept. */
  lemma NewItemSurvivesBySizeIff(limit: nat, es: seq<Event>, clock: int, item: Item)
    requires item.createdAt == item.lastAccessed && item.size <= limit
    requires Ordered(clock, es + [Add(item.id, item.category, item.size, item.createdAt)])
    ensures var b := Run(Budget(limit, 0, LargestFirst, []), es);
            var (n, r) := AddOp(b, item);
            && r.Ok? && n.used == Sum(n.items) <= limit
            && (FitsBySize(b.items, item, limit) ==> n.items != [] && n.items[|n.items| - 1] == item)
            && (!FitsBySize(b.items, item, limit) ==> item.id in r.value)
            && (item !in b.items ==> (item in n.items <==> FitsBySize(b.items, item, limit)))
  {
    var b0, e := Budget(limit, 0, LargestFirst, []), Add(item.id, item.category, item.size, item.createdAt);
    OrderedPrefix(clock, es, e);
    var end := EveryRunKeepsInv(b0, clock, es);
    var b := Run(b0, es);
    AddIsSound(b, item);
    AddBySize(b, item, b.items + [item]);
  }

  /** The second victim can be the very item being added: it is reported as evicted by its own addition. */
  lemma LargestFirstCanEvictTheNewItem()
    ensures var b := Run(Budget(10, 0, LargestFirst, []), [Add("a", File, 5, 0), Add("b", File, 5, 1)]);
            var (n, r) := AddOp(b, Item("c", File, 6, 2, 2));
            r.Ok? && "c" in r.value && Item("c", File, 6, 2, 2) !in n.items
  {
    var b0 := Budget(10, 0, LargestFirst, []);
    var x, y, z := Item("a", File, 5, 0, 0), Item("b", File, 5, 1, 1), Item("c", File, 6, 2, 2);
    var es := [Add("a", File, 5, 0), Add("b", File, 5, 1)];
    AddFits(b0, x);
    AddFits(Budget(10, 5, LargestFirst, [x]), y);
    assert [] + [x] == [x] && [x] + [y] == [x, y];
    SumOfTwo(x, y);
    var b := Budget(10, 10, LargestFirst, [x, y]);
    assert es[1..] == [Add("b", File, 5, 1)] && es[1..][1..] == [];
    assert Run(b0, es) == b;
    AddBySize(b, z, [x, y] + [z]);
    LargestFirstSurvivesIff([x, y], z, 10);
    FitsIffSurvives([x, y], z, 10);
    var items := [x, y] + [z];
    SumConcat([x, y], [z]);
    SingleSum(z);
    var rest := RemoveAt(items, Best(items, LargestFirst, 2, 3).value);
    SumUpToBounds(rest, 6);
    assert rest == [x, z] || rest == [y, z];
    SumOfTwo(rest[0], z);
  }

  lemma SumOfTwo(x: Item, y: Item)
    ensures Sum([x, y]) == x.size + y.size
  {
    assert [x, y] == [x] + [y];
    SumConcat([x], [y]);
    SingleSum(x);
    SingleSum(y);
  }

  /** An addition that fits beside what is there evicts nothing. */
  lemma AddFits(b: Budget, item: Item)
    requires b.used == Sum(b.items) && b.used + item.size <= b.limit
    ensures AddOp(b, item) == (b.(items := b.items + [item], used := b.used + item.size), Ok([]))
  {
    var items := b.items + [item];
    SumConcat(b.items, [item]);
    SingleSum(item);
    assert Evict(items, b.strategy, |items| - 1, b.limit) == (items, []);
    assert Ids([]) == [];
  }

  lemma {:induction false} OrderedPrefix(clock: int, es: seq<Event>, e: Event)
    requires Ordered(clock, es + [e])
    ensures Ordered(clock, es)
    decreases |es|
  {
    if es != [] {
      assert (es + [e])[0] == es[0] && (es + [e])[1..] == es[1..] + [e];
      OrderedPrefix(if es[0].Remove? then clock else es[0].now, es[1..], e);
    }
  }

  lemma {:induction false} RunInv(b: Budget, clock: int, es: seq<Event>, e: Event)
    requires Inv(b, clock) && Ordered(clock, es + [e]) && !e.Remove?
    ensures Inv(Run(b, es), e.now)
    decreases |es|
  {
    if es != [] {
      assert (es + [e])[0] == es[0] && (es + [e])[1..] == es[1..] + [e];
      StepKeepsInv(b, clock, es[0]);
      RunInv(Apply(b, es[0]), if es[0].Remove? then clock else es[0].now, es[1..], e);
    } else {
      assert (es + [e])[0] == e;
    }
  }

  // ---------------------------------------------------------------- categories

  function CategorySum(items: seq<Item>, c: Category): nat {
    if items == [] then 0 else (if items[0].category == c then items[0].size else 0) + CategorySum(items[1..], c)
  }

  /** The categories divide the total. */
  lemma {:induction false} CategoriesAddUp(items: seq<Item>)
    ensures CategorySum(items, Artifact) + CategorySum(items, Transcript) + CategorySum(items, File)
            + CategorySum(items, Cache) == Sum(items)
  {
    if items != [] {
      CategoriesAddUp(items[1..]);
    }
  }

  predicate InCategory(c: Category, item: Item) {
    item.category == c
  }

  function OfCategory(c: Category): Item -> bool {
    (item: Item) => InCategory(c, item)
  }

  /** A category's figure is the total size of its items. */
  lemma {:induction false} CategorySumMeans(items: seq<Item>, c: Category)
    ensures CategorySum(items, c) == Sum(Filter(OfCategory(c), items))
  {
    if items != [] {
      CategorySumMeans(items[1..], c);
      var rest := Filter(OfCategory(c), items[1..]);
      assert ([items[0]] + rest)[1..] == rest;
    }
  }

  lemma {:induction false} CategorySumSnoc(items: seq<Item>, i: nat, c: Category)
    requires i < |items|
    ensures CategorySum(items[..i + 1], c)
            == CategorySum(items[..i], c) + if items[i].category == c then items[i].size else 0
  {
    if i == 0 {
      assert items[..1] == [items[0]] && items[..1][1..] == [] && items[..0] == [];
    } else {
      assert items[..i + 1][1..] == items[1..][..i] && items[..i][1..] == items[1..][..i - 1];
      CategorySumSnoc(items[1..], i - 1, c);
    }
  }

  // ---------------------------------------------------------------- the budget object

  class SessionBudget {
    const limit: nat
    const strategy: Strategy
    var used: nat
    var items: seq<Item>

    ghost function State(): Budget
      reads this
    {
      Budget(limit, used, strategy, items)
    }

    ghost predicate Valid()
      reads this
    {
      used == Sum(items) <= limit
    }

    constructor (limit: nat, strategy: Strategy)
      ensures Valid() && State() == Budget(limit, 0, strategy, [])
    {
      this.limit, this.strategy := limit, strategy;
      used, items := 0, [];
    }

    method AddItem(id: string, category: Category, size: nat, now: int)
      returns (r: Result<seq<string>, BudgetError>)
      requires Valid()
      modifies this
      ensures Valid() && (State(), r) == AddOp(old(State()), Item(id, category, size, now, now))
    {
      AddIsSound(State(), Item(id, category, size, now, now));
      if size > limit {
        return Err(ItemTooLarge(size, limit));
      }
      var item := Item(id, category, size, now, now);
      SumConcat(items, [item]);
      SingleSum(item);
      items := items + [item];
      used := used + size;
      if strategy == Reject && used > limit {
        items := items[..|items| - 1];
        used := SaturatingSub(used, size);
        return Err(BudgetExceeded);
      }
      var evicted := EvictOver(|items| - 1);
      r := Ok(Ids(evicted));
    }

    /** The eviction loop; `protected` is a position and is not adjusted as items go. */
    method EvictOver(protected: nat) returns (evicted: seq<Item>)
      requires used == Sum(items)
      modifies this
      ensures (items, evicted) == Evict(old(items), strategy, protected, limit) && used == Sum(items)
    {
      evicted := [];
      assert [] + Evict(items, strategy, protected, limit).1 == Evict(items, strategy, protected, limit).1;
      while used > limit && items != []
        invariant used == Sum(items)
        invariant Evict(old(items), strategy, protected, limit).0 == Evict(items, strategy, protected, limit).0
        invariant Evict(old(items), strategy, protected, limit).1
                  == evicted + Evict(items, strategy, protected, limit).1
        decreases |items|
      {
        var victim := SelectVictim(protected);
        if victim.None? {
          break;
        }
        SumRemoveAt(items, victim.value);
        EvictStep(items, strategy, protected, limit, victim.value);
        var item := items[victim.value];
        Reassociate(evicted, item, Evict(RemoveAt(items, victim.value), strategy, protected, limit).1);
        items := items[..victim.value] + items[victim.value + 1..];
        used := used - item.size;
        evicted := evicted + [item];
      }
      assert evicted + [] == evicted;
    }

    method SelectVictim(protected: nat) returns (v: Option<nat>)
      ensures v == Victim(items, strategy, protected)
      ensures v.None? <==> strategy == Reject || items == [] || (|items| == 1 && protected == 0)
      ensures v.Some? ==> v.value < |items| && v.value != protected
      ensures v.Some? ==> forall j: nat :: j < |items| && j != protected && j != v.value ==> GoesFirst(items, strategy, v.value, j)
    {
      if strategy == Reject {
        return None;
      }
      v := None;
      var k := 0;
      while k < |items|
        invariant 0 <= k <= |items| && v == Best(items, strategy, protected, k)
      {
        if k != protected && (v.None? || !Ranks(items, strategy, v.value, k)) {
          v := Some(k);
        }
        k := k + 1;
      }
      VictimMeans(items, strategy, protected);
    }

    method Touch(id: string, now: int)
      requires Valid()
      modifies this`items
      ensures Valid() && State() == TouchOp(old(State()), id, now)
    {
      var p := IndexOf(items, id, 0);
      if p.Some? {
        SumUpdate(items, p.value, items[p.value].(lastAccessed := now));
        items := items[p.value := items[p.value].(lastAccessed := now)];
      }
    }

    method RemoveItem(id: string) returns (removed: bool)
      requires Valid()
      modifies this
      ensures Valid() && State() == RemoveOp(old(State()), id)
      ensures removed <==> exists i :: 0 <= i < |old(items)| && old(items)[i].id == id
    {
      var p := IndexOf(items, id, 0);
      if p.None? {
        return false;
      }
      SumRemoveAt(items, p.value);
      used := used - items[p.value].size;
      items := items[..p.value] + items[p.value + 1..];
      return true;
    }

    method StatsByCategory() returns (stats: map<Category, nat>)
      ensures forall c :: c in stats <==> exists i :: 0 <= i < |items| && items[i].category == c
      ensures forall c :: c in stats ==> stats[c] == CategorySum(items, c) == Sum(Filter(OfCategory(c), items))
    {
      stats := map[];
      var i := 0;
      assert items[..0] == [];
      while i < |items|
        invariant 0 <= i <= |items|
        invariant forall c :: c in stats <==> exists k :: 0 <= k < i && items[k].category == c
        invariant forall c :: (if c in stats then stats[c] else 0) == CategorySum(items[..i], c)
      {
        forall c ensures CategorySum(items[..i + 1], c)
                         == CategorySum(items[..i], c) + if items[i].category == c then items[i].size else 0
        {
          CategorySumSnoc(items, i, c);
        }
        var c := items[i].category;
        stats := stats[c := (if c in stats then stats[c] else 0) + items[i].size];
        i := i + 1;
      }
      assert items[..i] == items;
      forall c | c in stats ensures stats[c] == Sum(Filter(OfCategory(c), items)) {
        CategorySumMeans(items, c);
      }
    }
  }
}
