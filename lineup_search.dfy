/**
 * The branch-and-bound search of findOptimalAssignment: slot instances are
 * filled in order; each slot takes every eligible, unused candidate in turn,
 * and is left empty only when no candidate fits; a branch is pruned when
 * the current score plus the best points still available cannot beat the
 * best complete assignment found so far.
 */
module LineupSearch {
  import opened Wrappers
  import opened Types
  import opened SlotRequirements

  /** For each slot instance filled so far, the player placed in it (None: left empty). */
  type Choice = seq<Option<Player>>

  function ChoicePoints(o: Option<Player>): real {
    if o.Some? then o.value.totalPoints else 0.0
  }

  /** The score of a choice vector: the sum of its players' points. */
  function Total(c: Choice): real {
    if c == [] then 0.0 else Total(c[..|c| - 1]) + ChoicePoints(c[|c| - 1])
  }

  lemma {:induction false} TotalCons(x: Option<Player>, c: Choice)
    ensures Total([x] + c) == ChoicePoints(x) + Total(c)
  {
    if c != [] {
      var n := |c|;
      assert ([x] + c)[..n] == [x] + c[..n - 1];
      TotalCons(x, c[..n - 1]);
    }
  }

  lemma TotalSnoc(c: Choice, x: Option<Player>)
    ensures Total(c + [x]) == Total(c) + ChoicePoints(x)
  {
    assert (c + [x])[..|c|] == c;
  }

  /** The ids of the players a choice vector uses (the search's `usedPlayerIds`). */
  function IdsOf(c: Choice): set<int> {
    if c == [] then {}
    else IdsOf(c[..|c| - 1]) + (if c[|c| - 1].Some? then {c[|c| - 1].value.id} else {})
  }

  predicate DistinctIds(c: Choice) {
    forall a, b :: 0 <= a < b < |c| && c[a].Some? && c[b].Some? ==> c[a].value.id != c[b].value.id
  }

  /**
   * A choice vector for slots[i..]: no player twice, every player a
   * candidate, eligible for the slot instance it sits in.
   */
  ghost predicate Fits(players: seq<Player>, slots: seq<SlotRequirement>, i: nat, c: Choice) {
    && i + |c| <= |slots|
    && DistinctIds(c)
    && forall j :: 0 <= j < |c| && c[j].Some? ==>
         c[j].value in players && IsPlayerEligibleForSlot(c[j].value, slots[i + j].eligiblePositions)
  }

  /** An eligibility-respecting, duplicate-free assignment of candidates to all slot instances. */
  ghost predicate IsLineupChoice(players: seq<Player>, slots: seq<SlotRequirement>, c: Choice) {
    |c| == |slots| && Fits(players, slots, 0, c)
  }

  ghost predicate HasCandidate(players: seq<Player>, slot: SlotRequirement, used: set<int>) {
    exists p :: p in players && p.id !in used && IsPlayerEligibleForSlot(p, slot.eligiblePositions)
  }

  /**
   * The search space from slot i with `used` taken: a slot is filled with an
   * unused eligible candidate whenever one exists, and left empty otherwise.
   */
  ghost predicate IsCompletion(players: seq<Player>, slots: seq<SlotRequirement>, i: nat, used: set<int>, c: Choice)
    decreases |slots| - i
  {
    if i >= |slots| then c == []
    else
      && |c| > 0
      && (if HasCandidate(players, slots[i], used) then
            && c[0].Some?
            && c[0].value in players
            && c[0].value.id !in used
            && IsPlayerEligibleForSlot(c[0].value, slots[i].eligiblePositions)
            && IsCompletion(players, slots, i + 1, used + {c[0].value.id}, c[1..])
          else
            c[0].None? && IsCompletion(players, slots, i + 1, used, c[1..]))
  }

  /** One step of the search: fill the slot with an unused eligible candidate if there is one, else leave it empty. */
  ghost predicate StepOk(players: seq<Player>, slot: SlotRequirement, used: set<int>, x: Option<Player>) {
    if HasCandidate(players, slot, used) then
      x.Some? && x.value in players && x.value.id !in used && IsPlayerEligibleForSlot(x.value, slot.eligiblePositions)
    else
      x.None?
  }

  /** A partial choice vector the search can be in: every slot so far was filled by the search's rule. */
  ghost predicate SearchPrefix(players: seq<Player>, slots: seq<SlotRequirement>, c: Choice) {
    |c| <= |slots| &&
    (c == [] ||
      var n := |c|;
      SearchPrefix(players, slots, c[..n - 1]) && StepOk(players, slots[n - 1], IdsOf(c[..n - 1]), c[n - 1]))
  }

  /** The assignments a choice vector stands for, in slot order (empty slots contribute none). */
  function Realise(slots: seq<SlotRequirement>, c: Choice): seq<Assignment>
    requires |c| <= |slots|
  {
    if c == [] then []
    else
      var n := |c|;
      Realise(slots, c[..n - 1]) +
        (match c[n - 1]
         case Some(p) => [Assignment(p, slots[n - 1].slot, p.totalPoints)]
         case None => [])
  }

  /** `starters.reduce((sum, a) => sum + a.points, 0)`. */
  function SumPoints(starters: seq<Assignment>): real {
    if starters == [] then 0.0 else SumPoints(starters[..|starters| - 1]) + starters[|starters| - 1].points
  }

  ghost predicate SortedByPointsDesc(players: seq<Player>) {
    forall a, b :: 0 <= a < b < |players| ==> players[a].totalPoints >= players[b].totalPoints
  }

  /** Ids identify players: equal ids mean the same player, and no player appears twice. */
  ghost predicate UniqueIds(players: seq<Player>) {
    && (forall p, q :: p in players && q in players && p.id == q.id ==> p == q)
    && (forall p :: p in players ==> multiset(players)[p] == 1)
  }

  ghost predicate NonNegative(players: seq<Player>) {
    forall p :: p in players ==> p.totalPoints >= 0.0
  }

  function Max0(x: real): real {
    if x < 0.0 then 0.0 else x
  }

  /**
   * The points of the unused candidates, in candidate order: the source's
   * `availablePlayers.map(p => p.totalPoints)` when `clamp` is false; each
   * value raised to at least 0 when it is true.
   */
  function UnusedPoints(players: seq<Player>, used: set<int>, clamp: bool): seq<real> {
    if players == [] then []
    else
      (if players[0].id in used then [] else [if clamp then Max0(players[0].totalPoints) else players[0].totalPoints])
        + UnusedPoints(players[1..], used, clamp)
  }

  /** The sum of the first k values (all of them when there are fewer). */
  function TopSum(xs: seq<real>, k: nat): real {
    if k == 0 || xs == [] then 0.0 else xs[0] + TopSum(xs[1..], k - 1)
  }

  /** The pruning bound: the best points the remaining k slots could add. */
  function Bound(players: seq<Player>, used: set<int>, k: nat, clamp: bool): real {
    TopSum(UnusedPoints(players, used, clamp), k)
  }

  ghost predicate SortedDesc(xs: seq<real>) {
    forall a, b :: 0 <= a < b < |xs| ==> xs[a] >= xs[b]
  }

  // ---------------------------------------------------------------------
  // Lemmas about the bound.

  lemma {:induction false} UnusedPointsAppend(a: seq<Player>, b: seq<Player>, used: set<int>, clamp: bool)
    ensures UnusedPoints(a + b, used, clamp) == UnusedPoints(a, used, clamp) + UnusedPoints(b, used, clamp)
  {
    if a == [] {
      assert a + b == b;
    } else {
      assert (a + b)[0] == a[0];
      assert (a + b)[1..] == a[1..] + b;
      UnusedPointsAppend(a[1..], b, used, clamp);
    }
  }

  lemma {:induction false} UnusedPointsIgnoreId(ps: seq<Player>, used: set<int>, id: int, clamp: bool)
    requires forall q :: q in ps ==> q.id != id
    ensures UnusedPoints(ps, used + {id}, clamp) == UnusedPoints(ps, used, clamp)
  {
    if ps != [] {
      assert ps[0] in ps;
      UnusedPointsIgnoreId(ps[1..], used, id, clamp);
    }
  }

  /** With no negative points, clamping changes nothing: the two bounds agree. */
  lemma {:induction false} ClampNoEffect(players: seq<Player>, used: set<int>)
    requires NonNegative(players)
    ensures UnusedPoints(players, used, false) == UnusedPoints(players, used, true)
  {
    if players != [] {
      assert players[0] in players;
      ClampNoEffect(players[1..], used);
    }
  }

  lemma {:induction false} UnusedPointsSorted(players: seq<Player>, used: set<int>)
    requires SortedByPointsDesc(players)
    ensures SortedDesc(UnusedPoints(players, used, true))
    ensures forall x :: x in UnusedPoints(players, used, true) ==> x >= 0.0
    ensures players != [] ==> forall x :: x in UnusedPoints(players, used, true) ==> x <= Max0(players[0].totalPoints)
  {
    if players != [] {
      var tail := players[1..];
      assert SortedByPointsDesc(tail) by {
        forall a, b | 0 <= a < b < |tail| ensures tail[a].totalPoints >= tail[b].totalPoints {
          assert tail[a] == players[a + 1] && tail[b] == players[b + 1];
        }
      }
      UnusedPointsSorted(tail, used);
      var head := players[0];
      var h := if head.id in used then [] else [Max0(head.totalPoints)];
      var t := UnusedPoints(tail, used, true);
      assert UnusedPoints(players, used, true) == h + t;
      assert forall x :: x in t ==> x <= Max0(head.totalPoints) by {
        if tail != [] {
          assert players[1] == tail[0];
        }
      }
      var r := h + t;
      forall a, b | 0 <= a < b < |r| ensures r[a] >= r[b] {
        if a >= |h| {
          assert r[a] == t[a - |h|] && r[b] == t[b - |h|];
        } else {
          assert r[b] == t[b - |h|] && t[b - |h|] in t;
        }
      }
    }
  }

  lemma {:induction false} TopSumNonNeg(xs: seq<real>, k: nat)
    requires forall x :: x in xs ==> x >= 0.0
    ensures TopSum(xs, k) >= 0.0
  {
    if k > 0 && xs != [] {
      assert xs[0] in xs;
      assert forall x :: x in xs[1..] ==> x in xs;
      TopSumNonNeg(xs[1..], k - 1);
    }
  }

  lemma {:induction false} TopSumMono(xs: seq<real>, k: nat)
    requires forall x :: x in xs ==> x >= 0.0
    ensures TopSum(xs, k) <= TopSum(xs, k + 1)
  {
    if xs != [] {
      assert xs[0] in xs;
      assert forall x :: x in xs[1..] ==> x in xs;
      if k == 0 {
        TopSumNonNeg(xs[1..], 0);
      } else {
        TopSumMono(xs[1..], k - 1);
      }
    }
  }

  /** Taking one value x out of a descending list costs at most x from its top-k sum. */
  lemma {:induction false} TopSumRemove(a: seq<real>, x: real, b: seq<real>, k: nat)
    requires SortedDesc(a + [x] + b)
    requires k >= 1
    ensures x + TopSum(a + b, k - 1) <= TopSum(a + [x] + b, k)
    decreases |a|
  {
    if a == [] {
      assert a + [x] + b == [x] + b;
      assert a + b == b;
    } else {
      var s := a + [x] + b;
      assert s[0] >= x by { assert s[|a|] == x; }
      assert s[1..] == a[1..] + [x] + b;
      assert (a + b)[1..] == a[1..] + b;
      if k == 1 {
        // the top value of s is at least x
      } else {
        TopSumRemove(a[1..], x, b, k - 1);
        // TopSum(a + b, k - 1) == a[0] + TopSum(a[1..] + b, k - 2)
      }
    }
  }

  /** With unique ids, no other candidate shares the id of the one at index idx. */
  lemma OthersHaveOtherIds(players: seq<Player>, idx: nat)
    requires idx < |players| && UniqueIds(players)
    ensures forall q :: q in players[..idx] ==> q.id != players[idx].id
    ensures forall q :: q in players[idx + 1..] ==> q.id != players[idx].id
  {
    var p := players[idx];
    var before, after := players[..idx], players[idx + 1..];
    assert players == before + [p] + after;
    assert multiset(players) == multiset(before) + multiset{p} + multiset(after);
    assert multiset(players)[p] == 1;
    assert p !in before && p !in after;
  }

  /** Marking an unused candidate as used takes exactly its (clamped) value out of the list of points. */
  lemma UnusedPointsTake(players: seq<Player>, used: set<int>, p: Player) returns (a: seq<real>, b: seq<real>)
    requires p in players && UniqueIds(players) && p.id !in used
    ensures UnusedPoints(players, used, true) == a + [Max0(p.totalPoints)] + b
    ensures UnusedPoints(players, used + {p.id}, true) == a + b
  {
    var idx :| 0 <= idx < |players| && players[idx] == p;
    var before, after := players[..idx], players[idx + 1..];
    OthersHaveOtherIds(players, idx);
    assert players == before + ([p] + after);
    a, b := UnusedPoints(before, used, true), UnusedPoints(after, used, true);
    UnusedPointsAt(before, p, after, used);
    UnusedPointsWithout(before, p, after, used);
  }

  /** An unused candidate's clamped value sits between those of the candidates around it. */
  lemma UnusedPointsAt(before: seq<Player>, p: Player, after: seq<Player>, used: set<int>)
    requires p.id !in used
    ensures UnusedPoints(before + ([p] + after), used, true) ==
      UnusedPoints(before, used, true) + [Max0(p.totalPoints)] + UnusedPoints(after, used, true)
  {
    UnusedPointsCons(p, after, used, true);
    UnusedPointsAppend(before, [p] + after, used, true);
    ConcatAssoc(UnusedPoints(before, used, true), Max0(p.totalPoints), UnusedPoints(after, used, true));
  }

  /** Once its id is used, that value is gone and the others stay. */
  lemma UnusedPointsWithout(before: seq<Player>, p: Player, after: seq<Player>, used: set<int>)
    requires forall q :: q in before ==> q.id != p.id
    requires forall q :: q in after ==> q.id != p.id
    ensures UnusedPoints(before + ([p] + after), used + {p.id}, true) ==
      UnusedPoints(before, used, true) + UnusedPoints(after, used, true)
  {
    UnusedPointsCons(p, after, used + {p.id}, true);
    UnusedPointsIgnoreId(before, used, p.id, true);
    UnusedPointsIgnoreId(after, used, p.id, true);
    UnusedPointsAppend(before, [p] + after, used + {p.id}, true);
  }

  lemma ConcatAssoc(a: seq<real>, x: real, b: seq<real>)
    ensures a + ([x] + b) == a + [x] + b
  {
  }

  lemma UnusedPointsCons(p: Player, rest: seq<Player>, used: set<int>, clamp: bool)
    ensures UnusedPoints([p] + rest, used, clamp) ==
      (if p.id in used then [] else [if clamp then Max0(p.totalPoints) else p.totalPoints]) + UnusedPoints(rest, used, clamp)
  {
    assert ([p] + rest)[0] == p;
    assert ([p] + rest)[1..] == rest;
  }

  /**
   * The clamped bound is admissible: no completion of the search space from
   * slot i adds more than it.
   */
  lemma {:induction false} CompletionWithinBound(players: seq<Player>, slots: seq<SlotRequirement>, i: nat, used: set<int>, c: Choice)
    requires IsCompletion(players, slots, i, used, c)
    requires SortedByPointsDesc(players) && UniqueIds(players)
    ensures i <= |slots| ==> Total(c) <= Bound(players, used, |slots| - i, true)
    decreases |slots| - i
  {
    if i < |slots| {
      var k := |slots| - i;
      var rest := c[1..];
      assert c == [c[0]] + rest;
      TotalCons(c[0], rest);
      UnusedPointsSorted(players, used);
      if c[0].Some? {
        var p := c[0].value;
        CompletionWithinBound(players, slots, i + 1, used + {p.id}, rest);
        var a, b := UnusedPointsTake(players, used, p);
        TopSumRemove(a, Max0(p.totalPoints), b, k);
      } else {
        CompletionWithinBound(players, slots, i + 1, used, rest);
        TopSumMono(UnusedPoints(players, used, true), k - 1);
      }
    }
  }

  // ---------------------------------------------------------------------
  // Lemmas about choice vectors.

  lemma IdsOfSnoc(c: Choice, x: Option<Player>)
    ensures IdsOf(c + [x]) == IdsOf(c) + (if x.Some? then {x.value.id} else {})
  {
    assert (c + [x])[..|c|] == c;
  }

  /** An id is used exactly when some filled slot holds a player with that id. */
  lemma {:induction false} IdsOfMember(c: Choice, id: int)
    ensures id in IdsOf(c) <==> exists k :: 0 <= k < |c| && c[k].Some? && c[k].value.id == id
  {
    if c != [] {
      var n := |c|;
      var init := c[..n - 1];
      IdsOfMember(init, id);
      if id in IdsOf(init) {
        var k :| 0 <= k < |init| && init[k].Some? && init[k].value.id == id;
        assert c[k] == init[k];
      }
      if exists k :: 0 <= k < n && c[k].Some? && c[k].value.id == id {
        var k :| 0 <= k < n && c[k].Some? && c[k].value.id == id;
        if k < n - 1 {
          assert init[k] == c[k];
        }
      }
    }
  }

  lemma RealiseSnoc(slots: seq<SlotRequirement>, c: Choice, x: Option<Player>)
    requires |c| < |slots|
    ensures Realise(slots, c + [x]) == Realise(slots, c) +
      (match x
       case Some(p) => [Assignment(p, slots[|c|].slot, p.totalPoints)]
       case None => [])
  {
    assert (c + [x])[..|c|] == c;
  }

  lemma SearchPrefixSnoc(players: seq<Player>, slots: seq<SlotRequirement>, c: Choice, x: Option<Player>)
    requires |c| < |slots| && SearchPrefix(players, slots, c) && StepOk(players, slots[|c|], IdsOf(c), x)
    ensures SearchPrefix(players, slots, c + [x])
  {
    assert (c + [x])[..|c|] == c;
  }

  /** Every prefix of a search prefix is one, and step i followed the rule. */
  lemma {:induction false} SearchPrefixAt(players: seq<Player>, slots: seq<SlotRequirement>, c: Choice, i: nat)
    requires SearchPrefix(players, slots, c) && i < |c|
    ensures SearchPrefix(players, slots, c[..i + 1])
    ensures StepOk(players, slots[i], IdsOf(c[..i]), c[i])
    decreases |c|
  {
    var n := |c|;
    if i < n - 1 {
      SearchPrefixAt(players, slots, c[..n - 1], i);
      assert c[..n - 1][..i + 1] == c[..i + 1];
      assert c[..n - 1][..i] == c[..i];
    } else {
      assert c[..i + 1] == c;
    }
  }

  /** A full choice vector the search built lies in the search space. */
  lemma {:induction false} RuleGivesCompletion(players: seq<Player>, slots: seq<SlotRequirement>, c: Choice, i: nat)
    requires |c| == |slots| && i <= |slots| && SearchPrefix(players, slots, c)
    ensures IsCompletion(players, slots, i, IdsOf(c[..i]), c[i..])
    decreases |slots| - i
  {
    if i < |slots| {
      RuleGivesCompletion(players, slots, c, i + 1);
      SearchPrefixAt(players, slots, c, i);
      assert c[..i + 1] == c[..i] + [c[i]];
      IdsOfSnoc(c[..i], c[i]);
      var d := c[i..];
      assert d[1..] == c[i + 1..];
      assert d[0] == c[i];
      if c[i].Some? {
        assert IdsOf(c[..i + 1]) == IdsOf(c[..i]) + {c[i].value.id};
      } else {
        assert IdsOf(c[..i + 1]) == IdsOf(c[..i]);
      }
    }
  }

  /** The search's choice vectors respect eligibility and use no player twice. */
  lemma {:induction false} SearchPrefixFits(players: seq<Player>, slots: seq<SlotRequirement>, c: Choice)
    requires SearchPrefix(players, slots, c)
    ensures Fits(players, slots, 0, c)
  {
    if c != [] {
      var n := |c|;
      SearchPrefixFits(players, slots, c[..n - 1]);
      assert c == c[..n - 1] + [c[n - 1]];
      FitsSnoc(players, slots, c[..n - 1], c[n - 1]);
    }
  }

  lemma FitsPrefix(players: seq<Player>, slots: seq<SlotRequirement>, c: Choice, n: nat)
    requires Fits(players, slots, 0, c) && n <= |c|
    ensures Fits(players, slots, 0, c[..n])
  {
    forall j | 0 <= j < n ensures c[..n][j] == c[j] { }
  }

  /** The realised assignments score Total(c), one per filled slot. */
  lemma {:induction false} RealiseTotal(slots: seq<SlotRequirement>, c: Choice)
    requires |c| <= |slots|
    ensures |Realise(slots, c)| <= |c|
    ensures SumPoints(Realise(slots, c)) == Total(c)
  {
    if c != [] {
      var n := |c|;
      RealiseTotal(slots, c[..n - 1]);
      var r, ri := Realise(slots, c), Realise(slots, c[..n - 1]);
      if c[n - 1].Some? {
        assert r[..|r| - 1] == ri;
      } else {
        assert r == ri;
      }
    }
  }

  /** Each realised assignment puts a candidate, with its own points, in a slot it is eligible for. */
  lemma {:induction false} RealiseMembers(players: seq<Player>, slots: seq<SlotRequirement>, c: Choice)
    requires Fits(players, slots, 0, c)
    ensures forall a :: a in Realise(slots, c) ==>
      && a.player in players && a.points == a.player.totalPoints && a.player.id in IdsOf(c)
      && exists q :: q in slots && q.slot == a.slot && IsPlayerEligibleForSlot(a.player, q.eligiblePositions)
  {
    if c != [] {
      var n := |c|;
      var init := c[..n - 1];
      FitsPrefix(players, slots, c, n - 1);
      RealiseMembers(players, slots, init);
      assert c == init + [c[n - 1]];
      IdsOfSnoc(init, c[n - 1]);
      if c[n - 1].Some? {
        assert slots[n - 1] in slots;
      }
    }
  }

  /** No player appears twice among the assignments. */
  predicate DistinctPlayers(r: seq<Assignment>) {
    forall a, b :: 0 <= a < b < |r| ==> r[a].player.id != r[b].player.id
  }

  lemma {:induction false} RealiseDistinct(players: seq<Player>, slots: seq<SlotRequirement>, c: Choice)
    requires Fits(players, slots, 0, c)
    ensures DistinctPlayers(Realise(slots, c))
  {
    if c != [] {
      var n := |c|;
      var init := c[..n - 1];
      FitsPrefix(players, slots, c, n - 1);
      RealiseDistinct(players, slots, init);
      RealiseMembers(players, slots, init);
      var r, ri := Realise(slots, c), Realise(slots, init);
      if c[n - 1].Some? {
        var p := c[n - 1].value;
        assert p.id !in IdsOf(init) by {
          forall k | 0 <= k < |init| && init[k].Some? ensures init[k].value.id != p.id {
            assert init[k] == c[k];
          }
          IdsOfMember(init, p.id);
        }
        assert r == ri + [Assignment(p, slots[n - 1].slot, p.totalPoints)];
        forall a, b | 0 <= a < b < |r| ensures r[a].player.id != r[b].player.id {
          assert r[a] == ri[a];
          if b < |ri| {
            assert r[b] == ri[b];
          } else {
            assert ri[a] in ri;
          }
        }
      } else {
        assert r == ri;
      }
    }
  }

  // ---------------------------------------------------------------------
  // Optimality over every lineup, when no candidate scores below zero.

  /** The points of a choice vector, ignoring players whose ids are in `used`. */
  function TotalExcl(c: Choice, used: set<int>): real {
    if c == [] then 0.0
    else (if c[0].Some? && c[0].value.id !in used then c[0].value.totalPoints else 0.0) + TotalExcl(c[1..], used)
  }

  lemma {:induction false} TotalExclEmpty(c: Choice)
    ensures TotalExcl(c, {}) == Total(c)
  {
    if c != [] {
      assert c == [c[0]] + c[1..];
      TotalExclEmpty(c[1..]);
      TotalCons(c[0], c[1..]);
    }
  }

  lemma {:induction false} TotalExclIgnoreId(c: Choice, used: set<int>, id: int)
    requires forall j :: 0 <= j < |c| && c[j].Some? ==> c[j].value.id != id
    ensures TotalExcl(c, used + {id}) == TotalExcl(c, used)
  {
    if c != [] {
      TotalExclIgnoreId(c[1..], used, id);
    }
  }

  lemma {:induction false} TotalExclAddId(players: seq<Player>, c: Choice, used: set<int>, q: Player)
    requires UniqueIds(players) && DistinctIds(c) && q in players && q.totalPoints >= 0.0
    requires forall j :: 0 <= j < |c| && c[j].Some? ==> c[j].value in players
    ensures TotalExcl(c, used) <= TotalExcl(c, used + {q.id}) + q.totalPoints
  {
    if c != [] {
      var rest := c[1..];
      assert DistinctIds(rest) by {
        forall a, b | 0 <= a < b < |rest| && rest[a].Some? && rest[b].Some? ensures rest[a].value.id != rest[b].value.id {
          assert rest[a] == c[a + 1] && rest[b] == c[b + 1];
        }
      }
      if c[0].Some? && c[0].value.id == q.id && q.id !in used {
        assert c[0].value == q;
        forall j | 0 <= j < |rest| && rest[j].Some? ensures rest[j].value.id != q.id {
          assert rest[j] == c[j + 1];
        }
        TotalExclIgnoreId(rest, used, q.id);
      } else {
        TotalExclAddId(players, rest, used, q);
      }
    }
  }

  /**
   * With no negative points, every lineup for slots[i..] is matched by a
   * completion of the search space that scores at least as much (players
   * whose ids are already used count for nothing).
   */
  lemma {:induction false} Dominate(players: seq<Player>, slots: seq<SlotRequirement>, i: nat, used: set<int>, x: Choice) returns (y: Choice)
    requires Fits(players, slots, i, x) && i + |x| == |slots|
    requires UniqueIds(players) && NonNegative(players)
    ensures IsCompletion(players, slots, i, used, y) && Total(y) >= TotalExcl(x, used)
    decreases |slots| - i
  {
    if i >= |slots| {
      y := [];
    } else {
      var rest := x[1..];
      assert Fits(players, slots, i + 1, rest) by {
        forall j | 0 <= j < |rest| ensures rest[j] == x[j + 1] { }
      }
      if x[0].Some? && x[0].value.id !in used {
        var p := x[0].value;
        var y' := Dominate(players, slots, i + 1, used + {p.id}, rest);
        y := [Some(p)] + y';
        assert y[1..] == y';
        TotalCons(Some(p), y');
        forall j | 0 <= j < |rest| && rest[j].Some? ensures rest[j].value.id != p.id {
          assert rest[j] == x[j + 1];
        }
        TotalExclIgnoreId(rest, used, p.id);
      } else if HasCandidate(players, slots[i], used) {
        var q :| q in players && q.id !in used && IsPlayerEligibleForSlot(q, slots[i].eligiblePositions);
        var y' := Dominate(players, slots, i + 1, used + {q.id}, rest);
        y := [Some(q)] + y';
        assert y[1..] == y';
        TotalCons(Some(q), y');
        assert DistinctIds(rest) by {
          forall a, b | 0 <= a < b < |rest| && rest[a].Some? && rest[b].Some? ensures rest[a].value.id != rest[b].value.id {
            assert rest[a] == x[a + 1] && rest[b] == x[b + 1];
          }
        }
        TotalExclAddId(players, rest, used, q);
      } else {
        var y' := Dominate(players, slots, i + 1, used, rest);
        y := [None] + y';
        assert y[1..] == y';
        TotalCons(None, y');
        assert !(x[0].Some? && x[0].value.id !in used);
      }
    }
  }

  // ---------------------------------------------------------------------
  // Facts the search's steps rely on.

  lemma FitsSnoc(players: seq<Player>, slots: seq<SlotRequirement>, before: Choice, x: Option<Player>)
    requires |before| < |slots| && Fits(players, slots, 0, before)
    requires x.Some? ==>
      (x.value in players && x.value.id !in IdsOf(before) && IsPlayerEligibleForSlot(x.value, slots[|before|].eligiblePositions))
    ensures Fits(players, slots, 0, before + [x])
  {
    var c := before + [x];
    if x.Some? {
      IdsOfMember(before, x.value.id);
    }
    forall a, b | 0 <= a < b < |c| && c[a].Some? && c[b].Some? ensures c[a].value.id != c[b].value.id {
      assert c[a] == before[a];
      if b < |before| {
        assert c[b] == before[b];
      }
    }
    forall j | 0 <= j < |c| && c[j].Some?
      ensures c[j].value in players && IsPlayerEligibleForSlot(c[j].value, slots[j].eligiblePositions)
    {
      if j < |before| {
        assert c[j] == before[j];
      }
    }
  }

  /** Every completion from slot i scores at most `best - current`. */
  ghost predicate AllCovered(players: seq<Player>, slots: seq<SlotRequirement>, i: nat, used: set<int>, current: real, best: real) {
    forall c: Choice :: IsCompletion(players, slots, i, used, c) ==> current + Total(c) <= best
  }

  /** The same, for the completions that start with one of players[..j]. */
  ghost predicate CoveredUpTo(players: seq<Player>, slots: seq<SlotRequirement>, i: nat, used: set<int>, current: real, best: real, j: nat)
    requires j <= |players|
  {
    forall c: Choice :: IsCompletion(players, slots, i, used, c) && i < |slots| && c[0].Some? && c[0].value in players[..j] ==>
      current + Total(c) <= best
  }

  lemma CoveredMono(players: seq<Player>, slots: seq<SlotRequirement>, i: nat, used: set<int>, current: real, b1: real, b2: real, j: nat)
    requires j <= |players| && b1 <= b2 && CoveredUpTo(players, slots, i, used, current, b1, j)
    ensures CoveredUpTo(players, slots, i, used, current, b2, j)
  {
  }

  /** A candidate that is used or ineligible starts no completion. */
  lemma CoveredSkip(players: seq<Player>, slots: seq<SlotRequirement>, i: nat, used: set<int>, current: real, best: real, j: nat)
    requires j < |players| && i < |slots| && CoveredUpTo(players, slots, i, used, current, best, j)
    requires players[j].id in used || !IsPlayerEligibleForSlot(players[j], slots[i].eligiblePositions)
    ensures CoveredUpTo(players, slots, i, used, current, best, j + 1)
  {
    assert players[..j + 1] == players[..j] + [players[j]];
  }

  /** When every candidate before j was used or ineligible, no completion starts with one of them. */
  lemma CoveredNoneYet(players: seq<Player>, slots: seq<SlotRequirement>, i: nat, used: set<int>, current: real, best: real, j: nat)
    requires j <= |players| && i < |slots|
    requires !exists k :: 0 <= k < j && players[k].id !in used && IsPlayerEligibleForSlot(players[k], slots[i].eligiblePositions)
    ensures CoveredUpTo(players, slots, i, used, current, best, j)
  {
  }

  /** Once the branch with players[j] in slot i is covered, so are all completions starting with it. */
  lemma CoveredTake(players: seq<Player>, slots: seq<SlotRequirement>, i: nat, used: set<int>, current: real, best: real, j: nat)
    requires j < |players| && i < |slots| && CoveredUpTo(players, slots, i, used, current, best, j)
    requires AllCovered(players, slots, i + 1, used + {players[j].id}, current + players[j].totalPoints, best)
    ensures CoveredUpTo(players, slots, i, used, current, best, j + 1)
  {
    assert players[..j + 1] == players[..j] + [players[j]];
    forall c: Choice | IsCompletion(players, slots, i, used, c) && c[0].Some? && c[0].value == players[j]
      ensures current + Total(c) <= best
    {
      assert c == [c[0]] + c[1..];
      TotalCons(c[0], c[1..]);
    }
  }

  lemma CoveredAll(players: seq<Player>, slots: seq<SlotRequirement>, i: nat, used: set<int>, current: real, best: real)
    requires i < |slots| && HasCandidate(players, slots[i], used)
    requires CoveredUpTo(players, slots, i, used, current, best, |players|)
    ensures AllCovered(players, slots, i, used, current, best)
  {
    assert players[..|players|] == players;
  }

  lemma CoveredEmpty(players: seq<Player>, slots: seq<SlotRequirement>, i: nat, used: set<int>, current: real, best: real)
    requires i < |slots| && !HasCandidate(players, slots[i], used)
    requires AllCovered(players, slots, i + 1, used, current, best)
    ensures AllCovered(players, slots, i, used, current, best)
  {
    forall c: Choice | IsCompletion(players, slots, i, used, c) ensures current + Total(c) <= best {
      assert c == [c[0]] + c[1..];
      TotalCons(c[0], c[1..]);
    }
  }

  /** A pruned branch is covered: its completions cannot beat the best score. */
  lemma CoveredPrune(players: seq<Player>, slots: seq<SlotRequirement>, i: nat, used: set<int>, current: real, best: real, clamp: bool)
    requires i < |slots| && SortedByPointsDesc(players) && UniqueIds(players) && (clamp || NonNegative(players))
    requires current + Bound(players, used, |slots| - i, clamp) <= best
    ensures AllCovered(players, slots, i, used, current, best)
  {
    if !clamp {
      ClampNoEffect(players, used);
    }
    forall c: Choice | IsCompletion(players, slots, i, used, c) ensures current + Total(c) <= best {
      CompletionWithinBound(players, slots, i, used, c);
    }
  }

  // ---------------------------------------------------------------------
  // The search itself.

  class Search {
    const players: seq<Player>
    const slots: seq<SlotRequirement>
    /** Whether the pruning bound raises negative points to zero (see the corrected solver). */
    const clamp: bool
    var used: set<int>
    var assignment: seq<Assignment>
    ghost var choice: Choice
    var bestScore: Option<real>
    var bestAssignment: seq<Assignment>
    ghost var bestChoice: Choice

    ghost predicate Valid()
      reads this
    {
      && SearchPrefix(players, slots, choice)
      && used == IdsOf(choice)
      && assignment == Realise(slots, choice)
      && (bestScore.Some? ==>
            && |bestChoice| == |slots|
            && SearchPrefix(players, slots, bestChoice)
            && bestAssignment == Realise(slots, bestChoice)
            && bestScore.value == Total(bestChoice))
    }

    /** When the bound in use never underestimates what a branch can still add. */
    ghost predicate Admissible() {
      SortedByPointsDesc(players) && UniqueIds(players) && (clamp || NonNegative(players))
    }

    constructor (players: seq<Player>, slots: seq<SlotRequirement>, clamp: bool)
      ensures Valid()
      ensures this.players == players && this.slots == slots && this.clamp == clamp
      ensures choice == [] && bestScore.None?
    {
      this.players := players;
      this.slots := slots;
      this.clamp := clamp;
      used := {};
      assignment := [];
      choice := [];
      bestScore := None;
      bestAssignment := [];
      bestChoice := [];
    }

    /** The partial assignment is the one the search holds before it visits slots[i]. */
    ghost predicate At(i: nat, currentScore: real)
      reads this
    {
      Valid() && i == |choice| && i <= |slots| && currentScore == Total(choice)
    }

    /**
     * backtrack(slotIndex, currentScore): explores every completion of the
     * current partial assignment that the bound does not rule out, and
     * restores the partial assignment before it returns.
     */
    method Backtrack(slotIndex: nat, currentScore: real)
      requires At(slotIndex, currentScore)
      modifies this
      ensures Valid()
      ensures choice == old(choice) && used == old(used) && assignment == old(assignment)
      ensures bestScore.Some? && (old(bestScore).Some? ==> bestScore.value >= old(bestScore).value)
      ensures Admissible() ==> AllCovered(players, slots, slotIndex, used, currentScore, bestScore.value)
      decreases |slots| - slotIndex, 2
    {
      if slotIndex < |slots| {
        var remainingSlots := |slots| - slotIndex;
        var maxRemaining := Bound(players, used, remainingSlots, clamp);
        if bestScore.Some? && currentScore + maxRemaining <= bestScore.value {
          if Admissible() {
            CoveredPrune(players, slots, slotIndex, used, currentScore, bestScore.value, clamp);
          }
          return;
        }
      }

      if slotIndex == |slots| {
        if bestScore.None? || currentScore > bestScore.value {
          bestScore := Some(currentScore);
          bestAssignment := assignment;
          bestChoice := choice;
        }
        return;
      }

      FillSlot(slotIndex, currentScore);
    }

    /** The loop over candidates for slots[slotIndex], then the empty-slot fallback. */
    method FillSlot(slotIndex: nat, currentScore: real)
      requires At(slotIndex, currentScore) && slotIndex < |slots|
      modifies this
      ensures Valid()
      ensures choice == old(choice) && used == old(used) && assignment == old(assignment)
      ensures bestScore.Some? && (old(bestScore).Some? ==> bestScore.value >= old(bestScore).value)
      ensures Admissible() ==> AllCovered(players, slots, slotIndex, used, currentScore, bestScore.value)
      decreases |slots| - slotIndex, 1
    {
      var slot := slots[slotIndex];
      var foundAny := false;
      var j := 0;
      while j < |players|
        invariant 0 <= j <= |players|
        invariant At(slotIndex, currentScore)
        invariant choice == old(choice) && used == old(used) && assignment == old(assignment)
        invariant old(bestScore).Some? ==> bestScore.Some? && bestScore.value >= old(bestScore).value
        invariant foundAny ==> bestScore.Some?
        invariant foundAny <==> exists k :: 0 <= k < j && players[k].id !in used && IsPlayerEligibleForSlot(players[k], slot.eligiblePositions)
        invariant Admissible() && bestScore.Some? ==> CoveredUpTo(players, slots, slotIndex, used, currentScore, bestScore.value, j)
      {
        var player := players[j];
        if player.id in used || !IsPlayerEligibleForSlot(player, slot.eligiblePositions) {
          if Admissible() && bestScore.Some? {
            CoveredSkip(players, slots, slotIndex, used, currentScore, bestScore.value, j);
          }
          j := j + 1;
          continue;
        }
        ghost var foundBefore := foundAny;
        ghost var bestBefore := bestScore;
        foundAny := true;
        Place(slotIndex, currentScore, player);
        if Admissible() {
          if foundBefore {
            CoveredMono(players, slots, slotIndex, used, currentScore, bestBefore.value, bestScore.value, j);
          } else {
            CoveredNoneYet(players, slots, slotIndex, used, currentScore, bestScore.value, j);
          }
          CoveredTake(players, slots, slotIndex, used, currentScore, bestScore.value, j);
        }
        j := j + 1;
      }

      if !foundAny {
        assert !HasCandidate(players, slot, used);
        LeaveEmpty(slotIndex, currentScore);
        if Admissible() {
          CoveredEmpty(players, slots, slotIndex, used, currentScore, bestScore.value);
        }
      } else {
        assert HasCandidate(players, slot, used);
        if Admissible() {
          CoveredAll(players, slots, slotIndex, used, currentScore, bestScore.value);
        }
      }
    }

    /** Places `player` in slots[slotIndex], searches on, and takes it out again. */
    method Place(slotIndex: nat, currentScore: real, player: Player)
      requires At(slotIndex, currentScore) && slotIndex < |slots|
      requires player in players && player.id !in used && IsPlayerEligibleForSlot(player, slots[slotIndex].eligiblePositions)
      modifies this
      ensures Valid()
      ensures choice == old(choice) && used == old(used) && assignment == old(assignment)
      ensures bestScore.Some? && (old(bestScore).Some? ==> bestScore.value >= old(bestScore).value)
      ensures Admissible() ==>
        AllCovered(players, slots, slotIndex + 1, used + {player.id}, currentScore + player.totalPoints, bestScore.value)
      decreases |slots| - slotIndex, 0
    {
      ghost var before := choice;
      SearchPrefixSnoc(players, slots, before, Some(player));
      IdsOfSnoc(before, Some(player));
      RealiseSnoc(slots, before, Some(player));
      TotalSnoc(before, Some(player));
      used := used + {player.id};
      assignment := assignment + [Assignment(player, slots[slotIndex].slot, player.totalPoints)];
      choice := choice + [Some(player)];
      Backtrack(slotIndex + 1, currentScore + player.totalPoints);
      assignment := assignment[..|assignment| - 1];
      used := used - {player.id};
      choice := choice[..slotIndex];
      assert choice == before;
    }

    /** Leaves slots[slotIndex] empty (no candidate fits it) and searches on. */
    method LeaveEmpty(slotIndex: nat, currentScore: real)
      requires At(slotIndex, currentScore) && slotIndex < |slots|
      requires !HasCandidate(players, slots[slotIndex], used)
      modifies this
      ensures Valid()
      ensures choice == old(choice) && used == old(used) && assignment == old(assignment)
      ensures bestScore.Some? && (old(bestScore).Some? ==> bestScore.value >= old(bestScore).value)
      ensures Admissible() ==> AllCovered(players, slots, slotIndex + 1, used, currentScore, bestScore.value)
      decreases |slots| - slotIndex, 0
    {
      ghost var before := choice;
      SearchPrefixSnoc(players, slots, before, None);
      IdsOfSnoc(before, None);
      RealiseSnoc(slots, before, None);
      TotalSnoc(before, None);
      choice := choice + [None];
      Backtrack(slotIndex + 1, currentScore);
      choice := choice[..slotIndex];
      assert choice == before;
    }
  }

  /** Runs the search from the empty assignment; `chosen` is the choice vector of the result. */
  method Solve(players: seq<Player>, slots: seq<SlotRequirement>, clamp: bool) returns (best: seq<Assignment>, ghost chosen: Choice)
    ensures IsLineupChoice(players, slots, chosen) && IsCompletion(players, slots, 0, {}, chosen)
    ensures best == Realise(slots, chosen)
    ensures SortedByPointsDesc(players) && UniqueIds(players) && (clamp || NonNegative(players)) ==>
      forall c: Choice :: IsCompletion(players, slots, 0, {}, c) ==> Total(c) <= Total(chosen)
  {
    var search := new Search(players, slots, clamp);
    assert IdsOf([]) == {};
    search.Backtrack(0, 0.0);
    best := search.bestAssignment;
    chosen := search.bestChoice;
    RuleGivesCompletion(players, slots, chosen, 0);
    SearchPrefixFits(players, slots, chosen);
    assert chosen[..0] == [] && chosen[0..] == chosen;
  }

  /**
   * findOptimalAssignment as written: the bound sums the raw points of the
   * best unused candidates. The result is always a lineup the search space
   * allows; it is optimal over that space only when no candidate scores
   * below zero (see BoundCounterexample).
   */
  method FindOptimalAssignment(players: seq<Player>, slots: seq<SlotRequirement>) returns (best: seq<Assignment>, ghost chosen: Choice)
    ensures IsLineupChoice(players, slots, chosen) && IsCompletion(players, slots, 0, {}, chosen)
    ensures best == Realise(slots, chosen)
    ensures SortedByPointsDesc(players) && UniqueIds(players) && NonNegative(players) ==>
      forall c: Choice :: IsCompletion(players, slots, 0, {}, c) ==> Total(c) <= Total(chosen)
    ensures SortedByPointsDesc(players) && UniqueIds(players) && NonNegative(players) ==>
      forall x: Choice :: IsLineupChoice(players, slots, x) ==> Total(x) <= Total(chosen)
  {
    best, chosen := Solve(players, slots, false);
    if SortedByPointsDesc(players) && UniqueIds(players) && NonNegative(players) {
      forall x: Choice | IsLineupChoice(players, slots, x) ensures Total(x) <= Total(chosen) {
        var y := Dominate(players, slots, 0, {}, x);
        TotalExclEmpty(x);
      }
    }
  }

  /** findOptimalAssignment with each candidate's contribution to the bound raised to at least zero. */
  method FindOptimalAssignmentCorrected(players: seq<Player>, slots: seq<SlotRequirement>) returns (best: seq<Assignment>, ghost chosen: Choice)
    ensures IsLineupChoice(players, slots, chosen) && IsCompletion(players, slots, 0, {}, chosen)
    ensures best == Realise(slots, chosen)
    ensures SortedByPointsDesc(players) && UniqueIds(players) ==>
      forall c: Choice :: IsCompletion(players, slots, 0, {}, c) ==> Total(c) <= Total(chosen)
    ensures SortedByPointsDesc(players) && UniqueIds(players) && NonNegative(players) ==>
      forall x: Choice :: IsLineupChoice(players, slots, x) ==> Total(x) <= Total(chosen)
  {
    best, chosen := Solve(players, slots, true);
    if SortedByPointsDesc(players) && UniqueIds(players) && NonNegative(players) {
      forall x: Choice | IsLineupChoice(players, slots, x) ensures Total(x) <= Total(chosen) {
        var y := Dominate(players, slots, 0, {}, x);
        TotalExclEmpty(x);
      }
    }
  }

  // ---------------------------------------------------------------------
  // The as-written bound is not admissible when points can be negative.

  function SamplePlayer(id: int, positions: seq<string>, rostered: string, points: real): Player
    requires |positions| > 0
  {
    Player(id, "", "", "", "", "", positions[0], positions, rostered, points, None)
  }

  /** h: 6 points, RB or WR, started; l: 4 points, RB only, on the bench; n: -10 points, RB only, started. */
  const SampleH := SamplePlayer(1, ["RB", "WR"], "RB", 6.0)
  const SampleL := SamplePlayer(2, ["RB"], "Bench", 4.0)
  const SampleN := SamplePlayer(3, ["RB"], "RB", -10.0)
  const SampleCandidates := [SampleH, SampleL, SampleN]
  const SampleSlots := [SlotRequirement("RB", 1, ["RB"]), SlotRequirement("WR", 1, ["WR"]), SlotRequirement("K", 1, ["K"])]

  lemma SampleEligibility()
    ensures IsPlayerEligibleForSlot(SampleH, ["RB"]) && IsPlayerEligibleForSlot(SampleH, ["WR"]) && IsPlayerEligibleForSlot(SampleL, ["RB"])
    ensures !IsPlayerEligibleForSlot(SampleL, ["WR"]) && !IsPlayerEligibleForSlot(SampleN, ["WR"])
    ensures !IsPlayerEligibleForSlot(SampleH, ["K"]) && !IsPlayerEligibleForSlot(SampleL, ["K"]) && !IsPlayerEligibleForSlot(SampleN, ["K"])
  {
  }

  /** Filling RB with h first leaves no candidate for WR or K: a complete lineup worth 6. */
  lemma SampleFirstLeaf()
    ensures IsCompletion(SampleCandidates, SampleSlots, 0, {}, [Some(SampleH), None, None])
    ensures Total([Some(SampleH), None, None]) == 6.0
  {
    SampleEligibility();
    var players, slots := SampleCandidates, SampleSlots;
    assert !HasCandidate(players, slots[2], {1});
    assert !HasCandidate(players, slots[1], {1});
    assert HasCandidate(players, slots[0], {}) by { assert SampleH in players; }
    assert IsCompletion(players, slots, 2, {1}, [None]);
    assert IsCompletion(players, slots, 1, {1}, [None, None]);
    assert {} + {1} == {1};
    assert [Some(SampleH), None, None][1..] == [None, None];
    assert [Some(SampleH)] + [None, None] == [Some(SampleH), None, None];
    var empty: Choice := [None];
    assert empty + empty == [None, None];
    TotalCons(None, []);
    TotalCons(None, [None]);
    TotalCons(Some(SampleH), [None, None]);
  }

  /** l at RB and h at WR is in the search space and is worth 10. */
  lemma SampleBestLeaf()
    ensures IsCompletion(SampleCandidates, SampleSlots, 1, {2}, [Some(SampleH), None])
    ensures IsCompletion(SampleCandidates, SampleSlots, 0, {}, [Some(SampleL), Some(SampleH), None])
    ensures Total([Some(SampleH), None]) == 6.0
    ensures Total([Some(SampleL), Some(SampleH), None]) == 10.0
  {
    SampleEligibility();
    var players, slots := SampleCandidates, SampleSlots;
    assert !HasCandidate(players, slots[2], {2, 1});
    assert HasCandidate(players, slots[1], {2}) by { assert SampleH in players; }
    assert HasCandidate(players, slots[0], {}) by { assert SampleL in players; }
    assert IsCompletion(players, slots, 2, {2, 1}, [None]);
    assert {2} + {1} == {2, 1};
    assert [Some(SampleH), None][1..] == [None];
    assert IsCompletion(players, slots, 1, {2}, [Some(SampleH), None]);
    assert {} + {2} == {2};
    assert [Some(SampleL), Some(SampleH), None][1..] == [Some(SampleH), None];
    assert [Some(SampleL)] + [Some(SampleH), None] == [Some(SampleL), Some(SampleH), None];
    assert [Some(SampleH)] + [None] == [Some(SampleH), None];
    TotalCons(None, []);
    TotalCons(Some(SampleH), [None]);
    TotalCons(Some(SampleL), [Some(SampleH), None]);
  }

  lemma SampleOrder()
    ensures SortedByPointsDesc(SampleCandidates) && UniqueIds(SampleCandidates)
  {
    assert multiset(SampleCandidates) == multiset{SampleH, SampleL, SampleN};
  }

  /** With l used, the raw bound for two slots is 6 + (-10), the clamped one 6 + 0. */
  lemma SampleBounds()
    ensures Bound(SampleCandidates, {2}, 2, false) == -4.0
    ensures Bound(SampleCandidates, {2}, 2, true) == 6.0
  {
    var players := SampleCandidates;
    assert players[1..] == [SampleL, SampleN] && players[1..][1..] == [SampleN] && players[1..][1..][1..] == [];
    assert UnusedPoints([SampleN], {2}, false) == [-10.0];
    assert UnusedPoints([SampleL, SampleN], {2}, false) == [-10.0];
    assert UnusedPoints(players, {2}, false) == [6.0, -10.0];
    assert UnusedPoints([SampleN], {2}, true) == [0.0];
    assert UnusedPoints([SampleL, SampleN], {2}, true) == [0.0];
    assert UnusedPoints(players, {2}, true) == [6.0, 0.0];
    assert [6.0, -10.0][1..] == [-10.0] && [6.0, 0.0][1..] == [0.0];
  }

  /**
   * The as-written bound cuts a branch that holds the optimum. The search
   * first completes h at RB for 6. With l at RB (4 points) the raw bound
   * for the two slots left is 6 + (-10) = -4, and 4 - 4 <= 6 prunes the
   * branch, although l at RB with h at WR scores 10. The clamped bound,
   * 6 + 0, does not prune it.
   */
  lemma BoundCounterexample()
    ensures SortedByPointsDesc(SampleCandidates) && UniqueIds(SampleCandidates)
    ensures IsCompletion(SampleCandidates, SampleSlots, 0, {}, [Some(SampleH), None, None])
    ensures Total([Some(SampleH), None, None]) == 6.0
    ensures IsCompletion(SampleCandidates, SampleSlots, 1, {2}, [Some(SampleH), None])
    ensures 4.0 + Total([Some(SampleH), None]) == 10.0
    ensures 4.0 + Bound(SampleCandidates, {2}, 2, false) <= 6.0
    ensures 4.0 + Bound(SampleCandidates, {2}, 2, true) > 6.0
  {
    SampleOrder();
    SampleFirstLeaf();
    SampleBestLeaf();
    SampleBounds();
  }
}
