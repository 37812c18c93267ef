/**
 * `calculateRoleDistribution` of js/roles.js: from a head-count in [8, 20] to
 * an ordered map from role key to quantity.
 *
 * The functions below follow the source step by step (baseline werewolves, the
 * three mandatory roles, three threshold tiers of optional roles, extra
 * werewolves, the round-robin top-up, the final sum check); the method
 * `CalculateRoleDistribution` runs the same steps with loops and is proved to
 * compute `Plan`. The lemmas state what the plan is: its sum, its shape, and a
 * closed form of every quantity (`ExpectedCount`).
 */
module Planner {
  import opened Wrappers
  import opened OrderedMaps
  import opened Roles

  datatype PlanError =
    | NotAnInteger                        // `!Number.isInteger(playerCount)`
    | OutOfRange(count: int)              // outside [8, 20]
    | Mismatch(total: int, count: int)    // the final sum check failed

  const MinCount := 8
  const MaxCount := 20

  const WEREWOLF := Known(Werewolf)
  const MandatoryRoles: seq<RoleKey> := [Known(Seer), Known(Witch), Known(Hunter)]
  const TierA: seq<RoleKey> := [Known(Alien), Known(Cupid)]
  const TierB: seq<RoleKey> := [Known(Bear), Known(Elder), Known(Raven)]
  const TierC: seq<RoleKey> := [Known(Barbie), Known(Shepherd)]
  /** The roles the round-robin top-up cycles through. */
  const Cycle: seq<RoleKey> := [Known(Seer), Known(Witch), Known(Hunter), Known(Cupid), Known(Alien)]

  function Min(a: int, b: int): int { if a <= b then a else b }
  function Max(a: int, b: int): int { if a <= b then b else a }

  /** `min(max(2, floor(n/4)), n <= 11 ? 2 : n <= 15 ? 3 : 4)`. */
  function BaselineWerewolves(n: int): (w: nat)
    ensures 2 <= w <= 4
  {
    Min(Max(2, n / 4), if n <= 11 then 2 else if n <= 15 then 3 else 4)
  }

  /** The local `distribution` map together with `remainingSlots`. */
  datatype Draft = Draft(dist: Dist, remaining: int)

  /** The `forEach` over the mandatory roles, from the `i`-th on: each is set to 1. */
  function SetMandatory(d: Dist, i: nat): Dist
    requires i <= |MandatoryRoles|
    decreases |MandatoryRoles| - i
  {
    if i == |MandatoryRoles| then d
    else SetMandatory(Set(d, MandatoryRoles[i], 1), i + 1)
  }

  /** The `forEach` inside `addRolesIfPossible`, from the `i`-th role on: one slot per role while slots remain. */
  function Grant(draft: Draft, roles: seq<RoleKey>, i: nat): Draft
    requires i <= |roles|
    decreases |roles| - i
  {
    if i == |roles| then draft
    else if draft.remaining > 0 && InCatalog(roles[i]) then
      Grant(Draft(Set(draft.dist, roles[i], 1), draft.remaining - 1), roles, i + 1)
    else Grant(draft, roles, i + 1)
  }

  /** `addRolesIfPossible(roles, minPlayers)`. */
  function OfferTier(draft: Draft, n: int, roles: seq<RoleKey>, minPlayers: int): Draft
  {
    if draft.remaining > 0 && n >= minPlayers then Grant(draft, roles, 0) else draft
  }

  /** The three tiers, in order. */
  function Tiers(draft: Draft, n: int): Draft
  {
    OfferTier(OfferTier(OfferTier(draft, n, TierA, 10), n, TierB, 12), n, TierC, 14)
  }

  /** Up to `min(floor(remaining/4), floor(n/6))` more werewolves. */
  function AddExtraWerewolves(draft: Draft, n: int): Draft
  {
    var extra := Min(draft.remaining / 4, n / 6);
    if extra > 0 then Draft(Set(draft.dist, WEREWOLF, CountOf(draft.dist, WEREWOLF) + extra), draft.remaining - extra)
    else draft
  }

  /** The extra werewolves only move free slots into the werewolf quantity. */
  lemma ExtraMoves(draft: Draft, n: int)
    ensures AddExtraWerewolves(draft, n).remaining <= draft.remaining
    ensures CountOf(AddExtraWerewolves(draft, n).dist, WEREWOLF) + AddExtraWerewolves(draft, n).remaining
            == CountOf(draft.dist, WEREWOLF) + draft.remaining
    ensures Sum(AddExtraWerewolves(draft, n).dist) + AddExtraWerewolves(draft, n).remaining
            == Sum(draft.dist) + draft.remaining
  {
    var extra := Min(draft.remaining / 4, n / 6);
    if extra > 0 {
      var w := CountOf(draft.dist, WEREWOLF) + extra;
      assert AddExtraWerewolves(draft, n) == Draft(Set(draft.dist, WEREWOLF, w), draft.remaining - extra);
      CountOfSet(draft.dist, WEREWOLF, w, WEREWOLF);
      SumSet(draft.dist, WEREWOLF, w);
    }
  }

  /** The `while` loop: one more of the role at `index`, then the index moves on cyclically. */
  function RoundRobin(draft: Draft, index: nat): Draft
    decreases Max(draft.remaining, 0)
  {
    if draft.remaining > 0 && index < |Cycle| then
      var role := Cycle[index];
      RoundRobin(Draft(Set(draft.dist, role, CountOf(draft.dist, role) + 1), draft.remaining - 1),
                 (index + 1) % |Cycle|)
    else draft
  }

  /** What happens to the slots left after the tiers. */
  function Fill(draft: Draft, n: int): Draft
  {
    if draft.remaining > 0 then
      var d := AddExtraWerewolves(draft, n);
      if d.remaining > 0 then RoundRobin(d, 0) else d
    else draft
  }

  /** The distribution for an integer head-count. */
  function PlanFor(n: int): (r: Result<Dist, PlanError>)
    ensures r.Ok? ==> MinCount <= n <= MaxCount && Sum(r.value) == n
  {
    if n < MinCount || n > MaxCount then Err(OutOfRange(n))
    else
      Checked(Fill(Tiers(Draft(MandatoryDist(n), AfterMandatory(n)), n), n).dist, n)
  }

  /** The map once the baseline werewolves and the mandatory roles are set. */
  function MandatoryDist(n: int): Dist
  {
    SetMandatory(Set([], WEREWOLF, BaselineWerewolves(n)), 0)
  }

  /** `remainingSlots` once the baseline werewolves and the mandatory roles are placed. */
  function AfterMandatory(n: int): int
  {
    n - (BaselineWerewolves(n) + |MandatoryRoles|)
  }

  /** The final check that the quantities add up to the head-count. */
  function Checked(final: Dist, n: int): Result<Dist, PlanError>
  {
    var total := Sum(final);
    if total != n then Err(Mismatch(total, n)) else Ok(final)
  }

  /** `calculateRoleDistribution(count)` for a JavaScript number `count`. */
  function Plan(count: real): (r: Result<Dist, PlanError>)
    ensures r.Ok? ==> count == count.Floor as real && Sum(r.value) == count.Floor
  {
    if count.Floor as real != count then Err(NotAnInteger) else PlanFor(count.Floor)
  }

  // ---------------------------------------------------------------------------
  // The computation, step by step

  /** `calculateRoleDistribution(count)`: builds the map with the source's loops. */
  method CalculateRoleDistribution(count: real) returns (r: Result<Dist, PlanError>)
    ensures r == Plan(count)
  {
    if count.Floor as real != count {
      return Err(NotAnInteger);
    }
    var n := count.Floor;
    if n < MinCount || n > MaxCount {
      return Err(OutOfRange(n));
    }
    r := BuildDistribution(n);
  }

  /** The body of `calculateRoleDistribution` once the count is known to be a valid head-count. */
  method BuildDistribution(n: int) returns (r: Result<Dist, PlanError>)
    requires MinCount <= n <= MaxCount
    ensures r == PlanFor(n)
  {
    var werewolfCount := BaselineWerewolves(n);
    var distribution := AddMandatoryRoles(Set([], WEREWOLF, werewolfCount));
    var remainingSlots := n - (werewolfCount + |MandatoryRoles|);
    PlanForUnfold(n, distribution, remainingSlots);
    ghost var tiered := Tiers(Draft(distribution, remainingSlots), n);
    distribution, remainingSlots := AddOptionalRoles(distribution, remainingSlots, n);
    ghost var final := Fill(tiered, n);
    distribution, remainingSlots := FillRemainingSlots(distribution, remainingSlots, n);
    assert distribution == final.dist;
    var finalTotal := TotalOf(distribution);
    if finalTotal != n {
      r := Err(Mismatch(finalTotal, n));
    } else {
      r := Ok(distribution);
    }
    assert r == Checked(final.dist, n);
  }

  /** The `forEach` over the mandatory roles: each is set to 1. */
  method AddMandatoryRoles(d: Dist) returns (r: Dist)
    ensures r == SetMandatory(d, 0)
  {
    var distribution := d;
    var i := 0;
    while i < |MandatoryRoles|
      invariant 0 <= i <= |MandatoryRoles|
      invariant SetMandatory(distribution, i) == SetMandatory(d, 0)
    {
      distribution := Set(distribution, MandatoryRoles[i], 1);
      i := i + 1;
    }
    return distribution;
  }

  /** The three calls of `addRolesIfPossible`, in threshold order. */
  method AddOptionalRoles(d: Dist, remaining: int, n: int) returns (d': Dist, remaining': int)
    ensures Draft(d', remaining') == Tiers(Draft(d, remaining), n)
  {
    d', remaining' := AddRolesIfPossible(d, remaining, n, TierA, 10);
    d', remaining' := AddRolesIfPossible(d', remaining', n, TierB, 12);
    d', remaining' := AddRolesIfPossible(d', remaining', n, TierC, 14);
  }

  /** The slots left after the tiers: extra werewolves first, then the round-robin over `Cycle`. */
  method FillRemainingSlots(d: Dist, remaining: int, n: int) returns (d': Dist, remaining': int)
    ensures Draft(d', remaining') == Fill(Draft(d, remaining), n)
  {
    d', remaining' := d, remaining;
    if remaining' > 0 {
      var currentWerewolves := CountOf(d', WEREWOLF);
      var maxAdditionalWerewolves := Min(remaining' / 4, n / 6);
      if maxAdditionalWerewolves > 0 {
        d' := Set(d', WEREWOLF, currentWerewolves + maxAdditionalWerewolves);
        remaining' := remaining' - maxAdditionalWerewolves;
      }
      assert Draft(d', remaining') == AddExtraWerewolves(Draft(d, remaining), n);
      if remaining' > 0 {
        d', remaining' := DistributeRemaining(d', remaining');
      }
    }
  }

  /** The `while` loop handing the remaining slots, one at a time, to the roles of `Cycle` in turn. */
  method DistributeRemaining(d: Dist, remaining: int) returns (d': Dist, remaining': int)
    ensures Draft(d', remaining') == RoundRobin(Draft(d, remaining), 0)
  {
    d', remaining' := d, remaining;
    var roleIndex := 0;
    while remaining' > 0 && roleIndex < |Cycle|
      invariant 0 <= roleIndex
      invariant RoundRobin(Draft(d', remaining'), roleIndex) == RoundRobin(Draft(d, remaining), 0)
      decreases Max(remaining', 0)
    {
      var role := Cycle[roleIndex];
      var currentCount := CountOf(d', role);
      assert RoundRobin(Draft(d', remaining'), roleIndex)
          == RoundRobin(Draft(Set(d', role, currentCount + 1), remaining' - 1), (roleIndex + 1) % |Cycle|);
      d' := Set(d', role, currentCount + 1);
      remaining' := remaining' - 1;
      roleIndex := (roleIndex + 1) % |Cycle|;
    }
  }

  /** Once the mandatory step has produced `d` and left `remaining` slots, the plan is the checked fill of the tiers. */
  lemma PlanForUnfold(n: int, d: Dist, remaining: int)
    requires MinCount <= n <= MaxCount
    requires d == MandatoryDist(n) && remaining == AfterMandatory(n)
    ensures PlanFor(n) == Checked(Fill(Tiers(Draft(d, remaining), n), n).dist, n)
  {
  }

  /** `addRolesIfPossible(roles, minPlayers)` on the planner's map and free-slot counter. */
  method AddRolesIfPossible(d: Dist, remaining: int, n: int, roles: seq<RoleKey>, minPlayers: int)
    returns (d': Dist, remaining': int)
    ensures Draft(d', remaining') == OfferTier(Draft(d, remaining), n, roles, minPlayers)
  {
    d', remaining' := d, remaining;
    if remaining > 0 && n >= minPlayers {
      var i := 0;
      while i < |roles|
        invariant 0 <= i <= |roles|
        invariant Grant(Draft(d', remaining'), roles, i) == Grant(Draft(d, remaining), roles, 0)
      {
        var role := roles[i];
        if remaining' > 0 && InCatalog(role) {
          d' := Set(d', role, 1);
          remaining' := remaining' - 1;
        }
        i := i + 1;
      }
    }
  }

  // ---------------------------------------------------------------------------
  // The closed form of the plan

  /** The distribution after the werewolves and the three mandatory roles. */
  function Start(werewolves: nat): Dist
  {
    [(WEREWOLF, werewolves), (Known(Seer), 1), (Known(Witch), 1), (Known(Hunter), 1)]
  }

  /** The optional roles in the order the tiers offer them. */
  const OptionalRoles: seq<RoleKey> :=
    [Known(Alien), Known(Cupid), Known(Bear), Known(Elder), Known(Raven), Known(Barbie), Known(Shepherd)]

  /** How many optional roles have a threshold at most `n`. */
  function EligibleCount(n: int): nat
  {
    if n >= 14 then 7 else if n >= 12 then 5 else if n >= 10 then 2 else 0
  }

  /** The optional roles whose thresholds `n` meets, in the order they are offered. */
  function Eligible(n: int): seq<RoleKey>
  {
    OptionalRoles[..EligibleCount(n)]
  }

  /** Each of `roles` with quantity 1. */
  function Ones(roles: seq<RoleKey>): Dist
  {
    seq(|roles|, j requires 0 <= j < |roles| => (roles[j], 1))
  }

  /** Slots left after the tiers. */
  function AfterTiers(n: int): int
  {
    AfterMandatory(n) - |Eligible(n)|
  }

  /** The extra werewolves: `min(floor(r/4), floor(n/6))` for the `r` slots left after the tiers. */
  function ExtraWerewolves(n: int): nat
  {
    Max(0, Min(AfterTiers(n) / 4, n / 6))
  }

  /** Slots handed out by the round-robin top-up. */
  function TopUp(n: int): int
  {
    AfterTiers(n) - ExtraWerewolves(n)
  }

  /** How many of `r` round-robin slots starting at `index` land on `key`. */
  function Hits(key: RoleKey, r: nat, index: nat): nat
    requires index < |Cycle|
  {
    if r == 0 then 0
    else (if Cycle[index] == key then 1 else 0) + Hits(key, r - 1, (index + 1) % |Cycle|)
  }

  /** The i-th role of the cycle receives ceil((r - i)/5) of `r` slots dealt from its start. */
  function CycleShare(key: RoleKey, r: nat): nat
  {
    match key
    case Known(Seer) => (r + 4) / 5
    case Known(Witch) => (r + 3) / 5
    case Known(Hunter) => (r + 2) / 5
    case Known(Cupid) => (r + 1) / 5
    case Known(Alien) => r / 5
    case _ => 0
  }

  /** The quantity of `key` in the plan for `n`, stated without running the planner. */
  function ExpectedCount(n: int, key: RoleKey): nat
  {
    (if key == WEREWOLF then BaselineWerewolves(n) + ExtraWerewolves(n) else 0)
    + (if key in MandatoryRoles then 1 else 0)
    + (if key in Eligible(n) then 1 else 0)
    + CycleShare(key, Max(TopUp(n), 0))
  }

  // ---------------------------------------------------------------------------
  // Lemmas: the plan follows the closed form

  /** The baseline werewolf count is 2 for 8-11 players, 3 for 12-15 and 4 for 16-20. */
  lemma BaselineTiers(n: int)
    requires MinCount <= n <= MaxCount
    ensures BaselineWerewolves(n) == if n <= 11 then 2 else if n <= 15 then 3 else 4
  {
  }

  /** The eligible optional roles are the tiers whose thresholds `n` meets, concatenated in offer order. */
  lemma EligibleTiers(n: int)
    ensures Eligible(n) == (if n >= 10 then TierA else []) + (if n >= 12 then TierB else []) + (if n >= 14 then TierC else [])
  {
  }

  /** Every role appears once in the full line-up: werewolf, mandatory roles, optional roles. */
  lemma LineupDistinct()
    ensures var l := [WEREWOLF] + MandatoryRoles + OptionalRoles;
            forall i, j :: 0 <= i < j < |l| ==> l[i] != l[j]
  {
  }

  /** The mandatory step appends SEER, WITCH and HUNTER with 1 each. */
  lemma MandatoryStart(w: nat)
    ensures SetMandatory(Set([], WEREWOLF, w), 0) == Start(w)
  {
    var d0: Dist := [(WEREWOLF, w)];
    var d1 := d0 + [(Known(Seer), 1)];
    var d2 := d1 + [(Known(Witch), 1)];
    assert Set([], WEREWOLF, w) == d0;
    assert KeySeq(d0) == [WEREWOLF];
    assert Set(d0, Known(Seer), 1) == d1;
    assert KeySeq(d1) == [WEREWOLF, Known(Seer)];
    assert Set(d1, Known(Witch), 1) == d2;
    assert KeySeq(d2) == [WEREWOLF, Known(Seer), Known(Witch)];
    assert Set(d2, Known(Hunter), 1) == Start(w);
  }

  lemma KeySeqOnes(d: Dist, roles: seq<RoleKey>)
    ensures KeySeq(d + Ones(roles)) == KeySeq(d) + roles
  {
  }

  lemma OnesAppend(a: seq<RoleKey>, b: seq<RoleKey>)
    ensures Ones(a + b) == Ones(a) + Ones(b)
  {
  }

  /**
   * A tier grants its roles in the listed order while slots remain: the first
   * `min(remaining, |roles| - i)` of them are appended with quantity 1.
   */
  lemma {:induction false} GrantAppends(draft: Draft, roles: seq<RoleKey>, i: nat)
    requires i <= |roles| && draft.remaining >= 0
    requires forall j :: i <= j < |roles| ==> InCatalog(roles[j]) && roles[j] !in KeySeq(draft.dist)
    requires forall j, j' :: i <= j < j' < |roles| ==> roles[j] != roles[j']
    ensures var g := Min(draft.remaining, |roles| - i);
            Grant(draft, roles, i) == Draft(draft.dist + Ones(roles[i..i + g]), draft.remaining - g)
    decreases |roles| - i
  {
    var g := Min(draft.remaining, |roles| - i);
    if i == |roles| || draft.remaining == 0 {
      if i < |roles| {
        GrantAppends(draft, roles, i + 1);
      }
      assert draft.dist + Ones(roles[i..i + g]) == draft.dist;
    } else {
      var d' := draft.dist + [(roles[i], 1)];
      assert Grant(draft, roles, i) == Grant(Draft(d', draft.remaining - 1), roles, i + 1) by {
        SetAbsent(draft.dist, roles[i], 1);
      }
      assert forall j :: i + 1 <= j < |roles| ==> roles[j] !in KeySeq(d') by {
        assert KeySeq(d') == KeySeq(draft.dist) + [roles[i]];
      }
      GrantAppends(Draft(d', draft.remaining - 1), roles, i + 1);
      assert d' + Ones(roles[i + 1..i + g]) == draft.dist + Ones(roles[i..i + g]) by {
        OnesCons(roles[i..i + g]);
        assert roles[i..i + g][1..] == roles[i + 1..i + g];
      }
    }
  }

  /** `Ones` entry by entry: the first role, then the rest. */
  lemma OnesCons(roles: seq<RoleKey>)
    requires roles != []
    ensures Ones(roles) == [(roles[0], 1)] + Ones(roles[1..])
  {
  }

  /** A tier that fits: when `n` meets its threshold all its roles are appended, otherwise nothing changes. */
  lemma TierStep(d: Dist, r: int, n: int, roles: seq<RoleKey>, minPlayers: int)
    requires r >= 0 && (n >= minPlayers ==> r >= |roles|)
    requires forall j :: 0 <= j < |roles| ==> InCatalog(roles[j]) && roles[j] !in KeySeq(d)
    requires forall j, j' :: 0 <= j < j' < |roles| ==> roles[j] != roles[j']
    ensures var x := if n >= minPlayers then roles else [];
            OfferTier(Draft(d, r), n, roles, minPlayers) == Draft(d + Ones(x), r - |x|)
  {
    if r > 0 && n >= minPlayers {
      GrantAppends(Draft(d, r), roles, 0);
      assert roles[0..|roles|] == roles;
    } else {
      assert d + Ones([]) == d;
      if n >= minPlayers {
        assert roles == [];
      }
    }
  }

  /** Slots left before and after the tiers: every eligible optional role fits. */
  lemma SlotsLeft(n: int)
    requires MinCount <= n <= MaxCount
    ensures AfterMandatory(n) >= |Eligible(n)| + 1
    ensures AfterTiers(n) >= 1
  {
    BaselineTiers(n);
  }

  /** The distribution once the three tiers have run. */
  function AfterTiersDist(n: int): Dist
  {
    Start(BaselineWerewolves(n)) + Ones(Eligible(n))
  }

  /** The distribution after the first two tiers. */
  function AfterTwoTiers(n: int): Dist
  {
    Start(BaselineWerewolves(n)) + Ones(if n >= 10 then TierA else []) + Ones(if n >= 12 then TierB else [])
  }

  /** The first two tiers append their roles when `n` meets their thresholds. */
  lemma FirstTiers(n: int)
    requires MinCount <= n <= MaxCount
    ensures var a := if n >= 10 then TierA else [];
            var b := if n >= 12 then TierB else [];
            && OfferTier(OfferTier(Draft(Start(BaselineWerewolves(n)), AfterMandatory(n)), n, TierA, 10), n, TierB, 12)
               == Draft(AfterTwoTiers(n), AfterMandatory(n) - |a| - |b|)
            && KeySeq(AfterTwoTiers(n)) == [WEREWOLF, Known(Seer), Known(Witch), Known(Hunter)] + a + b
  {
    var s := Start(BaselineWerewolves(n));
    var r := AfterMandatory(n);
    SlotsLeft(n);
    EligibleTiers(n);
    var a := if n >= 10 then TierA else [];
    var b := if n >= 12 then TierB else [];
    var k := [WEREWOLF, Known(Seer), Known(Witch), Known(Hunter)];
    assert KeySeq(s) == k;
    assert OfferTier(Draft(s, r), n, TierA, 10) == Draft(s + Ones(a), r - |a|) by {
      TierStep(s, r, n, TierA, 10);
    }
    assert KeySeq(s + Ones(a)) == k + a by {
      KeySeqOnes(s, a);
    }
    assert OfferTier(Draft(s + Ones(a), r - |a|), n, TierB, 12) == Draft(s + Ones(a) + Ones(b), r - |a| - |b|) by {
      TierStep(s + Ones(a), r - |a|, n, TierB, 12);
    }
    KeySeqOnes(s + Ones(a), b);
  }

  /** For every valid head-count all eligible optional roles fit: the tiers append `Eligible(n)`. */
  lemma TiersResult(n: int)
    requires MinCount <= n <= MaxCount
    ensures Tiers(Draft(Start(BaselineWerewolves(n)), AfterMandatory(n)), n) == Draft(AfterTiersDist(n), AfterTiers(n))
  {
    FirstTiers(n);
    LastTier(n);
  }

  /** The third tier completes the eligible roles. */
  lemma LastTier(n: int)
    requires MinCount <= n <= MaxCount
    ensures var a := if n >= 10 then TierA else [];
            var b := if n >= 12 then TierB else [];
            OfferTier(Draft(AfterTwoTiers(n), AfterMandatory(n) - |a| - |b|), n, TierC, 14)
              == Draft(AfterTiersDist(n), AfterTiers(n))
  {
    var a := if n >= 10 then TierA else [];
    var b := if n >= 12 then TierB else [];
    var c := if n >= 14 then TierC else [];
    assert forall j :: 0 <= j < |TierC| ==> InCatalog(TierC[j]) && TierC[j] !in KeySeq(AfterTwoTiers(n)) by {
      FirstTiers(n);
    }
    SlotsLeft(n);
    TierStep(AfterTwoTiers(n), AfterMandatory(n) - |a| - |b|, n, TierC, 14);
    AfterTiersSplit(n);
  }

  /** The distribution after the tiers is the one after two tiers plus the third tier's roles. */
  lemma AfterTiersSplit(n: int)
    ensures AfterTwoTiers(n) + Ones(if n >= 14 then TierC else []) == AfterTiersDist(n)
  {
    var a := if n >= 10 then TierA else [];
    var b := if n >= 12 then TierB else [];
    var c := if n >= 14 then TierC else [];
    EligibleTiers(n);
    OnesAppend(a, b);
    OnesAppend(a + b, c);
    var s := Start(BaselineWerewolves(n));
    assert s + Ones(a) + Ones(b) + Ones(c) == s + (Ones(a) + Ones(b) + Ones(c));
  }

  /** The keys after the tiers are the first entries of the full line-up. */
  lemma AfterTiersKeys(n: int)
    ensures KeySeq(AfterTiersDist(n)) == ([WEREWOLF] + MandatoryRoles + OptionalRoles)[..4 + EligibleCount(n)]
  {
    KeySeqOnes(Start(BaselineWerewolves(n)), Eligible(n));
  }

  /** After the tiers: a well-formed distribution whose quantities and free slots add up to `n`. */
  lemma AfterTiersShape(n: int)
    requires MinCount <= n <= MaxCount
    ensures WellFormed(AfterTiersDist(n))
    ensures Sum(AfterTiersDist(n)) + AfterTiers(n) == n
  {
    var d := AfterTiersDist(n);
    AfterTiersKeys(n);
    LineupDistinct();
    assert forall i :: 0 <= i < |d| ==> KeySeq(d)[i] == d[i].0;
    OnesSum(Start(BaselineWerewolves(n)), Eligible(n));
    StartSum(BaselineWerewolves(n));
  }

  lemma StartSum(w: nat)
    ensures Sum(Start(w)) == w + 3
  {
    var s1: Dist := [(WEREWOLF, w)];
    var s2 := s1 + [(Known(Seer), 1)];
    var s3 := s2 + [(Known(Witch), 1)];
    assert s1[..0] == [];
    assert Sum(s1) == w;
    assert s2[..1] == s1;
    assert Sum(s2) == w + 1;
    assert s3[..2] == s2;
    assert Sum(s3) == w + 2;
    assert Start(w)[..3] == s3;
  }

  lemma {:induction false} OnesSum(d: Dist, roles: seq<RoleKey>)
    ensures Sum(d + Ones(roles)) == Sum(d) + |roles|
  {
    if roles != [] {
      var init := roles[..|roles| - 1];
      OnesSum(d, init);
      assert (d + Ones(roles))[..|d| + |roles| - 1] == d + Ones(init);
    } else {
      assert d + Ones(roles) == d;
    }
  }

  /** The quantity of each key after the tiers: the baseline werewolves, and 1 for each mandatory or eligible role. */
  lemma AfterTiersCount(n: int, key: RoleKey)
    requires MinCount <= n <= MaxCount
    ensures CountOf(AfterTiersDist(n), key) == (if key == WEREWOLF then BaselineWerewolves(n) else 0)
                                              + (if key in MandatoryRoles then 1 else 0)
                                              + (if key in Eligible(n) then 1 else 0)
  {
    var d := AfterTiersDist(n);
    var l := [WEREWOLF] + MandatoryRoles + OptionalRoles;
    AfterTiersShape(n);
    AfterTiersKeys(n);
    LineupDistinct();
    assert MandatoryRoles == l[1..4];
    assert Eligible(n) == l[4..4 + EligibleCount(n)];
    if key in KeySeq(d) {
      var i :| 0 <= i < |d| && KeySeq(d)[i] == key;
      GetAt(d, i);
      assert key == l[i];
    }
  }

  /** The distribution once the extra werewolves are added. */
  function AfterExtraDist(n: int): Dist
  {
    var x := ExtraWerewolves(n);
    if x > 0 then Set(AfterTiersDist(n), WEREWOLF, BaselineWerewolves(n) + x) else AfterTiersDist(n)
  }

  /** The extra werewolves number `min(floor(r/4), floor(n/6))` and never exceed the `r` free slots. */
  lemma ExtraBounds(n: int)
    requires MinCount <= n <= MaxCount
    ensures ExtraWerewolves(n) == Min(AfterTiers(n) / 4, n / 6)
    ensures 0 <= ExtraWerewolves(n) <= AfterTiers(n)
  {
    SlotsLeft(n);
  }

  /** The extra-werewolf step leaves `TopUp(n)` slots. */
  lemma ExtraStep(n: int)
    requires MinCount <= n <= MaxCount
    ensures AddExtraWerewolves(Draft(AfterTiersDist(n), AfterTiers(n)), n) == Draft(AfterExtraDist(n), TopUp(n))
    ensures TopUp(n) >= 0
  {
    var d, r, x := AfterTiersDist(n), AfterTiers(n), ExtraWerewolves(n);
    ExtraBounds(n);
    assert CountOf(d, WEREWOLF) == BaselineWerewolves(n) by {
      AfterTiersCount(n, WEREWOLF);
    }
    assert Min(r / 4, n / 6) == x;
    var a := AddExtraWerewolves(Draft(d, r), n);
    if x > 0 {
      assert a == Draft(Set(d, WEREWOLF, BaselineWerewolves(n) + x), r - x);
    } else {
      assert a == Draft(d, r);
    }
  }

  /** After the extra werewolves the distribution is still well formed, and quantities plus free slots still add up to `n`. */
  lemma ExtraShape(n: int)
    requires MinCount <= n <= MaxCount
    ensures WellFormed(AfterExtraDist(n)) && Sum(AfterExtraDist(n)) + TopUp(n) == n
  {
    ExtraWellFormed(n);
    ExtraSum(n);
  }

  lemma ExtraWellFormed(n: int)
    requires MinCount <= n <= MaxCount
    ensures WellFormed(AfterExtraDist(n))
  {
    var x := ExtraWerewolves(n);
    AfterTiersShape(n);
    if x > 0 {
      SetWellFormed(AfterTiersDist(n), WEREWOLF, BaselineWerewolves(n) + x);
    }
  }

  lemma ExtraSum(n: int)
    requires MinCount <= n <= MaxCount
    ensures Sum(AfterExtraDist(n)) + TopUp(n) == n
  {
    var d := AfterTiersDist(n);
    var w := BaselineWerewolves(n);
    var x := ExtraWerewolves(n);
    assert Sum(d) + AfterTiers(n) == n by {
      AfterTiersShape(n);
    }
    assert TopUp(n) == AfterTiers(n) - x;
    if x > 0 {
      assert CountOf(d, WEREWOLF) == w by {
        AfterTiersCount(n, WEREWOLF);
      }
      SumSet(d, WEREWOLF, w + x);
    }
  }

  /** The extra werewolves add to the werewolf quantity only. */
  lemma ExtraCount(n: int, key: RoleKey)
    requires MinCount <= n <= MaxCount
    ensures CountOf(AfterExtraDist(n), key) == CountOf(AfterTiersDist(n), key) + (if key == WEREWOLF then ExtraWerewolves(n) else 0)
  {
    var d, w, x := AfterTiersDist(n), BaselineWerewolves(n), ExtraWerewolves(n);
    assert CountOf(d, WEREWOLF) == w by {
      AfterTiersCount(n, WEREWOLF);
    }
    assert AfterExtraDist(n) == if x > 0 then Set(d, WEREWOLF, w + x) else d;
    Bump(d, w, x, key);
  }

  /** Raising the werewolf quantity `w` by `x`, when `x` is positive, changes no other count. */
  lemma Bump(d: Dist, w: nat, x: nat, key: RoleKey)
    requires CountOf(d, WEREWOLF) == w
    ensures CountOf(if x > 0 then Set(d, WEREWOLF, w + x) else d, key) == CountOf(d, key) + (if key == WEREWOLF then x else 0)
  {
    if x > 0 {
      CountOfSet(d, WEREWOLF, w + x, key);
    }
  }

  /** The plan is the checked fill of the draft after the tiers. */
  lemma PlanViaTiers(n: int)
    requires MinCount <= n <= MaxCount
    ensures PlanFor(n) == Checked(Fill(Draft(AfterTiersDist(n), AfterTiers(n)), n).dist, n)
  {
    var w := BaselineWerewolves(n);
    assert MandatoryDist(n) == Start(w) by {
      MandatoryStart(w);
    }
    TiersResult(n);
  }

  /** Filling the draft after the tiers is the round-robin over the draft after the extras. */
  lemma FillAfterTiers(n: int)
    requires MinCount <= n <= MaxCount
    ensures Fill(Draft(AfterTiersDist(n), AfterTiers(n)), n) == RoundRobin(Draft(AfterExtraDist(n), TopUp(n)), 0)
  {
    SlotsLeft(n);
    ExtraStep(n);
  }

  /** For a valid head-count the plan succeeds: it is what the round-robin makes of the draft after the extras. */
  lemma PlanIsTopUp(n: int)
    requires MinCount <= n <= MaxCount
    ensures PlanFor(n) == Ok(RoundRobin(Draft(AfterExtraDist(n), TopUp(n)), 0).dist)
  {
    var e := Draft(AfterExtraDist(n), TopUp(n));
    PlanViaTiers(n);
    FillAfterTiers(n);
    ExtraStep(n);
    ExtraShape(n);
    RoundRobinDrains(e, 0);
  }

  /**
   * The plan for every valid head-count exists (the final sum check never
   * fails), is well formed and sums to `n`.
   */
  lemma PlanShape(n: int)
    requires MinCount <= n <= MaxCount
    ensures PlanFor(n).Ok?
    ensures WellFormed(PlanFor(n).value) && Sum(PlanFor(n).value) == n
  {
    PlanIsTopUp(n);
    ExtraStep(n);
    ExtraShape(n);
    RoundRobinDrains(Draft(AfterExtraDist(n), TopUp(n)), 0);
  }

  /** Every quantity of the plan has the closed form `ExpectedCount`. */
  lemma PlanCount(n: int, key: RoleKey)
    requires MinCount <= n <= MaxCount
    ensures PlanFor(n).Ok? && CountOf(PlanFor(n).value, key) == ExpectedCount(n, key)
  {
    PlanIsTopUp(n);
    ExtraStep(n);
    RoundRobinCounts(Draft(AfterExtraDist(n), TopUp(n)), 0, key);
    CycleShareFromStart(key, TopUp(n));
    ExtraCount(n, key);
    AfterTiersCount(n, key);
  }

  /** The round-robin top-up uses up every remaining slot, keeping the sum and well-formedness. */
  lemma {:induction false} RoundRobinDrains(draft: Draft, index: nat)
    requires draft.remaining >= 0 && index < |Cycle|
    requires WellFormed(draft.dist)
    ensures var r := RoundRobin(draft, index);
            && r.remaining == 0
            && WellFormed(r.dist)
            && Sum(r.dist) == Sum(draft.dist) + draft.remaining
    decreases draft.remaining
  {
    if draft.remaining > 0 {
      var role := Cycle[index];
      var v := CountOf(draft.dist, role) + 1;
      var next := Draft(Set(draft.dist, role, v), draft.remaining - 1);
      var nextIndex := (index + 1) % |Cycle|;
      assert RoundRobin(draft, index) == RoundRobin(next, nextIndex);
      SumSet(draft.dist, role, v);
      SetWellFormed(draft.dist, role, v);
      RoundRobinDrains(next, nextIndex);
    }
  }

  /** Each round-robin slot goes to the cycle role the index points at: `key` gains `Hits` slots. */
  lemma {:induction false} RoundRobinCounts(draft: Draft, index: nat, key: RoleKey)
    requires draft.remaining >= 0 && index < |Cycle|
    ensures CountOf(RoundRobin(draft, index).dist, key) == CountOf(draft.dist, key) + Hits(key, draft.remaining, index)
    decreases draft.remaining
  {
    if draft.remaining > 0 {
      var role := Cycle[index];
      var v := CountOf(draft.dist, role) + 1;
      var next := Draft(Set(draft.dist, role, v), draft.remaining - 1);
      var nextIndex := (index + 1) % |Cycle|;
      assert RoundRobin(draft, index) == RoundRobin(next, nextIndex);
      assert Hits(key, draft.remaining, index) == (if role == key then 1 else 0) + Hits(key, next.remaining, nextIndex);
      CountOfSet(draft.dist, role, v, key);
      RoundRobinCounts(next, nextIndex, key);
    }
  }

  /** A key outside the cycle gets no round-robin slot. */
  lemma {:induction false} HitsOutsideCycle(key: RoleKey, r: nat, index: nat)
    requires index < |Cycle| && key !in Cycle
    ensures Hits(key, r, index) == 0
  {
    if r > 0 {
      HitsOutsideCycle(key, r - 1, (index + 1) % |Cycle|);
    }
  }

  /** How many steps the round-robin index takes to get from `index` to `i`. */
  function Distance(index: nat, i: nat): nat
    requires index < |Cycle| && i < |Cycle|
  {
    if index <= i then i - index else i + |Cycle| - index
  }

  /** Of `r` slots dealt from `index`, the `i`-th role of the cycle receives ceil((r - distance)/5). */
  lemma {:induction false} HitsClosedForm(key: RoleKey, r: nat, index: nat, i: nat)
    requires index < |Cycle| && i < |Cycle| && Cycle[i] == key
    ensures Hits(key, r, index) == (r + 4 - Distance(index, i)) / 5
  {
    if r > 0 {
      var next := (index + 1) % |Cycle|;
      HitsClosedForm(key, r - 1, next, i);
      if index == i {
        assert Hits(key, r, index) == 1 + Hits(key, r - 1, next);
        assert Distance(next, i) == 4;
      } else {
        assert Cycle[index] != key;
        assert Hits(key, r, index) == Hits(key, r - 1, next);
        assert Distance(next, i) == Distance(index, i) - 1;
      }
    }
  }

  /** Dealt from the start of the cycle, each key gets its `CycleShare`. */
  lemma CycleShareFromStart(key: RoleKey, r: nat)
    ensures Hits(key, r, 0) == CycleShare(key, r)
  {
    if key in Cycle {
      var i :| 0 <= i < |Cycle| && Cycle[i] == key;
      HitsClosedForm(key, r, 0, i);
    } else {
      HitsOutsideCycle(key, r, 0);
    }
  }

  // ---------------------------------------------------------------------------
  // What the plan promises

  /**
   * `calculateRoleDistribution` throws exactly for a non-integer count and for
   * a count outside [8, 20]; otherwise it returns a well-formed map summing to
   * the count.
   */
  lemma PlanOutcome(count: real)
    ensures count.Floor as real != count ==> Plan(count) == Err(NotAnInteger)
    ensures count.Floor as real == count && !(MinCount <= count.Floor <= MaxCount)
            ==> Plan(count) == Err(OutOfRange(count.Floor))
    ensures Plan(count).Ok? <==> count.Floor as real == count && MinCount <= count.Floor <= MaxCount
    ensures Plan(count).Ok? ==> WellFormed(Plan(count).value) && Sum(Plan(count).value) == count.Floor
  {
    if count.Floor as real == count && MinCount <= count.Floor <= MaxCount {
      PlanShape(count.Floor);
    }
  }

  /** SEER, WITCH and HUNTER are always in the plan. */
  lemma MandatoryPresent(n: int, key: RoleKey)
    requires MinCount <= n <= MaxCount && key in MandatoryRoles
    ensures PlanFor(n).Ok? && CountOf(PlanFor(n).value, key) >= 1
  {
    PlanCount(n, key);
  }

  /** BEAR, ELDER and RAVEN appear, once each, exactly from 12 players on. */
  lemma SecondTierCount(n: int, key: RoleKey)
    requires MinCount <= n <= MaxCount && key in TierB
    ensures PlanFor(n).Ok? && CountOf(PlanFor(n).value, key) == if n >= 12 then 1 else 0
  {
    PlanCount(n, key);
    LateTierExpected(n, key);
  }

  /** BARBIE and SHEPHERD appear, once each, exactly from 14 players on. */
  lemma ThirdTierCount(n: int, key: RoleKey)
    requires MinCount <= n <= MaxCount && key in TierC
    ensures PlanFor(n).Ok? && CountOf(PlanFor(n).value, key) == if n >= 14 then 1 else 0
  {
    PlanCount(n, key);
    LateTierExpected(n, key);
  }

  /** A role of the last two tiers is counted once if its tier is eligible and is never topped up. */
  lemma LateTierExpected(n: int, key: RoleKey)
    requires key in TierB + TierC
    ensures ExpectedCount(n, key) == if key in TierB then (if n >= 12 then 1 else 0) else (if n >= 14 then 1 else 0)
  {
    EligibleTiers(n);
  }

  /**
   * The werewolves are the baseline plus the extras, so at least 2 and at
   * most the baseline plus floor(n/6).
   */
  lemma WerewolfBounds(n: int)
    requires MinCount <= n <= MaxCount
    ensures PlanFor(n).Ok?
    ensures CountOf(PlanFor(n).value, WEREWOLF) == BaselineWerewolves(n) + ExtraWerewolves(n)
    ensures 2 <= CountOf(PlanFor(n).value, WEREWOLF) <= BaselineWerewolves(n) + n / 6
  {
    PlanCount(n, WEREWOLF);
    WerewolfExpected(n);
  }

  /** The closed form gives the werewolf key exactly the baseline plus the extras. */
  lemma WerewolfExpected(n: int)
    requires MinCount <= n <= MaxCount
    ensures ExpectedCount(n, WEREWOLF) == BaselineWerewolves(n) + ExtraWerewolves(n)
    ensures 2 <= BaselineWerewolves(n) + ExtraWerewolves(n) <= BaselineWerewolves(n) + n / 6
  {
    assert WEREWOLF !in OptionalRoles;
    ExtraBounds(n);
  }

  /** The final werewolf count for 8, 9, ..., 20 players. */
  const WerewolfTable: seq<nat> := [2, 3, 2, 3, 3, 3, 3, 3, 4, 4, 5, 5, 5]

  /**
   * The werewolf count of every plan: it exceeds the baseline cap of 4 (5 for
   * 18-20 players) and is not monotone in the head-count (3 for 9, 2 for 10).
   */
  lemma WerewolfCounts(n: int)
    requires MinCount <= n <= MaxCount
    ensures PlanFor(n).Ok? && CountOf(PlanFor(n).value, WEREWOLF) == WerewolfTable[n - MinCount]
  {
    WerewolfBounds(n);
    WerewolfTableRow(n);
  }

  /** In every plan the werewolves are fewer than two fifths of the players. */
  lemma WerewolfMinority(n: int)
    requires MinCount <= n <= MaxCount
    ensures PlanFor(n).Ok? && 5 * CountOf(PlanFor(n).value, WEREWOLF) < 2 * n
  {
    assert 5 * WerewolfTable[n - MinCount] < 2 * n;
    WerewolfCounts(n);
  }

  /** Baseline plus extras, head-count by head-count. */
  lemma WerewolfTableRow(n: int)
    requires MinCount <= n <= MaxCount
    ensures BaselineWerewolves(n) + ExtraWerewolves(n) == WerewolfTable[n - MinCount]
  {
    BaselineTiers(n);
    assert |Eligible(n)| == EligibleCount(n);
  }

  /** The werewolf count is not capped at the baseline's 4: 18 to 20 players get 5. */
  lemma WerewolfNotCapped(n: int)
    requires 18 <= n <= MaxCount
    ensures PlanFor(n).Ok? && CountOf(PlanFor(n).value, WEREWOLF) == 5 > BaselineWerewolves(n)
  {
    WerewolfCounts(n);
    BaselineTiers(n);
  }

  /** The werewolf count is not monotone in the head-count: 9 players get 3, 10 players get 2. */
  lemma WerewolfNotMonotone()
    ensures PlanFor(9).Ok? && PlanFor(10).Ok?
    ensures CountOf(PlanFor(9).value, WEREWOLF) == 3 && CountOf(PlanFor(10).value, WEREWOLF) == 2
  {
    assert WerewolfTable[9 - MinCount] == 3 && WerewolfTable[10 - MinCount] == 2;
    WerewolfCounts(9);
    WerewolfCounts(10);
  }

  /** One round-robin step that lands on the `i`-th entry of a map with distinct keys raises that entry by one. */
  lemma RoundRobinStepAt(d: Dist, i: int, index: nat, remaining: int)
    requires DistinctKeys(d) && 0 <= i < |d| && index < |Cycle| && d[i].0 == Cycle[index] && remaining > 0
    ensures var e := d[i := (d[i].0, d[i].1 + 1)];
            && RoundRobin(Draft(d, remaining), index) == RoundRobin(Draft(e, remaining - 1), (index + 1) % |Cycle|)
            && KeySeq(e) == KeySeq(d)
  {
    GetAt(d, i);
    SetAt(d, i, d[i].1 + 1);
    SetPresent(d, d[i].0, d[i].1 + 1);
  }

  /** For 8 players: two werewolves, two seers, two witches, two hunters. */
  lemma PlanForEight()
    ensures PlanFor(8) == Ok([(WEREWOLF, 2), (Known(Seer), 2), (Known(Witch), 2), (Known(Hunter), 2)])
  {
    PlanIsTopUp(8);
    EightBeforeTopUp();
    ThreeSlotTopUp(2);
  }

  /** With 8 players no optional role and no extra werewolf fits, leaving three slots. */
  lemma EightBeforeTopUp()
    ensures AfterExtraDist(8) == Start(2) && TopUp(8) == 3
  {
    assert Eligible(8) == [];
    assert Ones([]) == [];
  }

  /** Three round-robin slots from the start of the cycle go to SEER, WITCH and HUNTER. */
  lemma ThreeSlotTopUp(w: nat)
    ensures RoundRobin(Draft(Start(w), 3), 0).dist
         == [(WEREWOLF, w), (Known(Seer), 2), (Known(Witch), 2), (Known(Hunter), 2)]
  {
    var d0 := Start(w);
    assert KeySeq(d0) == [WEREWOLF, Known(Seer), Known(Witch), Known(Hunter)];
    var d1 := d0[1 := (Known(Seer), 2)];
    var d2 := d1[2 := (Known(Witch), 2)];
    var d3 := d2[3 := (Known(Hunter), 2)];
    ThreeSteps(d0, d1, d2, d3);
  }

  /** Three round-robin steps from the start of the cycle over a map whose entries 1-3 are SEER, WITCH, HUNTER. */
  lemma ThreeSteps(d0: Dist, d1: Dist, d2: Dist, d3: Dist)
    requires DistinctKeys(d0) && |d0| == 4
    requires d0[1].0 == Cycle[0] && d0[2].0 == Cycle[1] && d0[3].0 == Cycle[2]
    requires d1 == d0[1 := (d0[1].0, d0[1].1 + 1)]
    requires d2 == d1[2 := (d1[2].0, d1[2].1 + 1)]
    requires d3 == d2[3 := (d2[3].0, d2[3].1 + 1)]
    ensures RoundRobin(Draft(d0, 3), 0) == Draft(d3, 0)
  {
    assert RoundRobin(Draft(d0, 3), 0) == RoundRobin(Draft(d1, 2), 1) && DistinctKeys(d1) by {
      RoundRobinStepAt(d0, 1, 0, 3);
    }
    assert RoundRobin(Draft(d1, 2), 1) == RoundRobin(Draft(d2, 1), 2) && DistinctKeys(d2) by {
      assert d1[2] == d0[2];
      RoundRobinStepAt(d1, 2, 1, 2);
    }
    assert RoundRobin(Draft(d2, 1), 2) == RoundRobin(Draft(d3, 0), 3) by {
      assert d2[3] == d0[3];
      RoundRobinStepAt(d2, 3, 2, 1);
    }
    RoundRobinDone(Draft(d3, 0), 3);
  }

  /** With no slot left the round-robin changes nothing. */
  lemma RoundRobinDone(draft: Draft, index: nat)
    requires draft.remaining <= 0
    ensures RoundRobin(draft, index) == draft
  {
  }
}
