/**
 * The state of `WerewolfGame` in js/game.js and the methods that change it:
 * the players (id to name, in the order they were added), the role locks, the
 * last assignment and the re-entrancy flag of `assignRoles`.
 *
 * `confirm()` answers are boolean parameters, `Math.random()` results a
 * sequence of draws in [0, 1), and the id `addPlayer` generates from the clock
 * and `Math.random()` a parameter `freshId`.
 */
module Game {
  import opened Wrappers
  import opened OrderedMaps
  import opened Roles
  import opened Assignment
  import opened Names
  import Planner
  import Balance

  /** `this.maxPlayers` and `this.minPlayers`. */
  const MaxPlayers := 20
  const MinPlayers := 8

  /** Why `handlePlayerSubmit` refused a name, or the id it added. */
  datatype SubmitOutcome =
    | EmptyName
    | NameTooLong
    | DuplicateName
    | TableFull
    | Added(id: PlayerId)

  /** How `assignRoles` ended. */
  datatype AssignOutcome =
    | Busy                          // a call was already under way
    | TooFewPlayers(count: nat)     // fewer than `minPlayers`
    | Cancelled                     // the unbalanced-distribution prompt was declined
    | Assigned

  /** No two players' names are equal up to case. */
  predicate DistinctNames(players: Players)
  {
    forall i, j :: 0 <= i < j < |players| ==> !SameName(players[i].1, players[j].1)
  }

  /** The distribution `assignRoles` deals for `n` players. */
  function DistributionFor(n: nat): (d: Dist)
    requires MinPlayers <= n <= MaxPlayers
    ensures WellFormed(d) && Sum(d) == n
  {
    Planner.PlanShape(n);
    Planner.PlanFor(n).value
  }

  class WerewolfGame {
    var players: Players
    var lockedRoles: Roster
    var assignedRoles: Roster
    var isAssigningRoles: bool

    /** Maps never repeat a key, there are at most 20 players, and every lock is on a present player. */
    predicate Valid()
      reads this
    {
      && DistinctKeys(players) && DistinctKeys(lockedRoles) && DistinctKeys(assignedRoles)
      && |players| <= MaxPlayers
      && Keys(lockedRoles) <= Keys(players)
    }

    constructor()
      ensures Valid()
      ensures players == [] && lockedRoles == [] && assignedRoles == [] && !isAssigningRoles
    {
      players := [];
      lockedRoles := [];
      assignedRoles := [];
      isAssigningRoles := false;
    }

    /** `addPlayer(name)`: refuses an empty name and a full table, otherwise sets `freshId` to `name`. */
    method AddPlayer(name: string, freshId: PlayerId) returns (id: Option<PlayerId>)
      requires Valid()
      modifies this
      ensures Valid()
      ensures name == [] || |old(players)| >= MaxPlayers ==> id == None && players == old(players)
      ensures name != [] && |old(players)| < MaxPlayers ==> id == Some(freshId) && players == Set(old(players), freshId, name)
      ensures freshId !in Keys(old(players)) && id.Some? ==> players == old(players) + [(freshId, name)]
      ensures lockedRoles == old(lockedRoles) && assignedRoles == old(assignedRoles)
      ensures isAssigningRoles == old(isAssigningRoles)
    {
      if name == [] || |players| >= MaxPlayers {
        return None;
      }
      SetDistinct(players, freshId, name);
      GetSet(players, freshId, name, freshId);
      if freshId in Keys(players) {
        SetPresent(players, freshId, name);
      } else {
        SetAbsent(players, freshId, name);
      }
      players := Set(players, freshId, name);
      id := Some(freshId);
    }

    /** `removePlayer(playerId)`: the player and its lock go; its last assigned role stays. */
    method RemovePlayer(playerId: PlayerId)
      requires Valid()
      modifies this
      ensures Valid()
      ensures players == Delete(old(players), playerId) && lockedRoles == Delete(old(lockedRoles), playerId)
      ensures Keys(players) == Keys(old(players)) - {playerId}
      ensures assignedRoles == old(assignedRoles) && isAssigningRoles == old(isAssigningRoles)
    {
      players := Delete(players, playerId);
      lockedRoles := Delete(lockedRoles, playerId);
    }

    /** `lockRole(playerId, role)`: records the lock only for a present player. */
    method LockRole(playerId: PlayerId, role: RoleKey)
      requires Valid()
      modifies this
      ensures Valid()
      ensures playerId in Keys(players) ==> lockedRoles == Set(old(lockedRoles), playerId, role)
      ensures playerId !in Keys(players) ==> lockedRoles == old(lockedRoles)
      ensures Get(lockedRoles, playerId) == if playerId in Keys(players) then Some(role) else None
      ensures players == old(players) && assignedRoles == old(assignedRoles)
      ensures isAssigningRoles == old(isAssigningRoles)
    {
      if Get(players, playerId).Some? {
        SetDistinct(lockedRoles, playerId, role);
        GetSet(lockedRoles, playerId, role, playerId);
        lockedRoles := Set(lockedRoles, playerId, role);
      }
    }

    /** `unlockRole(playerId)`. */
    method UnlockRole(playerId: PlayerId)
      requires Valid()
      modifies this
      ensures Valid()
      ensures lockedRoles == Delete(old(lockedRoles), playerId) && Get(lockedRoles, playerId) == None
      ensures players == old(players) && assignedRoles == old(assignedRoles)
      ensures isAssigningRoles == old(isAssigningRoles)
    {
      GetDelete(lockedRoles, playerId, playerId);
      lockedRoles := Delete(lockedRoles, playerId);
    }

    /** `resetGame()`: when confirmed, clears the players, the assignment and the locks. */
    method ResetGame(confirmed: bool)
      requires Valid()
      modifies this
      ensures Valid()
      ensures confirmed ==> players == [] && assignedRoles == [] && lockedRoles == []
      ensures !confirmed ==> players == old(players) && assignedRoles == old(assignedRoles) && lockedRoles == old(lockedRoles)
      ensures isAssigningRoles == old(isAssigningRoles)
    {
      if confirmed {
        players := [];
        assignedRoles := [];
        lockedRoles := [];
      }
    }

    /**
     * The checks of `handlePlayerSubmit` on the raw input, in the source's
     * order, then `addPlayer` with the trimmed name.
     */
    method SubmitPlayer(raw: string, freshId: PlayerId) returns (outcome: SubmitOutcome)
      requires Valid()
      modifies this
      ensures Valid()
      ensures var name := Trim(raw);
              outcome == if name == [] then EmptyName
                         else if Utf16Length(name) > MaxNameLength then NameTooLong
                         else if IsDuplicate(Values(old(players)), name) then DuplicateName
                         else if |old(players)| >= MaxPlayers then TableFull
                         else Added(freshId)
      ensures outcome.Added? ==> players == Set(old(players), freshId, Trim(raw))
      ensures !outcome.Added? ==> players == old(players)
      ensures outcome.Added? && DistinctNames(old(players)) ==> DistinctNames(players)
      ensures lockedRoles == old(lockedRoles) && assignedRoles == old(assignedRoles)
      ensures isAssigningRoles == old(isAssigningRoles)
    {
      var playerName := Trim(raw);
      if playerName == [] {
        return EmptyName;
      }
      if Utf16Length(playerName) > MaxNameLength {
        return NameTooLong;
      }
      if IsDuplicate(Values(players), playerName) {
        return DuplicateName;
      }
      if |players| >= MaxPlayers {
        return TableFull;
      }
      ghost var before := players;
      var id := AddPlayer(playerName, freshId);
      outcome := Added(freshId);
      if DistinctNames(before) {
        NewNameKeepsDistinct(before, freshId, playerName);
      }
    }

    /**
     * `assignRoles()`. `proceed` answers the prompt about an unbalanced
     * distribution and `draws` are the `Math.random()` results of the shuffle.
     */
    method AssignRoles(proceed: bool, draws: seq<real>) returns (outcome: AssignOutcome)
      requires Valid() && RandomDraws(draws) && |draws| >= |players|
      modifies this
      ensures Valid()
      ensures players == old(players) && lockedRoles == old(lockedRoles)
      ensures old(isAssigningRoles) ==> outcome == Busy && isAssigningRoles && assignedRoles == old(assignedRoles)
      ensures !old(isAssigningRoles) ==> !isAssigningRoles
      ensures !old(isAssigningRoles) && |players| < MinPlayers ==> outcome == TooFewPlayers(|players|)
      ensures !old(isAssigningRoles) && |players| >= MinPlayers ==> (outcome == Cancelled <==> !proceed)
      ensures !outcome.Assigned? ==> assignedRoles == old(assignedRoles)
      ensures outcome.Assigned? ==>
                && MinPlayers <= |players| <= MaxPlayers
                && var d := DistributionFor(|players|);
                   assignedRoles == AssignedRoles(players, lockedRoles, FisherYates(RemoveLocked(Expand(d), lockedRoles), draws))
      ensures outcome.Assigned? && multiset(Values(lockedRoles)) <= multiset(Expand(DistributionFor(|players|))) ==>
                && Keys(assignedRoles) == Keys(players)
                && multiset(Values(assignedRoles)) == multiset(Expand(DistributionFor(|players|)))
    {
      if isAssigningRoles {
        return Busy;
      }
      isAssigningRoles := true;
      var n := |players|;
      if n < MinPlayers {
        isAssigningRoles := false;
        return TooFewPlayers(n);
      }
      var plan := Planner.CalculateRoleDistribution(n as real);
      Planner.PlanShape(n);
      var distribution := plan.value;
      assert distribution == DistributionFor(n);
      var verdict := Balance.IsBalanced(distribution);
      Balance.PlanNeverBalanced(n);
      if !Balance.IsBalancedResult(verdict) && !proceed {
        isAssigningRoles := false;
        return Cancelled;
      }
      assignedRoles := [];
      assignedRoles := DealAll(players, lockedRoles, distribution, draws);
      isAssigningRoles := false;
      outcome := Assigned;
      DealtRoster(players, lockedRoles, draws);
    }
  }

  /**
   * The dealing part of `assignRoles` on a cleared roster: expand the
   * distribution, pin the locked players, shuffle what is left of the pool in
   * place and deal it to the unlocked players in order.
   */
  method DealAll(players: Players, locked: Roster, distribution: Dist, draws: seq<real>) returns (roster: Roster)
    requires RandomDraws(draws) && |draws| >= Sum(distribution)
    ensures roster == AssignedRoles(players, locked, FisherYates(RemoveLocked(Expand(distribution), locked), draws))
  {
    var availableRoles := ExpandPool(distribution);
    var pinned, rest := HandleLocked([], availableRoles, locked);
    var unassignedPlayers := UnlockedPlayers(players, locked);
    var shuffled := new RoleKey[|rest|](k requires 0 <= k < |rest| => rest[k]);
    assert shuffled[..] == rest;
    Shuffle(shuffled, draws);
    roster := DealRoles(pinned, unassignedPlayers, shuffled[..]);
  }

  /** The roster `assignRoles` deals for a valid game keeps one entry per id, and covers every player when the locks fit the pool. */
  lemma DealtRoster(players: Players, locked: Roster, draws: seq<real>)
    requires DistinctKeys(players) && DistinctKeys(locked) && Keys(locked) <= Keys(players)
    requires MinPlayers <= |players| <= MaxPlayers && RandomDraws(draws) && |draws| >= |players|
    ensures var d := DistributionFor(|players|);
            var result := AssignedRoles(players, locked, FisherYates(RemoveLocked(Expand(d), locked), draws));
            && DistinctKeys(result)
            && (multiset(Values(locked)) <= multiset(Expand(d)) ==>
                  Keys(result) == Keys(players) && multiset(Values(result)) == multiset(Expand(d)))
  {
    var d := DistributionFor(|players|);
    var shuffled := FisherYates(RemoveLocked(Expand(d), locked), draws);
    PinLockedFresh(locked);
    DealDistinct(locked, Unlocked(players, locked), shuffled);
    if multiset(Values(locked)) <= multiset(Expand(d)) {
      AssignmentCoversAll(players, locked, d, draws);
    }
  }

  /**
   * A name that matches no present name keeps the names distinct, whether its
   * id is new (the entry is appended) or already taken (the entry is replaced).
   */
  lemma NewNameKeepsDistinct(players: Players, id: PlayerId, name: string)
    requires DistinctNames(players) && !IsDuplicate(Values(players), name)
    ensures DistinctNames(Set(players, id, name))
  {
    var r := Set(players, id, name);
    var k := IndexOf(KeySeq(players), id);
    if k < 0 {
      k := |players|;
      assert r == players + [(id, name)];
    } else {
      assert r == players[k := (id, name)];
    }
    forall i, j | 0 <= i < j < |r|
      ensures !SameName(r[i].1, r[j].1)
    {
      if i == k {
        assert !SameName(Values(players)[j], name);
      } else if j == k {
        assert !SameName(Values(players)[i], name);
      }
    }
  }
}
