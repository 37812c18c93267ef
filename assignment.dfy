/**
 * The body of `assignRoles` in js/game.js once a distribution is chosen:
 * expand it into a flat pool of role keys, pin the locked players (taking one
 * matching key out of the pool each), shuffle the pool in place with
 * Fisher-Yates, and deal it positionally to the unlocked players in insertion
 * order.
 *
 * Each step is a function on values (the specification) and a method with
 * the source's loops proved to compute it. `Math.random()` is a supplied
 * sequence of draws in [0, 1).
 */
module Assignment {
  import opened Wrappers
  import opened OrderedMaps
  import opened Roles

  /** A player id (`player_<time>_<random>`); any string. */
  type PlayerId = string

  /** `this.players`: id to name, in the order the players were added. */
  type Players = OrderedMap<PlayerId, string>

  /** `this.lockedRoles` and `this.assignedRoles`: id to role key. */
  type Roster = OrderedMap<PlayerId, RoleKey>

  // ---------------------------------------------------------------------------
  // Expanding the distribution

  function Repeat(key: RoleKey, count: nat): (r: seq<RoleKey>)
    ensures |r| == count && forall j :: 0 <= j < count ==> r[j] == key
  {
    seq(count, _ => key)
  }

  /** `availableRoles` after the nested `forEach`/`for`: each key `count` times, in entry order. */
  function Expand(d: Dist): (pool: seq<RoleKey>)
    ensures |pool| == Sum(d)
  {
    if d == [] then [] else Expand(d[..|d| - 1]) + Repeat(d[|d| - 1].0, d[|d| - 1].1)
  }

  method ExpandPool(d: Dist) returns (pool: seq<RoleKey>)
    ensures pool == Expand(d)
  {
    pool := [];
    var i := 0;
    while i < |d|
      invariant 0 <= i <= |d|
      invariant pool == Expand(d[..i])
    {
      var (roleKey, count) := d[i];
      var k := 0;
      while k < count
        invariant 0 <= k <= count
        invariant pool == Expand(d[..i]) + Repeat(roleKey, k)
      {
        pool := pool + [roleKey];
        k := k + 1;
      }
      assert d[..i + 1][..i] == d[..i];
      i := i + 1;
    }
    assert d[..|d|] == d;
  }

  /** With distinct keys, each key occurs in the pool exactly `d.get(key) || 0` times. */
  lemma {:induction false} ExpandCount(d: Dist, key: RoleKey)
    requires DistinctKeys(d)
    ensures multiset(Expand(d))[key] == CountOf(d, key)
  {
    if d != [] {
      var init, e := d[..|d| - 1], d[|d| - 1];
      assert d == init + [e];
      assert e.0 !in Keys(init) by {
        assert forall j :: 0 <= j < |init| ==> KeySeq(init)[j] == d[j].0;
      }
      ExpandCount(init, key);
      CountOfSnoc(init, e, key);
      assert multiset(Repeat(e.0, e.1))[key] == if e.0 == key then e.1 else 0 by {
        RepeatCount(e.0, e.1, key);
      }
    }
  }

  lemma {:induction false} RepeatCount(k: RoleKey, count: nat, key: RoleKey)
    ensures multiset(Repeat(k, count))[key] == if k == key then count else 0
  {
    if count > 0 {
      assert Repeat(k, count) == Repeat(k, count - 1) + [k];
      RepeatCount(k, count - 1, key);
    }
  }

  // ---------------------------------------------------------------------------
  // Pinning the locked players

  /** `indexOf(role)` and `splice(index, 1)` when found. */
  function RemoveFirst(pool: seq<RoleKey>, role: RoleKey): (r: seq<RoleKey>)
    ensures multiset(r) == multiset(pool) - multiset{role}
    ensures role in pool ==> |r| == |pool| - 1
    ensures role !in pool ==> r == pool
  {
    var i := IndexOf(pool, role);
    if i < 0 then pool
    else
      assert pool == pool[..i] + [role] + pool[i + 1..];
      pool[..i] + pool[i + 1..]
  }

  /** The pool once every locked role, in lock order, has taken out one matching entry if any. */
  function RemoveLocked(pool: seq<RoleKey>, locked: Roster): (r: seq<RoleKey>)
    ensures |r| <= |pool|
  {
    if locked == [] then pool else RemoveFirst(RemoveLocked(pool, locked[..|locked| - 1]), locked[|locked| - 1].1)
  }

  /** `assignedRoles` after the locked players are set on top of `roster`, in lock order. */
  function PinLocked(roster: Roster, locked: Roster): Roster
  {
    if locked == [] then roster
    else
      var e := locked[|locked| - 1];
      Set(PinLocked(roster, locked[..|locked| - 1]), e.0, e.1)
  }

  /** The `lockedRoles.forEach`: pin each locked player, remove one matching key from the pool. */
  method HandleLocked(roster: Roster, pool: seq<RoleKey>, locked: Roster)
    returns (pinned: Roster, pool': seq<RoleKey>)
    ensures pinned == PinLocked(roster, locked) && pool' == RemoveLocked(pool, locked)
  {
    pinned, pool' := roster, pool;
    var i := 0;
    while i < |locked|
      invariant 0 <= i <= |locked|
      invariant pinned == PinLocked(roster, locked[..i])
      invariant pool' == RemoveLocked(pool, locked[..i])
    {
      var (playerId, role) := locked[i];
      LockStep(roster, pool, locked, i);
      pinned := Set(pinned, playerId, role);
      pool' := TakeOut(pool', role);
      i := i + 1;
    }
    assert locked[..|locked|] == locked;
  }

  /**
   * `const index = pool.indexOf(role); if (index > -1) pool.splice(index, 1)`,
   * as a step of its own so that the proof of the locks loop stays small;
   * `RemoveFirst` is its specification.
   */
  method TakeOut(pool: seq<RoleKey>, role: RoleKey) returns (r: seq<RoleKey>)
    ensures r == RemoveFirst(pool, role)
  {
    r := pool;
    var index := IndexOf(pool, role);
    if index > -1 {
      r := pool[..index] + pool[index + 1..];
    }
  }

  /** One more lock pins one more player and removes one more role. */
  lemma LockStep(roster: Roster, pool: seq<RoleKey>, locked: Roster, i: nat)
    requires i < |locked|
    ensures PinLocked(roster, locked[..i + 1]) == Set(PinLocked(roster, locked[..i]), locked[i].0, locked[i].1)
    ensures RemoveLocked(pool, locked[..i + 1]) == RemoveFirst(RemoveLocked(pool, locked[..i]), locked[i].1)
  {
    assert locked[..i + 1][..i] == locked[..i];
  }

  /** Whatever the locks, the pool loses exactly the locked roles it holds. */
  lemma {:induction false} RemoveLockedMultiset(pool: seq<RoleKey>, locked: Roster)
    ensures multiset(RemoveLocked(pool, locked)) == multiset(pool) - multiset(Values(locked))
  {
    if locked != [] {
      var init, e := locked[..|locked| - 1], locked[|locked| - 1];
      var r := RemoveLocked(pool, init);
      assert RemoveLocked(pool, locked) == RemoveFirst(r, e.1);
      RemoveLockedMultiset(pool, init);
      assert multiset(Values(locked)) == multiset(Values(init)) + multiset{e.1} by {
        Snoc(locked);
      }
      MinusMinus(multiset(pool), multiset(Values(init)), multiset{e.1});
    }
  }

  lemma MinusMinus<T>(a: multiset<T>, b: multiset<T>, c: multiset<T>)
    ensures (a - b) - c == a - (b + c)
  {
    assert forall x :: ((a - b) - c)[x] == (a - (b + c))[x];
  }

  /** When every locked role is found, the pool shrinks by one entry per lock. */
  lemma RemoveLockedLength(pool: seq<RoleKey>, locked: Roster)
    requires multiset(Values(locked)) <= multiset(pool)
    ensures |RemoveLocked(pool, locked)| == |pool| - |locked|
  {
    RemoveLockedMultiset(pool, locked);
    assert |multiset(Values(locked))| == |locked|;
    MultisetDifferenceSize(multiset(pool), multiset(Values(locked)));
  }

  lemma MultisetDifferenceSize<T>(a: multiset<T>, b: multiset<T>)
    requires b <= a
    ensures |a - b| == |a| - |b|
  {
    assert (a - b) + b == a;
  }

  /** Pinned on an empty map, distinct locks give back the lock map itself. */
  lemma {:induction false} PinLockedFresh(locked: Roster)
    requires DistinctKeys(locked)
    ensures PinLocked([], locked) == locked
  {
    if locked != [] {
      var init, e := locked[..|locked| - 1], locked[|locked| - 1];
      PinLockedFresh(init);
      assert e.0 !in Keys(init) by {
        assert forall j :: 0 <= j < |init| ==> KeySeq(init)[j] == locked[j].0;
      }
      SetAbsent(init, e.0, e.1);
    }
  }

  // ---------------------------------------------------------------------------
  // The Fisher-Yates shuffle

  /** `Math.random()` results: each in [0, 1). */
  predicate RandomDraws(draws: seq<real>)
  {
    forall k :: 0 <= k < |draws| ==> 0.0 <= draws[k] < 1.0
  }

  /** `Math.floor(r * (i + 1))`: an index in [0, i]. */
  function Draw(r: real, i: nat): (j: nat)
    requires 0.0 <= r < 1.0
    ensures j <= i
  {
    var x := r * (i + 1) as real;
    ScaleBelow(r, (i + 1) as real);
    x.Floor
  }

  /** A fraction in [0, 1) of a positive bound stays in [0, bound). */
  lemma ScaleBelow(r: real, m: real)
    requires 0.0 <= r < 1.0 && m > 0.0
    ensures 0.0 <= r * m < m
  {
    assert m - r * m == (1.0 - r) * m;
  }

  function Swap(s: seq<RoleKey>, i: nat, j: nat): (r: seq<RoleKey>)
    requires i < |s| && j < |s|
    ensures |r| == |s|
  {
    s[i := s[j]][j := s[i]]
  }

  /** The loop from index `i` down to 1: step `i` swaps with the draw made for it (draws are used in loop order). */
  function ShuffleFrom(s: seq<RoleKey>, draws: seq<real>, i: int): (r: seq<RoleKey>)
    requires i < |s| && RandomDraws(draws) && |draws| >= |s| - 1
    ensures |r| == |s|
    decreases i
  {
    if i <= 0 then s
    else ShuffleFrom(Swap(s, i, Draw(draws[|s| - 1 - i], i)), draws, i - 1)
  }

  /** The whole shuffle of `availableRoles`. */
  function FisherYates(s: seq<RoleKey>, draws: seq<real>): (r: seq<RoleKey>)
    requires RandomDraws(draws) && |draws| >= |s| - 1
    ensures |r| == |s|
  {
    ShuffleFrom(s, draws, |s| - 1)
  }

  /** A swap exchanges two entries and keeps every other one: the multiset of entries is unchanged. */
  lemma SwapPermutes(s: seq<RoleKey>, i: nat, j: nat)
    requires i < |s| && j < |s|
    ensures multiset(Swap(s, i, j)) == multiset(s)
  {
    if i != j {
      var t := s[i := s[j]];
      assert multiset(t) == multiset(s) - multiset{s[i]} + multiset{s[j]};
      assert multiset(t[j := s[i]]) == multiset(t) - multiset{t[j]} + multiset{s[i]};
    }
  }

  /** Whatever the draws, the shuffle is a permutation of the pool. */
  lemma {:induction false} ShuffleFromPermutes(s: seq<RoleKey>, draws: seq<real>, i: int)
    requires i < |s| && RandomDraws(draws) && |draws| >= |s| - 1
    ensures multiset(ShuffleFrom(s, draws, i)) == multiset(s)
    decreases i
  {
    if i > 0 {
      var j := Draw(draws[|s| - 1 - i], i);
      SwapPermutes(s, i, j);
      ShuffleFromPermutes(Swap(s, i, j), draws, i - 1);
    }
  }

  lemma FisherYatesPermutes(s: seq<RoleKey>, draws: seq<real>)
    requires RandomDraws(draws) && |draws| >= |s| - 1
    ensures multiset(FisherYates(s, draws)) == multiset(s)
  {
    ShuffleFromPermutes(s, draws, |s| - 1);
  }

  /** The descending `for` loop swapping `availableRoles[i]` with `availableRoles[j]`, in place. */
  method Shuffle(a: array<RoleKey>, draws: seq<real>)
    requires RandomDraws(draws) && |draws| >= a.Length - 1
    modifies a
    ensures a[..] == FisherYates(old(a[..]), draws)
  {
    var i := a.Length - 1;
    while i > 0
      invariant -1 <= i < a.Length
      invariant ShuffleFrom(a[..], draws, i) == FisherYates(old(a[..]), draws)
      decreases i
    {
      var j := Draw(draws[a.Length - 1 - i], i);
      ghost var before := a[..];
      a[i], a[j] := a[j], a[i];
      assert a[..] == Swap(before, i, j);
      assert ShuffleFrom(before, draws, i) == ShuffleFrom(a[..], draws, i - 1);
      i := i - 1;
    }
  }

  // ---------------------------------------------------------------------------
  // Dealing to the unlocked players

  /** `Array.from(players.keys()).filter(id => !lockedRoles.has(id))`. */
  function Unlocked(players: Players, locked: Roster): seq<PlayerId>
  {
    if players == [] then []
    else
      var id := players[|players| - 1].0;
      Unlocked(players[..|players| - 1], locked) + (if id in Keys(locked) then [] else [id])
  }

  method UnlockedPlayers(players: Players, locked: Roster) returns (ids: seq<PlayerId>)
    ensures ids == Unlocked(players, locked)
  {
    ids := [];
    var i := 0;
    while i < |players|
      invariant 0 <= i <= |players|
      invariant ids == Unlocked(players[..i], locked)
    {
      var id := players[i].0;
      if Get(locked, id).None? {
        ids := ids + [id];
      }
      assert players[..i + 1][..i] == players[..i];
      i := i + 1;
    }
    assert players[..|players|] == players;
  }

  /** The unlocked ids are exactly the players without a lock, each once, in insertion order. */
  lemma {:induction false} UnlockedMembers(players: Players, locked: Roster)
    requires DistinctKeys(players)
    ensures forall id :: id in Unlocked(players, locked) <==> id in Keys(players) && id !in Keys(locked)
    ensures forall j, k :: 0 <= j < k < |Unlocked(players, locked)| ==> Unlocked(players, locked)[j] != Unlocked(players, locked)[k]
  {
    if players != [] {
      var init := players[..|players| - 1];
      UnlockedMembers(init, locked);
      assert KeySeq(players) == KeySeq(init) + [players[|players| - 1].0];
      assert players[|players| - 1].0 !in KeySeq(init) by {
        assert forall j :: 0 <= j < |init| ==> KeySeq(init)[j] == players[j].0;
      }
    }
  }

  /** With every lock on a present player, `players.size - lockedRoles.size` players are unlocked. */
  lemma UnlockedCount(players: Players, locked: Roster)
    requires DistinctKeys(players) && DistinctKeys(locked) && Keys(locked) <= Keys(players)
    ensures |Unlocked(players, locked)| == |players| - |locked|
  {
    var u := Unlocked(players, locked);
    UnlockedMembers(players, locked);
    KeyCount(players);
    KeyCount(locked);
    assert (set id | id in u) == Keys(players) - Keys(locked);
    DistinctSize(u);
  }

  /** A sequence without repetitions has as many elements as its set. */
  lemma {:induction false} DistinctSize(s: seq<PlayerId>)
    requires forall j, k :: 0 <= j < k < |s| ==> s[j] != s[k]
    ensures |set x | x in s| == |s|
  {
    if s != [] {
      var init := s[..|s| - 1];
      DistinctSize(init);
      assert (set x | x in s) == (set x | x in init) + {s[|s| - 1]};
    }
  }

  /** The `unassignedPlayers.forEach`: the `k`-th id receives `pool[k]` while the pool lasts. */
  function Deal(roster: Roster, ids: seq<PlayerId>, pool: seq<RoleKey>): Roster
  {
    if ids == [] then roster
    else
      var k := |ids| - 1;
      var a := Deal(roster, ids[..k], pool);
      if k < |pool| then Set(a, ids[k], pool[k]) else a
  }

  method DealRoles(roster: Roster, ids: seq<PlayerId>, pool: seq<RoleKey>) returns (a: Roster)
    ensures a == Deal(roster, ids, pool)
  {
    a := roster;
    var index := 0;
    while index < |ids|
      invariant 0 <= index <= |ids|
      invariant a == Deal(roster, ids[..index], pool)
    {
      if index < |pool| {
        a := Set(a, ids[index], pool[index]);
      }
      assert ids[..index + 1][..index] == ids[..index];
      index := index + 1;
    }
    assert ids[..|ids|] == ids;
  }

  /** No id occurs twice. */
  predicate NoRepeats(ids: seq<PlayerId>)
  {
    forall j, k :: 0 <= j < k < |ids| ==> ids[j] != ids[k]
  }

  /**
   * What each player ends up with: the `k`-th dealt id reads `pool[k]` if
   * `k < |pool|` and otherwise what it had; any other id keeps its entry.
   */
  lemma {:induction false} DealGet(roster: Roster, ids: seq<PlayerId>, pool: seq<RoleKey>, id: PlayerId)
    requires NoRepeats(ids)
    ensures Get(Deal(roster, ids, pool), id) ==
            if id in ids && IndexOf(ids, id) < |pool| then Some(pool[IndexOf(ids, id)]) else Get(roster, id)
  {
    if ids != [] {
      var k := |ids| - 1;
      var init := ids[..k];
      var a := Deal(roster, init, pool);
      assert NoRepeats(init);
      assert Deal(roster, ids, pool) == if k < |pool| then Set(a, ids[k], pool[k]) else a;
      DealGet(roster, init, pool, id);
      if k < |pool| {
        GetSet(a, ids[k], pool[k], id);
      }
      if id == ids[k] {
        assert id !in init by {
          assert NoRepeats(ids);
          assert forall j :: 0 <= j < k ==> init[j] == ids[j];
        }
        assert IndexOf(ids, id) == k by {
          assert ids[..k] == init;
          IndexOfFirst(ids, id, k);
        }
      } else if id in init {
        var j := IndexOf(init, id);
        assert IndexOf(ids, id) == j by {
          assert ids[..j] == init[..j];
          IndexOfFirst(ids, id, j);
        }
      } else {
        assert id !in ids by {
          assert ids == init + [ids[k]];
        }
      }
    }
  }

  /** Dealing never creates a second entry for an id. */
  lemma {:induction false} DealDistinct(roster: Roster, ids: seq<PlayerId>, pool: seq<RoleKey>)
    requires DistinctKeys(roster)
    ensures DistinctKeys(Deal(roster, ids, pool))
  {
    if ids != [] {
      var k := |ids| - 1;
      DealDistinct(roster, ids[..k], pool);
      if k < |pool| {
        SetDistinct(Deal(roster, ids[..k], pool), ids[k], pool[k]);
      }
    }
  }

  /** Dealing to new, distinct ids with enough roles appends one entry per id, pairing ids with the pool in order. */
  lemma {:induction false} DealAppends(roster: Roster, ids: seq<PlayerId>, pool: seq<RoleKey>)
    requires forall j, k :: 0 <= j < k < |ids| ==> ids[j] != ids[k]
    requires forall j :: 0 <= j < |ids| ==> ids[j] !in Keys(roster)
    requires |ids| <= |pool|
    ensures Deal(roster, ids, pool) == roster + Zip(ids, pool[..|ids|])
  {
    if ids != [] {
      var k := |ids| - 1;
      DealAppends(roster, ids[..k], pool);
      var a := roster + Zip(ids[..k], pool[..k]);
      assert ids[k] !in Keys(a) by {
        assert KeySeq(a) == KeySeq(roster) + ids[..k];
        assert ids[k] !in ids[..k];
      }
      SetAbsent(a, ids[k], pool[k]);
      assert a + [(ids[k], pool[k])] == roster + Zip(ids, pool[..|ids|]);
    }
  }

  /** Pair ids with roles, position by position. */
  function Zip(ids: seq<PlayerId>, roles: seq<RoleKey>): (r: Roster)
    requires |ids| == |roles|
    ensures |r| == |ids| && KeySeq(r) == ids && Values(r) == roles
  {
    seq(|ids|, j requires 0 <= j < |ids| => (ids[j], roles[j]))
  }

  // ---------------------------------------------------------------------------
  // The whole assignment

  /** `assignedRoles` after `clear()`, the locks and the deal of the shuffled pool. */
  function AssignedRoles(players: Players, locked: Roster, shuffled: seq<RoleKey>): Roster
  {
    Deal(PinLocked([], locked), Unlocked(players, locked), shuffled)
  }

  /** Every locked player is assigned exactly its locked role. */
  lemma LockedHonoured(players: Players, locked: Roster, shuffled: seq<RoleKey>, id: PlayerId)
    requires DistinctKeys(players) && DistinctKeys(locked) && id in Keys(locked)
    ensures Get(AssignedRoles(players, locked, shuffled), id) == Get(locked, id)
  {
    UnlockedMembers(players, locked);
    PinLockedFresh(locked);
    DealGet(locked, Unlocked(players, locked), shuffled, id);
  }

  /**
   * The `k`-th unlocked player receives `shuffled[k]` exactly when
   * `k < |shuffled|`; the excess players get no entry.
   */
  lemma UnlockedDealt(players: Players, locked: Roster, shuffled: seq<RoleKey>, k: nat)
    requires DistinctKeys(players) && DistinctKeys(locked)
    requires k < |Unlocked(players, locked)|
    ensures Get(AssignedRoles(players, locked, shuffled), Unlocked(players, locked)[k]) ==
            if k < |shuffled| then Some(shuffled[k]) else None
  {
    var u := Unlocked(players, locked);
    UnlockedMembers(players, locked);
    PinLockedFresh(locked);
    IndexOfFirst(u, u[k], k);
    DealGet(locked, u, shuffled, u[k]);
  }

  /**
   * With every lock on a present player and exactly one role per unlocked
   * player, the assignment is the locks followed by the unlocked players
   * paired with the shuffled pool: every player has an entry, and the roles
   * are the locked ones and then the pool.
   */
  lemma AssignmentOfPool(players: Players, locked: Roster, shuffled: seq<RoleKey>)
    requires DistinctKeys(players) && DistinctKeys(locked) && Keys(locked) <= Keys(players)
    requires |shuffled| == |players| - |locked|
    ensures Keys(AssignedRoles(players, locked, shuffled)) == Keys(players)
    ensures Values(AssignedRoles(players, locked, shuffled)) == Values(locked) + shuffled
  {
    var u := Unlocked(players, locked);
    UnlockedCount(players, locked);
    UnlockedMembers(players, locked);
    PinLockedFresh(locked);
    assert forall j :: 0 <= j < |u| ==> u[j] !in Keys(locked);
    DealAppends(locked, u, shuffled);
    assert shuffled[..|u|] == shuffled;
    var result := locked + Zip(u, shuffled);
    Append(locked, Zip(u, shuffled));
    assert Keys(result) == Keys(locked) + (set id | id in u);
  }

  /**
   * When every lock is on a present player and every locked role is found in
   * the pool, every player receives a role and the roles handed out are the
   * distribution's, as a multiset.
   */
  lemma AssignmentCoversAll(players: Players, locked: Roster, d: Dist, draws: seq<real>)
    requires DistinctKeys(players) && DistinctKeys(locked) && Keys(locked) <= Keys(players)
    requires Sum(d) == |players|
    requires multiset(Values(locked)) <= multiset(Expand(d))
    requires RandomDraws(draws) && |draws| >= Sum(d)
    ensures var result := AssignedRoles(players, locked, FisherYates(RemoveLocked(Expand(d), locked), draws));
            && Keys(result) == Keys(players)
            && multiset(Values(result)) == multiset(Expand(d))
  {
    var pool := RemoveLocked(Expand(d), locked);
    var shuffled := FisherYates(pool, draws);
    assert |shuffled| == |players| - |locked| by {
      RemoveLockedLength(Expand(d), locked);
    }
    AssignmentOfPool(players, locked, shuffled);
    assert multiset(shuffled) == multiset(Expand(d)) - multiset(Values(locked)) by {
      RemoveLockedMultiset(Expand(d), locked);
      FisherYatesPermutes(pool, draws);
    }
    assert multiset(Values(locked) + shuffled) == multiset(Expand(d));
  }
}
