/**
 * The role catalog `ROLES` of js/roles.js and the distributions built from it.
 * Only each key and its team matter to the logic; names, descriptions and the
 * never-read `minPlayers`/`scaling` fields are not modelled.
 *
 * A role key is any JavaScript string. `RoleKey` tells the catalog's eleven
 * keys (`Known`) from every other string (`Unknown`); `Parse` and `Spell`
 * translate between the two views without loss.
 */
module Roles {
  import opened Wrappers
  import opened OrderedMaps

  datatype Team = Werewolves | Villagers | Neutral

  /** The catalog's entries, in declaration order. */
  datatype Role = Werewolf | Seer | Witch | Hunter | Cupid | Alien | Bear | Elder | Raven | Barbie | Shepherd

  /** `ROLES[key].team`. */
  function TeamOf(r: Role): Team
  {
    match r
    case Werewolf => Werewolves
    case Bear => Neutral
    case _ => Villagers
  }

  /** The key under which the catalog lists a role. */
  function Name(r: Role): string
  {
    match r
    case Werewolf => "WEREWOLF"
    case Seer => "SEER"
    case Witch => "WITCH"
    case Hunter => "HUNTER"
    case Cupid => "CUPID"
    case Alien => "ALIEN"
    case Bear => "BEAR"
    case Elder => "ELDER"
    case Raven => "RAVEN"
    case Barbie => "BARBIE"
    case Shepherd => "SHEPHERD"
  }

  const CatalogNames: set<string> :=
    {"WEREWOLF", "SEER", "WITCH", "HUNTER", "CUPID", "ALIEN", "BEAR", "ELDER", "RAVEN", "BARBIE", "SHEPHERD"}

  /** A string that is not a key of the catalog. */
  type ForeignName = s: string | s !in CatalogNames witness ""

  /**
   * A role key: a catalog key, or any other string. `ROLES[key]` has no own
   * entry for the latter, though it may still find an inherited property
   * (see `Balance.Lookup`).
   */
  datatype RoleKey = Known(role: Role) | Unknown(name: ForeignName)

  predicate InCatalog(k: RoleKey)
  {
    k.Known?
  }

  /** The JavaScript string of a key. */
  function Spell(k: RoleKey): string
  {
    match k
    case Known(r) => Name(r)
    case Unknown(s) => s
  }

  /** The key a JavaScript string stands for: a catalog key exactly for the catalog's own names. */
  function Parse(s: string): (k: RoleKey)
    ensures k.Known? <==> s in CatalogNames
  {
    if s == "WEREWOLF" then Known(Werewolf)
    else if s == "SEER" then Known(Seer)
    else if s == "WITCH" then Known(Witch)
    else if s == "HUNTER" then Known(Hunter)
    else if s == "CUPID" then Known(Cupid)
    else if s == "ALIEN" then Known(Alien)
    else if s == "BEAR" then Known(Bear)
    else if s == "ELDER" then Known(Elder)
    else if s == "RAVEN" then Known(Raven)
    else if s == "BARBIE" then Known(Barbie)
    else if s == "SHEPHERD" then Known(Shepherd)
    else Unknown(s)
  }

  /** Reading a string as a key and spelling the key gives the string back. */
  lemma ParseSpell(s: string)
    ensures Spell(Parse(s)) == s
  {
  }

  /** Spelling a key and reading the string back gives the key. */
  lemma SpellParse(k: RoleKey)
    ensures Parse(Spell(k)) == k
  {
    match k
    case Known(r) =>
      match r {
        case Werewolf =>
        case Seer =>
        case Witch =>
        case Hunter =>
        case Cupid =>
        case Alien =>
        case Bear =>
        case Elder =>
        case Raven =>
        case Barbie =>
        case Shepherd =>
      }
    case Unknown(s) =>
  }

  /**
   * Two keys are the same exactly when their strings are, so a map keyed by
   * `RoleKey` holds the same entries as the JavaScript `Map` keyed by strings.
   */
  lemma SpellInjective(a: RoleKey, b: RoleKey)
    ensures Spell(a) == Spell(b) <==> a == b
  {
    SpellParse(a);
    SpellParse(b);
  }

  /** A role distribution: role key to quantity, in the order the keys were first set. */
  type Dist = OrderedMap<RoleKey, nat>

  /** `d.get(key) || 0`. */
  function CountOf(d: Dist, key: RoleKey): nat
  {
    match Get(d, key)
    case Some(c) => c
    case None => 0
  }

  /** The sum of all quantities (`Array.from(d.values()).reduce((s, c) => s + c, 0)`). */
  function Sum(d: Dist): nat
  {
    if d == [] then 0 else Sum(d[..|d| - 1]) + d[|d| - 1].1
  }

  /** The `reduce` over `values()` that both the planner and the balance check start or end with. */
  method TotalOf(d: Dist) returns (total: nat)
    ensures total == Sum(d)
  {
    total := 0;
    var i := 0;
    while i < |d|
      invariant 0 <= i <= |d|
      invariant total == Sum(d[..i])
    {
      assert d[..i + 1][..i] == d[..i];
      total := total + d[i].1;
      i := i + 1;
    }
    assert d[..|d|] == d;
  }

  /** What the planner always produces: distinct catalog keys, each with a quantity of at least 1. */
  predicate WellFormed(d: Dist)
  {
    && DistinctKeys(d)
    && forall i :: 0 <= i < |d| ==> InCatalog(d[i].0) && d[i].1 >= 1
  }

  lemma {:induction false} SumUpdate(d: Dist, i: nat, e: (RoleKey, nat))
    requires i < |d|
    ensures Sum(d[i := e]) == Sum(d) - d[i].1 + e.1
  {
    var last := |d| - 1;
    if i < last {
      assert d[i := e][..last] == d[..last][i := e];
      SumUpdate(d[..last], i, e);
    } else {
      assert d[i := e][..last] == d[..last];
    }
  }

  /** Setting a key moves the sum by the difference between the new and the old quantity. */
  lemma SumSet(d: Dist, key: RoleKey, v: nat)
    ensures Sum(Set(d, key, v)) == Sum(d) - CountOf(d, key) + v
  {
    var i := IndexOf(KeySeq(d), key);
    if i < 0 {
      assert (d + [(key, v)])[..|d|] == d;
    } else {
      assert KeySeq(d)[i] == d[i].0;
      SumUpdate(d, i, (key, v));
    }
  }

  /** `get` after `set`, on quantities. */
  lemma CountOfSet(d: Dist, k: RoleKey, v: nat, key: RoleKey)
    ensures CountOf(Set(d, k, v), key) == if key == k then v else CountOf(d, key)
  {
    GetSet(d, k, v, key);
  }

  /** Appending the entry of a new key adds its quantity to that key's count only. */
  lemma CountOfSnoc(d: Dist, e: (RoleKey, nat), key: RoleKey)
    requires e.0 !in Keys(d)
    ensures CountOf(d + [e], key) == CountOf(d, key) + (if e.0 == key then e.1 else 0)
  {
    SetAbsent(d, e.0, e.1);
    CountOfSet(d, e.0, e.1, key);
  }

  /** In a well-formed distribution a key is present exactly when its count is positive, and only catalog keys are. */
  lemma WellFormedCount(d: Dist, key: RoleKey)
    requires WellFormed(d)
    ensures key in Keys(d) <==> CountOf(d, key) >= 1
    ensures key in Keys(d) ==> InCatalog(key)
  {
    if key in Keys(d) {
      var i :| 0 <= i < |d| && KeySeq(d)[i] == key;
      GetAt(d, i);
    }
  }

  /** Setting a catalog key to a positive quantity keeps a distribution well formed. */
  lemma SetWellFormed(d: Dist, key: RoleKey, v: nat)
    requires WellFormed(d) && InCatalog(key) && v >= 1
    ensures WellFormed(Set(d, key, v))
  {
    var r := Set(d, key, v);
    SetDistinct(d, key, v);
    forall i | 0 <= i < |r|
      ensures InCatalog(r[i].0) && r[i].1 >= 1
    {
      if key in Keys(d) {
        SetPresent(d, key, v);
        assert KeySeq(r)[i] == KeySeq(d)[i];
        if r[i].0 != key {
          GetAt(r, i);
          GetSet(d, key, v, r[i].0);
          WellFormedCount(d, r[i].0);
        }
      } else if i < |d| {
        assert r[i] == d[i];
      }
    }
  }
}
