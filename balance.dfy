/**
 * `isBalanced` of js/roles.js: counts the werewolves, the members of the
 * villagers' team and the "special" roles of a distribution, and compares two
 * ratios against constant thresholds.
 *
 * `Judge` states the verdict with exact rational ratios and JavaScript's
 * division by zero (`v/0` is `Infinity` for `v > 0` and `NaN` for `v = 0`);
 * the method `IsBalanced` runs the source's single pass and compares by
 * cross-multiplication, and is proved to compute `Judge`.
 *
 * `ROLES[key]` is a property read on a plain object literal, so besides the
 * catalog's own keys it also finds the members every object inherits from
 * `Object.prototype` (`toString`, `constructor`, ...). Such a key is not
 * rejected as unknown: it counts toward the total and toward no team.
 */
module Balance {
  import opened Wrappers
  import opened OrderedMaps
  import opened Roles
  import Planner

  /** The names an object literal inherits from `Object.prototype`. */
  const InheritedNames: set<string> :=
    {"constructor", "hasOwnProperty", "isPrototypeOf", "propertyIsEnumerable", "toLocaleString",
     "toString", "valueOf", "__proto__", "__defineGetter__", "__defineSetter__",
     "__lookupGetter__", "__lookupSetter__"}

  /** What `ROLES[key]` reads. */
  datatype Entry =
    | Own(role: Role)   // a catalog entry, with its team
    | Inherited         // a truthy inherited member without a `team`
    | Missing           // `undefined`: the source throws "unknown role"

  function Lookup(key: RoleKey): (e: Entry)
    ensures e.Own? <==> InCatalog(key)
  {
    match key
    case Known(r) => Own(r)
    case Unknown(s) => if s in InheritedNames then Inherited else Missing
  }

  /** The counts `isBalanced` reports. */
  datatype Metrics = Metrics(total: nat, werewolves: nat, villagers: nat, special: nat)

  /** The result object: a verdict with its metrics, or `isBalanced: false` with the first unknown key. */
  datatype Verdict =
    | Judged(balanced: bool, metrics: Metrics)
    | UnknownRole(key: RoleKey)

  function IsBalancedResult(v: Verdict): bool
  {
    v.Judged? && v.balanced
  }

  /** `teamCounts.get(role.team)` gains the count of a key exactly when its team is the villagers'. */
  predicate IsVillager(key: RoleKey)
  {
    match Lookup(key)
    case Own(r) => TeamOf(r) == Villagers
    case _ => false
  }

  /** `specialRolesCount.has(key)`: every catalog key except WEREWOLF. */
  predicate IsSpecial(key: RoleKey)
  {
    key.Known? && key.role != Werewolf
  }

  /** The villagers' team count over the entries, in entry order. */
  function VillagerSum(d: Dist): nat
  {
    if d == [] then 0
    else VillagerSum(d[..|d| - 1]) + (if IsVillager(d[|d| - 1].0) then d[|d| - 1].1 else 0)
  }

  /** `specialCount` over the entries, in entry order. */
  function SpecialSum(d: Dist): nat
  {
    if d == [] then 0
    else SpecialSum(d[..|d| - 1]) + (if IsSpecial(d[|d| - 1].0) then d[|d| - 1].1 else 0)
  }

  /** The key at which the `forEach` throws: the first key, in entry order, that `Rejects`. */
  function FirstRejected(d: Dist, strict: bool): Option<RoleKey>
  {
    if d == [] then None
    else match FirstRejected(d[..|d| - 1], strict)
      case Some(k) => Some(k)
      case None =>
        var k := d[|d| - 1].0;
        if Rejects(k, strict) then Some(k) else None
  }

  /** As written the pass throws at a key `ROLES` lacks; `strict` rejects every key outside the catalog. */
  predicate Rejects(key: RoleKey, strict: bool)
  {
    if strict then !InCatalog(key) else Lookup(key).Missing?
  }

  function MinRatio(total: nat): real
  {
    if total <= 11 then 1.5 else 2.0
  }

  /** `villagerCount / werewolfCount >= minRatio` under JavaScript's division. */
  predicate VillagerRatioOk(m: Metrics)
  {
    if m.werewolves == 0 then m.villagers > 0
    else (m.villagers as real) / (m.werewolves as real) >= MinRatio(m.total)
  }

  /** `0.2 <= specialCount / totalPlayers <= 0.6`; with no players the ratio is `NaN` or `Infinity` and fails. */
  predicate SpecialRatioOk(m: Metrics)
  {
    m.total > 0 && 0.2 <= (m.special as real) / (m.total as real) <= 0.6
  }

  function MetricsOf(d: Dist): Metrics
  {
    Metrics(Sum(d), CountOf(d, Planner.WEREWOLF), VillagerSum(d), SpecialSum(d))
  }

  /** The verdict when `strict` decides which keys the unknown-role check rejects. */
  function JudgeWith(d: Dist, strict: bool): (r: Verdict)
    ensures r.UnknownRole? ==> Rejects(r.key, strict) && r.key in KeySeq(d)
    ensures r.Judged? ==> r.metrics == MetricsOf(d) && (r.balanced ==> r.metrics.total > 0)
  {
    match FirstRejected(d, strict)
    case Some(k) =>
      FirstRejectedMember(d, strict);
      UnknownRole(k)
    case None =>
      var m := MetricsOf(d);
      Judged(VillagerRatioOk(m) && SpecialRatioOk(m), m)
  }

  /** `isBalanced(d)` as written. */
  function Judge(d: Dist): (r: Verdict)
    ensures r.UnknownRole? ==> Lookup(r.key).Missing? && r.key in KeySeq(d)
  {
    JudgeWith(d, false)
  }

  /** `isBalanced(d)` with the unknown-role check the error message describes: only own catalog keys pass. */
  function JudgeOwn(d: Dist): (r: Verdict)
    ensures r.UnknownRole? ==> !InCatalog(r.key) && r.key in KeySeq(d)
  {
    JudgeWith(d, true)
  }

  // ---------------------------------------------------------------------------
  // The single pass

  /** The `try` block of `isBalanced`: one pass over the entries, then the two ratio tests. */
  method IsBalanced(d: Dist) returns (r: Verdict)
    ensures r == Judge(d)
  {
    var total := TotalOf(d);
    var werewolves := CountOf(d, Planner.WEREWOLF);
    var villagers := 0;
    var special := 0;
    var i := 0;
    while i < |d|
      invariant 0 <= i <= |d|
      invariant villagers == VillagerSum(d[..i])
      invariant special == SpecialSum(d[..i])
      invariant FirstRejected(d[..i], false) == None
    {
      var (key, count) := d[i];
      assert d[..i + 1][..i] == d[..i];
      if Lookup(key).Missing? {
        FirstRejectedPrefix(d, i + 1, false);
        r := UnknownRole(key);
        return;
      }
      if IsVillager(key) {
        villagers := villagers + count;
      }
      if IsSpecial(key) {
        special := special + count;
      }
      i := i + 1;
    }
    assert d[..|d|] == d;
    var m := Metrics(total, werewolves, villagers, special);
    var villagerOk := if werewolves == 0 then villagers > 0
                      else if total <= 11 then 2 * villagers >= 3 * werewolves
                      else villagers >= 2 * werewolves;
    var specialOk := total > 0 && 5 * special >= total && 5 * special <= 3 * total;
    CrossMultiplication(m);
    r := Judged(villagerOk && specialOk, m);
  }

  // ---------------------------------------------------------------------------
  // Lemmas

  /** Once a prefix has thrown, the whole pass throws at the same key. */
  lemma {:induction false} FirstRejectedPrefix(d: Dist, j: nat, strict: bool)
    requires j <= |d| && FirstRejected(d[..j], strict).Some?
    ensures FirstRejected(d, strict) == FirstRejected(d[..j], strict)
    decreases |d| - j
  {
    if j < |d| {
      assert d[..j + 1][..j] == d[..j];
      FirstRejectedPrefix(d, j + 1, strict);
    } else {
      assert d[..j] == d;
    }
  }

  /** The ratio tests on exact rationals agree with the integer cross-multiplications. */
  lemma CrossMultiplication(m: Metrics)
    ensures VillagerRatioOk(m) <==>
            if m.werewolves == 0 then m.villagers > 0
            else if m.total <= 11 then 2 * m.villagers >= 3 * m.werewolves
            else m.villagers >= 2 * m.werewolves
    ensures SpecialRatioOk(m) <==> m.total > 0 && 5 * m.special >= m.total && 5 * m.special <= 3 * m.total
  {
    if m.werewolves > 0 {
      QuotientBounds(m.villagers as real, m.werewolves as real, MinRatio(m.total));
    }
    if m.total > 0 {
      QuotientBounds(m.special as real, m.total as real, 0.2);
      QuotientBounds(m.special as real, m.total as real, 0.6);
    }
  }

  /** Comparing a quotient by a positive divisor is comparing the dividend with the scaled bound. */
  lemma QuotientBounds(a: real, b: real, c: real)
    requires b > 0.0
    ensures a / b >= c <==> a >= c * b
    ensures a / b <= c <==> a <= c * b
  {
    var q := a / b;
    assert q * b == a;
    assert q * b - c * b == (q - c) * b;
    if q > c {
      assert (q - c) * b > 0.0;
    } else if q < c {
      assert (c - q) * b > 0.0;
    }
  }

  /** Any key `ROLES` lacks makes the verdict false, and the first such key in entry order is reported. */
  lemma {:induction false} MissingKeyRejected(d: Dist, i: nat)
    requires i < |d| && Lookup(d[i].0).Missing?
    ensures Judge(d).UnknownRole? && !IsBalancedResult(Judge(d))
    ensures Lookup(Judge(d).key).Missing? && Judge(d).key in KeySeq(d[..i + 1])
  {
    FirstRejectedFound(d[..i + 1], false);
    FirstRejectedPrefix(d, i + 1, false);
    FirstRejectedMember(d[..i + 1], false);
  }

  /** A rejected entry makes the pass throw. */
  lemma {:induction false} FirstRejectedFound(d: Dist, strict: bool)
    requires d != [] && Rejects(d[|d| - 1].0, strict)
    ensures FirstRejected(d, strict).Some?
  {
  }

  /** The key the pass throws at is a rejected key of the map. */
  lemma {:induction false} FirstRejectedMember(d: Dist, strict: bool)
    requires FirstRejected(d, strict).Some?
    ensures Rejects(FirstRejected(d, strict).value, strict) && FirstRejected(d, strict).value in KeySeq(d)
  {
    var init := d[..|d| - 1];
    assert KeySeq(d) == KeySeq(init) + [d[|d| - 1].0];
    if FirstRejected(init, strict).Some? {
      FirstRejectedMember(init, strict);
    }
  }

  /** A pass that throws nowhere: no key of the map is rejected. */
  lemma {:induction false} NoneRejected(d: Dist, strict: bool)
    requires forall i :: 0 <= i < |d| ==> !Rejects(d[i].0, strict)
    ensures FirstRejected(d, strict) == None
  {
    if d != [] {
      NoneRejected(d[..|d| - 1], strict);
    }
  }

  /**
   * On a well-formed distribution nothing is rejected, the special roles are
   * everything but the werewolves, and the villagers' team is everything but
   * the werewolves and the neutral BEAR.
   */
  lemma {:induction false} CatalogCounts(d: Dist)
    requires WellFormed(d)
    ensures FirstRejected(d, false) == None && FirstRejected(d, true) == None
    ensures SpecialSum(d) + CountOf(d, Planner.WEREWOLF) == Sum(d)
    ensures VillagerSum(d) + CountOf(d, Known(Bear)) + CountOf(d, Planner.WEREWOLF) == Sum(d)
  {
    NoneRejected(d, false);
    NoneRejected(d, true);
    CatalogSums(d);
  }

  lemma {:induction false} CatalogSums(d: Dist)
    requires WellFormed(d)
    ensures SpecialSum(d) + CountOf(d, Planner.WEREWOLF) == Sum(d)
    ensures VillagerSum(d) + CountOf(d, Known(Bear)) + CountOf(d, Planner.WEREWOLF) == Sum(d)
  {
    if d != [] {
      var init, e := d[..|d| - 1], d[|d| - 1];
      assert d == init + [e];
      assert WellFormed(init);
      assert e.0 !in Keys(init) by {
        assert forall j :: 0 <= j < |init| ==> KeySeq(init)[j] == d[j].0;
      }
      CatalogSums(init);
      CatalogTeams(e.0);
      CountOfSnoc(init, e, Planner.WEREWOLF);
      CountOfSnoc(init, e, Known(Bear));
    }
  }

  /** A catalog key is special unless it is WEREWOLF, and on the villagers' team unless it is WEREWOLF or BEAR. */
  lemma CatalogTeams(k: RoleKey)
    requires InCatalog(k)
    ensures IsSpecial(k) <==> k != Planner.WEREWOLF
    ensures IsVillager(k) <==> k != Planner.WEREWOLF && k != Known(Bear)
  {
  }

  /** Both readings of the unknown-role check agree when every key is a catalog key. */
  lemma JudgeOwnAgrees(d: Dist)
    requires forall i :: 0 <= i < |d| ==> InCatalog(d[i].0)
    ensures JudgeOwn(d) == Judge(d)
  {
    NoneRejected(d, false);
    NoneRejected(d, true);
  }

  /** With the strict check, every key outside the catalog makes the verdict false. */
  lemma JudgeOwnRejectsForeign(d: Dist, i: nat)
    requires i < |d| && !InCatalog(d[i].0)
    ensures JudgeOwn(d).UnknownRole? && !InCatalog(JudgeOwn(d).key) && !IsBalancedResult(JudgeOwn(d))
  {
    FirstRejectedFound(d[..i + 1], true);
    FirstRejectedPrefix(d, i + 1, true);
    FirstRejectedMember(d[..i + 1], true);
  }

  /** A map with the three mandatory roles, two werewolves and one key the catalog lacks. */
  const InheritedExample: Dist :=
    [(Planner.WEREWOLF, 2), (Known(Seer), 1), (Known(Witch), 1), (Known(Hunter), 1), (Unknown("constructor"), 1)]

  /**
   * As written, an inherited name slips through the unknown-role check: this
   * map holds a key the catalog lacks, yet is judged balanced.
   */
  lemma InheritedKeyPasses()
    ensures !InCatalog(InheritedExample[4].0)
    ensures Judge(InheritedExample) == Judged(true, Metrics(6, 2, 3, 3))
    ensures JudgeOwn(InheritedExample) == UnknownRole(Unknown("constructor"))
  {
    ExampleScan();
    ExampleMetrics();
    CrossMultiplication(Metrics(6, 2, 3, 3));
  }

  /** The pass over the example: as written nothing throws; strictly, the last key does. */
  lemma ExampleScan()
    ensures FirstRejected(InheritedExample, false) == None
    ensures FirstRejected(InheritedExample, true) == Some(Unknown("constructor"))
  {
    var d := InheritedExample;
    assert Lookup(Unknown("constructor")) == Inherited;
    assert d[..4] == [(Planner.WEREWOLF, 2), (Known(Seer), 1), (Known(Witch), 1), (Known(Hunter), 1)];
    NoneRejected(d, false);
    NoneRejected(d[..4], true);
  }

  /** The counts of the example. */
  lemma ExampleMetrics()
    ensures MetricsOf(InheritedExample) == Metrics(6, 2, 3, 3)
  {
    var d1: Dist := [(Planner.WEREWOLF, 2)];
    var d2 := d1 + [(Known(Seer), 1)];
    var d3 := d2 + [(Known(Witch), 1)];
    var d4 := d3 + [(Known(Hunter), 1)];
    var d := d4 + [(Unknown("constructor"), 1)];
    assert d == InheritedExample;
    assert d1[..0] == [] && d2[..1] == d1 && d3[..2] == d2 && d4[..3] == d3 && d[..4] == d4;
    assert !IsSpecial(Planner.WEREWOLF) && !IsVillager(Planner.WEREWOLF);
    assert Sum(d1) == 2 && VillagerSum(d1) == 0 && SpecialSum(d1) == 0;
    assert Sum(d2) == 3 && VillagerSum(d2) == 1 && SpecialSum(d2) == 1;
    assert Sum(d3) == 4 && VillagerSum(d3) == 2 && SpecialSum(d3) == 2;
    assert Sum(d4) == 5 && VillagerSum(d4) == 3 && SpecialSum(d4) == 3;
    assert CountOf(d, Planner.WEREWOLF) == 2 by {
      assert forall j :: 0 < j < |d| ==> d[j].0 != Planner.WEREWOLF;
      GetAt(d, 0);
    }
  }

  /**
   * A well-formed distribution with fewer than two fifths werewolves is judged
   * unbalanced: its special ratio is above 0.6.
   */
  lemma FewWerewolvesUnbalanced(d: Dist)
    requires WellFormed(d) && 2 * Sum(d) > 5 * CountOf(d, Planner.WEREWOLF)
    ensures Judge(d) == Judged(false, MetricsOf(d))
    ensures MetricsOf(d).special == Sum(d) - CountOf(d, Planner.WEREWOLF)
  {
    CatalogCounts(d);
    CrossMultiplication(MetricsOf(d));
  }

  /**
   * No distribution the planner produces is judged balanced: its special
   * roles are all but the werewolves, and there are too few werewolves to keep
   * the special ratio at or below 0.6.
   */
  lemma PlanNeverBalanced(n: int)
    requires Planner.MinCount <= n <= Planner.MaxCount
    ensures Planner.PlanFor(n).Ok?
    ensures var v := Judge(Planner.PlanFor(n).value);
            && v.Judged? && !v.balanced && v.metrics.total == n
            && v.metrics.werewolves == Planner.WerewolfTable[n - Planner.MinCount]
            && v.metrics.special == n - v.metrics.werewolves
  {
    Planner.PlanShape(n);
    Planner.WerewolfCounts(n);
    Planner.WerewolfMinority(n);
    FewWerewolvesUnbalanced(Planner.PlanFor(n).value);
  }
}
