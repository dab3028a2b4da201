/** internal/app/goal/service.go: goal levels, a user's custom targets, and
    the monthly check that awards the badge of the user's goal level.

    The goal repository's own operations (listing the levels, the "Custom"
    level's id, a user's targets, the user's active level, the type of a
    score id and the insert of a target) are not part of this model: their
    answers are parameters, and the insert is written out below as an
    assumption. */
module GoalService {
  import opened AppErrors
  import opened Tables
  import opened Base
  import ContributionRepo
  import BadgeService

  /** A target the user asks for: a contribution type and how many of it. */
  datatype CustomGoalLevelTarget = CustomGoalLevelTarget(ContributionType: string, Target: int)

  /** ListGoalLevels: the repository's rows copied one by one, in order. */
  method ListGoalLevels(goals: Result<seq<Goal>>) returns (r: Result<seq<Goal>>)
    ensures r.Err? <==> goals.Err?
    ensures r.Err? ==> r.error == goals.error
    ensures r.Ok? ==> |r.value| == |goals.value| && forall i :: 0 <= i < |goals.value| ==> r.value[i] == goals.value[i]
  {
    if goals.Err? {
      return Err(goals.error);
    }
    var rows := goals.value;
    var serviceGoals := new Goal[|rows|];
    for i := 0 to |rows|
      invariant forall k :: 0 <= k < i ==> serviceGoals[k] == rows[k]
    {
      serviceGoals[i] := rows[i];
    }
    return Ok(serviceGoals[..]);
  }

  // ---- custom targets ----

  /** The insert of a goal target, which is not part of this model, as
      assumed here: the row is stored under the next serial id and returned;
      a failure is ErrInternalServer with nothing stored. */
  function CreateGoalTargetOn(t: Tables, failing: set<Query>, info: GoalContribution): (res: (Tables, Result<GoalContribution>))
  {
    if CreateGoalTargetQuery in failing then (t, Err(ErrInternalServer))
    else
      var row := info.(Id := |t.goalTargets| + 1);
      (t.(goalTargets := t.goalTargets + [row]), Ok(row))
  }

  /** The row CreateCustomGoalLevelTarget asks to store for one target: the
      Custom level, the score id of the type, the count and the user.
      IsCustom is never set and keeps Go's zero value. */
  function TargetFor(goalId: int, userId: int, scoreId: int, target: CustomGoalLevelTarget): GoalContribution
  {
    GoalContribution(0, goalId, scoreId, target.Target, false, userId)
  }

  /** One target: the score row of its type, then the insert. */
  function CreateOneTargetOn(t: Tables, failing: set<Query>, goalId: int, userId: int, target: CustomGoalLevelTarget)
    : (res: (Tables, Result<GoalContribution>))
  {
    match ContributionRepo.GetContributionScoreDetailsByContributionType(t, failing, target.ContributionType)
    case Err(e) => (t, Err(e))
    case Ok(score) => CreateGoalTargetOn(t, failing, TargetFor(goalId, userId, score.Id, target))
  }

  /** The loop of CreateCustomGoalLevelTarget over the targets, in order,
      stopping at the first failure.  Rows inserted before a failure stay.
      On success there is one stored row per target, in order, carrying the
      Custom level, the score id of the target's type, the target count and
      the user. */
  function CustomTargetsOn(t: Tables, failing: set<Query>, goalId: int, userId: int, targets: seq<CustomGoalLevelTarget>)
    : (res: (Tables, Result<seq<GoalContribution>>))
    ensures res.0 == t.(goalTargets := res.0.goalTargets) && t.goalTargets <= res.0.goalTargets
    ensures res.1.Ok? ==>
      var rows := res.1.value;
      |rows| == |targets| && res.0.goalTargets == t.goalTargets + rows
      && forall i :: 0 <= i < |targets| ==>
           var score := ContributionRepo.GetContributionScoreDetailsByContributionType(t, failing, targets[i].ContributionType);
           score.Ok? && rows[i] == TargetFor(goalId, userId, score.value.Id, targets[i]).(Id := |t.goalTargets| + i + 1)
    decreases |targets|
  {
    if |targets| == 0 then (t, Ok([]))
    else
      var (t1, r1) := CustomTargetsOn(t, failing, goalId, userId, targets[..|targets| - 1]);
      if r1.Err? then (t1, r1)
      else
        var (t2, r2) := CreateOneTargetOn(t1, failing, goalId, userId, targets[|targets| - 1]);
        if r2.Err? then (t2, Err(r2.error)) else (t2, Ok(r1.value + [r2.value]))
  }

  /** CreateCustomGoalLevelTarget, given the answer of the "Custom" level's
      id lookup. */
  function CreateCustomGoalLevelTargetOn(t: Tables, failing: set<Query>, userId: int, targets: seq<CustomGoalLevelTarget>,
                                         customGoalId: Result<int>): (res: (Tables, Result<seq<GoalContribution>>))
    ensures customGoalId.Err? ==> res == (t, Err(customGoalId.error))
  {
    match customGoalId
    case Err(e) => (t, Err(e))
    case Ok(goalId) => CustomTargetsOn(t, failing, goalId, userId, targets)
  }

  /** Once a target fails, the later ones are not looked at. */
  lemma {:induction false} CustomTargetsStop(t: Tables, failing: set<Query>, goalId: int, userId: int,
                                             targets: seq<CustomGoalLevelTarget>, k: nat)
    requires k <= |targets|
    requires CustomTargetsOn(t, failing, goalId, userId, targets[..k]).1.Err?
    ensures CustomTargetsOn(t, failing, goalId, userId, targets) == CustomTargetsOn(t, failing, goalId, userId, targets[..k])
    decreases |targets|
  {
    if k < |targets| {
      var front := targets[..|targets| - 1];
      assert front[..k] == targets[..k];
      CustomTargetsStop(t, failing, goalId, userId, front, k);
    } else {
      assert targets[..k] == targets;
    }
  }

  method CreateCustomGoalLevelTarget(db: Executer, userId: int, targets: seq<CustomGoalLevelTarget>, customGoalId: Result<int>)
    returns (r: Result<seq<GoalContribution>>)
    modifies db
    ensures (db.tables, r) == CreateCustomGoalLevelTargetOn(old(db.tables), db.failing, userId, targets, customGoalId)
  {
    if customGoalId.Err? {
      return Err(customGoalId.error);
    }
    var goalId := customGoalId.value;
    var goalContributions: seq<GoalContribution> := [];
    for i := 0 to |targets|
      invariant (db.tables, Ok(goalContributions)) == CustomTargetsOn(old(db.tables), db.failing, goalId, userId, targets[..i])
    {
      assert targets[..i + 1][..i] == targets[..i];
      var res := CreateOneTargetOn(db.tables, db.failing, goalId, userId, targets[i]);
      db.tables := res.0;
      if res.1.Err? {
        CustomTargetsStop(old(db.tables), db.failing, goalId, userId, targets, i + 1);
        return Err(res.1.error);
      }
      goalContributions := goalContributions + [res.1.value];
    }
    assert targets[..|targets|] == targets;
    return Ok(goalContributions);
  }

  // ---- the monthly achievement check ----

  /** The first loop of ListGoalLevelAchievedTarget: the type and count of
      every target, stopping at the first type lookup that fails. */
  function TypesOfTargets(targets: seq<GoalContribution>, typeOf: int -> Result<string>): (r: Result<seq<CustomGoalLevelTarget>>)
    ensures r.Err? ==> exists i :: (0 <= i < |targets|
      && (forall k :: 0 <= k < i ==> typeOf(targets[k].ContributionScoreId).Ok?)
      && typeOf(targets[i].ContributionScoreId) == Err(r.error))
    ensures r.Ok? ==> (|r.value| == |targets|
      && forall i :: 0 <= i < |targets| ==>
           typeOf(targets[i].ContributionScoreId) == Ok(r.value[i].ContributionType) && r.value[i].Target == targets[i].TargetCount)
    decreases |targets|
  {
    if |targets| == 0 then Ok([])
    else
      match TypesOfTargets(targets[..|targets| - 1], typeOf)
      case Err(e) => Err(e)
      case Ok(front) =>
        var g := targets[|targets| - 1];
        match typeOf(g.ContributionScoreId)
        case Err(e) => Err(e)
        case Ok(ty) => Ok(front + [CustomGoalLevelTarget(ty, g.TargetCount)])
  }

  /** The achieved map: each summary row's type mapped to its count, later
      rows overwriting earlier ones. */
  function AchievedOf(rows: seq<ContributionRepo.MonthlyContributionSummary>): map<string, int>
  {
    if |rows| == 0 then map[]
    else AchievedOf(rows[..|rows| - 1])[rows[|rows| - 1].Type := rows[|rows| - 1].Count]
  }

  /** Reading a Go map: a missing key gives the zero value. */
  function Lookup(m: map<string, int>, key: string): int
  {
    if key in m then m[key] else 0
  }

  predicate Met(c: CustomGoalLevelTarget, achieved: map<string, int>)
  {
    c.Target == Lookup(achieved, c.ContributionType)
  }

  /** How many targets are met, a target being met only when the month's
      count equals it exactly. */
  function CompletedCount(cts: seq<CustomGoalLevelTarget>, achieved: map<string, int>): (n: nat)
    ensures n <= |cts|
  {
    if |cts| == 0 then 0
    else CompletedCount(cts[..|cts| - 1], achieved) + (if Met(cts[|cts| - 1], achieved) then 1 else 0)
  }

  /** The counter reaches the number of targets exactly when every target is
      met. */
  lemma {:induction false} CompletedAllIff(cts: seq<CustomGoalLevelTarget>, achieved: map<string, int>)
    ensures CompletedCount(cts, achieved) == |cts| <==> forall i :: 0 <= i < |cts| ==> Met(cts[i], achieved)
    decreases |cts|
  {
    if |cts| > 0 {
      var front := cts[..|cts| - 1];
      CompletedAllIff(front, achieved);
      assert forall i :: 0 <= i < |front| ==> front[i] == cts[i];
    }
  }

  lemma {:induction false} RowOfTypeAppend(rows: seq<ContributionRepo.MonthlyContributionSummary>,
                                           x: ContributionRepo.MonthlyContributionSummary, ty: string)
    ensures ContributionRepo.RowOfType(rows + [x], ty)
            == if ContributionRepo.RowOfType(rows, ty).Some? then ContributionRepo.RowOfType(rows, ty)
               else if x.Type == ty then Some(x) else None
  {
    if |rows| > 0 {
      assert (rows + [x])[1..] == rows[1..] + [x];
      RowOfTypeAppend(rows[1..], x, ty);
    }
  }

  /** With one row per type, the achieved map holds each type's count, and
      only the types that have a row. */
  lemma {:induction false} AchievedOfRows(rows: seq<ContributionRepo.MonthlyContributionSummary>, ty: string)
    requires ContributionRepo.DistinctTypes(rows)
    ensures ty in AchievedOf(rows) <==> ContributionRepo.RowOfType(rows, ty).Some?
    ensures ty in AchievedOf(rows) ==> AchievedOf(rows)[ty] == ContributionRepo.RowOfType(rows, ty).value.Count
    decreases |rows|
  {
    if |rows| > 0 {
      var front, x := rows[..|rows| - 1], rows[|rows| - 1];
      assert rows == front + [x];
      AchievedOfRows(front, ty);
      RowOfTypeAppend(front, x, ty);
      if x.Type == ty {
        ContributionRepo.RowOfTypeAbsent(front, ty);
      }
    }
  }

  /** ListGoalLevelAchievedTarget, given the user's targets, the type of
      each score id and the user's active goal level.  `now` is the clock:
      the month summarised and the month of the badge. */
  function ListGoalLevelAchievedTargetOn(t: Tables, failing: set<Query>, userId: int, now: Timestamp,
                                         targets: Result<seq<GoalContribution>>, typeOf: int -> Result<string>,
                                         activeLevel: Result<string>): (res: (Tables, Result<map<string, int>>))
  {
    match targets
    case Err(e) => (t, Err(e))
    case Ok(gs) =>
      match TypesOfTargets(gs, typeOf)
      case Err(e) => (t, Err(e))
      case Ok(cts) =>
        match ContributionRepo.ListMonthlyContributionSummary(t, failing, now.year, now.month, userId)
        case Err(e) => (t, Err(e))
        case Ok(rows) =>
          var achieved := AchievedOf(rows);
          if CompletedCount(cts, achieved) == |gs| then
            match activeLevel
            case Err(e) => (t, Err(e))
            case Ok(level) =>
              var (t1, b) := BadgeService.HandleBadgeCreationOn(t, failing, userId, level, now);
              if b.Err? then (t1, Err(b.error)) else (t1, Ok(achieved))
          else (t, Ok(achieved))
  }

  /** A failed type lookup ends the first loop: later targets do not change
      the outcome. */
  lemma {:induction false} TypesOfTargetsStop(targets: seq<GoalContribution>, typeOf: int -> Result<string>, k: nat)
    requires k <= |targets|
    requires TypesOfTargets(targets[..k], typeOf).Err?
    ensures TypesOfTargets(targets, typeOf) == TypesOfTargets(targets[..k], typeOf)
    decreases |targets|
  {
    if k < |targets| {
      var front := targets[..|targets| - 1];
      assert front[..k] == targets[..k];
      TypesOfTargetsStop(front, typeOf, k);
    } else {
      assert targets[..k] == targets;
    }
  }

  /** The first loop of ListGoalLevelAchievedTarget. */
  method ContributionTypesOf(gs: seq<GoalContribution>, typeOf: int -> Result<string>) returns (r: Result<seq<CustomGoalLevelTarget>>)
    ensures r == TypesOfTargets(gs, typeOf)
  {
    var contributionTypes: seq<CustomGoalLevelTarget> := [];
    for i := 0 to |gs|
      invariant TypesOfTargets(gs[..i], typeOf) == Ok(contributionTypes)
    {
      assert gs[..i + 1][..i] == gs[..i];
      var ty := typeOf(gs[i].ContributionScoreId);
      if ty.Err? {
        TypesOfTargetsStop(gs, typeOf, i + 1);
        return Err(ty.error);
      }
      contributionTypes := contributionTypes + [CustomGoalLevelTarget(ty.value, gs[i].TargetCount)];
    }
    assert gs[..|gs|] == gs;
    return Ok(contributionTypes);
  }

  /** The second loop: the achieved map built from the summary rows. */
  method AchievedMap(rows: seq<ContributionRepo.MonthlyContributionSummary>) returns (achieved: map<string, int>)
    ensures achieved == AchievedOf(rows)
  {
    achieved := map[];
    for i := 0 to |rows|
      invariant achieved == AchievedOf(rows[..i])
    {
      assert rows[..i + 1][..i] == rows[..i];
      achieved := achieved[rows[i].Type := rows[i].Count];
    }
    assert rows[..|rows|] == rows;
  }

  /** The third loop: the number of targets met exactly. */
  method CountCompleted(cts: seq<CustomGoalLevelTarget>, achieved: map<string, int>) returns (completed: nat)
    ensures completed == CompletedCount(cts, achieved)
  {
    completed := 0;
    for i := 0 to |cts|
      invariant completed == CompletedCount(cts[..i], achieved)
    {
      assert cts[..i + 1][..i] == cts[..i];
      if cts[i].Target == Lookup(achieved, cts[i].ContributionType) {
        completed := completed + 1;
      }
    }
    assert cts[..|cts|] == cts;
  }

  method ListGoalLevelAchievedTarget(db: Executer, userId: int, now: Timestamp,
                                     targets: Result<seq<GoalContribution>>, typeOf: int -> Result<string>,
                                     activeLevel: Result<string>) returns (r: Result<map<string, int>>)
    modifies db
    ensures (db.tables, r) == ListGoalLevelAchievedTargetOn(old(db.tables), db.failing, userId, now, targets, typeOf, activeLevel)
  {
    if targets.Err? {
      return Err(targets.error);
    }
    var gs := targets.value;
    var types := ContributionTypesOf(gs, typeOf);
    if types.Err? {
      return Err(types.error);
    }
    var contributionTypes := types.value;

    var summary := ContributionRepo.ListMonthlyContributionSummary(db.tables, db.failing, now.year, now.month, userId);
    if summary.Err? {
      return Err(summary.error);
    }
    var achieved := AchievedMap(summary.value);
    var completedTarget := CountCompleted(contributionTypes, achieved);

    if completedTarget == |gs| {
      if activeLevel.Err? {
        return Err(activeLevel.error);
      }
      var b := BadgeService.HandleBadgeCreation(db, userId, activeLevel.value, now);
      if b.Err? {
        return Err(b.error);
      }
    }
    return Ok(achieved);
  }

  /** The user's contributions of the month of `now`. */
  function MonthOfUser(t: Tables, userId: int, now: Timestamp): seq<Contribution>
  {
    Filter(t.contributions, ContributionRepo.InMonthOfUser(userId, now.year, now.month))
  }

  /** The map returned holds, for every type, the number of the user's
      contributions of that type in the month (a type absent from the map
      reads as 0). */
  lemma AchievedCountsContributions(t: Tables, failing: set<Query>, userId: int, now: Timestamp,
                                    targets: Result<seq<GoalContribution>>, typeOf: int -> Result<string>,
                                    activeLevel: Result<string>, ty: string)
    requires ListGoalLevelAchievedTargetOn(t, failing, userId, now, targets, typeOf, activeLevel).1.Ok?
    ensures Lookup(ListGoalLevelAchievedTargetOn(t, failing, userId, now, targets, typeOf, activeLevel).1.value, ty)
            == ContributionRepo.CountOfType(MonthOfUser(t, userId, now), ty)
  {
    var rows := ContributionRepo.ListMonthlyContributionSummary(t, failing, now.year, now.month, userId).value;
    AchievedOfRows(rows, ty);
  }

  /** Every target is met: each target's count equals the number of the
      user's contributions of its type this month. */
  predicate AllTargetsMet(t: Tables, userId: int, now: Timestamp, gs: seq<GoalContribution>, typeOf: int -> Result<string>)
  {
    forall i :: 0 <= i < |gs| ==>
      typeOf(gs[i].ContributionScoreId).Ok?
      && gs[i].TargetCount == ContributionRepo.CountOfType(MonthOfUser(t, userId, now), typeOf(gs[i].ContributionScoreId).value)
  }

  /** The badge of the active level is handled exactly when every target is
      met; otherwise nothing is written.  With no targets at all, the badge
      is always handled. */
  lemma BadgeExactlyWhenAllTargetsMet(t: Tables, failing: set<Query>, userId: int, now: Timestamp,
                                      gs: seq<GoalContribution>, typeOf: int -> Result<string>, level: string)
    requires forall i :: 0 <= i < |gs| ==> typeOf(gs[i].ContributionScoreId).Ok?
    requires MonthlyContributionSummaryQuery !in failing
    ensures var res := ListGoalLevelAchievedTargetOn(t, failing, userId, now, Ok(gs), typeOf, Ok(level));
            if AllTargetsMet(t, userId, now, gs, typeOf)
            then res.0 == BadgeService.HandleBadgeCreationOn(t, failing, userId, level, now).0
            else res.0 == t && res.1.Ok?
  {
    var cts := TypesOfTargets(gs, typeOf).value;
    var rows := ContributionRepo.ListMonthlyContributionSummary(t, failing, now.year, now.month, userId).value;
    var achieved := AchievedOf(rows);
    CompletedAllIff(cts, achieved);
    forall i | 0 <= i < |gs|
      ensures Met(cts[i], achieved) <==>
        gs[i].TargetCount == ContributionRepo.CountOfType(MonthOfUser(t, userId, now), typeOf(gs[i].ContributionScoreId).value)
    {
      AchievedOfRows(rows, cts[i].ContributionType);
    }
  }
}
