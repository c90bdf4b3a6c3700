/**
 * Skill matching (backend/routes/matching.js): weighted compatibility of a
 * candidate's skills with one job's requirement list, learning
 * recommendations for the missing requirements, the learning path built
 * from them, and the quick ranking of every job in the catalog.
 */
module Matching {
  import opened Wrappers
  import opened Strings
  import StableSort

  // ---------------------------------------------------------------------------
  // Records (the requiredSkills entries of the JobRole schema)
  // ---------------------------------------------------------------------------

  /** How essential a skill is to a job: 1 = nice to have, 10 = absolutely essential. */
  type Importance = i: int | 1 <= i <= 10 witness 1

  /** The levels the JobRole schema admits for a requirement. */
  type Level = s: string | s == "beginner" || s == "intermediate" || s == "advanced" witness "beginner"

  datatype Requirement = Requirement(skill: string, importance: Importance, level: Level)

  datatype Job = Job(id: string, title: string, category: string, description: string,
                     requiredSkills: seq<Requirement>)

  /** What `calculateCompatibility` returns. */
  datatype Compatibility = Compatibility(
    compatibilityPercentage: int,
    userScore: int,
    totalPossibleScore: int,
    matchingSkills: seq<Requirement>,
    missingSkills: seq<Requirement>)

  // ---------------------------------------------------------------------------
  // The match predicate
  // ---------------------------------------------------------------------------

  /**
   * One candidate skill satisfies a (lower-cased) requirement label when, after
   * lower-casing the candidate, either string contains the other.
   */
  predicate SkillMatches(userSkill: string, skillName: string): (b: bool)
    ensures Lower(userSkill) == skillName ==> b
    ensures userSkill == "" ==> b
  {
    Includes(Lower(userSkill), skillName) || Includes(skillName, Lower(userSkill))
  }

  /** Matching is containment at some offset, in one direction or the other. */
  lemma SkillMatchesIff(userSkill: string, skillName: string)
    ensures SkillMatches(userSkill, skillName) <==>
              (exists i :: OccursAt(Lower(userSkill), skillName, i)) ||
              (exists i :: OccursAt(skillName, Lower(userSkill), i))
  {
    IncludesIffOccurs(Lower(userSkill), skillName);
    IncludesIffOccurs(skillName, Lower(userSkill));
  }

  /** `userSkills.some(...)`: the candidates are tried in order and the first match decides. */
  predicate UserHasSkill(userSkills: seq<string>, skillName: string): (b: bool)
    ensures b <==> exists i :: 0 <= i < |userSkills| && SkillMatches(userSkills[i], skillName)
    decreases |userSkills|
  {
    if |userSkills| == 0 then false
    else
      var rest := userSkills[1..];
      assert forall j :: 0 <= j < |rest| ==> rest[j] == userSkills[j + 1];
      assert forall i :: 0 < i < |userSkills| ==> userSkills[i] == rest[i - 1];
      SkillMatches(userSkills[0], skillName) || UserHasSkill(rest, skillName)
  }

  /** A requirement is met when some candidate skill matches its lower-cased label. */
  predicate Meets(userSkills: seq<string>, req: Requirement)
  {
    UserHasSkill(userSkills, Lower(req.skill))
  }

  /** An empty candidate string is contained in every label, so it meets every requirement. */
  lemma EmptyCandidateMeetsAll(userSkills: seq<string>, req: Requirement)
    requires "" in userSkills
    ensures Meets(userSkills, req)
  {
    var i :| 0 <= i < |userSkills| && userSkills[i] == "";
    assert SkillMatches(userSkills[i], Lower(req.skill));
  }

  /** Without candidate skills nothing is met. */
  lemma NoCandidatesMeetNothing(req: Requirement)
    ensures !Meets([], req)
  {
  }

  // ---------------------------------------------------------------------------
  // Specification of calculateCompatibility
  // ---------------------------------------------------------------------------

  /** The requirements that are met, in input order. */
  function MatchingOf(userSkills: seq<string>, reqs: seq<Requirement>): (m: seq<Requirement>)
    ensures forall r :: r in m ==> r in reqs && Meets(userSkills, r)
  {
    if reqs == [] then []
    else
      var last := reqs[|reqs| - 1];
      MatchingOf(userSkills, reqs[..|reqs| - 1]) + (if Meets(userSkills, last) then [last] else [])
  }

  /** The requirements that are not met, in input order. */
  function MissingOf(userSkills: seq<string>, reqs: seq<Requirement>): (m: seq<Requirement>)
    ensures forall r :: r in m ==> r in reqs && !Meets(userSkills, r)
  {
    if reqs == [] then []
    else
      var last := reqs[|reqs| - 1];
      MissingOf(userSkills, reqs[..|reqs| - 1]) + (if Meets(userSkills, last) then [] else [last])
  }

  /** The sum of the importances; every requirement weighs at least 1 and at most 10. */
  function TotalWeight(reqs: seq<Requirement>): (w: int)
    ensures |reqs| <= w <= 10 * |reqs|
  {
    if reqs == [] then 0 else TotalWeight(reqs[..|reqs| - 1]) + reqs[|reqs| - 1].importance
  }

  /**
   * `Math.round(u / t * 100)` for 0 <= u <= t, and 0 when t is 0. For a
   * non-negative ratio, rounding half up is floor(100u/t + 1/2), which is
   * the integer quotient below.
   */
  function RoundedPercentage(u: int, t: int): (p: int)
    ensures t <= 0 ==> p == 0
    ensures t > 0 && 0 <= u <= t ==> 0 <= p <= 100
  {
    if t <= 0 then 0
    else if 0 <= u <= t then
      QuotientWithinPercent(u, t);
      (200 * u + t) / (2 * t)
    else (200 * u + t) / (2 * t)
  }

  lemma QuotientWithinPercent(u: int, t: int)
    requires 0 <= u <= t && t > 0
    ensures 0 <= (200 * u + t) / (2 * t) <= 100
  {
    var p, rem := (200 * u + t) / (2 * t), (200 * u + t) % (2 * t);
    assert 200 * u + t == 2 * t * p + rem;
    assert 2 * t * p < 2 * t * 101;
    MulStrict(2 * t, p, 101);
  }

  /**
   * The result `calculateCompatibility` is specified to return: every
   * requirement lands in one of the two lists, the score and the missing
   * weight make up the total, and the percentage lies in 0..100.
   */
  function CompatibilityOf(userSkills: seq<string>, reqs: seq<Requirement>): (c: Compatibility)
    ensures |c.matchingSkills| + |c.missingSkills| == |reqs|
    ensures c.userScore + TotalWeight(c.missingSkills) == c.totalPossibleScore
    ensures 0 <= c.userScore <= c.totalPossibleScore
    ensures 0 <= c.compatibilityPercentage <= 100
  {
    Partition(userSkills, reqs);
    WeightSplit(userSkills, reqs);
    var matched := MatchingOf(userSkills, reqs);
    Compatibility(RoundedPercentage(TotalWeight(matched), TotalWeight(reqs)),
                  TotalWeight(matched), TotalWeight(reqs),
                  matched, MissingOf(userSkills, reqs))
  }

  /** Each requirement lands in exactly one list, and both lists keep input order. */
  lemma {:induction false} Partition(userSkills: seq<string>, reqs: seq<Requirement>)
    ensures |MatchingOf(userSkills, reqs)| + |MissingOf(userSkills, reqs)| == |reqs|
    ensures multiset(MatchingOf(userSkills, reqs)) + multiset(MissingOf(userSkills, reqs)) == multiset(reqs)
    ensures forall r :: r in MatchingOf(userSkills, reqs) ==> Meets(userSkills, r)
    ensures forall r :: r in MissingOf(userSkills, reqs) ==> !Meets(userSkills, r)
  {
    if reqs != [] {
      var init, last := reqs[..|reqs| - 1], reqs[|reqs| - 1];
      Partition(userSkills, init);
      assert reqs == init + [last];
    }
  }

  lemma {:induction false} TotalWeightAppend(reqs: seq<Requirement>, more: seq<Requirement>)
    ensures TotalWeight(reqs + more) == TotalWeight(reqs) + TotalWeight(more)
    decreases |more|
  {
    if more == [] {
      assert reqs + more == reqs;
    } else {
      var init := more[..|more| - 1];
      TotalWeightAppend(reqs, init);
      assert (reqs + more)[..|reqs + more| - 1] == reqs + init;
    }
  }

  /** Extending the scanned prefix by one requirement extends exactly one list and the total. */
  lemma ScanStep(userSkills: seq<string>, reqs: seq<Requirement>, i: int)
    requires 0 <= i < |reqs|
    ensures Meets(userSkills, reqs[i]) ==>
              MatchingOf(userSkills, reqs[..i + 1]) == MatchingOf(userSkills, reqs[..i]) + [reqs[i]] &&
              MissingOf(userSkills, reqs[..i + 1]) == MissingOf(userSkills, reqs[..i])
    ensures !Meets(userSkills, reqs[i]) ==>
              MatchingOf(userSkills, reqs[..i + 1]) == MatchingOf(userSkills, reqs[..i]) &&
              MissingOf(userSkills, reqs[..i + 1]) == MissingOf(userSkills, reqs[..i]) + [reqs[i]]
    ensures TotalWeight(reqs[..i + 1]) == TotalWeight(reqs[..i]) + reqs[i].importance
    ensures TotalWeight(MatchingOf(userSkills, reqs[..i + 1])) ==
              TotalWeight(MatchingOf(userSkills, reqs[..i])) + (if Meets(userSkills, reqs[i]) then reqs[i].importance else 0)
  {
    var prefix := reqs[..i + 1];
    assert prefix[..i] == reqs[..i];
    var before := MatchingOf(userSkills, reqs[..i]);
    if Meets(userSkills, reqs[i]) {
      assert MatchingOf(userSkills, prefix) == before + [reqs[i]];
      assert MissingOf(userSkills, prefix) == MissingOf(userSkills, reqs[..i]) + [];
      TotalWeightAppend(before, [reqs[i]]);
      assert [reqs[i]][..0] == [];
    } else {
      assert MatchingOf(userSkills, prefix) == before + [];
    }
  }

  /** The total weight splits into the matched weight and the missing weight. */
  lemma {:induction false} WeightSplit(userSkills: seq<string>, reqs: seq<Requirement>)
    ensures TotalWeight(reqs) == TotalWeight(MatchingOf(userSkills, reqs)) + TotalWeight(MissingOf(userSkills, reqs))
    ensures 0 <= TotalWeight(MatchingOf(userSkills, reqs)) <= TotalWeight(reqs)
  {
    if reqs != [] {
      var init, last := reqs[..|reqs| - 1], reqs[|reqs| - 1];
      WeightSplit(userSkills, init);
      assert [last][..0] == [];
      if Meets(userSkills, last) {
        assert MatchingOf(userSkills, reqs) == MatchingOf(userSkills, init) + [last];
        assert MissingOf(userSkills, reqs) == MissingOf(userSkills, init) + [];
        assert MissingOf(userSkills, init) + [] == MissingOf(userSkills, init);
        TotalWeightAppend(MatchingOf(userSkills, init), [last]);
      } else {
        assert MissingOf(userSkills, reqs) == MissingOf(userSkills, init) + [last];
        assert MatchingOf(userSkills, reqs) == MatchingOf(userSkills, init) + [];
        assert MatchingOf(userSkills, init) + [] == MatchingOf(userSkills, init);
        TotalWeightAppend(MissingOf(userSkills, init), [last]);
      }
    }
  }

  /** The quotient formula is round-half-up of 100u/t, and lies in 0..100. */
  lemma RoundedPercentageIsNearest(u: int, t: int)
    requires 0 <= u <= t && t > 0
    ensures 0 <= RoundedPercentage(u, t) <= 100
    ensures 2 * t * RoundedPercentage(u, t) - t <= 200 * u < 2 * t * RoundedPercentage(u, t) + t
  {
    var p := RoundedPercentage(u, t);
    var rem := (200 * u + t) % (2 * t);
    assert 200 * u + t == 2 * t * p + rem;
  }

  lemma MulMonotone(c: int, a: int, b: int)
    requires c >= 0 && a <= b
    ensures c * a <= c * b
  {
  }

  /** A positive factor keeps strict order in both directions. */
  lemma MulStrict(c: int, a: int, b: int)
    requires c > 0
    ensures c * a < c * b ==> a < b
  {
    if a >= b {
      MulMonotone(c, b, a);
    }
  }

  /** The percentage is always in 0..100, and 0 when there is nothing to weigh. */
  lemma PercentageBounds(userSkills: seq<string>, reqs: seq<Requirement>)
    ensures 0 <= CompatibilityOf(userSkills, reqs).compatibilityPercentage <= 100
    ensures reqs == [] ==> CompatibilityOf(userSkills, reqs).compatibilityPercentage == 0
    ensures CompatibilityOf(userSkills, reqs).totalPossibleScore == 0 <==> reqs == []
  {
    var c := CompatibilityOf(userSkills, reqs);
    WeightSplit(userSkills, reqs);
    if c.totalPossibleScore > 0 {
      RoundedPercentageIsNearest(c.userScore, c.totalPossibleScore);
    }
  }

  /** Integer division recovers the quotient of any Euclidean decomposition. */
  lemma DivideExactly(a: int, b: int, q: int, rem: int)
    requires b > 0 && a == b * q + rem && 0 <= rem < b
    ensures a / b == q
  {
    var q', rem' := a / b, a % b;
    assert a == b * q' + rem';
    assert b * q' < b * (q + 1) && b * q < b * (q' + 1);
    MulStrict(b, q', q + 1);
    MulStrict(b, q, q' + 1);
  }

  /** All of a positive weight rounds to 100, none of it to 0. */
  lemma RoundedPercentageEnds(t: int)
    requires t > 0
    ensures RoundedPercentage(t, t) == 100 && RoundedPercentage(0, t) == 0
  {
    DivideExactly(200 * t + t, 2 * t, 100, t);
    DivideExactly(t, 2 * t, 0, t);
  }

  /** Nothing missing gives 100. */
  lemma FullMatchIsHundred(userSkills: seq<string>, reqs: seq<Requirement>)
    requires reqs != [] && MissingOf(userSkills, reqs) == []
    ensures CompatibilityOf(userSkills, reqs).compatibilityPercentage == 100
  {
    WeightSplit(userSkills, reqs);
    RoundedPercentageEnds(TotalWeight(reqs));
  }

  /** Nothing matched, with something required, gives 0. */
  lemma NoMatchIsZero(userSkills: seq<string>, reqs: seq<Requirement>)
    requires reqs != [] && MatchingOf(userSkills, reqs) == []
    ensures CompatibilityOf(userSkills, reqs).compatibilityPercentage == 0
  {
    RoundedPercentageEnds(TotalWeight(reqs));
  }

  lemma MeetsJavascript()
    ensures Meets(["javascript"], Requirement("javascript", 10, "intermediate"))
  {
    LowerUnchanged("javascript");
    IncludesSelf("javascript");
    var us := ["javascript"];
    assert us[0] == "javascript";
    assert SkillMatches(us[0], "javascript");
  }

  lemma JavascriptAndReactDisjoint()
    ensures !Includes("javascript", "react") && !Includes("react", "javascript")
  {
    NotIncludesWithoutHead("javascript", "react");
  }

  lemma MissesReact()
    ensures !Meets(["javascript"], Requirement("react", 9, "intermediate"))
  {
    LowerUnchanged("react");
    LowerUnchanged("javascript");
    JavascriptAndReactDisjoint();
    var us := ["javascript"];
    assert us[0] == "javascript" && us[1..] == [];
    assert !SkillMatches(us[0], "react");
  }

  lemma ExampleLists(js: Requirement, react: Requirement)
    requires js == Requirement("javascript", 10, "intermediate")
    requires react == Requirement("react", 9, "intermediate")
    ensures MatchingOf(["javascript"], [js, react]) == [js]
    ensures MissingOf(["javascript"], [js, react]) == [react]
  {
    var us := ["javascript"];
    MeetsJavascript();
    MissesReact();
    assert [js, react][..1] == [js];
    assert [js][..0] == [];
    assert MatchingOf(us, [js]) == [js];
    assert MissingOf(us, [js]) == [];
  }

  /** Requirements javascript (10) and react (9) against ["javascript"]: 10 of 19 rounds to 53. */
  lemma ExampleJavascriptReact()
    ensures var js := Requirement("javascript", 10, "intermediate");
            var react := Requirement("react", 9, "intermediate");
            var c := CompatibilityOf(["javascript"], [js, react]);
            c.matchingSkills == [js] && c.missingSkills == [react] &&
            c.userScore == 10 && c.totalPossibleScore == 19 && c.compatibilityPercentage == 53
  {
    var js := Requirement("javascript", 10, "intermediate");
    var react := Requirement("react", 9, "intermediate");
    ExampleLists(js, react);
    assert [js][..0] == [] && [js, react][..1] == [js];
    assert TotalWeight([js]) == 10;
    assert TotalWeight([js, react]) == 19;
    DivideExactly(200 * 10 + 19, 2 * 19, 53, 5);
  }

  // ---------------------------------------------------------------------------
  // calculateCompatibility
  // ---------------------------------------------------------------------------

  /**
   * One pass over the requirements: each importance is added to the total,
   * and, depending on the match, to the user's score and the matching list or
   * to the missing list.
   */
  method CalculateCompatibility(userSkills: seq<string>, jobRequiredSkills: seq<Requirement>)
    returns (r: Compatibility)
    ensures r == CompatibilityOf(userSkills, jobRequiredSkills)
  {
    var totalPossibleScore: int := 0;
    var userScore: int := 0;
    var matchingSkills: seq<Requirement> := [];
    var missingSkills: seq<Requirement> := [];
    var i := 0;
    assert jobRequiredSkills[..0] == [];
    while i < |jobRequiredSkills|
      invariant Scanned(userSkills, jobRequiredSkills, i, totalPossibleScore, userScore, matchingSkills, missingSkills)
    {
      var requirement := jobRequiredSkills[i];
      var skillName := Lower(requirement.skill);
      var importance := requirement.importance;
      ScanAdvance(userSkills, jobRequiredSkills, i, totalPossibleScore, userScore, matchingSkills, missingSkills);
      totalPossibleScore := totalPossibleScore + importance;
      if UserHasSkill(userSkills, skillName) {
        userScore := userScore + importance;
        matchingSkills := matchingSkills + [requirement];
      } else {
        missingSkills := missingSkills + [requirement];
      }
      i := i + 1;
    }
    ScanComplete(userSkills, jobRequiredSkills, totalPossibleScore, userScore, matchingSkills, missingSkills);
    var compatibilityPercentage := RoundedPercentage(userScore, totalPossibleScore);
    r := Compatibility(compatibilityPercentage, userScore, totalPossibleScore, matchingSkills, missingSkills);
  }

  /** The state of the scan after the first `i` requirements. */
  ghost predicate Scanned(userSkills: seq<string>, reqs: seq<Requirement>, i: int, total: int, score: int,
                          matching: seq<Requirement>, missing: seq<Requirement>)
  {
    0 <= i <= |reqs| &&
    matching == MatchingOf(userSkills, reqs[..i]) && missing == MissingOf(userSkills, reqs[..i]) &&
    total == TotalWeight(reqs[..i]) && score == TotalWeight(matching)
  }

  /** One more requirement scanned: the total grows by its importance, and exactly one list by it. */
  lemma ScanAdvance(userSkills: seq<string>, reqs: seq<Requirement>, i: int, total: int, score: int,
                    matching: seq<Requirement>, missing: seq<Requirement>)
    requires Scanned(userSkills, reqs, i, total, score, matching, missing) && i < |reqs|
    ensures var met := UserHasSkill(userSkills, Lower(reqs[i].skill));
            Scanned(userSkills, reqs, i + 1, total + reqs[i].importance,
                    if met then score + reqs[i].importance else score,
                    if met then matching + [reqs[i]] else matching,
                    if met then missing else missing + [reqs[i]])
  {
    ScanStep(userSkills, reqs, i);
  }

  /** A finished scan holds the specified result. */
  lemma ScanComplete(userSkills: seq<string>, reqs: seq<Requirement>, total: int, score: int,
                     matching: seq<Requirement>, missing: seq<Requirement>)
    requires Scanned(userSkills, reqs, |reqs|, total, score, matching, missing)
    ensures Compatibility(RoundedPercentage(score, total), score, total, matching, missing) == CompatibilityOf(userSkills, reqs)
  {
    assert reqs[..|reqs|] == reqs;
  }

  // ---------------------------------------------------------------------------
  // Recommendations
  // ---------------------------------------------------------------------------

  datatype Resources = Resources(videos: seq<string>, courses: seq<string>)

  datatype Recommendation = Recommendation(
    skill: string,
    importance: Importance,
    level: Level,
    estimatedLearningTime: string,
    resources: Resources)

  /** `getEstimatedLearningTime`: a lookup on the level; the skill is not consulted. */
  function GetEstimatedLearningTime(skill: string, level: string): (t: string)
    ensures t == "2-4 weeks" <==> level == "beginner"
    ensures t == "1-3 months" <==> level == "intermediate"
    ensures t == "3-6 months" <==> level == "advanced"
    ensures t == "1-2 months" <==> level != "beginner" && level != "intermediate" && level != "advanced"
  {
    if level == "beginner" then "2-4 weeks"
    else if level == "intermediate" then "1-3 months"
    else if level == "advanced" then "3-6 months"
    else "1-2 months"
  }

  /** One recommendation record, with its generated resource titles. */
  function ToRecommendation(req: Requirement): (rec: Recommendation)
    ensures rec.skill == req.skill && rec.importance == req.importance && rec.level == req.level
    ensures rec.estimatedLearningTime == GetEstimatedLearningTime(req.skill, req.level)
    ensures |rec.resources.videos| == 3 && |rec.resources.courses| == 3
  {
    var skill := req.skill;
    Recommendation(
      skill, req.importance, req.level,
      GetEstimatedLearningTime(skill, req.level),
      Resources(
        [skill + " tutorial for beginners", "Learn " + skill + " in 2024", skill + " crash course"],
        ["Complete " + skill + " Course", skill + " for " + req.level + "s", "Master " + skill + " Development"]))
  }

  function ImportanceOf(r: Recommendation): int {
    r.importance
  }

  function RequirementImportance(r: Requirement): int {
    r.importance
  }

  /** The `map` step of `generateRecommendations`. */
  function ToRecommendations(missing: seq<Requirement>): (recs: seq<Recommendation>)
    ensures |recs| == |missing|
    ensures forall i :: 0 <= i < |missing| ==> recs[i] == ToRecommendation(missing[i])
  {
    seq(|missing|, i requires 0 <= i < |missing| => ToRecommendation(missing[i]))
  }

  /** What `generateRecommendations` returns: the mapped records, stably sorted by importance, highest first. */
  function RecommendationsOf(missing: seq<Requirement>): (recs: seq<Recommendation>)
    ensures |recs| == |missing|
    ensures StableSort.SortedDesc(recs, ImportanceOf)
  {
    StableSort.StableSortDescCorrect(ToRecommendations(missing), ImportanceOf);
    StableSort.StableSortDesc(ToRecommendations(missing), ImportanceOf)
  }

  /** The level table, its fallback, and that the skill name plays no part. */
  lemma EstimatedLearningTimeTable(skill: string, other: string, level: string)
    ensures GetEstimatedLearningTime(skill, "beginner") == "2-4 weeks"
    ensures GetEstimatedLearningTime(skill, "intermediate") == "1-3 months"
    ensures GetEstimatedLearningTime(skill, "advanced") == "3-6 months"
    ensures level != "beginner" && level != "intermediate" && level != "advanced" ==>
              GetEstimatedLearningTime(skill, level) == "1-2 months"
    ensures GetEstimatedLearningTime(skill, level) == GetEstimatedLearningTime(other, level)
  {
  }

  /**
   * The recommendations are one per missing requirement, non-increasing in
   * importance, and requirements of equal importance keep their input order.
   */
  lemma {:induction false} RecommendationsRanked(missing: seq<Requirement>)
    ensures |RecommendationsOf(missing)| == |missing|
    ensures StableSort.SortedDesc(RecommendationsOf(missing), ImportanceOf)
    ensures forall k :: StableSort.Bucket(RecommendationsOf(missing), ImportanceOf, k)
                        == ToRecommendations(StableSort.Bucket(missing, RequirementImportance, k))
    ensures multiset(RecommendationsOf(missing)) == multiset(ToRecommendations(missing))
  {
    var mapped := ToRecommendations(missing);
    StableSort.StableSortDescCorrect(mapped, ImportanceOf);
    StableSort.SameBucketsPermutation(RecommendationsOf(missing), mapped, ImportanceOf);
    forall k ensures StableSort.Bucket(mapped, ImportanceOf, k)
                     == ToRecommendations(StableSort.Bucket(missing, RequirementImportance, k)) {
      BucketOfMapped(missing, k);
    }
  }

  /** Mapping to records commutes with selecting one importance. */
  lemma {:induction false} BucketOfMapped(missing: seq<Requirement>, k: int)
    ensures StableSort.Bucket(ToRecommendations(missing), ImportanceOf, k)
            == ToRecommendations(StableSort.Bucket(missing, RequirementImportance, k))
  {
    if missing != [] {
      var recs := ToRecommendations(missing);
      BucketOfMapped(missing[1..], k);
      assert recs[1..] == ToRecommendations(missing[1..]);
      assert ImportanceOf(recs[0]) == RequirementImportance(missing[0]);
      var head := if missing[0].importance == k then [missing[0]] else [];
      assert ToRecommendations(head) == if ImportanceOf(recs[0]) == k then [recs[0]] else [];
      ToRecommendationsAppend(head, StableSort.Bucket(missing[1..], RequirementImportance, k));
    }
  }

  lemma ToRecommendationsAppend(a: seq<Requirement>, b: seq<Requirement>)
    ensures ToRecommendations(a + b) == ToRecommendations(a) + ToRecommendations(b)
  {
    assert forall i :: 0 <= i < |a| ==> (a + b)[i] == a[i];
    assert forall i :: |a| <= i < |a + b| ==> (a + b)[i] == b[i - |a|];
  }

  /** python (10, advanced) and sql (7, intermediate): python first at 3-6 months, then sql at 1-3 months. */
  lemma ExamplePythonSqlOrder(python: Requirement, sql: Requirement)
    requires python == Requirement("python", 10, "advanced") && sql == Requirement("sql", 7, "intermediate")
    ensures RecommendationsOf([python, sql]) == [ToRecommendation(python), ToRecommendation(sql)]
  {
    var mapped := ToRecommendations([python, sql]);
    assert mapped == [ToRecommendation(python), ToRecommendation(sql)];
    assert mapped[1..] == [ToRecommendation(sql)];
    assert mapped[1..][1..] == [];
    var tail := StableSort.StableSortDesc(mapped[1..], ImportanceOf);
    assert tail == [mapped[1]];
  }

  lemma ExamplePythonSql()
    ensures var recs := RecommendationsOf([Requirement("python", 10, "advanced"), Requirement("sql", 7, "intermediate")]);
            |recs| == 2 &&
            recs[0].skill == "python" && recs[0].estimatedLearningTime == "3-6 months" &&
            recs[1].skill == "sql" && recs[1].estimatedLearningTime == "1-3 months" &&
            CalculateTotalLearningTime(recs) == "7 months"
  {
    var python, sql := Requirement("python", 10, "advanced"), Requirement("sql", 7, "intermediate");
    ExamplePythonSqlOrder(python, sql);
    var recs := RecommendationsOf([python, sql]);
    assert recs[0].estimatedLearningTime == "3-6 months" && recs[1].estimatedLearningTime == "1-3 months";
    SevenMonths(recs);
  }

  /** 18 weeks plus 8 weeks is 26 weeks, which rounds to 7 months. */
  lemma SevenMonths(recs: seq<Recommendation>)
    requires |recs| == 2
    requires recs[0].estimatedLearningTime == "3-6 months" && recs[1].estimatedLearningTime == "1-3 months"
    ensures CalculateTotalLearningTime(recs) == "7 months"
  {
    assert recs[..1] == [recs[0]] && recs[..1][..0] == [];
    assert TotalWeeks(recs[..1]) == 18;
    assert TotalWeeks(recs) == 26;
    assert CalculateTotalLearningTime(recs) == DecimalString(7) + " months";
    assert DecimalString(7) == "7";
  }

  /**
   * `generateRecommendations`: map every missing requirement to a record, then
   * sort the fresh array in place by importance, highest first.
   */
  method GenerateRecommendations(missingSkills: seq<Requirement>) returns (recs: seq<Recommendation>)
    ensures recs == RecommendationsOf(missingSkills)
  {
    var recommendations := new Recommendation[|missingSkills|](i requires 0 <= i < |missingSkills| => ToRecommendation(missingSkills[i]));
    assert recommendations[..] == ToRecommendations(missingSkills);
    StableSort.SortInPlace(recommendations, ImportanceOf);
    recs := recommendations[..];
  }

  // ---------------------------------------------------------------------------
  // Learning path
  // ---------------------------------------------------------------------------

  /** The week count `calculateTotalLearningTime` assigns to an estimate; unknown estimates count 8. */
  function WeeksFor(estimate: string): (w: nat)
    ensures w == 3 || w == 8 || w == 18
  {
    if estimate == "2-4 weeks" then 3
    else if estimate == "1-3 months" then 8
    else if estimate == "3-6 months" then 18
    else 8
  }

  /** The `reduce` that sums the week counts of the priority skills. */
  function TotalWeeks(prioritySkills: seq<Recommendation>): (n: nat)
    ensures 3 * |prioritySkills| <= n <= 18 * |prioritySkills|
  {
    if prioritySkills == [] then 0
    else TotalWeeks(prioritySkills[..|prioritySkills| - 1]) + WeeksFor(prioritySkills[|prioritySkills| - 1].estimatedLearningTime)
  }

  /** `calculateTotalLearningTime`: under 8 weeks in weeks, otherwise `Math.round(weeks / 4)` months. */
  function CalculateTotalLearningTime(prioritySkills: seq<Recommendation>): (text: string)
    ensures |text| > 6
    ensures TotalWeeks(prioritySkills) < 8 <==> text[|text| - 6..] == " weeks"
  {
    var totalWeeks := TotalWeeks(prioritySkills);
    if totalWeeks < 8 then
      var text := DecimalString(totalWeeks) + " weeks";
      assert text[|text| - 6..] == " weeks";
      text
    else
      var text := DecimalString((totalWeeks + 2) / 4) + " months";
      assert text[|text| - 6..] == "months";
      text
  }

  /** Every level's estimate maps back to 3, 8 or 18 weeks; the fallback estimate counts 8. */
  lemma WeeksForEstimate(skill: string, level: string)
    ensures WeeksFor(GetEstimatedLearningTime(skill, level)) ==
              if level == "beginner" then 3 else if level == "advanced" then 18 else 8
  {
  }

  /**
   * The rendered total: a week count below 8, or a month count that is the
   * week count divided by 4 and rounded half up.
   */
  lemma TotalLearningTimeRendering(prioritySkills: seq<Recommendation>)
    ensures var n := TotalWeeks(prioritySkills);
            var text := CalculateTotalLearningTime(prioritySkills);
            (n < 8 && text == DecimalString(n) + " weeks") ||
            (n >= 8 && exists m: nat :: 4 * m - 2 <= n < 4 * m + 2 && m >= 2 && text == DecimalString(m) + " months")
  {
    var n := TotalWeeks(prioritySkills);
    var text := CalculateTotalLearningTime(prioritySkills);
    if n >= 8 {
      var m := (n + 2) / 4;
      assert text == DecimalString(m) + " months";
      assert 4 * m - 2 <= n < 4 * m + 2 && m >= 2;
    } else {
      assert text == DecimalString(n) + " weeks";
    }
  }

  /** No priority skills: "0 weeks". */
  lemma ExampleNoPrioritySkills()
    ensures CalculateTotalLearningTime([]) == "0 weeks"
  {
    assert DecimalString(0) == "0";
  }

  /** The four fixed guidance texts, from the best band to the lowest; each opens with its band's emoji. */
  const ReadyToApply: seq<string> :=
    ["\U{1F389}" + " Great match! You're ready to apply for this role",
     "Focus on the few missing skills to become an even stronger candidate",
     "Consider preparing for technical interviews"]
  const GoodFoundation: seq<string> :=
    ["\U{1F44D}" + " Good foundation! Focus on the missing high-importance skills",
     "Start with the top 2-3 priority skills",
     "You could apply while learning these skills"]
  const HasPotential: seq<string> :=
    ["\U{1F4DA}" + " You have potential! Focus on learning the core skills",
     "Start with the most important missing skills",
     "Consider entry-level positions in this field first"]
  const NeedsFoundations: seq<string> :=
    ["\U{1F331}" + " This role requires significant skill development",
     "Focus on building foundational skills first",
     "Consider taking a comprehensive course in this field"]

  /** `generateNextSteps`: the band is chosen from the highest threshold down; the recommendations are not consulted. */
  function GenerateNextSteps(compatibilityPercentage: int, recommendations: seq<Recommendation>): (steps: seq<string>)
    ensures |steps| == 3
  {
    if compatibilityPercentage >= 80 then ReadyToApply
    else if compatibilityPercentage >= 60 then GoodFoundation
    else if compatibilityPercentage >= 40 then HasPotential
    else NeedsFoundations
  }

  /** The band a percentage falls in: 3 for 80 and up, 2 for 60..79, 1 for 40..59, 0 below 40. */
  function Band(p: int): (b: nat)
    ensures b <= 3
    ensures b == 3 <==> p >= 80
    ensures b == 2 <==> 60 <= p < 80
    ensures b == 1 <==> 40 <= p < 60
    ensures b == 0 <==> p < 40
  {
    if p >= 80 then 3 else if p >= 60 then 2 else if p >= 40 then 1 else 0
  }

  /** The mark that opens the first line of each band's guidance. */
  function BandMark(b: nat): char {
    if b == 3 then '\U{1F389}' else if b == 2 then '\U{1F44D}' else if b == 1 then '\U{1F4DA}' else '\U{1F331}'
  }

  /** Each band's guidance opens with its own mark. */
  lemma NextStepsLead(p: int, recs: seq<Recommendation>)
    ensures |GenerateNextSteps(p, recs)| == 3 && |GenerateNextSteps(p, recs)[0]| > 0
    ensures GenerateNextSteps(p, recs)[0][0] == BandMark(Band(p))
  {
    if p >= 80 {
      assert ReadyToApply[0][0] == '\U{1F389}';
    } else if p >= 60 {
      assert GoodFoundation[0][0] == '\U{1F44D}';
    } else if p >= 40 {
      assert HasPotential[0][0] == '\U{1F4DA}';
    } else {
      assert NeedsFoundations[0][0] == '\U{1F331}';
    }
  }

  /** Different bands open with different lines, so the guidance identifies its band. */
  lemma NextStepsDistinguishBands(p: int, q: int, recs: seq<Recommendation>, others: seq<Recommendation>)
    requires Band(p) != Band(q)
    ensures GenerateNextSteps(p, recs) != GenerateNextSteps(q, others)
  {
    NextStepsLead(p, recs);
    NextStepsLead(q, others);
  }

  /**
   * Always three lines; the lines depend only on the band (not on the
   * recommendations), different bands give different lines, and a higher
   * percentage never gives a lower band.
   */
  lemma NextStepsByBand(p: int, q: int, recs: seq<Recommendation>, others: seq<Recommendation>)
    ensures |GenerateNextSteps(p, recs)| == 3
    ensures GenerateNextSteps(p, recs) == GenerateNextSteps(q, others) <==> Band(p) == Band(q)
    ensures p <= q ==> Band(p) <= Band(q)
  {
    if Band(p) != Band(q) {
      NextStepsDistinguishBands(p, q, recs, others);
    }
  }

  datatype LearningPath = LearningPath(
    prioritySkills: seq<Recommendation>,
    estimatedTimeToImprove: string,
    nextSteps: seq<string>)

  function Min(a: int, b: int): int {
    if a <= b then a else b
  }

  /** The `learningPath` object: the first three recommendations, their total time, and the guidance lines. */
  function LearningPathOf(recommendations: seq<Recommendation>, compatibilityPercentage: int): (lp: LearningPath)
    ensures |lp.prioritySkills| == Min(3, |recommendations|) && lp.prioritySkills <= recommendations
    ensures TotalWeeks(lp.prioritySkills) <= 54
    ensures |lp.nextSteps| == 3
  {
    var top := recommendations[..Min(3, |recommendations|)];
    LearningPath(top, CalculateTotalLearningTime(top), GenerateNextSteps(compatibilityPercentage, recommendations))
  }

  /**
   * The priority skills are the first min(3, n) recommendations, and from a
   * ranked list they are the most important ones: none left out outranks one kept.
   */
  lemma PrioritySkillsAreTop(recommendations: seq<Recommendation>, p: int)
    requires StableSort.SortedDesc(recommendations, ImportanceOf)
    ensures var top := LearningPathOf(recommendations, p).prioritySkills;
            |top| == Min(3, |recommendations|) && top <= recommendations &&
            forall i, j :: 0 <= i < |top| <= j < |recommendations| ==>
              top[i].importance >= recommendations[j].importance
  {
    var top := LearningPathOf(recommendations, p).prioritySkills;
    forall i, j | 0 <= i < |top| <= j < |recommendations|
      ensures top[i].importance >= recommendations[j].importance
    {
      assert top[i] == recommendations[i];
      assert ImportanceOf(recommendations[i]) >= ImportanceOf(recommendations[j]);
    }
  }

  // ---------------------------------------------------------------------------
  // POST /analyze
  // ---------------------------------------------------------------------------

  datatype RequestError = BadRequest(message: string) | NotFound(message: string)

  datatype SkillsAnalysis = SkillsAnalysis(totalRequiredSkills: nat, skillsMatched: nat, skillsMissing: nat)

  datatype AnalysisResult = AnalysisResult(
    job: Job,
    userSkills: seq<string>,
    analysis: Compatibility,
    skillsAnalysis: SkillsAnalysis,
    recommendations: seq<Recommendation>,
    learningPath: LearningPath)

  /** The result the analyze endpoint is specified to return for a found job. */
  function AnalysisOf(userSkills: seq<string>, job: Job): (a: AnalysisResult)
    ensures a.skillsAnalysis.skillsMatched + a.skillsAnalysis.skillsMissing == a.skillsAnalysis.totalRequiredSkills
    ensures a.skillsAnalysis.totalRequiredSkills == |job.requiredSkills|
    ensures 0 <= a.analysis.compatibilityPercentage <= 100
    ensures |a.recommendations| == a.skillsAnalysis.skillsMissing
    ensures StableSort.SortedDesc(a.recommendations, ImportanceOf)
    ensures |a.learningPath.prioritySkills| == Min(3, a.skillsAnalysis.skillsMissing)
  {
    var analysis := CompatibilityOf(userSkills, job.requiredSkills);
    var recommendations := RecommendationsOf(analysis.missingSkills);
    AnalysisResult(
      job, userSkills, analysis,
      SkillsAnalysis(|job.requiredSkills|, |analysis.matchingSkills|, |analysis.missingSkills|),
      recommendations,
      LearningPathOf(recommendations, analysis.compatibilityPercentage))
  }

  /**
   * The analyze endpoint: 400 when the skills are not given as a list or the
   * job id is missing or empty, 404 when no job has that id, otherwise the
   * full analysis. The job catalog is a parameter in place of the database.
   */
  method Analyze(userSkills: Option<seq<string>>, jobId: Option<string>, catalog: map<string, Job>)
    returns (r: Result<AnalysisResult, RequestError>)
    ensures userSkills.None? ==> r == Failure(BadRequest("User skills are required and must be an array"))
    ensures userSkills.Some? && (jobId.None? || jobId.value == "") ==> r == Failure(BadRequest("Job ID is required"))
    ensures userSkills.Some? && jobId.Some? && jobId.value != "" && jobId.value !in catalog ==>
              r == Failure(NotFound("Job not found"))
    ensures userSkills.Some? && jobId.Some? && jobId.value != "" && jobId.value in catalog ==>
              r == Success(AnalysisOf(userSkills.value, catalog[jobId.value]))
  {
    if userSkills.None? {
      return Failure(BadRequest("User skills are required and must be an array"));
    }
    if jobId.None? || jobId.value == "" {
      return Failure(BadRequest("Job ID is required"));
    }
    if jobId.value !in catalog {
      return Failure(NotFound("Job not found"));
    }
    var job := catalog[jobId.value];
    var analysis := CalculateCompatibility(userSkills.value, job.requiredSkills);
    var recommendations := GenerateRecommendations(analysis.missingSkills);
    var top := recommendations[..Min(3, |recommendations|)];
    var learningPath := LearningPath(top, CalculateTotalLearningTime(top),
                                     GenerateNextSteps(analysis.compatibilityPercentage, recommendations));
    r := Success(AnalysisResult(
      job, userSkills.value, analysis,
      SkillsAnalysis(|job.requiredSkills|, |analysis.matchingSkills|, |analysis.missingSkills|),
      recommendations, learningPath));
  }

  // ---------------------------------------------------------------------------
  // POST /quick-match
  // ---------------------------------------------------------------------------

  datatype QuickMatch = QuickMatch(
    jobId: string,
    title: string,
    category: string,
    compatibilityPercentage: int,
    skillsMatched: nat,
    totalSkillsRequired: nat)

  /** One job's summary line. */
  function QuickMatchOf(userSkills: seq<string>, job: Job): (m: QuickMatch)
    ensures m.skillsMatched <= m.totalSkillsRequired
    ensures 0 <= m.compatibilityPercentage <= 100
  {
    var analysis := CompatibilityOf(userSkills, job.requiredSkills);
    QuickMatch(job.id, job.title, job.category, analysis.compatibilityPercentage,
               |analysis.matchingSkills|, |job.requiredSkills|)
  }

  function PercentageOf(m: QuickMatch): int {
    m.compatibilityPercentage
  }

  /** The ranking the quick-match endpoint is specified to return: summaries stably sorted by percentage. */
  function QuickMatchesOf(userSkills: seq<string>, jobs: seq<Job>): (r: seq<QuickMatch>)
    ensures |r| == |jobs|
  {
    StableSort.StableSortDesc(seq(|jobs|, i requires 0 <= i < |jobs| => QuickMatchOf(userSkills, jobs[i])), PercentageOf)
  }

  /**
   * One summary per job, best percentage first, jobs with equal percentage in
   * catalog order, and every summary within its bounds.
   */
  lemma QuickMatchesRanked(userSkills: seq<string>, jobs: seq<Job>)
    ensures |QuickMatchesOf(userSkills, jobs)| == |jobs|
    ensures StableSort.SortedDesc(QuickMatchesOf(userSkills, jobs), PercentageOf)
    ensures StableSort.SameBuckets(QuickMatchesOf(userSkills, jobs),
                                   seq(|jobs|, i requires 0 <= i < |jobs| => QuickMatchOf(userSkills, jobs[i])),
                                   PercentageOf)
    ensures forall m :: m in QuickMatchesOf(userSkills, jobs) ==>
              m.skillsMatched <= m.totalSkillsRequired && 0 <= m.compatibilityPercentage <= 100
  {
    var unsorted := seq(|jobs|, i requires 0 <= i < |jobs| => QuickMatchOf(userSkills, jobs[i]));
    StableSort.StableSortDescCorrect(unsorted, PercentageOf);
    StableSort.SameBucketsPermutation(QuickMatchesOf(userSkills, jobs), unsorted, PercentageOf);
    forall m | m in QuickMatchesOf(userSkills, jobs)
      ensures m.skillsMatched <= m.totalSkillsRequired && 0 <= m.compatibilityPercentage <= 100
    {
      assert m in multiset(unsorted);
      var i :| 0 <= i < |jobs| && unsorted[i] == m;
    }
  }

  /** The callback of the `jobs.map` step: analyse one job and keep its summary line. */
  method SummarizeJob(userSkills: seq<string>, job: Job) returns (m: QuickMatch)
    ensures m == QuickMatchOf(userSkills, job)
  {
    var analysis := CalculateCompatibility(userSkills, job.requiredSkills);
    m := QuickMatch(job.id, job.title, job.category, analysis.compatibilityPercentage,
                    |analysis.matchingSkills|, |job.requiredSkills|);
  }

  /**
   * The quick-match endpoint: 400 when the skills are not given as a list;
   * otherwise score every job, then sort the summaries in place by percentage,
   * best first.
   */
  method QuickMatchAll(userSkills: Option<seq<string>>, jobs: seq<Job>)
    returns (r: Result<seq<QuickMatch>, RequestError>)
    ensures userSkills.None? ==> r == Failure(BadRequest("User skills are required and must be an array"))
    ensures userSkills.Some? ==> r == Success(QuickMatchesOf(userSkills.value, jobs))
  {
    if userSkills.None? {
      return Failure(BadRequest("User skills are required and must be an array"));
    }
    var skills := userSkills.value;
    ghost var summaries := seq(|jobs|, k requires 0 <= k < |jobs| => QuickMatchOf(skills, jobs[k]));
    var quickMatches := new QuickMatch[|jobs|](_ => QuickMatch("", "", "", 0, 0, 0));
    var i := 0;
    while i < |jobs|
      invariant 0 <= i <= |jobs|
      invariant quickMatches[..i] == summaries[..i]
    {
      var summary := SummarizeJob(skills, jobs[i]);
      quickMatches[i] := summary;
      assert quickMatches[..i + 1] == quickMatches[..i] + [summary];
      i := i + 1;
    }
    assert quickMatches[..] == quickMatches[..i] && summaries == summaries[..i];
    StableSort.SortInPlace(quickMatches, PercentageOf);
    r := Success(quickMatches[..]);
  }
}
