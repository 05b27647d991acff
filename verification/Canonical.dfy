/** The choice of the copy to keep among exact duplicates: seven filters one after the other and a final sort,
    and the one lexicographic order that they amount to. */
module Canonical {
  import opened Lists
  import opened Optional
  import opened Saturation
  import opened Sorting

  const STAGES: nat := 7

  datatype Candidate = Candidate(
    productionTimeSource: string, productionTimeConfidence: string, hasTitle: bool, authors: nat, hasDuration: bool,
    hasDatasetProfile: bool, evidenceSources: seq<string>, contextLines: nat, relativePath: string, createdMs: U64,
    fingerprint: string)

  /** What a path alone says: whether it lies in a throw-away place, and whether it is named as a copy. */
  datatype PathRules = PathRules(quarantined: string -> bool, copyMarked: string -> bool)

  datatype Confidence = High | Medium | Low

  datatype Reason =
    | EmbeddedProductionTime | HigherTimeConfidence | RicherEmbeddedMetadata | RicherSourceLineage
    | NonQuarantinePath | NonCopyName | CreatedTimeTiebreaker | StablePathTiebreaker

  // ---------------------------------------------------------------- the keys

  function ConfidenceRank(value: string): nat {
    if value == "high" then 3 else if value == "medium" then 2 else if value == "low" then 1 else 0
  }

  function Flag(b: bool): nat {
    if b then 1 else 0
  }

  function Richness(c: Candidate): nat {
    Flag(c.hasTitle) + c.authors + Flag(c.hasDuration) + Flag(c.hasDatasetProfile)
    + |Filter(c.evidenceSources, (s: string) => "embedded:" <= s)|
  }

  function CreatedKey(c: Candidate): nat {
    if c.createdMs == 0 then U64_MAX else c.createdMs
  }

  /** The key of each stage; at the first four the largest is kept, at the others the smallest. */
  function Key(rules: PathRules, stage: nat, c: Candidate): nat {
    match stage
    case 0 => Flag("embedded:" <= c.productionTimeSource)
    case 1 => ConfidenceRank(c.productionTimeConfidence)
    case 2 => Richness(c)
    case 3 => c.contextLines
    case 4 => Flag(rules.quarantined(c.relativePath))
    case 5 => Flag(rules.copyMarked(c.relativePath))
    case _ => CreatedKey(c)
  }

  predicate KeepsLargest(stage: nat) {
    stage < 4
  }

  /** How well a candidate does at a stage; larger is better. */
  function Rank(rules: PathRules, stage: nat, c: Candidate): int {
    if KeepsLargest(stage) then Key(rules, stage, c) else -(Key(rules, stage, c) as int)
  }

  function ReasonOf(stage: nat): Reason {
    match stage
    case 0 => EmbeddedProductionTime
    case 1 => HigherTimeConfidence
    case 2 => RicherEmbeddedMetadata
    case 3 => RicherSourceLineage
    case 4 => NonQuarantinePath
    case 5 => NonCopyName
    case _ => CreatedTimeTiebreaker
  }

  function ConfidenceOf(stage: nat): Confidence {
    if stage < 4 then High else if stage < 6 then Medium else Low
  }

  // ---------------------------------------------------------------- the single order

  /** Equal at the first `k` stages. */
  predicate Ties(rules: PathRules, k: nat, a: Candidate, b: Candidate) {
    k == 0 || (Ties(rules, k - 1, a, b) && Rank(rules, k - 1, a) == Rank(rules, k - 1, b))
  }

  /** Better at the first of the `k` stages at which the two differ. */
  predicate Beats(rules: PathRules, k: nat, a: Candidate, b: Candidate) {
    k > 0 && (Beats(rules, k - 1, a, b) || (Ties(rules, k - 1, a, b) && Rank(rules, k - 1, a) > Rank(rules, k - 1, b)))
  }

  /** Path, then fingerprint. */
  predicate NameLe(a: Candidate, b: Candidate) {
    TextLe(a.relativePath, b.relativePath)
    && (a.relativePath == b.relativePath ==> TextLe(a.fingerprint, b.fingerprint))
  }

  /** The nine-part order: seven stages, then path, then fingerprint. */
  predicate AtLeastAsGood(rules: PathRules, a: Candidate, b: Candidate) {
    Beats(rules, STAGES, a, b) || (Ties(rules, STAGES, a, b) && NameLe(a, b))
  }

  lemma {:induction false} Trichotomy(rules: PathRules, k: nat, a: Candidate, b: Candidate)
    ensures Beats(rules, k, a, b) || Beats(rules, k, b, a) || Ties(rules, k, a, b)
    ensures !(Beats(rules, k, a, b) && Beats(rules, k, b, a))
    ensures Ties(rules, k, a, b) ==> !Beats(rules, k, a, b) && !Beats(rules, k, b, a)
    ensures Ties(rules, k, a, b) <==> Ties(rules, k, b, a)
  {
    hide Rank;
    if k > 0 {
      Trichotomy(rules, k - 1, a, b);
    }
  }

  lemma {:induction false} TiesAreTransitive(rules: PathRules, k: nat, a: Candidate, b: Candidate, c: Candidate)
    requires Ties(rules, k, a, b)
    ensures Ties(rules, k, c, a) <==> Ties(rules, k, c, b)
    ensures Ties(rules, k, a, c) <==> Ties(rules, k, b, c)
  {
    hide Rank;
    if k > 0 {
      TiesAreTransitive(rules, k - 1, a, b, c);
    }
  }

  lemma {:induction false} TiesBeatAlike(rules: PathRules, k: nat, a: Candidate, b: Candidate, c: Candidate)
    requires Ties(rules, k, a, b)
    ensures Beats(rules, k, c, a) <==> Beats(rules, k, c, b)
    ensures Beats(rules, k, a, c) <==> Beats(rules, k, b, c)
  {
    hide Rank;
    if k > 0 {
      TiesBeatAlike(rules, k - 1, a, b, c);
      TiesAreTransitive(rules, k - 1, a, b, c);
    }
  }

  /** The copy to prefer, by the first of these in which two candidates differ: a time of production found in the
      file, a better grade of that time, richer metadata, more lines of context, no throw-away place, no name of a copy,
      an earlier known creation; and then the path, and the fingerprint. */
  predicate Preferred(rules: PathRules, a: Candidate, b: Candidate) {
    var knownA := a.createdMs != 0 && a.createdMs != 0xFFFF_FFFF_FFFF_FFFF;
    var knownB := b.createdMs != 0 && b.createdMs != 0xFFFF_FFFF_FFFF_FFFF;
    if ("embedded:" <= a.productionTimeSource) != ("embedded:" <= b.productionTimeSource) then
      "embedded:" <= a.productionTimeSource
    else if ConfidenceRank(a.productionTimeConfidence) != ConfidenceRank(b.productionTimeConfidence) then
      ConfidenceRank(a.productionTimeConfidence) > ConfidenceRank(b.productionTimeConfidence)
    else if Richness(a) != Richness(b) then Richness(a) > Richness(b)
    else if a.contextLines != b.contextLines then a.contextLines > b.contextLines
    else if rules.quarantined(a.relativePath) != rules.quarantined(b.relativePath)
      then rules.quarantined(b.relativePath)
    else if rules.copyMarked(a.relativePath) != rules.copyMarked(b.relativePath) then rules.copyMarked(b.relativePath)
    else if knownA != knownB then knownA
    else if knownA && a.createdMs != b.createdMs then a.createdMs < b.createdMs
    else if a.relativePath != b.relativePath then TextLe(a.relativePath, b.relativePath)
    else TextLe(a.fingerprint, b.fingerprint)
  }

  /** It is the order that the stages amount to. */
  lemma PreferredIsTheOrder(rules: PathRules, a: Candidate, b: Candidate)
    ensures Preferred(rules, a, b) <==> AtLeastAsGood(rules, a, b)
  {
    hide ConfidenceRank, Richness, TextLe, Beats, Ties;
    TextLeTotal(a.relativePath, a.relativePath);
    Stages(rules, a, b);
  }

  /** The seven stages one by one. */
  lemma Stages(rules: PathRules, a: Candidate, b: Candidate)
    ensures var r := (k: nat, c: Candidate) => Rank(rules, k, c);
            && (Ties(rules, 7, a, b) <==>
                  && r(0, a) == r(0, b) && r(1, a) == r(1, b) && r(2, a) == r(2, b) && r(3, a) == r(3, b)
                  && r(4, a) == r(4, b) && r(5, a) == r(5, b) && r(6, a) == r(6, b))
            && (Beats(rules, 7, a, b) <==>
                  if r(0, a) != r(0, b) then r(0, a) > r(0, b)
                  else if r(1, a) != r(1, b) then r(1, a) > r(1, b)
                  else if r(2, a) != r(2, b) then r(2, a) > r(2, b)
                  else if r(3, a) != r(3, b) then r(3, a) > r(3, b)
                  else if r(4, a) != r(4, b) then r(4, a) > r(4, b)
                  else if r(5, a) != r(5, b) then r(5, a) > r(5, b) else r(6, a) > r(6, b))
  {
    hide Rank;
    assert Ties(rules, 1, a, b) <==> Rank(rules, 0, a) == Rank(rules, 0, b);
    assert Ties(rules, 2, a, b) <==> Ties(rules, 1, a, b) && Rank(rules, 1, a) == Rank(rules, 1, b);
    assert Ties(rules, 3, a, b) <==> Ties(rules, 2, a, b) && Rank(rules, 2, a) == Rank(rules, 2, b);
    assert Ties(rules, 4, a, b) <==> Ties(rules, 3, a, b) && Rank(rules, 3, a) == Rank(rules, 3, b);
    assert Ties(rules, 5, a, b) <==> Ties(rules, 4, a, b) && Rank(rules, 4, a) == Rank(rules, 4, b);
    assert Ties(rules, 6, a, b) <==> Ties(rules, 5, a, b) && Rank(rules, 5, a) == Rank(rules, 5, b);
    assert Beats(rules, 1, a, b) <==> Rank(rules, 0, a) > Rank(rules, 0, b);
    assert Beats(rules, 2, a, b) <==>
             Beats(rules, 1, a, b) || (Ties(rules, 1, a, b) && Rank(rules, 1, a) > Rank(rules, 1, b));
    assert Beats(rules, 3, a, b) <==>
             Beats(rules, 2, a, b) || (Ties(rules, 2, a, b) && Rank(rules, 2, a) > Rank(rules, 2, b));
    assert Beats(rules, 4, a, b) <==>
             Beats(rules, 3, a, b) || (Ties(rules, 3, a, b) && Rank(rules, 3, a) > Rank(rules, 3, b));
    assert Beats(rules, 5, a, b) <==>
             Beats(rules, 4, a, b) || (Ties(rules, 4, a, b) && Rank(rules, 4, a) > Rank(rules, 4, b));
    assert Beats(rules, 6, a, b) <==>
             Beats(rules, 5, a, b) || (Ties(rules, 5, a, b) && Rank(rules, 5, a) > Rank(rules, 5, b));
  }

  /** The grades there are, best first; all others count as none. */
  lemma GradesInOrder(other: string)
    requires other !in {"high", "medium", "low"}
    ensures ConfidenceRank("high") > ConfidenceRank("medium") > ConfidenceRank("low") > ConfidenceRank(other)
    ensures ConfidenceRank(other) == ConfidenceRank("")
  {
  }

  /** Every author, every piece of evidence found in the file, a title, a duration and a data profile count one. */
  lemma RichnessCounts(c: Candidate, source: string)
    ensures Richness(c.(hasTitle := false, authors := 0, hasDuration := false, hasDatasetProfile := false,
                        evidenceSources := [])) == 0
    ensures Richness(c.(hasTitle := true)) == Richness(c.(hasTitle := false)) + 1
    ensures Richness(c.(hasDuration := true)) == Richness(c.(hasDuration := false)) + 1
    ensures Richness(c.(hasDatasetProfile := true)) == Richness(c.(hasDatasetProfile := false)) + 1
    ensures Richness(c.(authors := c.authors + 1)) == Richness(c) + 1
    ensures Richness(c.(evidenceSources := c.evidenceSources + [source]))
              == Richness(c) + if |source| >= 9 && source[..9] == "embedded:" then 1 else 0
  {
    hide Filter;
    FilterSnoc(c.evidenceSources, source, (s: string) => "embedded:" <= s);
    assert "embedded:" <= source <==> |source| >= 9 && source[..9] == "embedded:";
  }

  // ---------------------------------------------------------------- one stage

  /** Keeps the elements with the largest key, in order. */
  method RetainMaxByKey(indices: seq<nat>, key: nat -> int) returns (kept: seq<nat>, reduced: bool)
    ensures kept == Filter(indices, (i: nat) => NoneAbove(indices, key, i))
    ensures reduced <==> |kept| < |indices|
    ensures indices != [] ==> kept != []
  {
    if indices == [] {
      return [], false;
    }
    var best, at := key(indices[0]), 0;
    var i := 1;
    while i < |indices|
      invariant 1 <= i <= |indices| && at < i && key(indices[at]) == best
      invariant forall k :: 0 <= k < i ==> key(indices[k]) <= best
    {
      if key(indices[i]) >= best {
        best, at := key(indices[i]), i;
      }
      i := i + 1;
    }
    kept := Filter(indices, (k: nat) => key(k) == best);
    reduced := |kept| < |indices|;
    assert indices[at] in indices;
    FilterSame(indices, (k: nat) => key(k) == best, (k: nat) => NoneAbove(indices, key, k));
    FilterElement(indices, (k: nat) => key(k) == best, indices[at]);
  }

  predicate NoneAbove(indices: seq<nat>, key: nat -> int, i: nat) {
    forall j <- indices :: key(j) <= key(i)
  }

  predicate NoneBelow(indices: seq<nat>, key: nat -> int, i: nat) {
    forall j <- indices :: key(j) >= key(i)
  }

  /** Keeps the elements with the smallest key, in order. */
  method RetainMinByKey(indices: seq<nat>, key: nat -> int) returns (kept: seq<nat>, reduced: bool)
    ensures kept == Filter(indices, (i: nat) => NoneBelow(indices, key, i))
    ensures reduced <==> |kept| < |indices|
    ensures indices != [] ==> kept != []
  {
    if indices == [] {
      return [], false;
    }
    var best, at := key(indices[0]), 0;
    var i := 1;
    while i < |indices|
      invariant 1 <= i <= |indices| && at < i && key(indices[at]) == best
      invariant forall k :: 0 <= k < i ==> key(indices[k]) >= best
    {
      if key(indices[i]) < best {
        best, at := key(indices[i]), i;
      }
      i := i + 1;
    }
    kept := Filter(indices, (k: nat) => key(k) == best);
    reduced := |kept| < |indices|;
    assert indices[at] in indices;
    FilterSame(indices, (k: nat) => key(k) == best, (k: nat) => NoneBelow(indices, key, k));
    FilterElement(indices, (k: nat) => key(k) == best, indices[at]);
  }

  // ---------------------------------------------------------------- the survivors

  /** Unbeaten by any other match over the first `k` stages. */
  predicate Unbeaten(rules: PathRules, candidates: seq<Candidate>, matches: seq<nat>, k: nat, i: nat)
    requires Valid(candidates, matches) && i < |candidates|
  {
    forall j <- matches :: !Beats(rules, k, candidates[j], candidates[i])
  }

  predicate Valid(candidates: seq<Candidate>, matches: seq<nat>) {
    forall i <- matches :: i < |candidates|
  }

  /** What is left after `k` stages, said in one step. */
  function Survivors(rules: PathRules, candidates: seq<Candidate>, matches: seq<nat>, k: nat): seq<nat>
    requires Valid(candidates, matches)
  {
    Filter(matches, (i: nat) => i < |candidates| && Unbeaten(rules, candidates, matches, k, i))
  }

  function StageRank(rules: PathRules, candidates: seq<Candidate>, stage: nat): nat -> int {
    (i: nat) => if i < |candidates| then Rank(rules, stage, candidates[i]) else 0
  }

  /** A survivor of one more stage is one that no survivor outranks. */
  lemma OneMoreStage(rules: PathRules, candidates: seq<Candidate>, matches: seq<nat>, k: nat, i: nat)
    requires Valid(candidates, matches) && i in matches
    ensures Unbeaten(rules, candidates, matches, k + 1, i) <==>
              Unbeaten(rules, candidates, matches, k, i)
              && NoneAbove(Survivors(rules, candidates, matches, k), StageRank(rules, candidates, k), i)
  {
    hide Rank, Filter;
    var alive := Survivors(rules, candidates, matches, k);
    var keep := (j: nat) => j < |candidates| && Unbeaten(rules, candidates, matches, k, j);
    if Unbeaten(rules, candidates, matches, k, i) {
      forall j | j in matches
        ensures j in alive ==> Ties(rules, k, candidates[j], candidates[i])
        ensures Ties(rules, k, candidates[j], candidates[i]) ==> j in alive
      {
        FilterElement(matches, keep, j);
        Trichotomy(rules, k, candidates[j], candidates[i]);
        if Ties(rules, k, candidates[j], candidates[i]) {
          TiedSurvives(rules, candidates, matches, k, i, j);
        }
      }
      forall j | j in alive
        ensures j in matches
      {
        FilterElement(matches, keep, j);
      }
    }
  }

  lemma TiedSurvives(rules: PathRules, candidates: seq<Candidate>, matches: seq<nat>, k: nat, i: nat, j: nat)
    requires Valid(candidates, matches) && i in matches && j in matches
    requires Unbeaten(rules, candidates, matches, k, i) && Ties(rules, k, candidates[j], candidates[i])
    ensures Unbeaten(rules, candidates, matches, k, j)
  {
    hide Rank, Beats, Ties;
    forall m | m in matches
      ensures !Beats(rules, k, candidates[m], candidates[j])
    {
      TiesBeatAlike(rules, k, candidates[j], candidates[i], candidates[m]);
    }
  }

  /** One filter over the survivors of `k` stages gives those of `k + 1`. */
  lemma StageFilters(rules: PathRules, candidates: seq<Candidate>, matches: seq<nat>, k: nat)
    requires Valid(candidates, matches)
    ensures var alive := Survivors(rules, candidates, matches, k);
            Filter(alive, (i: nat) => NoneAbove(alive, StageRank(rules, candidates, k), i))
              == Survivors(rules, candidates, matches, k + 1)
  {
    hide Rank, Filter, Beats, Ties, Unbeaten, NoneAbove, StageRank;
    var alive := Survivors(rules, candidates, matches, k);
    var p := (i: nat) => i < |candidates| && Unbeaten(rules, candidates, matches, k, i);
    var q := (i: nat) => NoneAbove(alive, StageRank(rules, candidates, k), i);
    var both := (i: nat) => i < |candidates| && Unbeaten(rules, candidates, matches, k + 1, i);
    forall i | i in matches
      ensures both(i) <==> p(i) && q(i)
    {
      OneMoreStage(rules, candidates, matches, k, i);
    }
    FilterTwice(matches, p, q, both);
  }

  lemma AllSurviveNoStage(rules: PathRules, candidates: seq<Candidate>, matches: seq<nat>)
    requires Valid(candidates, matches)
    ensures Survivors(rules, candidates, matches, 0) == matches
  {
    KeepAll(matches, (i: nat) => i < |candidates| && Unbeaten(rules, candidates, matches, 0, i));
  }

  lemma {:induction false} KeepAll<T>(s: seq<T>, keep: T -> bool)
    requires forall x <- s :: keep(x)
    ensures Filter(s, keep) == s
  {
    if s != [] {
      KeepAll(s[..|s| - 1], keep);
    }
  }

  // ---------------------------------------------------------------- the choice

  datatype Progress = Progress(remaining: seq<nat>, reasons: seq<Reason>, confidence: Option<Confidence>)

  predicate Shrinks(rules: PathRules, candidates: seq<Candidate>, matches: seq<nat>, stage: nat)
    requires Valid(candidates, matches)
  {
    |Survivors(rules, candidates, matches, stage + 1)| < |Survivors(rules, candidates, matches, stage)|
  }

  /** The stage leaves one match where there were several. */
  predicate Decides(rules: PathRules, candidates: seq<Candidate>, matches: seq<nat>, stage: nat)
    requires Valid(candidates, matches)
  {
    Shrinks(rules, candidates, matches, stage) && |Survivors(rules, candidates, matches, stage + 1)| == 1
  }

  /** After `k` stages: who is left, which stages shrank the set, and which one decided. */
  ghost predicate After(rules: PathRules, candidates: seq<Candidate>, matches: seq<nat>, k: nat, p: Progress)
    requires Valid(candidates, matches)
  {
    && p.remaining == Survivors(rules, candidates, matches, k) != []
    && p.reasons == ReasonsUpTo(rules, candidates, matches, k)
    && (p.confidence.Some? ==>
        exists s: nat :: s < k && Decides(rules, candidates, matches, s) && p.confidence.value == ConfidenceOf(s))
    && (p.confidence.None? ==> forall s: nat :: s < k ==> !Decides(rules, candidates, matches, s))
  }

  /** The reasons of exactly the stages that shrank the set, in order. */
  function ReasonsUpTo(rules: PathRules, candidates: seq<Candidate>, matches: seq<nat>, k: nat): seq<Reason>
    requires Valid(candidates, matches)
  {
    if k == 0 then []
    else
      ReasonsUpTo(rules, candidates, matches, k - 1)
        + if Shrinks(rules, candidates, matches, k - 1) then [ReasonOf(k - 1)] else []
  }

  lemma {:induction false} ReasonsAreStagesThatShrank(rules: PathRules, candidates: seq<Candidate>, matches: seq<nat>,
                                                      k: nat, s: nat)
    requires Valid(candidates, matches) && s < k <= STAGES
    ensures ReasonOf(s) in ReasonsUpTo(rules, candidates, matches, k) <==> Shrinks(rules, candidates, matches, s)
  {
    hide Shrinks;
    if s + 1 < k {
      ReasonsAreStagesThatShrank(rules, candidates, matches, k - 1, s);
    } else {
      EarlierReasons(rules, candidates, matches, s);
    }
  }

  lemma {:induction false} EarlierReasons(rules: PathRules, candidates: seq<Candidate>, matches: seq<nat>, k: nat)
    requires Valid(candidates, matches) && k < STAGES
    ensures forall s: nat :: k <= s < STAGES ==> ReasonOf(s) !in ReasonsUpTo(rules, candidates, matches, k)
    ensures StablePathTiebreaker !in ReasonsUpTo(rules, candidates, matches, k)
  {
    hide Shrinks;
    if k > 0 {
      EarlierReasons(rules, candidates, matches, k - 1);
    }
  }

  /** The key given, larger or smaller preferred, is how well the candidates do at the stage. */
  predicate IsStage(rules: PathRules, candidates: seq<Candidate>, k: nat, largest: bool, key: nat -> int) {
    forall i: nat :: i < |candidates| ==> (if largest then key(i) else -key(i)) == Rank(rules, k, candidates[i])
  }

  /** One filter, and the note taken of it. */
  method RunStage(rules: PathRules, candidates: seq<Candidate>, ghost matches: seq<nat>, ghost k: nat, before: Progress,
                  largest: bool, key: nat -> int, reason: Reason, confidence: Confidence)
    returns (after: Progress)
    requires Valid(candidates, matches) && After(rules, candidates, matches, k, before)
    requires IsStage(rules, candidates, k, largest, key) && reason == ReasonOf(k) && confidence == ConfidenceOf(k)
    ensures After(rules, candidates, matches, k + 1, after)
  {
    hide Rank, Key, Filter, Unbeaten;
    StageFilters(rules, candidates, matches, k);
    SurvivorsAreCandidates(rules, candidates, matches, k);
    var kept, reduced;
    if largest {
      kept, reduced := RetainMaxByKey(before.remaining, key);
      FilterSame(before.remaining, (i: nat) => NoneAbove(before.remaining, key, i),
                 (i: nat) => NoneAbove(before.remaining, StageRank(rules, candidates, k), i));
    } else {
      kept, reduced := RetainMinByKey(before.remaining, key);
      FilterSame(before.remaining, (i: nat) => NoneBelow(before.remaining, key, i),
                 (i: nat) => NoneAbove(before.remaining, StageRank(rules, candidates, k), i));
    }
    after := Progress(kept, before.reasons, before.confidence);
    if reduced {
      after := after.(reasons := after.reasons + [reason]);
      if |kept| == 1 && after.confidence.None? {
        after := after.(confidence := Some(confidence));
      }
    }
  }

  lemma SurvivorsAreCandidates(rules: PathRules, candidates: seq<Candidate>, matches: seq<nat>, k: nat)
    requires Valid(candidates, matches)
    ensures forall i: nat <- Survivors(rules, candidates, matches, k) :: i < |candidates|
  {
    hide Filter;
    var keep := (j: nat) => j < |candidates| && Unbeaten(rules, candidates, matches, k, j);
    forall i: nat | i in Survivors(rules, candidates, matches, k)
      ensures i < |candidates|
    {
      FilterElement(matches, keep, i);
    }
  }

  /** The order of the final sort. */
  function ByName(candidates: seq<Candidate>): (nat, nat) -> bool {
    (i: nat, j: nat) =>
      if i < |candidates| && j < |candidates| then NameLe(candidates[i], candidates[j])
      else i < |candidates| || j >= |candidates|
  }

  lemma NameOrder(a: Candidate, b: Candidate, c: Candidate)
    ensures NameLe(a, b) || NameLe(b, a)
    ensures NameLe(a, b) && NameLe(b, c) ==> NameLe(a, c)
    ensures NameLe(a, b) && NameLe(b, a) ==> a.relativePath == b.relativePath && a.fingerprint == b.fingerprint
  {
    hide TextLe;
    TextLeTotal(a.relativePath, b.relativePath);
    TextLeTotal(b.relativePath, c.relativePath);
    TextLeTotal(a.fingerprint, b.fingerprint);
    if NameLe(a, b) && NameLe(b, c) {
      TextLeTransitive(a.relativePath, b.relativePath, c.relativePath);
      if a.relativePath == c.relativePath {
        TextLeTransitive(a.fingerprint, b.fingerprint, c.fingerprint);
      }
    }
  }

  lemma ByNameOrder(candidates: seq<Candidate>)
    ensures TotalPreorder(ByName(candidates))
  {
    hide NameLe;
    var le := ByName(candidates);
    forall i: nat, j: nat
      ensures le(i, j) || le(j, i)
    {
      if i < |candidates| && j < |candidates| {
        NameOrder(candidates[i], candidates[j], candidates[i]);
      }
    }
    forall i: nat, j: nat, k: nat | le(i, j) && le(j, k)
      ensures le(i, k)
    {
      if i < |candidates| && j < |candidates| && k < |candidates| {
        NameOrder(candidates[i], candidates[j], candidates[k]);
      }
    }
  }

  /** At least as good as every match in the nine-part order. */
  predicate Optimal(rules: PathRules, candidates: seq<Candidate>, matches: seq<nat>, i: nat)
    requires Valid(candidates, matches)
  {
    i in matches && forall m <- matches :: AtLeastAsGood(rules, candidates[i], candidates[m])
  }

  /** The first survivor by name is optimal. */
  lemma FirstSurvivorIsOptimal(rules: PathRules, candidates: seq<Candidate>, matches: seq<nat>, i: nat)
    requires Valid(candidates, matches)
    requires i in Survivors(rules, candidates, matches, STAGES)
    requires forall j <- Survivors(rules, candidates, matches, STAGES) :: ByName(candidates)(i, j)
    ensures Optimal(rules, candidates, matches, i)
  {
    hide Filter, Rank, Beats, Ties, NameLe;
    var keep := (j: nat) => j < |candidates| && Unbeaten(rules, candidates, matches, STAGES, j);
    FilterElement(matches, keep, i);
    forall m | m in matches
      ensures AtLeastAsGood(rules, candidates[i], candidates[m])
    {
      Trichotomy(rules, STAGES, candidates[i], candidates[m]);
      if Ties(rules, STAGES, candidates[i], candidates[m]) {
        TiedSurvives(rules, candidates, matches, STAGES, i, m);
        FilterElement(matches, keep, m);
      }
    }
  }

  /** With distinct names there is one optimum. */
  lemma OptimumIsUnique(rules: PathRules, candidates: seq<Candidate>, matches: seq<nat>, i: nat, j: nat)
    requires Valid(candidates, matches) && DistinctNames(candidates, matches)
    requires Optimal(rules, candidates, matches, i) && Optimal(rules, candidates, matches, j)
    ensures i == j
  {
    hide Rank, Beats, Ties, NameLe;
    var a, b := candidates[i], candidates[j];
    Trichotomy(rules, STAGES, a, b);
    NameOrder(a, b, a);
  }

  /** Different matches differ in path or fingerprint. */
  predicate DistinctNames(candidates: seq<Candidate>, matches: seq<nat>)
    requires Valid(candidates, matches)
  {
    forall i, j | i in matches && j in matches && i != j ::
      candidates[i].relativePath != candidates[j].relativePath || candidates[i].fingerprint != candidates[j].fingerprint
  }

  /** What the recommendation must be. */
  ghost predicate Justified(rules: PathRules, candidates: seq<Candidate>, matches: seq<nat>, confidence: Confidence,
                            reasons: seq<Reason>)
    requires Valid(candidates, matches)
  {
    var left := |Survivors(rules, candidates, matches, STAGES)|;
    && reasons == ReasonsUpTo(rules, candidates, matches, STAGES) + (if left > 1 then [StablePathTiebreaker] else [])
    && (if exists s: nat :: s < STAGES && Decides(rules, candidates, matches, s)
        then exists s: nat :: s < STAGES && Decides(rules, candidates, matches, s) && confidence == ConfidenceOf(s)
        else confidence == Low)
  }

  /** The copy to keep: an optimum of the nine-part order, with the stages that shrank the set as reasons and the
      confidence of the stage that decided. */
  method RecommendCanonical(rules: PathRules, candidates: seq<Candidate>, matches: seq<nat>)
    returns (chosen: nat, confidence: Confidence, reasons: seq<Reason>)
    requires matches != [] && Valid(candidates, matches)
    ensures Optimal(rules, candidates, matches, chosen)
    ensures chosen in matches && forall m <- matches :: Preferred(rules, candidates[chosen], candidates[m])
    ensures Justified(rules, candidates, matches, confidence, reasons)
  {
    hide Survivors, ReasonsUpTo, Decides, AtLeastAsGood, Optimal, NameLe, ByName, Sorted, Preferred, Richness;
    hide ConfidenceRank;
    AllSurviveNoStage(rules, candidates, matches);
    NoReasonsYet(rules, candidates, matches);
    var p := Progress(matches, [], None);
    var blank := Candidate("", "", false, 0, false, false, [], 0, "", 0, "");
    var at := (i: nat) => if i < |candidates| then candidates[i] else blank;
    p := RunStage(rules, candidates, matches, 0, p, true,
                  (i: nat) => if "embedded:" <= at(i).productionTimeSource then 1 else 0, EmbeddedProductionTime, High);
    p := RunStage(rules, candidates, matches, 1, p, true, (i: nat) => ConfidenceRank(at(i).productionTimeConfidence),
                  HigherTimeConfidence, High);
    p := RunStage(rules, candidates, matches, 2, p, true, (i: nat) => Richness(at(i)), RicherEmbeddedMetadata, High);
    p := RunStage(rules, candidates, matches, 3, p, true, (i: nat) => at(i).contextLines, RicherSourceLineage, High);
    p := RunStage(rules, candidates, matches, 4, p, false,
                  (i: nat) => if rules.quarantined(at(i).relativePath) then 1 else 0, NonQuarantinePath, Medium);
    p := RunStage(rules, candidates, matches, 5, p, false,
                  (i: nat) => if rules.copyMarked(at(i).relativePath) then 1 else 0, NonCopyName, Medium);
    p := RunStage(rules, candidates, matches, 6, p, false,
                  (i: nat) => if at(i).createdMs == 0 then U64_MAX else at(i).createdMs, CreatedTimeTiebreaker, Low);
    ByNameOrder(candidates);
    SortedIsSorted(p.remaining, ByName(candidates));
    SortedElements(p.remaining, ByName(candidates));
    var sorted := Sorted(p.remaining, ByName(candidates));
    reasons := p.reasons + if |sorted| > 1 then [StablePathTiebreaker] else [];
    chosen := sorted[0];
    confidence := if p.confidence.Some? then p.confidence.value else Low;
    forall j | j in p.remaining
      ensures ByName(candidates)(chosen, j)
    {
      var k :| 0 <= k < |sorted| && sorted[k] == j;
    }
    FirstSurvivorIsOptimal(rules, candidates, matches, chosen);
    OptimalIsPreferred(rules, candidates, matches, chosen);
  }

  lemma OptimalIsPreferred(rules: PathRules, candidates: seq<Candidate>, matches: seq<nat>, i: nat)
    requires Valid(candidates, matches) && Optimal(rules, candidates, matches, i)
    ensures i in matches && forall m <- matches :: Preferred(rules, candidates[i], candidates[m])
  {
    hide AtLeastAsGood, Preferred;
    forall m | m in matches
      ensures Preferred(rules, candidates[i], candidates[m])
    {
      PreferredIsTheOrder(rules, candidates[i], candidates[m]);
    }
  }

  lemma NoReasonsYet(rules: PathRules, candidates: seq<Candidate>, matches: seq<nat>)
    requires Valid(candidates, matches)
    ensures ReasonsUpTo(rules, candidates, matches, 0) == []
  {
  }

  // ---------------------------------------------------------------- the order of the input does not matter

  lemma {:induction false} SurvivorsNeverGrow(rules: PathRules, candidates: seq<Candidate>, matches: seq<nat>, k: nat,
                                              m: nat)
    requires Valid(candidates, matches) && k <= m
    ensures |Survivors(rules, candidates, matches, m)| <= |Survivors(rules, candidates, matches, k)|
    decreases m - k
  {
    hide Survivors;
    if k < m {
      StageFilters(rules, candidates, matches, k);
      SurvivorsNeverGrow(rules, candidates, matches, k + 1, m);
    }
  }

  /** At most one stage decides. */
  lemma OneStageDecides(rules: PathRules, candidates: seq<Candidate>, matches: seq<nat>, s: nat, t: nat)
    requires Valid(candidates, matches) && Decides(rules, candidates, matches, s)
               && Decides(rules, candidates, matches, t)
    ensures s == t
  {
    hide Survivors;
    if s < t {
      SurvivorsNeverGrow(rules, candidates, matches, s + 1, t);
    } else if t < s {
      SurvivorsNeverGrow(rules, candidates, matches, t + 1, s);
    }
  }

  lemma SurvivorsRearranged(rules: PathRules, candidates: seq<Candidate>, a: seq<nat>, b: seq<nat>, k: nat)
    requires Valid(candidates, a) && Valid(candidates, b) && multiset(a) == multiset(b)
    ensures |Survivors(rules, candidates, a, k)| == |Survivors(rules, candidates, b, k)|
  {
    hide Filter, Beats;
    SameElements(a, b);
    var p := (i: nat) => i < |candidates| && Unbeaten(rules, candidates, a, k, i);
    var q := (i: nat) => i < |candidates| && Unbeaten(rules, candidates, b, k, i);
    FilterSame(a, p, q);
    FilterRearranged(a, b, q);
  }

  lemma SameElements(a: seq<nat>, b: seq<nat>)
    requires multiset(a) == multiset(b)
    ensures forall i :: i in a <==> i in b
  {
    forall i
      ensures i in a <==> i in b
    {
      assert i in a <==> i in multiset(a);
      assert i in b <==> i in multiset(b);
    }
  }

  lemma {:induction false} ReasonsRearranged(rules: PathRules, candidates: seq<Candidate>, a: seq<nat>, b: seq<nat>,
                                             k: nat)
    requires Valid(candidates, a) && Valid(candidates, b) && multiset(a) == multiset(b)
    ensures ReasonsUpTo(rules, candidates, a, k) == ReasonsUpTo(rules, candidates, b, k)
  {
    hide Survivors;
    if k > 0 {
      ReasonsRearranged(rules, candidates, a, b, k - 1);
      SurvivorsRearranged(rules, candidates, a, b, k - 1);
      SurvivorsRearranged(rules, candidates, a, b, k);
    }
  }

  lemma DecidesRearranged(rules: PathRules, candidates: seq<Candidate>, a: seq<nat>, b: seq<nat>)
    requires Valid(candidates, a) && Valid(candidates, b) && multiset(a) == multiset(b)
    ensures forall s: nat :: Decides(rules, candidates, a, s) <==> Decides(rules, candidates, b, s)
  {
    hide Survivors;
    forall s: nat
      ensures Decides(rules, candidates, a, s) <==> Decides(rules, candidates, b, s)
    {
      SurvivorsRearranged(rules, candidates, a, b, s);
      SurvivorsRearranged(rules, candidates, a, b, s + 1);
    }
  }

  /** The same matches in another order give the same reasons and confidence. */
  lemma JustifiedRearranged(rules: PathRules, candidates: seq<Candidate>, a: seq<nat>, b: seq<nat>,
                            confidence: Confidence, reasons: seq<Reason>, confidence': Confidence,
                            reasons': seq<Reason>)
    requires Valid(candidates, a) && Valid(candidates, b) && multiset(a) == multiset(b)
    requires Justified(rules, candidates, a, confidence, reasons)
               && Justified(rules, candidates, b, confidence', reasons')
    ensures reasons == reasons' && confidence == confidence'
  {
    hide Survivors, Decides, ReasonsUpTo, ConfidenceOf;
    SurvivorsRearranged(rules, candidates, a, b, STAGES);
    ReasonsRearranged(rules, candidates, a, b, STAGES);
    DecidesRearranged(rules, candidates, a, b);
    if s: nat :| s < STAGES && Decides(rules, candidates, a, s) && confidence == ConfidenceOf(s) {
      var t: nat :| t < STAGES && Decides(rules, candidates, b, t) && confidence' == ConfidenceOf(t);
      OneStageDecides(rules, candidates, a, s, t);
    }
  }

  /** With distinct names the whole recommendation depends only on which matches there are. */
  method RecommendRearranged(rules: PathRules, candidates: seq<Candidate>, matches: seq<nat>, others: seq<nat>)
    returns (chosen: nat, confidence: Confidence, reasons: seq<Reason>, chosen': nat, confidence': Confidence,
             reasons': seq<Reason>)
    requires matches != [] && Valid(candidates, matches) && Valid(candidates, others)
    requires multiset(matches) == multiset(others) && DistinctNames(candidates, matches)
    ensures chosen == chosen' && confidence == confidence' && reasons == reasons'
  {
    hide AtLeastAsGood, Justified, Rank;
    SameElements(matches, others);
    assert matches[0] in others;
    chosen, confidence, reasons := RecommendCanonical(rules, candidates, matches);
    chosen', confidence', reasons' := RecommendCanonical(rules, candidates, others);
    OptimumIsUnique(rules, candidates, matches, chosen, chosen');
    JustifiedRearranged(rules, candidates, matches, others, confidence, reasons, confidence', reasons');
  }
}
