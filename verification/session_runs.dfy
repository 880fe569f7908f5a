/** Properties of sequences of session events: repeated submissions,
    repeated explanations and mixed traces of the hook's updaters
    (src/hooks/useLocalSession.tsx). */
module SessionRuns {
  import opened Wrappers
  import opened SkillProgression
  import opened LocalSession

  /** The arguments of one code submission, with its date and clock reading. */
  datatype Submission = Submission(code: string, language: string, today: string, now: nat)

  function Submit(d: SessionData, s: Submission): SessionData {
    TrackCodeSubmit(d, s.code, s.language, s.today, s.now)
  }

  /** The record after the submissions `subs`, oldest first. */
  function SubmitAll(d: SessionData, subs: seq<Submission>): SessionData
    decreases |subs|
  {
    if |subs| == 0 then d
    else Submit(SubmitAll(d, subs[..|subs| - 1]), subs[|subs| - 1])
  }

  /** The snippets the submissions produce, newest first. */
  function NewestFirst(subs: seq<Submission>): (r: seq<Snippet>)
    ensures |r| == |subs|
    decreases |subs|
  {
    if |subs| == 0 then []
    else
      var s := subs[|subs| - 1];
      [MakeSnippet(s.code, s.language, s.now)] + NewestFirst(subs[..|subs| - 1])
  }

  /** The first `k` elements of `s` (all of them when there are fewer). */
  function Take<T>(s: seq<T>, k: nat): (r: seq<T>)
    ensures |r| == Min(|s|, k)
  {
    s[..Min(|s|, k)]
  }

  /** The date of the latest submission, or `start` when there is none. */
  function LastDate(start: string, subs: seq<Submission>): string {
    if |subs| == 0 then start else subs[|subs| - 1].today
  }

  /** How many submissions fall on a different date than the submission
      (or, for the first, the stored date `start`) before them. */
  function DateChanges(start: string, subs: seq<Submission>): nat
    decreases |subs|
  {
    if |subs| == 0 then 0
    else
      var init := subs[..|subs| - 1];
      DateChanges(start, init) + (if LastDate(start, init) != subs[|subs| - 1].today then 1 else 0)
  }

  /** After any non-empty run of submissions the snippet list is the newest
      five of the new snippets followed by the stored ones. */
  lemma {:induction false} SubmitAllSnippets(d: SessionData, subs: seq<Submission>)
    requires |subs| > 0
    ensures SubmitAll(d, subs).recentSnippets == Take(NewestFirst(subs) + d.recentSnippets, MaxRecentSnippets)
    decreases |subs|
  {
    var init := subs[..|subs| - 1];
    var s := subs[|subs| - 1];
    var snip := MakeSnippet(s.code, s.language, s.now);
    var prev := SubmitAll(d, init);
    assert SubmitAll(d, subs).recentSnippets == [snip] + Take(prev.recentSnippets, 4);
    assert NewestFirst(subs) == [snip] + NewestFirst(init);
    var x := NewestFirst(init) + d.recentSnippets;
    assert NewestFirst(subs) + d.recentSnippets == [snip] + x;
    if |init| > 0 {
      SubmitAllSnippets(d, init);
      assert Take(prev.recentSnippets, 4) == Take(x, 4);
    } else {
      assert prev.recentSnippets == x;
    }
    PrependAfterTake(snip, x, prev.recentSnippets);
  }

  /** Putting an element in front of the first four of a list that agrees
      with `x` on its first four gives the first five of `e` then `x`. */
  lemma PrependAfterTake<T>(e: T, x: seq<T>, p: seq<T>)
    requires Take(p, 4) == Take(x, 4)
    ensures [e] + Take(p, 4) == Take([e] + x, 5)
  {
  }

  /** Along any run of submissions the session count grows by the number of
      date changes, the date becomes the latest one and no other field but
      the snippet list moves. */
  lemma {:induction false} SubmitAllCounters(d: SessionData, subs: seq<Submission>)
    ensures SubmitAll(d, subs).sessionCount == d.sessionCount + DateChanges(d.lastSessionDate, subs)
    ensures SubmitAll(d, subs).lastSessionDate == LastDate(d.lastSessionDate, subs)
    ensures SubmitAll(d, subs) == d.(sessionCount := SubmitAll(d, subs).sessionCount,
                                     recentSnippets := SubmitAll(d, subs).recentSnippets,
                                     lastSessionDate := SubmitAll(d, subs).lastSessionDate)
    decreases |subs|
  {
    if |subs| > 0 {
      SubmitAllCounters(d, subs[..|subs| - 1]);
    }
  }

  /** All submissions on one date add at most one session: one when the
      stored date is a different one, none otherwise. */
  lemma {:induction false} SameDayCountsOnce(start: string, subs: seq<Submission>, day: string)
    requires forall i :: 0 <= i < |subs| ==> subs[i].today == day
    ensures DateChanges(start, subs) == (if |subs| > 0 && start != day then 1 else 0)
    decreases |subs|
  {
    if |subs| > 0 {
      SameDayCountsOnce(start, subs[..|subs| - 1], day);
    }
  }

  /** Two submissions on the same date increase the session count by one
      when the stored date differs and by nothing otherwise. */
  lemma TwoSubmissionsSameDay(d: SessionData, a: Submission, b: Submission)
    requires a.today == b.today
    ensures Submit(Submit(d, a), b).sessionCount ==
      d.sessionCount + (if d.lastSessionDate != a.today then 1 else 0)
  {
  }

  /** After six submissions the list holds five snippets, the sixth first. */
  lemma SixSubmissions(d: SessionData, subs: seq<Submission>)
    requires |subs| == 6
    ensures |SubmitAll(d, subs).recentSnippets| == 5
    ensures SubmitAll(d, subs).recentSnippets[0] == MakeSnippet(subs[5].code, subs[5].language, subs[5].now)
  {
    SubmitAllSnippets(d, subs);
  }

  /** The record after `n` explanations, and how many of them reported a
      level-up. */
  datatype ExplainRun = ExplainRun(data: SessionData, levelUps: nat)

  function ExplainAll(d: SessionData, n: nat): (r: ExplainRun)
    ensures r.data.totalExplanations == d.totalExplanations + n
    ensures r.data.totalPatterns == d.totalPatterns + n
    ensures r.levelUps <= n
    decreases n
  {
    if n == 0 then ExplainRun(d, 0)
    else
      var before := ExplainAll(d, n - 1);
      var step := TrackExplanation(before.data);
      ExplainRun(step.data, before.levelUps + if step.info.leveledUp then 1 else 0)
  }

  /** How many tier floors lie in the half-open interval (a, b]. */
  function FloorsCrossed(a: int, b: int): nat {
    (if a < MinOf(Intermediate) <= b then 1 else 0) + (if a < MinOf(Advanced) <= b then 1 else 0)
  }

  /** From a record whose tier matches its count, a run of explanations
      reports one level-up per tier floor it crosses and no other. */
  lemma {:induction false} LevelUpsCountFloorsCrossed(d: SessionData, n: nat)
    requires TierConsistent(d)
    ensures ExplainAll(d, n).levelUps == FloorsCrossed(d.totalExplanations, d.totalExplanations + n)
    ensures TierConsistent(ExplainAll(d, n).data)
    decreases n
  {
    if n > 0 {
      LevelUpsCountFloorsCrossed(d, n - 1);
      LevelUpOnlyOnEdge(ExplainAll(d, n - 1).data);
    }
  }

  /** Starting from the default record, each of the two level-ups is
      reported once and only once. */
  lemma AtMostTwoLevelUps(n: nat)
    ensures ExplainAll(DefaultData(), n).levelUps <= 2
    ensures n >= 50 ==> ExplainAll(DefaultData(), n).levelUps == 2
  {
    LevelUpsCountFloorsCrossed(DefaultData(), n);
  }

  /** The updaters of the session hook, as events. */
  datatype Event =
    | SubmitCode(submission: Submission)
    | Explain
    | Override(level: SkillLevel)

  function Step(d: SessionData, e: Event): SessionData {
    match e
    case SubmitCode(s) => Submit(d, s)
    case Explain => TrackExplanation(d).data
    case Override(level) => UpdateSkillLevel(d, level)
  }

  /** The record after the events `evs`, oldest first. */
  function Replay(d: SessionData, evs: seq<Event>): SessionData
    decreases |evs|
  {
    if |evs| == 0 then d else Replay(Step(d, evs[0]), evs[1..])
  }

  predicate NoOverride(evs: seq<Event>) {
    forall i :: 0 <= i < |evs| ==> !evs[i].Override?
  }

  /** Every trace without an override keeps the record invariant, and the
      counters never decrease along any trace. */
  lemma {:induction false} TracePreservesInvariant(d: SessionData, evs: seq<Event>)
    ensures Invariant(d) && NoOverride(evs) ==> Invariant(Replay(d, evs))
    ensures Replay(d, evs).sessionCount >= d.sessionCount
    ensures Replay(d, evs).totalExplanations >= d.totalExplanations
    ensures Replay(d, evs).totalPatterns - Replay(d, evs).totalExplanations ==
            d.totalPatterns - d.totalExplanations
    decreases |evs|
  {
    if |evs| > 0 {
      var next := Step(d, evs[0]);
      TracePreservesInvariant(next, evs[1..]);
      if NoOverride(evs) {
        assert NoOverride(evs[1..]) by {
          forall i | 0 <= i < |evs[1..]| ensures !evs[1..][i].Override? {
            assert evs[1..][i] == evs[i + 1];
          }
        }
      }
    }
  }

  /** From the default record, every trace without an override ends in a
      record whose tier matches its count and whose list holds at most five
      snippets. */
  lemma FromDefaultInvariant(evs: seq<Event>)
    requires NoOverride(evs)
    ensures Invariant(Replay(DefaultData(), evs))
  {
    TracePreservesInvariant(DefaultData(), evs);
  }

  /** An override alone can leave a record whose tier does not match. */
  lemma OverrideCanBreakInvariant()
    ensures Invariant(DefaultData()) && !Invariant(Replay(DefaultData(), [Override(Advanced)]))
  {
  }

  /** The worked examples of the progression rules and the hook. */
  lemma WorkedExamples(d: SessionData)
    ensures CalculateSkillLevel(0) == Beginner && CalculateSkillLevel(9) == Beginner
    ensures CalculateSkillLevel(10) == Intermediate && CalculateSkillLevel(49) == Intermediate
    ensures CalculateSkillLevel(50) == Advanced && CalculateSkillLevel(1000) == Advanced
    ensures ProgressToNextLevel(0, Beginner) == Some(0)
    ensures ProgressToNextLevel(9, Beginner) == Some(90)
    ensures ProgressToNextLevel(11, Intermediate) == Some(3)
    ensures ProgressToNextLevel(50, Advanced) == None
    ensures ProgressToNextLevel(15, Beginner) == Some(100)
    ensures d.totalExplanations == 9 && TierConsistent(d) ==>
      TrackExplanation(d).info == LevelUpInfo(true, Intermediate)
    ensures d.totalExplanations == 10 && TierConsistent(d) ==>
      !TrackExplanation(d).info.leveledUp
  {
  }
}
