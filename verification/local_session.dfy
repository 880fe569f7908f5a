/** The client-side session record and the updaters the session hook hands to
    its state setter, each as a pure function from the previous record to the
    next one (src/hooks/useLocalSession.tsx). The clock and the browser's
    key-value storage are parameters. */
module LocalSession {
  import opened Wrappers
  import opened SkillProgression
  import Decimal

  /** Key under which the serialized record is stored. */
  const StorageKey: string := "metis_clew_session"

  /** How many recent snippets the record keeps. */
  const MaxRecentSnippets: nat := 5

  /** How many characters of a submitted snippet are kept. */
  const MaxSnippetCodeLength: nat := 100

  datatype Snippet = Snippet(
    id: string,
    title: string,
    language: string,
    code: string,
    timestamp: nat)

  datatype SessionData = SessionData(
    sessionCount: nat,
    totalPatterns: nat,
    totalExplanations: nat,
    skillLevel: SkillLevel,
    dominantPattern: string,
    recentSnippets: seq<Snippet>,
    lastSessionDate: string)

  /** What an explanation reports: whether the tier changed, and the tier. */
  datatype LevelUpInfo = LevelUpInfo(leveledUp: bool, newLevel: SkillLevel)

  /** The record after an explanation, together with its report. */
  datatype Explained = Explained(data: SessionData, info: LevelUpInfo)

  function Min(a: int, b: int): int {
    if a <= b then a else b
  }

  /** The stored tier is the one the explanation count determines. */
  predicate TierConsistent(d: SessionData) {
    d.skillLevel == CalculateSkillLevel(d.totalExplanations)
  }

  /** What every record built by the tracking operations satisfies. */
  predicate Invariant(d: SessionData) {
    TierConsistent(d) && |d.recentSnippets| <= MaxRecentSnippets
  }

  /** The record every fresh browser starts from. */
  function DefaultData(): (d: SessionData)
    ensures d.sessionCount == 0 && d.totalPatterns == 0 && d.totalExplanations == 0
    ensures d.skillLevel == Beginner && d.dominantPattern == "visual"
    ensures d.recentSnippets == [] && d.lastSessionDate == ""
    ensures Invariant(d)
  {
    SessionData(0, 0, 0, Beginner, "visual", [], "")
  }

  /** The record read at start-up. A storage read that fails (`readable`
      false, e.g. storage disabled or blocked, where getItem throws), a
      missing or empty entry and one whose text does not parse (`parse`
      yields `None` where JSON.parse throws) give the default; otherwise the
      parsed record is taken as it is, without any check of its contents. */
  function LoadFromStorage(storage: map<string, string>, readable: bool,
                           parse: string -> Option<SessionData>): (d: SessionData)
    ensures !readable ==> d == DefaultData()
    ensures StorageKey !in storage ==> d == DefaultData()
    ensures StorageKey in storage && storage[StorageKey] == "" ==> d == DefaultData()
    ensures readable && StorageKey in storage && storage[StorageKey] != "" ==>
      (parse(storage[StorageKey]).None? ==> d == DefaultData()) &&
      (parse(storage[StorageKey]).Some? ==> d == parse(storage[StorageKey]).value)
  {
    if readable && StorageKey in storage && storage[StorageKey] != "" then
      parse(storage[StorageKey]).GetOr(DefaultData())
    else
      DefaultData()
  }

  /** Storage after persisting `d`; when the write fails (`written` false,
      e.g. the quota is exceeded) the failure is swallowed and the storage
      is left as it was. */
  function SaveToStorage(storage: map<string, string>, d: SessionData,
                         serialize: SessionData -> string, written: bool): (s: map<string, string>)
    ensures written ==> StorageKey in s && s[StorageKey] == serialize(d)
    ensures !written ==> s == storage
    ensures forall k :: k in storage && k != StorageKey ==> k in s && s[k] == storage[k]
    ensures s.Keys <= storage.Keys + {StorageKey}
  {
    if written then storage[StorageKey := serialize(d)] else storage
  }

  /** Saving a record and loading it again gives the same record, provided
      the serialization is read back by the parser and is never empty. */
  lemma SaveLoadRoundTrip(storage: map<string, string>, d: SessionData,
                          serialize: SessionData -> string, parse: string -> Option<SessionData>)
    requires parse(serialize(d)) == Some(d)
    requires serialize(d) != ""
    ensures LoadFromStorage(SaveToStorage(storage, d, serialize, true), true, parse) == d
  {
  }

  /** Loading does not validate: a parsed record that breaks the invariant is
      handed on as it is. */
  lemma LoadDoesNotValidate()
    ensures exists storage: map<string, string>, parse: string -> Option<SessionData> ::
      !Invariant(LoadFromStorage(storage, true, parse))
  {
    var bad := SessionData(0, 0, 0, Advanced, "visual", [], "");
    var parse := (s: string) => Some(bad);
    var storage := map[StorageKey := "{}"];
    assert LoadFromStorage(storage, true, parse) == bad;
  }

  /** Id of a snippet submitted at clock reading `now` (milliseconds). */
  function SnippetId(now: nat): (id: string)
    ensures |id| > |"snippet_"| && id[..|"snippet_"|] == "snippet_"
    ensures forall i :: |"snippet_"| <= i < |id| ==> Decimal.IsDigit(id[i])
    ensures |id| > |"snippet_"| + 1 ==> id[|"snippet_"|] != '0'
    ensures Decimal.FromDecimal(id[|"snippet_"|..]) == now
  {
    var digits := Decimal.ToDecimal(now);
    var id := "snippet_" + digits;
    assert id[|"snippet_"|..] == digits;
    Decimal.DecimalRoundTrip(now);
    id
  }

  /** Snippets submitted at different clock readings get different ids. */
  lemma SnippetIdInjective(a: nat, b: nat)
    requires SnippetId(a) == SnippetId(b)
    ensures a == b
  {
    var p := "snippet_";
    assert Decimal.ToDecimal(a) == SnippetId(a)[|p|..];
    assert Decimal.ToDecimal(b) == SnippetId(b)[|p|..];
    Decimal.ToDecimalInjective(a, b);
  }

  /** The entry recorded for a submission. */
  function MakeSnippet(code: string, language: string, now: nat): (s: Snippet)
    ensures s.id == SnippetId(now)
    ensures s.language == language && s.timestamp == now
    ensures s.title == language + " code"
    ensures |s.code| <= MaxSnippetCodeLength
    ensures s.code <= code
    ensures |code| <= MaxSnippetCodeLength ==> s.code == code
    ensures |code| > MaxSnippetCodeLength ==> |s.code| == MaxSnippetCodeLength
  {
    Snippet(SnippetId(now), language + " code", language, code[..Min(|code|, MaxSnippetCodeLength)], now)
  }

  /** A code submission on calendar date `today` at clock reading `now`: a
      new session is counted when the date differs from the last one, and
      the snippet goes to the front of the list, which keeps at most four
      of the earlier entries. */
  function TrackCodeSubmit(prev: SessionData, code: string, language: string,
                           today: string, now: nat): (d: SessionData)
    ensures prev.lastSessionDate != today ==> d.sessionCount == prev.sessionCount + 1
    ensures prev.lastSessionDate == today ==> d.sessionCount == prev.sessionCount
    ensures d.lastSessionDate == today
    ensures |d.recentSnippets| == Min(|prev.recentSnippets| + 1, MaxRecentSnippets)
    ensures d.recentSnippets[0] == MakeSnippet(code, language, now)
    ensures forall i :: 1 <= i < |d.recentSnippets| ==> d.recentSnippets[i] == prev.recentSnippets[i - 1]
    ensures d.totalExplanations == prev.totalExplanations && d.totalPatterns == prev.totalPatterns
    ensures d.skillLevel == prev.skillLevel && d.dominantPattern == prev.dominantPattern
  {
    var isNewSession := prev.lastSessionDate != today;
    var kept := prev.recentSnippets[..Min(|prev.recentSnippets|, MaxRecentSnippets - 1)];
    prev.(
      sessionCount := if isNewSession then prev.sessionCount + 1 else prev.sessionCount,
      recentSnippets := [MakeSnippet(code, language, now)] + kept,
      lastSessionDate := today)
  }

  /** A completed explanation: both counters go up by one, the tier is
      derived again from the new count, and the report says whether it
      differs from the tier stored before. */
  function TrackExplanation(prev: SessionData): (r: Explained)
    ensures r.data.totalExplanations == prev.totalExplanations + 1
    ensures r.data.totalPatterns == prev.totalPatterns + 1
    ensures TierConsistent(r.data)
    ensures r.info.newLevel == r.data.skillLevel
    ensures r.info.leveledUp <==> prev.skillLevel != r.data.skillLevel
    ensures r.data == prev.(totalExplanations := r.data.totalExplanations,
                            totalPatterns := r.data.totalPatterns,
                            skillLevel := r.data.skillLevel)
  {
    var newExplanations := prev.totalExplanations + 1;
    var newSkillLevel := CalculateSkillLevel(newExplanations);
    Explained(
      prev.(totalExplanations := newExplanations,
            totalPatterns := prev.totalPatterns + 1,
            skillLevel := newSkillLevel),
      LevelUpInfo(prev.skillLevel != newSkillLevel, newSkillLevel))
  }

  /** From a record whose tier matches its count, an explanation reports a
      level-up exactly when the new count is the floor of a higher tier. */
  lemma LevelUpOnlyOnEdge(prev: SessionData)
    requires TierConsistent(prev)
    ensures TrackExplanation(prev).info.leveledUp <==>
      prev.totalExplanations + 1 in {MinOf(Intermediate), MinOf(Advanced)}
  {
  }

  /** Direct override of the stored tier; nothing else changes. */
  function UpdateSkillLevel(prev: SessionData, level: SkillLevel): (d: SessionData)
    ensures d.skillLevel == level
    ensures d == prev.(skillLevel := d.skillLevel)
  {
    prev.(skillLevel := level)
  }

  /** The override is the one transition that can break the tier invariant:
      a submission keeps it, an explanation restores it from any record. */
  lemma OnlyOverrideBreaksTier(prev: SessionData, code: string, language: string, today: string, now: nat)
    ensures TierConsistent(prev) ==> TierConsistent(TrackCodeSubmit(prev, code, language, today, now))
    ensures TierConsistent(TrackExplanation(prev).data)
    ensures forall level :: TierConsistent(prev) && level != prev.skillLevel ==>
      !TierConsistent(UpdateSkillLevel(prev, level))
  {
  }

  /** The progress percentage of the current record. */
  function GetProgress(d: SessionData): (p: Option<int>)
    ensures p.None? <==> d.skillLevel == Advanced
    ensures p.Some? ==> p.value <= 100
    ensures TierConsistent(d) && p.Some? ==> 0 <= p.value < 100
    ensures p == ProgressToNextLevel(d.totalExplanations, d.skillLevel)
  {
    ProgressInRangeWhenConsistent(d.totalExplanations);
    ProgressToNextLevel(d.totalExplanations, d.skillLevel)
  }

  /** The next tier and the explanations still missing for the current
      record; a record whose tier matches its count always misses some. */
  function GetNextLevelInfo(d: SessionData): (r: Option<NextLevelInfo>)
    ensures r.None? <==> d.skillLevel == Advanced
    ensures r.Some? ==> Successor(d.skillLevel) == Some(r.value.nextLevel)
    ensures r.Some? ==> r.value.threshold == MinOf(r.value.nextLevel)
    ensures r.Some? ==> (r.value.remaining == 0 <==> d.totalExplanations >= r.value.threshold)
    ensures r.Some? && r.value.remaining > 0 ==> d.totalExplanations + r.value.remaining == r.value.threshold
    ensures TierConsistent(d) && r.Some? ==> r.value.remaining > 0
  {
    NextLevel(d.totalExplanations, d.skillLevel)
  }
}
