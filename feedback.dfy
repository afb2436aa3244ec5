/** The feedback provider: an append-only log of feedback items and the
    statistics recomputed from the whole log on every query
    (src/contexts/FeedbackContext.tsx). */
module FeedbackContext {
  import opened Js
  import opened Types
  import opened SentimentAnalysis

  /** The tags the aggregators count. Items carry 'consider' or 'continue',
      so neither tag matches an item the forms create. */
  const FeedbackTag: string := "feedback"
  const AppreciationTag: string := "appreciation"

  /** The argument of addFeedback: an item without id, timestamp and sentiment. */
  datatype FeedbackDraft = FeedbackDraft(
    kind: string,
    category: Category,
    senderId: string,
    recipientId: string,
    message: string)

  /** Every item that carries a sentiment carries the one its message gets. */
  predicate Classified(log: seq<FeedbackItem>)
  {
    forall f :: f in log && f.sentiment.Some? ==> f.sentiment.value == AnalyzeSentiment(f.message)
  }

  /** The `feedbacks` state of the provider. */
  class FeedbackStore {
    var feedbacks: seq<FeedbackItem>

    /** The log as restored from storage, or empty when nothing was stored. */
    constructor (stored: Option<seq<FeedbackItem>>)
      ensures feedbacks == if stored.Some? then stored.value else []
    {
      feedbacks := if stored.Some? then stored.value else [];
    }

    /** addFeedback: classify the message, stamp the draft with the given id
        and timestamp, and append it; earlier items stay as they were. */
    method AddFeedback(draft: FeedbackDraft, id: string, timestamp: string)
      modifies this
      ensures |feedbacks| == |old(feedbacks)| + 1
      ensures feedbacks[..|old(feedbacks)|] == old(feedbacks)
      ensures feedbacks[|old(feedbacks)|] ==
        FeedbackItem(id, draft.kind, draft.category, draft.senderId, draft.recipientId,
                     draft.message, timestamp, Some(AnalyzeSentiment(draft.message)))
      ensures Classified(old(feedbacks)) ==> Classified(feedbacks)
    {
      var sentiment := AnalyzeSentiment(draft.message);
      var item := FeedbackItem(id, draft.kind, draft.category, draft.senderId, draft.recipientId,
                               draft.message, timestamp, Some(sentiment));
      feedbacks := feedbacks + [item];
      assert feedbacks[..|old(feedbacks)|] == old(feedbacks);
    }
  }

  // ---------------------------------------------------------------------
  // Item predicates

  function SentBy(userId: string): FeedbackItem -> bool
  {
    (f: FeedbackItem) => f.senderId == userId
  }

  function ReceivedBy(userId: string): FeedbackItem -> bool
  {
    (f: FeedbackItem) => f.recipientId == userId
  }

  function Involves(userId: string): FeedbackItem -> bool
  {
    (f: FeedbackItem) => f.senderId == userId || f.recipientId == userId
  }

  function HasKind(tag: string): FeedbackItem -> bool
  {
    (f: FeedbackItem) => f.kind == tag
  }

  /** No item has two different tags, so two tag counts never overlap. */
  lemma TagCountsDisjoint(items: seq<FeedbackItem>)
    ensures Count(items, HasKind(FeedbackTag)) + Count(items, HasKind(AppreciationTag)) <= |items|
  {
    DisjointCounts(items, HasKind(FeedbackTag), HasKind(AppreciationTag));
  }

  /** Items carrying the declared tags match neither counted tag. */
  lemma WellTypedTagCountsZero(items: seq<FeedbackItem>)
    requires AllWellTyped(items)
    ensures Count(items, HasKind(FeedbackTag)) == 0
    ensures Count(items, HasKind(AppreciationTag)) == 0
  {
    FilterNone(items, HasKind(FeedbackTag));
    FilterNone(items, HasKind(AppreciationTag));
  }

  // ---------------------------------------------------------------------
  // getUserFeedbacks

  datatype UserFeedbacks = UserFeedbacks(given: seq<FeedbackItem>, received: seq<FeedbackItem>)

  /** getUserFeedbacks: the items the user sent and the items the user
      received, each in log order. An item the user sent to themselves is in
      both. */
  function GetUserFeedbacks(log: seq<FeedbackItem>, userId: string): (r: UserFeedbacks)
    ensures forall f :: f in r.given <==> f in log && f.senderId == userId
    ensures forall f :: f in r.received <==> f in log && f.recipientId == userId
    ensures |r.given| <= |log| && |r.received| <= |log|
  {
    FilterMembers(log, SentBy(userId));
    FilterMembers(log, ReceivedBy(userId));
    UserFeedbacks(Filter(log, SentBy(userId)), Filter(log, ReceivedBy(userId)))
  }

  /** Appending an item adds it at the end of `given` when the user sent it
      and at the end of `received` when the user received it, and changes
      nothing else. */
  lemma UserFeedbacksAppend(log: seq<FeedbackItem>, f: FeedbackItem, userId: string)
    ensures f.senderId == userId ==>
      GetUserFeedbacks(log + [f], userId).given == GetUserFeedbacks(log, userId).given + [f]
    ensures f.senderId != userId ==>
      GetUserFeedbacks(log + [f], userId).given == GetUserFeedbacks(log, userId).given
    ensures f.recipientId == userId ==>
      GetUserFeedbacks(log + [f], userId).received == GetUserFeedbacks(log, userId).received + [f]
    ensures f.recipientId != userId ==>
      GetUserFeedbacks(log + [f], userId).received == GetUserFeedbacks(log, userId).received
  {
    FilterSnoc(log, f, SentBy(userId));
    FilterSnoc(log, f, ReceivedBy(userId));
  }

  /** Appending n items all sent by the user grows `given` by exactly those n items. */
  lemma {:induction false} UserFeedbacksAppendSent(log: seq<FeedbackItem>, more: seq<FeedbackItem>, userId: string)
    requires forall f :: f in more ==> f.senderId == userId
    ensures GetUserFeedbacks(log + more, userId).given == GetUserFeedbacks(log, userId).given + more
  {
    FilterConcat(log, more, SentBy(userId));
    FilterAll(more, SentBy(userId));
  }

  // ---------------------------------------------------------------------
  // getUserStats

  datatype UserStats = UserStats(
    feedbackGiven: nat,
    feedbackReceived: nat,
    appreciationsGiven: nat,
    appreciationsReceived: nat,
    engagementScore: nat)

  /** Weighted activity: ten points per item given, five per item received. */
  function Activity(s: UserStats): nat
  {
    10 * (s.feedbackGiven + s.appreciationsGiven) + 5 * (s.feedbackReceived + s.appreciationsReceived)
  }

  /** The record getUserStats builds from its four counts: the engagement
      score is half the weighted activity, rounded half up, capped at 100. */
  function StatsOf(feedbackGiven: nat, feedbackReceived: nat, appreciationsGiven: nat, appreciationsReceived: nat): (r: UserStats)
    ensures r.engagementScore <= 100
  {
    var engagementScore := Min(100, RoundHalfUp(
      (feedbackGiven + appreciationsGiven) * 10 + (feedbackReceived + appreciationsReceived) * 5, 2));
    UserStats(feedbackGiven, feedbackReceived, appreciationsGiven, appreciationsReceived, engagementScore)
  }

  /** getUserStats: the 'feedback' and 'appreciation' counts among the
      user's given and received items, and the engagement score. */
  function GetUserStats(log: seq<FeedbackItem>, userId: string): (r: UserStats)
    ensures r.feedbackGiven + r.appreciationsGiven <= |GetUserFeedbacks(log, userId).given|
    ensures r.feedbackReceived + r.appreciationsReceived <= |GetUserFeedbacks(log, userId).received|
    ensures r.engagementScore <= 100
  {
    var fb := GetUserFeedbacks(log, userId);
    TagCountsDisjoint(fb.given);
    TagCountsDisjoint(fb.received);
    StatsOf(Count(fb.given, HasKind(FeedbackTag)), Count(fb.received, HasKind(FeedbackTag)),
            Count(fb.given, HasKind(AppreciationTag)), Count(fb.received, HasKind(AppreciationTag)))
  }

  /** The engagement score in closed form: half the weighted activity,
      rounded half up, and 100 from an activity of 199 on. */
  lemma UserEngagementScore(log: seq<FeedbackItem>, userId: string)
    ensures var s := GetUserStats(log, userId);
      s.engagementScore == if Activity(s) >= 199 then 100 else (Activity(s) + 1) / 2
  {
    var s := GetUserStats(log, userId);
    var a := Activity(s);
    assert s == StatsOf(s.feedbackGiven, s.feedbackReceived, s.appreciationsGiven, s.appreciationsReceived);
    var r := RoundHalfUp(a, 2);
    assert 4 * r <= 2 * a + 2 < 4 * (r + 1);
    assert r == (a + 1) / 2;
  }

  /** An item tagged neither 'feedback' nor 'appreciation' leaves every
      user's statistics as they were. */
  lemma UserStatsIgnoreOtherTags(log: seq<FeedbackItem>, f: FeedbackItem, userId: string)
    requires f.kind != FeedbackTag && f.kind != AppreciationTag
    ensures GetUserStats(log + [f], userId) == GetUserStats(log, userId)
  {
    var before := GetUserFeedbacks(log, userId);
    var after := GetUserFeedbacks(log + [f], userId);
    UserFeedbacksAppend(log, f, userId);
    assert !HasKind(FeedbackTag)(f) && !HasKind(AppreciationTag)(f);
    FilterSnoc(before.given, f, HasKind(FeedbackTag));
    FilterSnoc(before.given, f, HasKind(AppreciationTag));
    FilterSnoc(before.received, f, HasKind(FeedbackTag));
    FilterSnoc(before.received, f, HasKind(AppreciationTag));
    assert Count(after.given, HasKind(FeedbackTag)) == Count(before.given, HasKind(FeedbackTag));
    assert Count(after.given, HasKind(AppreciationTag)) == Count(before.given, HasKind(AppreciationTag));
    assert Count(after.received, HasKind(FeedbackTag)) == Count(before.received, HasKind(FeedbackTag));
    assert Count(after.received, HasKind(AppreciationTag)) == Count(before.received, HasKind(AppreciationTag));
  }

  /** Appending an item raises exactly the counts it matches by one: the
      given counts when the user sent it, the received counts when the
      user received it, each only for its own tag. */
  lemma UserStatsAppend(log: seq<FeedbackItem>, f: FeedbackItem, userId: string)
    ensures GetUserStats(log + [f], userId).feedbackGiven ==
      GetUserStats(log, userId).feedbackGiven + (if f.senderId == userId && f.kind == FeedbackTag then 1 else 0)
    ensures GetUserStats(log + [f], userId).feedbackReceived ==
      GetUserStats(log, userId).feedbackReceived + (if f.recipientId == userId && f.kind == FeedbackTag then 1 else 0)
    ensures GetUserStats(log + [f], userId).appreciationsGiven ==
      GetUserStats(log, userId).appreciationsGiven + (if f.senderId == userId && f.kind == AppreciationTag then 1 else 0)
    ensures GetUserStats(log + [f], userId).appreciationsReceived ==
      GetUserStats(log, userId).appreciationsReceived + (if f.recipientId == userId && f.kind == AppreciationTag then 1 else 0)
  {
    var before := GetUserFeedbacks(log, userId);
    UserFeedbacksAppend(log, f, userId);
    FilterSnoc(before.given, f, HasKind(FeedbackTag));
    FilterSnoc(before.given, f, HasKind(AppreciationTag));
    FilterSnoc(before.received, f, HasKind(FeedbackTag));
    FilterSnoc(before.received, f, HasKind(AppreciationTag));
  }

  /** Over a log of 'consider' and 'continue' items every count is zero and
      so is the engagement score, however active the user is. */
  lemma UserStatsOfWellTypedLog(log: seq<FeedbackItem>, userId: string)
    requires AllWellTyped(log)
    ensures GetUserStats(log, userId) == UserStats(0, 0, 0, 0, 0)
  {
    var fb := GetUserFeedbacks(log, userId);
    WellTypedTagCountsZero(fb.given);
    WellTypedTagCountsZero(fb.received);
  }

  /** One 'consider' item from A to B: the message is classed negative,
      the sender is credited with nothing and scores 0. */
  lemma OneConsiderItemScoresNothing(category: Category)
    ensures var f := FeedbackItem("feedback-1", ConsiderTag, category, "A", "B", "This was a terrible experience", "t", Some(Negative));
      AnalyzeSentiment(f.message) == Negative && GetUserStats([f], "A") == UserStats(0, 0, 0, 0, 0)
  {
    var f := FeedbackItem("feedback-1", ConsiderTag, category, "A", "B", "This was a terrible experience", "t", Some(Negative));
    TerribleExperienceIsNegative();
    UserStatsOfWellTypedLog([f], "A");
  }

  // ---------------------------------------------------------------------
  // getTeamStats

  datatype MemberCounts = MemberCounts(given: nat, received: nat)

  datatype TeamStats = TeamStats(
    totalFeedbacks: nat,
    totalAppreciations: nat,
    engagementScore: Ratio,
    memberStats: map<string, MemberCounts>)

  /** The items the team view considers: those the manager sent or received. */
  function TeamFeedbacks(log: seq<FeedbackItem>, managerId: string): (r: seq<FeedbackItem>)
    ensures forall f :: f in r <==> f in log && (f.senderId == managerId || f.recipientId == managerId)
  {
    FilterMembers(log, Involves(managerId));
    Filter(log, Involves(managerId))
  }

  /** Everyone who sent or received one of `items`. */
  function Participants(items: seq<FeedbackItem>): set<string>
  {
    (set f | f in items :: f.senderId) + (set f | f in items :: f.recipientId)
  }

  /** `if (!memberStats[id]) memberStats[id] = { given: 0, received: 0 }` */
  function EnsureMember(m: map<string, MemberCounts>, id: string): (r: map<string, MemberCounts>)
    ensures r.Keys == m.Keys + {id}
    ensures forall k :: k in m ==> r[k] == m[k]
    ensures id !in m ==> r[id] == MemberCounts(0, 0)
  {
    if id in m then m else m[id := MemberCounts(0, 0)]
  }

  /** One run of the forEach body of getTeamStats over item f. */
  function Tally(m: map<string, MemberCounts>, f: FeedbackItem): (r: map<string, MemberCounts>)
    ensures r.Keys == m.Keys + {f.senderId, f.recipientId}
  {
    var m1 := EnsureMember(EnsureMember(m, f.senderId), f.recipientId);
    var m2 := m1[f.senderId := m1[f.senderId].(given := m1[f.senderId].given + 1)];
    m2[f.recipientId := m2[f.recipientId].(received := m2[f.recipientId].received + 1)]
  }

  /** memberStats after the forEach has visited `items` in order. */
  function MemberStatsAfter(items: seq<FeedbackItem>): (r: map<string, MemberCounts>)
    ensures r == map[] <==> items == []
  {
    if items == [] then map[]
    else Tally(MemberStatsAfter(items[..|items| - 1]), items[|items| - 1])
  }

  /** `memberStats[id]`, with absent members read as zero counts. */
  function Lookup(m: map<string, MemberCounts>, id: string): MemberCounts
  {
    if id in m then m[id] else MemberCounts(0, 0)
  }

  /** Math.min(100, Math.round(n / members)) in JavaScript numbers, where
      n = totalFeedbacks + 2 * totalAppreciations: 0 / 0 is NaN, and a
      positive n over no members would be Infinity, which the cap turns
      into 100. */
  function TeamEngagement(totalFeedbacks: nat, totalAppreciations: nat, members: nat): (r: Ratio)
    ensures r.NaN? <==> members == 0 && totalFeedbacks + totalAppreciations == 0
    ensures r.Finite? ==> r.value <= 100
  {
    var n := totalFeedbacks + totalAppreciations * 2;
    if members == 0 then (if n == 0 then NaN else Finite(100))
    else Finite(Min(100, RoundHalfUp(n, members)))
  }

  /** The value getTeamStats returns. */
  function TeamStatsOf(log: seq<FeedbackItem>, managerId: string): (r: TeamStats)
    ensures r.engagementScore.Finite? ==> r.engagementScore.value <= 100
  {
    var teamFeedbacks := TeamFeedbacks(log, managerId);
    var totalFeedbacks := Count(teamFeedbacks, HasKind(FeedbackTag));
    var totalAppreciations := Count(teamFeedbacks, HasKind(AppreciationTag));
    var memberStats := MemberStatsAfter(teamFeedbacks);
    TeamStats(totalFeedbacks, totalAppreciations,
              TeamEngagement(totalFeedbacks, totalAppreciations, |memberStats|), memberStats)
  }

  /** getTeamStats. */
  method GetTeamStats(log: seq<FeedbackItem>, managerId: string) returns (stats: TeamStats)
    ensures stats == TeamStatsOf(log, managerId)
  {
    var teamFeedbacks := Filter(log, Involves(managerId));
    var totalFeedbacks := Count(teamFeedbacks, HasKind(FeedbackTag));
    var totalAppreciations := Count(teamFeedbacks, HasKind(AppreciationTag));
    var memberStats := CountMembers(teamFeedbacks);
    var engagementScore := TeamEngagement(totalFeedbacks, totalAppreciations, |memberStats|);
    stats := TeamStats(totalFeedbacks, totalAppreciations, engagementScore, memberStats);
  }

  /** The forEach of getTeamStats that builds memberStats over the team's items. */
  method CountMembers(items: seq<FeedbackItem>) returns (memberStats: map<string, MemberCounts>)
    ensures memberStats == MemberStatsAfter(items)
  {
    memberStats := map[];
    var i := 0;
    while i < |items|
      invariant 0 <= i <= |items|
      invariant memberStats == MemberStatsAfter(items[..i])
    {
      memberStats := CountItem(memberStats, items[i]);
      assert items[..i + 1][..i] == items[..i];
      i := i + 1;
    }
    assert items[..i] == items;
  }

  /** The forEach callback of getTeamStats: make sure the sender and the
      recipient have an entry, then credit one item given and one received. */
  method CountItem(memberStats: map<string, MemberCounts>, f: FeedbackItem) returns (updated: map<string, MemberCounts>)
    ensures updated == Tally(memberStats, f)
  {
    updated := memberStats;
    if f.senderId !in updated {
      updated := updated[f.senderId := MemberCounts(0, 0)];
    }
    if f.recipientId !in updated {
      updated := updated[f.recipientId := MemberCounts(0, 0)];
    }
    updated := updated[f.senderId := updated[f.senderId].(given := updated[f.senderId].given + 1)];
    updated := updated[f.recipientId := updated[f.recipientId].(received := updated[f.recipientId].received + 1)];
  }

  /** The keys of memberStats are exactly the senders and recipients of the
      items visited. */
  lemma {:induction false} MemberStatsKeys(items: seq<FeedbackItem>)
    ensures MemberStatsAfter(items).Keys == Participants(items)
  {
    if items != [] {
      var n := |items| - 1;
      MemberStatsKeys(items[..n]);
      assert MemberStatsAfter(items) == Tally(MemberStatsAfter(items[..n]), items[n]);
      assert items == items[..n] + [items[n]];
      ParticipantsSnoc(items[..n], items[n]);
    }
  }

  /** One more item adds its sender and recipient to the participants. */
  lemma ParticipantsSnoc(prefix: seq<FeedbackItem>, last: FeedbackItem)
    ensures Participants(prefix + [last]) == Participants(prefix) + {last.senderId, last.recipientId}
  {
    var items := prefix + [last];
    assert forall f :: f in items <==> f in prefix || f == last;
  }

  /** Each member's entry counts the visited items that member sent and
      those that member received. */
  lemma {:induction false} MemberStatsCounts(items: seq<FeedbackItem>, userId: string)
    ensures Lookup(MemberStatsAfter(items), userId) ==
      MemberCounts(Count(items, SentBy(userId)), Count(items, ReceivedBy(userId)))
  {
    if items != [] {
      var n := |items| - 1;
      var prefix, last := items[..n], items[n];
      MemberStatsCounts(prefix, userId);
      assert items == prefix + [last];
      FilterSnoc(prefix, last, SentBy(userId));
      FilterSnoc(prefix, last, ReceivedBy(userId));
    }
  }

  function GivenOf(c: MemberCounts): nat { c.given }
  function ReceivedOf(c: MemberCounts): nat { c.received }

  /** The sum of one count over all entries of a member map. */
  ghost function SumOf(m: map<string, MemberCounts>, proj: MemberCounts -> nat): nat
    decreases |m|
  {
    if m == map[] then 0
    else
      assert m.Keys != {};
      var k :| k in m;
      assert |m - {k}| < |m| by {
        assert (m - {k}).Keys == m.Keys - {k};
      }
      proj(m[k]) + SumOf(m - {k}, proj)
  }

  /** The sum splits off any one entry. */
  lemma {:induction false} SumOfRemove(m: map<string, MemberCounts>, k: string, proj: MemberCounts -> nat)
    requires k in m
    ensures SumOf(m, proj) == proj(m[k]) + SumOf(m - {k}, proj)
    decreases |m|
  {
    var k' :| k' in m && SumOf(m, proj) == proj(m[k']) + SumOf(m - {k'}, proj);
    if k' != k {
      assert (m - {k'}).Keys == m.Keys - {k'};
      assert (m - {k}).Keys == m.Keys - {k};
      SumOfRemove(m - {k'}, k, proj);
      SumOfRemove(m - {k}, k', proj);
      assert (m - {k'}) - {k} == (m - {k}) - {k'};
    }
  }

  /** Writing v at key k changes the sum by what v adds and the old entry took. */
  lemma SumOfUpdate(m: map<string, MemberCounts>, k: string, v: MemberCounts, proj: MemberCounts -> nat)
    ensures SumOf(m[k := v], proj) + (if k in m then proj(m[k]) else 0) == SumOf(m, proj) + proj(v)
  {
    SumOfRemove(m[k := v], k, proj);
    assert m[k := v] - {k} == m - {k};
    if k in m {
      SumOfRemove(m, k, proj);
    } else {
      assert m - {k} == m;
    }
  }

  /** A fresh entry holds zero counts, so it leaves both sums as they were. */
  lemma EnsureMemberSums(m: map<string, MemberCounts>, id: string)
    ensures SumOf(EnsureMember(m, id), GivenOf) == SumOf(m, GivenOf)
    ensures SumOf(EnsureMember(m, id), ReceivedOf) == SumOf(m, ReceivedOf)
  {
    if id !in m {
      SumOfUpdate(m, id, MemberCounts(0, 0), GivenOf);
      SumOfUpdate(m, id, MemberCounts(0, 0), ReceivedOf);
    }
  }

  /** One visit adds one to the given total and one to the received total. */
  lemma TallySums(m: map<string, MemberCounts>, f: FeedbackItem)
    ensures SumOf(Tally(m, f), GivenOf) == SumOf(m, GivenOf) + 1
    ensures SumOf(Tally(m, f), ReceivedOf) == SumOf(m, ReceivedOf) + 1
  {
    var m0 := EnsureMember(m, f.senderId);
    var m1 := EnsureMember(m0, f.recipientId);
    var m2 := m1[f.senderId := m1[f.senderId].(given := m1[f.senderId].given + 1)];
    var m3 := m2[f.recipientId := m2[f.recipientId].(received := m2[f.recipientId].received + 1)];
    assert Tally(m, f) == m3;
    EnsureMemberSums(m, f.senderId);
    EnsureMemberSums(m0, f.recipientId);
    SumOfUpdate(m1, f.senderId, m1[f.senderId].(given := m1[f.senderId].given + 1), GivenOf);
    SumOfUpdate(m1, f.senderId, m1[f.senderId].(given := m1[f.senderId].given + 1), ReceivedOf);
    SumOfUpdate(m2, f.recipientId, m2[f.recipientId].(received := m2[f.recipientId].received + 1), GivenOf);
    SumOfUpdate(m2, f.recipientId, m2[f.recipientId].(received := m2[f.recipientId].received + 1), ReceivedOf);
  }

  /** Summed over all members, given and received each equal the number of
      items visited. */
  lemma {:induction false} MemberStatsSums(items: seq<FeedbackItem>)
    ensures SumOf(MemberStatsAfter(items), GivenOf) == |items|
    ensures SumOf(MemberStatsAfter(items), ReceivedOf) == |items|
  {
    if items != [] {
      var n := |items| - 1;
      MemberStatsSums(items[..n]);
      TallySums(MemberStatsAfter(items[..n]), items[n]);
    }
  }

  /** The team view's member map: keyed by everyone who exchanged an item
      with the manager, the manager included as soon as there is one such
      item, with exact per-member counts and totals equal to the scope. */
  lemma TeamMembers(log: seq<FeedbackItem>, managerId: string, userId: string)
    ensures TeamStatsOf(log, managerId).memberStats.Keys == Participants(TeamFeedbacks(log, managerId))
    ensures managerId in TeamStatsOf(log, managerId).memberStats <==> TeamFeedbacks(log, managerId) != []
    ensures Lookup(TeamStatsOf(log, managerId).memberStats, userId) ==
      MemberCounts(Count(TeamFeedbacks(log, managerId), SentBy(userId)),
                   Count(TeamFeedbacks(log, managerId), ReceivedBy(userId)))
    ensures SumOf(TeamStatsOf(log, managerId).memberStats, GivenOf) == |TeamFeedbacks(log, managerId)|
    ensures SumOf(TeamStatsOf(log, managerId).memberStats, ReceivedOf) == |TeamFeedbacks(log, managerId)|
  {
    var scope := TeamFeedbacks(log, managerId);
    MemberStatsKeys(scope);
    MemberStatsCounts(scope, userId);
    MemberStatsSums(scope);
    if scope != [] {
      assert scope[0] in scope;
    }
  }

  /** The team totals never exceed the scope, and the engagement score is
      NaN exactly when no item involves the manager, otherwise at most 100. */
  lemma TeamTotals(log: seq<FeedbackItem>, managerId: string)
    ensures TeamStatsOf(log, managerId).totalFeedbacks + TeamStatsOf(log, managerId).totalAppreciations
      <= |TeamFeedbacks(log, managerId)|
    ensures TeamStatsOf(log, managerId).engagementScore.NaN? <==> TeamFeedbacks(log, managerId) == []
    ensures TeamStatsOf(log, managerId).engagementScore.Finite? ==>
      TeamStatsOf(log, managerId).engagementScore.value <= 100
  {
    var scope := TeamFeedbacks(log, managerId);
    TagCountsDisjoint(scope);
    if scope != [] {
      NonEmptyTeamHasMembers(scope);
    }
  }

  /** Over a log of 'consider' and 'continue' items both team totals are
      zero, and the engagement score is 0 whenever the manager has items. */
  lemma TeamStatsOfWellTypedLog(log: seq<FeedbackItem>, managerId: string)
    requires AllWellTyped(log)
    ensures TeamStatsOf(log, managerId).totalFeedbacks == 0
    ensures TeamStatsOf(log, managerId).totalAppreciations == 0
    ensures TeamFeedbacks(log, managerId) != [] ==> TeamStatsOf(log, managerId).engagementScore == Finite(0)
  {
    var scope := TeamFeedbacks(log, managerId);
    WellTypedTagCountsZero(scope);
    if scope != [] {
      NonEmptyTeamHasMembers(scope);
      NothingScoresZero(|MemberStatsAfter(scope)|);
    }
  }

  /** Items always give at least one member. */
  lemma NonEmptyTeamHasMembers(items: seq<FeedbackItem>)
    requires items != []
    ensures |MemberStatsAfter(items)| > 0
  {
    MemberStatsKeys(items);
    assert items[0] in items;
    assert items[0].senderId in Participants(items);
  }

  /** With members but no counted item the team scores 0. */
  lemma NothingScoresZero(members: nat)
    requires members > 0
    ensures TeamEngagement(0, 0, members) == Finite(0)
  {
    RoundHalfUpAtMost(0, members, 0);
  }

  // ---------------------------------------------------------------------
  // getOrganizationStats

  /** `Object.keys(departmentStats)`, in insertion order. */
  const Departments: seq<string> := ["Engineering", "Marketing", "Sales", "HR"]

  /** `Math.floor(Math.random() * departments.length)`: one draw per item. */
  type DepartmentIndex = k: int | 0 <= k < 4

  datatype DepartmentStats = DepartmentStats(feedbacks: nat, appreciations: nat, engagement: nat)

  datatype OrganizationStats = OrganizationStats(
    totalFeedbacks: nat,
    totalAppreciations: nat,
    averageEngagement: nat,
    departmentStats: map<string, DepartmentStats>)

  predicate HasDepartments(m: map<string, DepartmentStats>)
  {
    m.Keys == {"Engineering", "Marketing", "Sales", "HR"}
  }

  const InitialDepartmentStats: map<string, DepartmentStats> := map[
    "Engineering" := DepartmentStats(0, 0, 0),
    "Marketing" := DepartmentStats(0, 0, 0),
    "Sales" := DepartmentStats(0, 0, 0),
    "HR" := DepartmentStats(0, 0, 0)]

  /** One run of the first forEach body: the item goes to the drawn
      department, as a feedback if tagged 'feedback' and as an appreciation
      otherwise. */
  function Assign(m: map<string, DepartmentStats>, f: FeedbackItem, k: DepartmentIndex): (r: map<string, DepartmentStats>)
    requires HasDepartments(m)
    ensures HasDepartments(r)
  {
    var d := Departments[k];
    if f.kind == FeedbackTag then m[d := m[d].(feedbacks := m[d].feedbacks + 1)]
    else m[d := m[d].(appreciations := m[d].appreciations + 1)]
  }

  /** departmentStats after the first forEach has visited `items`, the i-th
      of them going to department draws[i]. */
  function Distribute(items: seq<FeedbackItem>, draws: seq<DepartmentIndex>): (r: map<string, DepartmentStats>)
    requires |draws| == |items|
    ensures HasDepartments(r)
  {
    if items == [] then InitialDepartmentStats
    else
      var n := |items| - 1;
      Assign(Distribute(items[..n], draws[..n]), items[n], draws[n])
  }

  /** Math.min(100, Math.round((feedbacks + appreciations * 2) / 2)) */
  function DepartmentEngagement(s: DepartmentStats): (r: nat)
    ensures r == if s.feedbacks + 2 * s.appreciations >= 199 then 100
                 else (s.feedbacks + 2 * s.appreciations + 1) / 2
  {
    Min(100, RoundHalfUp(s.feedbacks + s.appreciations * 2, 2))
  }

  /** departmentStats after the second forEach: every entry's engagement
      recomputed from its own counts. */
  function WithEngagement(m: map<string, DepartmentStats>): (r: map<string, DepartmentStats>)
    ensures r.Keys == m.Keys
    ensures forall d :: d in r ==>
      r[d].feedbacks == m[d].feedbacks && r[d].appreciations == m[d].appreciations && r[d].engagement <= 100
  {
    map d | d in m :: m[d].(engagement := DepartmentEngagement(m[d]))
  }

  function FeedbacksOf(s: DepartmentStats): nat { s.feedbacks }
  function AppreciationsOf(s: DepartmentStats): nat { s.appreciations }
  function EngagementOf(s: DepartmentStats): nat { s.engagement }

  /** One field summed over the four departments, in key order. */
  function DepartmentSum(m: map<string, DepartmentStats>, proj: DepartmentStats -> nat): (r: nat)
    requires HasDepartments(m)
    ensures forall d :: d in m ==> proj(m[d]) <= r
  {
    proj(m["Engineering"]) + proj(m["Marketing"]) + proj(m["Sales"]) + proj(m["HR"])
  }

  /** The value getOrganizationStats returns for the given draws. */
  function OrganizationStatsOf(log: seq<FeedbackItem>, draws: seq<DepartmentIndex>): (r: OrganizationStats)
    requires |draws| == |log|
    ensures HasDepartments(r.departmentStats)
  {
    var departmentStats := WithEngagement(Distribute(log, draws));
    OrganizationStats(
      Count(log, HasKind(FeedbackTag)),
      Count(log, HasKind(AppreciationTag)),
      RoundHalfUp(DepartmentSum(departmentStats, EngagementOf), |Departments|),
      departmentStats)
  }

  /** getOrganizationStats, with the random department choice for the i-th
      item supplied as draws[i]. */
  method GetOrganizationStats(log: seq<FeedbackItem>, draws: seq<DepartmentIndex>) returns (stats: OrganizationStats)
    requires |draws| == |log|
    ensures stats == OrganizationStatsOf(log, draws)
  {
    var totalFeedbacks := Count(log, HasKind(FeedbackTag));
    var totalAppreciations := Count(log, HasKind(AppreciationTag));
    var departmentStats := DistributeItems(log, draws);
    departmentStats := ScoreDepartments(departmentStats);
    var averageEngagement := RoundHalfUp(DepartmentSum(departmentStats, EngagementOf), |Departments|);
    stats := OrganizationStats(totalFeedbacks, totalAppreciations, averageEngagement, departmentStats);
  }

  /** The first forEach of getOrganizationStats: each item counted in its
      drawn department. */
  method DistributeItems(log: seq<FeedbackItem>, draws: seq<DepartmentIndex>) returns (departmentStats: map<string, DepartmentStats>)
    requires |draws| == |log|
    ensures departmentStats == Distribute(log, draws)
  {
    departmentStats := InitialDepartmentStats;
    var i := 0;
    while i < |log|
      invariant 0 <= i <= |log|
      invariant departmentStats == Distribute(log[..i], draws[..i])
    {
      var department := Departments[draws[i]];
      if log[i].kind == FeedbackTag {
        departmentStats := departmentStats[department :=
          departmentStats[department].(feedbacks := departmentStats[department].feedbacks + 1)];
      } else {
        departmentStats := departmentStats[department :=
          departmentStats[department].(appreciations := departmentStats[department].appreciations + 1)];
      }
      assert log[..i + 1][..i] == log[..i];
      assert draws[..i + 1][..i] == draws[..i];
      i := i + 1;
    }
    assert log[..i] == log && draws[..i] == draws;
  }

  /** The second forEach of getOrganizationStats: each department's
      engagement computed from its counts. */
  method ScoreDepartments(counts: map<string, DepartmentStats>) returns (departmentStats: map<string, DepartmentStats>)
    requires HasDepartments(counts)
    ensures departmentStats == WithEngagement(counts)
  {
    departmentStats := counts;
    var j := 0;
    while j < |Departments|
      invariant 0 <= j <= |Departments|
      invariant departmentStats.Keys == counts.Keys
      invariant forall d :: d in counts ==>
        departmentStats[d] == if d in Departments[..j] then counts[d].(engagement := DepartmentEngagement(counts[d])) else counts[d]
    {
      var dept := Departments[j];
      assert Departments[..j + 1] == Departments[..j] + [dept];
      departmentStats := departmentStats[dept :=
        departmentStats[dept].(engagement := DepartmentEngagement(departmentStats[dept]))];
      j := j + 1;
    }
    assert Departments[..j] == Departments;
  }

  /** Assigning one item adds one to exactly one of the two department totals. */
  lemma AssignSums(m: map<string, DepartmentStats>, f: FeedbackItem, k: DepartmentIndex)
    requires HasDepartments(m)
    ensures f.kind == FeedbackTag ==>
      DepartmentSum(Assign(m, f, k), FeedbacksOf) == DepartmentSum(m, FeedbacksOf) + 1 &&
      DepartmentSum(Assign(m, f, k), AppreciationsOf) == DepartmentSum(m, AppreciationsOf)
    ensures f.kind != FeedbackTag ==>
      DepartmentSum(Assign(m, f, k), FeedbacksOf) == DepartmentSum(m, FeedbacksOf) &&
      DepartmentSum(Assign(m, f, k), AppreciationsOf) == DepartmentSum(m, AppreciationsOf) + 1
  {
    assert Departments[k] in {"Engineering", "Marketing", "Sales", "HR"};
  }

  /** Distributing items conserves them: the department feedback counts add
      up to the 'feedback' items, and the appreciation counts to all others. */
  lemma {:induction false} DistributeConserves(items: seq<FeedbackItem>, draws: seq<DepartmentIndex>)
    requires |draws| == |items|
    ensures DepartmentSum(Distribute(items, draws), FeedbacksOf) == Count(items, HasKind(FeedbackTag))
    ensures DepartmentSum(Distribute(items, draws), AppreciationsOf) == |items| - Count(items, HasKind(FeedbackTag))
  {
    if items != [] {
      var n := |items| - 1;
      DistributeConserves(items[..n], draws[..n]);
      AssignSums(Distribute(items[..n], draws[..n]), items[n], draws[n]);
      assert items == items[..n] + [items[n]];
      FilterSnoc(items[..n], items[n], HasKind(FeedbackTag));
    }
  }

  /** The organisation view: always the four fixed departments; whatever the
      draws, their counts add up to the whole log, the feedback counts to the
      'feedback' items; each engagement and the average lie in [0, 100]. */
  lemma OrganizationTotals(log: seq<FeedbackItem>, draws: seq<DepartmentIndex>)
    requires |draws| == |log|
    ensures HasDepartments(OrganizationStatsOf(log, draws).departmentStats)
    ensures DepartmentSum(OrganizationStatsOf(log, draws).departmentStats, FeedbacksOf) +
            DepartmentSum(OrganizationStatsOf(log, draws).departmentStats, AppreciationsOf) == |log|
    ensures DepartmentSum(OrganizationStatsOf(log, draws).departmentStats, FeedbacksOf) ==
            OrganizationStatsOf(log, draws).totalFeedbacks
    ensures forall d :: d in OrganizationStatsOf(log, draws).departmentStats ==>
      OrganizationStatsOf(log, draws).departmentStats[d].engagement <= 100
    ensures OrganizationStatsOf(log, draws).averageEngagement <= 100
  {
    var counts := Distribute(log, draws);
    DistributeConserves(log, draws);
    ScoredDepartments(counts);
    RoundHalfUpAtMost(DepartmentSum(WithEngagement(counts), EngagementOf), 4, 100);
  }

  /** Scoring the departments keeps their keys and counts and puts every
      engagement at most 100. */
  lemma ScoredDepartments(counts: map<string, DepartmentStats>)
    requires HasDepartments(counts)
    ensures HasDepartments(WithEngagement(counts))
    ensures DepartmentSum(WithEngagement(counts), FeedbacksOf) == DepartmentSum(counts, FeedbacksOf)
    ensures DepartmentSum(WithEngagement(counts), AppreciationsOf) == DepartmentSum(counts, AppreciationsOf)
    ensures forall d :: d in WithEngagement(counts) ==> WithEngagement(counts)[d].engagement <= 100
    ensures DepartmentSum(WithEngagement(counts), EngagementOf) <= 100 * 4
  {
  }

  /** Over a log of 'consider' and 'continue' items the organisation counts
      no feedback and no appreciation, yet its departments hold every item
      as an appreciation. */
  lemma OrganizationStatsOfWellTypedLog(log: seq<FeedbackItem>, draws: seq<DepartmentIndex>)
    requires |draws| == |log|
    requires AllWellTyped(log)
    ensures OrganizationStatsOf(log, draws).totalFeedbacks == 0
    ensures OrganizationStatsOf(log, draws).totalAppreciations == 0
    ensures DepartmentSum(OrganizationStatsOf(log, draws).departmentStats, AppreciationsOf) == |log|
  {
    WellTypedTagCountsZero(log);
    OrganizationTotals(log, draws);
  }
}
