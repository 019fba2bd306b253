// Filtered, paginated campaign lists, newest first.

module Listing {
  import opened Prelude
  import opened Records

  datatype CampaignFilter = CampaignFilter(
    status: Option<CampaignStatus>,
    targetId: Option<string>,
    since: Option<Time>,
    until: Option<Time>,
    limit: int,
    offset: int)

  predicate Matches(filter: CampaignFilter, c: CampaignRecord) {
    && (filter.status.Some? ==> c.status == filter.status.value)
    && (filter.targetId.Some? ==> c.input.targetId == filter.targetId.value)
    && (filter.since.Some? ==> c.createdAt >= filter.since.value)
    && (filter.until.Some? ==> c.createdAt <= filter.until.value)
  }

  function Matched(campaigns: seq<CampaignRecord>, filter: CampaignFilter): seq<CampaignRecord> {
    if campaigns == [] then []
    else (if Matches(filter, campaigns[0]) then [campaigns[0]] else []) + Matched(campaigns[1..], filter)
  }

  // `c` goes before the first campaign that is not newer: a stable sort, newest first.
  function Insert(c: CampaignRecord, sorted: seq<CampaignRecord>): seq<CampaignRecord> {
    if sorted != [] && sorted[0].createdAt > c.createdAt then [sorted[0]] + Insert(c, sorted[1..])
    else [c] + sorted
  }

  function NewestFirst(campaigns: seq<CampaignRecord>): seq<CampaignRecord> {
    if campaigns == [] then [] else Insert(campaigns[0], NewestFirst(campaigns[1..]))
  }

  function Listed(campaigns: seq<CampaignRecord>, filter: CampaignFilter): seq<CampaignRecord> {
    NewestFirst(Matched(campaigns, filter))
  }

  function Page(listed: seq<CampaignRecord>, offset: int, limit: int): seq<CampaignRecord> {
    var from := if offset < 0 then 0 else if offset < |listed| then offset else |listed|;
    var count := if limit < 0 then 0 else limit;
    listed[from..if from + count < |listed| then from + count else |listed|]
  }

  // The campaigns created at `t`, in order.
  function CreatedAt(campaigns: seq<CampaignRecord>, t: Time): seq<CampaignRecord> {
    if campaigns == [] then []
    else (if campaigns[0].createdAt == t then [campaigns[0]] else []) + CreatedAt(campaigns[1..], t)
  }

  ghost predicate Descending(campaigns: seq<CampaignRecord>) {
    forall i, k :: 0 <= i < k < |campaigns| ==> campaigns[i].createdAt >= campaigns[k].createdAt
  }

  // ----- the filter -----

  lemma {:induction false} MatchedExactly(campaigns: seq<CampaignRecord>, filter: CampaignFilter, c: CampaignRecord)
    ensures multiset(Matched(campaigns, filter))[c] == if Matches(filter, c) then multiset(campaigns)[c] else 0
  {
    if campaigns != [] {
      assert campaigns == [campaigns[0]] + campaigns[1..];
      MatchedExactly(campaigns[1..], filter, c);
    }
  }

  // Which campaigns are listed: those of the store that meet every criterion given, both times included.
  lemma ListedDecides(campaigns: seq<CampaignRecord>, filter: CampaignFilter, c: CampaignRecord)
    ensures c in Listed(campaigns, filter) <==>
              && c in campaigns
              && (filter.status == None || filter.status == Some(c.status))
              && (filter.targetId == None || filter.targetId == Some(c.input.targetId))
              && (filter.since == None || exists t :: filter.since == Some(t) && t <= c.createdAt)
              && (filter.until == None || exists t :: filter.until == Some(t) && c.createdAt <= t)
  {
    NewestFirstSorts(Matched(campaigns, filter), 0);
    MatchedExactly(campaigns, filter, c);
    assert c in Listed(campaigns, filter) <==> multiset(Listed(campaigns, filter))[c] > 0;
    assert c in campaigns <==> multiset(campaigns)[c] > 0;
    assert filter.since.Some? ==> filter.since == Some(filter.since.value);
    assert filter.until.Some? ==> filter.until == Some(filter.until.value);
  }

  // And in their order: whatever comes before in the vector comes before in the result. With the counts
  // above this determines the result.
  lemma {:induction false} MatchedInOrder(before: seq<CampaignRecord>, after: seq<CampaignRecord>,
                                          filter: CampaignFilter)
    ensures Matched(before + after, filter) == Matched(before, filter) + Matched(after, filter)
  {
    if before == [] {
      assert before + after == after;
    } else {
      assert (before + after)[1..] == before[1..] + after;
      MatchedInOrder(before[1..], after, filter);
    }
  }

  // Which campaigns are listed does not depend on the page asked for.
  lemma {:induction false} MatchedIgnoresPaging(campaigns: seq<CampaignRecord>, filter: CampaignFilter, offset: int,
                                                limit: int)
    ensures Matched(campaigns, filter.(offset := offset, limit := limit)) == Matched(campaigns, filter)
  {
    if campaigns != [] {
      MatchedIgnoresPaging(campaigns[1..], filter, offset, limit);
    }
  }

  lemma ListedIgnoresPaging(campaigns: seq<CampaignRecord>, filter: CampaignFilter, offset: int, limit: int)
    ensures Listed(campaigns, filter.(offset := offset, limit := limit)) == Listed(campaigns, filter)
  {
    MatchedIgnoresPaging(campaigns, filter, offset, limit);
  }

  // ----- the sort -----

  lemma {:induction false} InsertAdds(c: CampaignRecord, sorted: seq<CampaignRecord>)
    ensures multiset(Insert(c, sorted)) == multiset{c} + multiset(sorted)
  {
    if sorted != [] && sorted[0].createdAt > c.createdAt {
      InsertAdds(c, sorted[1..]);
      assert sorted == [sorted[0]] + sorted[1..];
    }
  }

  lemma {:induction false} InsertDescends(c: CampaignRecord, sorted: seq<CampaignRecord>)
    requires Descending(sorted)
    ensures Descending(Insert(c, sorted))
  {
    if sorted != [] && sorted[0].createdAt > c.createdAt {
      InsertDescends(c, sorted[1..]);
      InsertAdds(c, sorted[1..]);
      var rest := Insert(c, sorted[1..]);
      forall d | d in rest ensures d.createdAt <= sorted[0].createdAt {
        assert d in multiset(rest);
        assert d == c || d in sorted[1..];
      }
    }
  }

  lemma {:induction false} InsertKeepsTies(c: CampaignRecord, sorted: seq<CampaignRecord>, t: Time)
    requires Descending(sorted)
    ensures CreatedAt(Insert(c, sorted), t) == (if c.createdAt == t then [c] else []) + CreatedAt(sorted, t)
  {
    if sorted != [] && sorted[0].createdAt > c.createdAt {
      InsertKeepsTies(c, sorted[1..], t);
    }
  }

  // Sorting keeps every campaign, orders them newest first, and keeps ties in their given order.
  lemma {:induction false} NewestFirstSorts(campaigns: seq<CampaignRecord>, t: Time)
    ensures Descending(NewestFirst(campaigns))
    ensures multiset(NewestFirst(campaigns)) == multiset(campaigns)
    ensures CreatedAt(NewestFirst(campaigns), t) == CreatedAt(campaigns, t)
  {
    if campaigns != [] {
      NewestFirstSorts(campaigns[1..], t);
      InsertAdds(campaigns[0], NewestFirst(campaigns[1..]));
      InsertDescends(campaigns[0], NewestFirst(campaigns[1..]));
      InsertKeepsTies(campaigns[0], NewestFirst(campaigns[1..]), t);
      assert campaigns == [campaigns[0]] + campaigns[1..];
    }
  }

  // Those facts leave one possible order, so any stable newest-first sort is this one.
  lemma {:induction false} StableSortIsUnique(a: seq<CampaignRecord>, b: seq<CampaignRecord>)
    requires Descending(a) && Descending(b)
    requires forall t :: CreatedAt(a, t) == CreatedAt(b, t)
    ensures a == b
  {
    if a == [] {
      if b != [] {
        var none := CreatedAt(a, b[0].createdAt);
      }
    } else {
      var t := a[0].createdAt;
      assert CreatedAt(b, t) == CreatedAt(a, t) && a[0] in CreatedAt(a, t);
      CreatedAtOnly(b, t);
      assert b != [];
      var u := b[0].createdAt;
      assert CreatedAt(a, u) == CreatedAt(b, u) && b[0] in CreatedAt(b, u);
      CreatedAtOnly(a, u);
      assert t == u;
      assert CreatedAt(a, t)[0] == a[0] && CreatedAt(b, t)[0] == b[0];
      forall v ensures CreatedAt(a[1..], v) == CreatedAt(b[1..], v) {
        assert CreatedAt(a, v) == CreatedAt(b, v);
        assert CreatedAt(a[1..], v) == CreatedAt(a, v)[if t == v then 1 else 0..];
        assert CreatedAt(b[1..], v) == CreatedAt(b, v)[if t == v then 1 else 0..];
      }
      StableSortIsUnique(a[1..], b[1..]);
    }
  }

  lemma {:induction false} CreatedAtOnly(campaigns: seq<CampaignRecord>, t: Time)
    ensures forall c :: c in CreatedAt(campaigns, t) ==> c in campaigns && c.createdAt == t
  {
    if campaigns != [] {
      CreatedAtOnly(campaigns[1..], t);
    }
  }

  // ----- the pages -----

  // A page holds the entries from `offset` on, in order, `limit` of them or up to the end.
  lemma PageDecides(listed: seq<CampaignRecord>, offset: nat, limit: nat)
    ensures var page := Page(listed, offset, limit);
            && |page| <= limit
            && (|page| < limit ==> |listed| <= offset + |page|)
            && forall i :: 0 <= i < |page| ==> offset + i < |listed| && page[i] == listed[offset + i]
  {
  }

  // The pages at `offset`, `offset + limit`, ... up to the end, one after the other.
  function PagesFrom(listed: seq<CampaignRecord>, offset: nat, limit: nat): seq<CampaignRecord>
    requires limit >= 1
    decreases |listed| - offset
  {
    if offset >= |listed| then [] else Page(listed, offset, limit) + PagesFrom(listed, offset + limit, limit)
  }

  lemma {:induction false} PagesFromIsSuffix(listed: seq<CampaignRecord>, offset: nat, limit: nat)
    requires limit >= 1
    ensures PagesFrom(listed, offset, limit) == if offset >= |listed| then [] else listed[offset..]
    decreases |listed| - offset
  {
    if offset < |listed| {
      PagesFromIsSuffix(listed, offset + limit, limit);
    }
  }

  // For every filter and page size, reading page after page yields each matching campaign exactly
  // once, newest first, ties in creation order.
  lemma PagesListEverything(campaigns: seq<CampaignRecord>, filter: CampaignFilter, limit: nat)
    requires limit >= 1
    ensures var all := PagesFrom(Listed(campaigns, filter), 0, limit);
            && Descending(all)
            && (forall c :: multiset(all)[c] == if Matches(filter, c) then multiset(campaigns)[c] else 0)
            && (forall t :: CreatedAt(all, t) == CreatedAt(Matched(campaigns, filter), t))
  {
    var listed := Listed(campaigns, filter);
    PagesFromIsSuffix(listed, 0, limit);
    assert listed == [] || listed[0..] == listed;
    forall t ensures Descending(listed) && multiset(listed) == multiset(Matched(campaigns, filter))
                     && CreatedAt(listed, t) == CreatedAt(Matched(campaigns, filter), t)
    {
      NewestFirstSorts(Matched(campaigns, filter), t);
    }
    NewestFirstSorts(Matched(campaigns, filter), 0);
    forall c ensures multiset(listed)[c] == if Matches(filter, c) then multiset(campaigns)[c] else 0 {
      MatchedExactly(campaigns, filter, c);
    }
  }
}
