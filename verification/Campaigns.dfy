/** Campaign launch: chunked inserts re-read by creation time, then a staggered bulk enqueue. */
module Campaigns {
  import opened Utils

  const CHUNK := 500
  const STAGGER_MS := 50
  const SPACING_MS := 10
  const REREAD_WINDOW_MS := 60_000

  datatype Recipient = Recipient(id: nat, phone: Option<string>)

  /** A missing number and an empty one are both skipped. */
  predicate Sendable(phone: Option<string>) {
    phone.Some? && phone.value != ""
  }

  datatype Row = Row(id: nat, campaignId: string, customerId: nat, createdAt: int, pending: bool)

  datatype Job = Job(messageId: nat, customerId: nat, phone: string)

  datatype CampaignStatus = DRAFT | SCHEDULED | ACTIVE | PAUSED | COMPLETED

  datatype Error = AlreadyLaunched | AlreadyCompleted | HasNoLayout | InsufficientQuota

  datatype Outcome = Refused(error: Error) | Launched(queued: nat, skipped: nat)

  /** A job and the milliseconds it waits before it may run. */
  datatype Queued = Queued(job: Job, delay: nat)

  // ---- The message table -------------------------------------------------------------------------

  predicate Matching(row: Row, campaign: string, since: int) {
    row.campaignId == campaign && row.pending && row.createdAt >= since
  }

  function Pending(rows: seq<Row>, campaign: string, since: int): seq<Row> {
    if rows == [] then []
    else
      var last := rows[|rows| - 1];
      Pending(rows[..|rows| - 1], campaign, since) + if Matching(last, campaign, since) then [last] else []
  }

  ghost predicate ByTime(rows: seq<Row>) {
    forall i, j :: 0 <= i < j < |rows| ==> rows[i].createdAt <= rows[j].createdAt
  }

  /** An answer to the re-read before skipping: the matching rows ordered by creation time, ties in any order. */
  ghost predicate IsView(view: seq<Row>, rows: seq<Row>, campaign: string, since: int) {
    multiset(view) == multiset(Pending(rows, campaign, since)) && ByTime(view)
  }

  function Slice<T>(s: seq<T>, skip: nat, take: nat): seq<T> {
    if |s| <= skip then [] else if |s| - skip <= take then s[skip..] else s[skip..skip + take]
  }

  /** Rows for one insert: consecutive new ids, one creation time. */
  function NewRows(firstId: nat, campaign: string, customers: seq<nat>, at: int): (rows: seq<Row>)
    ensures |rows| == |customers|
  {
    seq(|customers|, i requires 0 <= i < |customers| => Row(firstId + i, campaign, customers[i], at, true))
  }

  function InsertByTime(sorted: seq<Row>, row: Row): (r: seq<Row>)
    ensures multiset(r) == multiset(sorted) + multiset{row}
  {
    if sorted == [] || sorted[|sorted| - 1].createdAt <= row.createdAt then sorted + [row]
    else
      var last := sorted[|sorted| - 1];
      assert sorted == sorted[..|sorted| - 1] + [last];
      InsertByTime(sorted[..|sorted| - 1], row) + [last]
  }

  function SortByTime(rows: seq<Row>): (r: seq<Row>)
    ensures multiset(r) == multiset(rows)
  {
    if rows == [] then []
    else
      assert rows == rows[..|rows| - 1] + [rows[|rows| - 1]];
      InsertByTime(SortByTime(rows[..|rows| - 1]), rows[|rows| - 1])
  }

  lemma {:induction false} InsertKeepsByTime(sorted: seq<Row>, row: Row)
    requires ByTime(sorted)
    ensures ByTime(InsertByTime(sorted, row))
  {
    if sorted != [] && sorted[|sorted| - 1].createdAt > row.createdAt {
      var front, last := sorted[..|sorted| - 1], sorted[|sorted| - 1];
      InsertKeepsByTime(front, row);
      var r := InsertByTime(front, row);
      forall i | 0 <= i < |r| ensures r[i].createdAt <= last.createdAt {
        assert r[i] in multiset(r);
      }
    }
  }

  lemma {:induction false} SortIsByTime(rows: seq<Row>)
    ensures ByTime(SortByTime(rows))
  {
    if rows != [] {
      SortIsByTime(rows[..|rows| - 1]);
      InsertKeepsByTime(SortByTime(rows[..|rows| - 1]), rows[|rows| - 1]);
    }
  }

  // ---- What a re-read returns --------------------------------------------------------------------

  lemma {:induction false} PendingConcat(a: seq<Row>, b: seq<Row>, campaign: string, since: int)
    ensures Pending(a + b, campaign, since) == Pending(a, campaign, since) + Pending(b, campaign, since)
    decreases |b|
  {
    if b == [] {
      assert a + b == a;
    } else {
      PendingConcat(a, b[..|b| - 1], campaign, since);
      assert (a + b)[..|a + b| - 1] == a + b[..|b| - 1];
    }
  }

  lemma {:induction false} PendingAreRows(rows: seq<Row>, campaign: string, since: int)
    ensures forall r :: r in Pending(rows, campaign, since) <==> r in rows && Matching(r, campaign, since)
  {
    if rows != [] {
      PendingAreRows(rows[..|rows| - 1], campaign, since);
      assert rows == rows[..|rows| - 1] + [rows[|rows| - 1]];
    }
  }

  /** Whatever a re-read returns is a waiting row of the campaign. */
  ghost predicate Waiting(read: seq<Row>, rows: seq<Row>, campaign: string) {
    forall r :: r in read ==> r in rows && r.campaignId == campaign && r.pending
  }

  lemma PageIsWaiting(view: seq<Row>, rows: seq<Row>, campaign: string, since: int, skip: nat, take: nat)
    requires IsView(view, rows, campaign, since)
    ensures Waiting(Slice(view, skip, take), rows, campaign)
  {
    PendingAreRows(rows, campaign, since);
    forall r | r in Slice(view, skip, take) ensures r in rows && Matching(r, campaign, since) {
      assert r in multiset(view) && r in multiset(Pending(rows, campaign, since));
    }
  }

  lemma {:induction false} PendingAll(rows: seq<Row>, campaign: string, since: int)
    requires forall i :: 0 <= i < |rows| ==> Matching(rows[i], campaign, since)
    ensures Pending(rows, campaign, since) == rows
  {
    if rows != [] {
      PendingAll(rows[..|rows| - 1], campaign, since);
      assert rows == rows[..|rows| - 1] + [rows[|rows| - 1]];
    }
  }

  lemma {:induction false} PendingNone(rows: seq<Row>, campaign: string, since: int)
    requires forall i :: 0 <= i < |rows| ==> !(rows[i].campaignId == campaign && rows[i].pending)
    ensures Pending(rows, campaign, since) == []
  {
    if rows != [] {
      PendingNone(rows[..|rows| - 1], campaign, since);
    }
  }

  /** The first position of a time-ordered view at or after time t. */
  lemma {:induction false} Boundary(view: seq<Row>, t: int) returns (k: nat)
    requires ByTime(view)
    ensures k <= |view|
    ensures forall i :: 0 <= i < k ==> view[i].createdAt < t
    ensures forall i :: k <= i < |view| ==> view[i].createdAt >= t
  {
    if view == [] || view[|view| - 1].createdAt < t {
      k := |view|;
    } else {
      k := Boundary(view[..|view| - 1], t);
      if k == |view| - 1 {
      }
    }
  }

  /** In a time-ordered view of earlier and later rows, the earlier ones come first. */
  lemma LaterRowsLast(view: seq<Row>, earlier: seq<Row>, later: seq<Row>, t: int)
    requires ByTime(view) && multiset(view) == multiset(earlier) + multiset(later)
    requires forall r :: r in earlier ==> r.createdAt < t
    requires forall r :: r in later ==> r.createdAt >= t
    ensures |view| == |earlier| + |later|
    ensures multiset(view[..|earlier|]) == multiset(earlier) && multiset(view[|earlier|..]) == multiset(later)
  {
    var k := Boundary(view, t);
    forall r ensures multiset(view[..k])[r] == multiset(earlier)[r] && multiset(view[k..])[r] == multiset(later)[r] {
      CountsAtBoundary(view, k, earlier, later, t, r);
    }
    assert multiset(view[..k]) == multiset(earlier) && multiset(view[k..]) == multiset(later);
    assert k == |multiset(view[..k])| == |earlier|;
    assert |view[k..]| == |multiset(view[k..])| == |later|;
  }

  lemma CountsAtBoundary(view: seq<Row>, k: nat, earlier: seq<Row>, later: seq<Row>, t: int, r: Row)
    requires k <= |view| && multiset(view) == multiset(earlier) + multiset(later)
    requires forall i :: 0 <= i < k ==> view[i].createdAt < t
    requires forall i :: k <= i < |view| ==> view[i].createdAt >= t
    requires forall r :: r in earlier ==> r.createdAt < t
    requires forall r :: r in later ==> r.createdAt >= t
    ensures multiset(view[..k])[r] == multiset(earlier)[r] && multiset(view[k..])[r] == multiset(later)[r]
  {
    assert view == view[..k] + view[k..];
    assert multiset(view)[r] == multiset(view[..k])[r] + multiset(view[k..])[r];
    if r.createdAt < t {
      assert r !in view[k..] && r !in later;
      assert multiset(view[k..])[r] == 0 == multiset(later)[r];
    } else {
      assert r !in view[..k] && r !in earlier;
      assert multiset(view[..k])[r] == 0 == multiset(earlier)[r];
    }
  }

  // ---- Launch ------------------------------------------------------------------------------------

  function Reachable(recipients: seq<Recipient>): (reachable: seq<Recipient>)
    ensures forall r :: r in reachable <==> r in recipients && Sendable(r.phone)
    ensures |reachable| <= |recipients|
  {
    if recipients == [] then []
    else
      var last := recipients[|recipients| - 1];
      assert recipients == recipients[..|recipients| - 1] + [last];
      Reachable(recipients[..|recipients| - 1]) + if Sendable(last.phone) then [last] else []
  }

  ghost predicate DistinctIds(recipients: seq<Recipient>) {
    forall i, j :: 0 <= i < j < |recipients| ==> recipients[i].id != recipients[j].id
  }

  function CustomerIds(recipients: seq<Recipient>): (ids: seq<nat>)
    ensures |ids| == |recipients| && forall i :: 0 <= i < |ids| ==> ids[i] == recipients[i].id
  {
    seq(|recipients|, i requires 0 <= i < |recipients| => recipients[i].id)
  }

  function JobCustomers(jobs: seq<Job>): (ids: seq<nat>)
    ensures |ids| == |jobs|
  {
    seq(|jobs|, i requires 0 <= i < |jobs| => jobs[i].customerId)
  }

  function JobMessages(jobs: seq<Job>): (ids: seq<nat>)
    ensures |ids| == |jobs|
  {
    seq(|jobs|, i requires 0 <= i < |jobs| => jobs[i].messageId)
  }

  function Chunks(n: nat): nat {
    (n + CHUNK - 1) / CHUNK
  }

  /** The clock readings of a launch: the creation time of each insert and the time of each re-read. */
  datatype Clock = Clock(insertedAt: nat -> int, readAt: nat -> int)

  /** Each chunk is created after the one before, and no re-read falls out of the window of the first. */
  ghost predicate Orderly(clock: Clock, chunks: nat) {
    && (forall i: nat, j: nat :: i < j < chunks ==> clock.insertedAt(i) < clock.insertedAt(j))
    && (forall i: nat, j: nat :: i <= j < chunks ==> clock.insertedAt(i) >= clock.readAt(j) - REREAD_WINDOW_MS)
  }

  /** The first recipient listed under an id, as the launcher looks it up. */
  function PhoneOf(recipients: seq<Recipient>, id: nat): Option<string> {
    if recipients == [] then None
    else if recipients[0].id == id then recipients[0].phone
    else PhoneOf(recipients[1..], id)
  }

  lemma {:induction false} PhoneFound(recipients: seq<Recipient>, r: Recipient)
    requires DistinctIds(recipients) && r in recipients
    ensures PhoneOf(recipients, r.id) == r.phone
  {
    if recipients[0] != r {
      assert r in recipients[1..];
      var i :| 0 < i < |recipients| && recipients[i] == r;
      PhoneFound(recipients[1..], r);
    }
  }

  predicate MadeFrom(job: Job, row: Row, recipients: seq<Recipient>) {
    && job.messageId == row.id && job.customerId == row.customerId
    && PhoneOf(recipients, row.customerId) == Some(job.phone)
  }

  /** One job per re-read row whose customer is a recipient with a number; other rows are passed over. */
  function JobsFor(rows: seq<Row>, recipients: seq<Recipient>): (jobs: seq<Job>)
    ensures forall j :: j in jobs ==> exists r :: r in rows && MadeFrom(j, r, recipients)
  {
    if rows == [] then []
    else
      var last := rows[|rows| - 1];
      var phone := PhoneOf(recipients, last.customerId);
      var front := JobsFor(rows[..|rows| - 1], recipients);
      if !Sendable(phone) then front
      else
        assert MadeFrom(Job(last.id, last.customerId, phone.value), last, recipients);
        front + [Job(last.id, last.customerId, phone.value)]
  }

  lemma {:induction false} JobsForConcat(a: seq<Row>, b: seq<Row>, recipients: seq<Recipient>)
    ensures JobsFor(a + b, recipients) == JobsFor(a, recipients) + JobsFor(b, recipients)
    decreases |b|
  {
    if b == [] {
      assert a + b == a;
    } else {
      JobsForConcat(a, b[..|b| - 1], recipients);
      assert (a + b)[..|a + b| - 1] == a + b[..|b| - 1];
    }
  }

  predicate AllMadeFrom(jobs: seq<Job>, rows: seq<Row>, recipients: seq<Recipient>) {
    |jobs| == |rows| && forall k :: 0 <= k < |jobs| ==> MadeFrom(jobs[k], rows[k], recipients)
  }

  lemma {:induction false} NoRowPassedOver(rows: seq<Row>, recipients: seq<Recipient>)
    requires forall r :: r in rows ==> Sendable(PhoneOf(recipients, r.customerId))
    ensures AllMadeFrom(JobsFor(rows, recipients), rows, recipients)
  {
    if rows != [] {
      NoRowPassedOver(rows[..|rows| - 1], recipients);
    }
  }

  /** The rows a launch has written: one per record so far, chunk by chunk. */
  ghost predicate Written(mine: seq<Row>, firstId: nat, campaign: string, customers: seq<nat>, clock: Clock) {
    && |mine| <= |customers|
    && forall k :: 0 <= k < |mine| ==>
         mine[k] == Row(firstId + k, campaign, customers[k], clock.insertedAt(k / CHUNK), true)
  }

  /** No row of the campaign is waiting. */
  ghost predicate NoneWaiting(rows: seq<Row>, campaign: string) {
    forall r :: r in rows ==> !(r.campaignId == campaign && r.pending)
  }

  /** The rows of chunk c, appended to the rows of the chunks before. */
  lemma ChunkWritten(mine: seq<Row>, firstId: nat, campaign: string, customers: seq<nat>, clock: Clock, c: nat,
                     end: nat)
    requires Written(mine, firstId, campaign, customers, clock) && |mine| == c * CHUNK
    requires |mine| < end <= |customers| && end - |mine| <= CHUNK
    ensures Written(mine + NewRows(firstId + |mine|, campaign, customers[|mine|..end], clock.insertedAt(c)),
                    firstId, campaign, customers, clock)
  {
    var more := mine + NewRows(firstId + |mine|, campaign, customers[|mine|..end], clock.insertedAt(c));
    forall k | 0 <= k < |more|
      ensures more[k] == Row(firstId + k, campaign, customers[k], clock.insertedAt(k / CHUNK), true)
    {
      if k >= |mine| {
        assert k / CHUNK == c;
      } else {
        assert more[k] == mine[k];
      }
    }
  }

  lemma AllMatch(base: seq<Row>, mine: seq<Row>, added: seq<Row>, campaign: string, since: int)
    requires NoneWaiting(base, campaign)
    requires forall r :: r in mine + added ==> Matching(r, campaign, since)
    ensures Pending(base + mine + added, campaign, since) == mine + added
  {
    PendingConcat(base, mine + added, campaign, since);
    assert base + mine + added == base + (mine + added);
    PendingNone(base, campaign, since);
    PendingAll(mine + added, campaign, since);
  }

  datatype Side = Before | At | After

  predicate OnSide(r: Row, t: int, side: Side) {
    match side
    case Before => r.createdAt < t
    case At => r.createdAt == t
    case After => r.createdAt > t
  }

  /** The rows created before, at or after time t. */
  function Sift(rows: seq<Row>, t: int, side: Side): (sifted: seq<Row>)
    ensures forall r :: r in sifted <==> r in rows && OnSide(r, t, side)
  {
    if rows == [] then []
    else
      var last := rows[|rows| - 1];
      assert rows == rows[..|rows| - 1] + [last];
      Sift(rows[..|rows| - 1], t, side) + if OnSide(last, t, side) then [last] else []
  }

  lemma {:induction false} SiftCount(rows: seq<Row>, t: int, side: Side, r: Row)
    ensures multiset(Sift(rows, t, side))[r] == if OnSide(r, t, side) then multiset(rows)[r] else 0
  {
    if rows != [] {
      SiftCount(rows[..|rows| - 1], t, side, r);
      assert rows == rows[..|rows| - 1] + [rows[|rows| - 1]];
    }
  }

  lemma SiftParts(rows: seq<Row>, t: int)
    ensures multiset(rows)
         == multiset(Sift(rows, t, Before)) + multiset(Sift(rows, t, At)) + multiset(Sift(rows, t, After))
  {
    hide Sift;
    forall r
      ensures multiset(rows)[r]
           == (multiset(Sift(rows, t, Before)) + multiset(Sift(rows, t, At)) + multiset(Sift(rows, t, After)))[r]
    {
      SiftCount(rows, t, Before, r);
      SiftCount(rows, t, At, r);
      SiftCount(rows, t, After, r);
    }
  }

  lemma {:induction false} SiftNone(rows: seq<Row>, t: int, side: Side)
    requires forall r :: r in rows ==> !OnSide(r, t, side)
    ensures Sift(rows, t, side) == []
  {
    if rows != [] {
      SiftNone(rows[..|rows| - 1], t, side);
      assert rows[|rows| - 1] in rows;
    }
  }

  /** Among the earlier rows the re-read sees, exactly as many precede the chunk as are skipped, none ties
      with it, and none follows it unless the chunk fills the page. */
  ghost predicate InPlace(earlier: seq<Row>, t: int, skip: nat, size: nat) {
    && |Sift(earlier, t, Before)| == skip
    && Sift(earlier, t, At) == []
    && (Sift(earlier, t, After) == [] || size == CHUNK)
  }

  /**
   * The exact condition for one re-read, whatever else is in the table: it returns exactly the newly added
   * chunk, in every order the database may give ties, if and only if the chunk is still inside the window
   * and in place among the earlier matching rows.
   */
  lemma RereadIsChunk(earlier: seq<Row>, added: seq<Row>, campaign: string, since: int, t: int, skip: nat)
    requires 0 < |added| <= CHUNK
    requires forall r :: r in added ==> r.campaignId == campaign && r.pending && r.createdAt == t && r !in earlier
    ensures (forall view :: IsView(view, earlier + added, campaign, since)
                       ==> multiset(Slice(view, skip, CHUNK)) == multiset(added))
       <==> t >= since && InPlace(Pending(earlier, campaign, since), t, skip, |added|)
  {
    var seen := Pending(earlier, campaign, since);
    PendingAreRows(earlier, campaign, since);
    PendingConcat(earlier, added, campaign, since);
    if t < since {
      OutOfWindow(added, campaign, since);
      SortIsByTime(seen);
      var view := SortByTime(seen);
      assert IsView(view, earlier + added, campaign, since);
      MissesChunk(view, seen, added, skip);
    } else {
      PendingAll(added, campaign, since);
      hide InPlace, Pending, IsView, Slice, Sift;
      if InPlace(seen, t, skip, |added|) {
        forall view | IsView(view, earlier + added, campaign, since)
          ensures multiset(Slice(view, skip, CHUNK)) == multiset(added)
        {
          ViewParts(view, earlier + added, campaign, since);
          InPlaceSuffices(view, seen, added, t, skip);
        }
      } else {
        var view := OutOfPlaceFails(seen, added, t, skip);
        ViewFrom(view, earlier + added, campaign, since);
      }
    }
  }

  lemma ViewParts(view: seq<Row>, rows: seq<Row>, campaign: string, since: int)
    requires IsView(view, rows, campaign, since)
    ensures ByTime(view) && multiset(view) == multiset(Pending(rows, campaign, since))
  {
  }

  lemma ViewFrom(view: seq<Row>, rows: seq<Row>, campaign: string, since: int)
    requires ByTime(view) && multiset(view) == multiset(Pending(rows, campaign, since))
    ensures IsView(view, rows, campaign, since)
  {
  }

  lemma OutOfWindow(added: seq<Row>, campaign: string, since: int)
    requires forall r :: r in added ==> r.createdAt < since
    ensures Pending(added, campaign, since) == []
  {
    PendingAreRows(added, campaign, since);
    if Pending(added, campaign, since) != [] {
      assert Pending(added, campaign, since)[0] in Pending(added, campaign, since);
    }
  }

  lemma MissesChunk(view: seq<Row>, seen: seq<Row>, added: seq<Row>, skip: nat)
    requires added != [] && multiset(view) == multiset(seen) && forall r :: r in added ==> r !in seen
    ensures multiset(Slice(view, skip, CHUNK)) != multiset(added)
  {
    var page := Slice(view, skip, CHUNK);
    SameMembers(view, seen);
    SliceMembers(view, skip, CHUNK);
    var r := added[0];
    assert r in added && r !in page;
    assert multiset(page)[r] == 0 < multiset(added)[r];
  }

  lemma SliceMembers(view: seq<Row>, skip: nat, take: nat)
    ensures forall r :: r in Slice(view, skip, take) ==> r in view
  {
  }

  /** A block in the middle of a list is the slice exactly when the rows skipped are those before it, and it
      ends the list or fills the page. */
  lemma BlockIsSlice(before: seq<Row>, block: seq<Row>, after: seq<Row>, added: seq<Row>, skip: nat)
    requires 0 < |block| <= CHUNK && multiset(block) == multiset(added)
    requires forall r :: r in before + after ==> r !in added
    ensures multiset(Slice(before + block + after, skip, CHUNK)) == multiset(added)
       <==> skip == |before| && (after == [] || |block| == CHUNK)
  {
    var view := before + block + after;
    var page := Slice(view, skip, CHUNK);
    assert |block| == |multiset(block)| == |added|;
    if skip == |before| && (after == [] || |block| == CHUNK) {
      assert page == block;
    } else if multiset(page) == multiset(added) {
      assert |page| == |multiset(page)| == |block|;
      InBlock(before, block, after, added, skip, 0);
      InBlock(before, block, after, added, skip, |page| - 1);
      assert false;
    }
  }

  lemma InBlock(before: seq<Row>, block: seq<Row>, after: seq<Row>, added: seq<Row>, skip: nat, i: nat)
    requires forall r :: r in before + after ==> r !in added
    requires i < |Slice(before + block + after, skip, CHUNK)|
    requires multiset(Slice(before + block + after, skip, CHUNK)) == multiset(added)
    ensures |before| <= skip + i < |before| + |block|
  {
    var page := Slice(before + block + after, skip, CHUNK);
    OutsideBlock(before, block, after, skip + i);
    assert page[i] == (before + block + after)[skip + i];
    assert page[i] in multiset(page);
  }

  lemma OutsideBlock(before: seq<Row>, block: seq<Row>, after: seq<Row>, k: nat)
    requires k < |before + block + after|
    ensures |before| <= k < |before| + |block| || (before + block + after)[k] in before + after
  {
    if k < |before| {
      assert (before + block + after)[k] == before[k];
    } else if k >= |before| + |block| {
      assert (before + block + after)[k] == after[k - |before| - |block|];
    }
  }

  /** A view of earlier, chunk and later rows, none tied with the chunk, has the chunk as a block. */
  lemma ViewBlocks(view: seq<Row>, before: seq<Row>, added: seq<Row>, after: seq<Row>, t: int)
    returns (front: seq<Row>, block: seq<Row>, rest: seq<Row>)
    requires ByTime(view) && multiset(view) == multiset(before) + multiset(added) + multiset(after)
    requires forall r :: r in before ==> r.createdAt < t
    requires forall r :: r in added ==> r.createdAt == t
    requires forall r :: r in after ==> r.createdAt > t
    ensures view == front + block + rest && multiset(block) == multiset(added)
    ensures multiset(front) == multiset(before) && multiset(rest) == multiset(after)
    ensures |front| == |before| && |block| == |added| && |rest| == |after|
  {
    hide ByTime;
    var rest' := added + after;
    assert multiset(view) == multiset(before) + multiset(rest');
    LaterRowsLast(view, before, rest', t);
    var tail := view[|before|..];
    TailByTime(view, |before|);
    front := view[..|before|];
    block, rest := SplitTail(tail, added, after, t);
    assert view == front + tail;
  }

  lemma SplitTail(tail: seq<Row>, added: seq<Row>, after: seq<Row>, t: int) returns (block: seq<Row>, rest: seq<Row>)
    requires ByTime(tail) && multiset(tail) == multiset(added + after)
    requires forall r :: r in added ==> r.createdAt == t
    requires forall r :: r in after ==> r.createdAt > t
    ensures tail == block + rest && multiset(block) == multiset(added) && multiset(rest) == multiset(after)
    ensures |block| == |added| && |rest| == |after|
  {
    hide ByTime;
    LaterRowsLast(tail, added, after, t + 1);
    block, rest := tail[..|added|], tail[|added|..];
  }

  lemma InPlaceSuffices(view: seq<Row>, seen: seq<Row>, added: seq<Row>, t: int, skip: nat)
    requires 0 < |added| <= CHUNK && InPlace(seen, t, skip, |added|)
    requires ByTime(view) && multiset(view) == multiset(seen + added)
    requires forall r :: r in added ==> r.createdAt == t && r !in seen
    ensures multiset(Slice(view, skip, CHUNK)) == multiset(added)
  {
    hide Slice, Sift, ByTime;
    var before, after := Sift(seen, t, Before), Sift(seen, t, After);
    SiftParts(seen, t);
    var front, block, rest := ViewBlocks(view, before, added, after, t);
    forall r | r in front + rest ensures r !in added {
      assert r in multiset(front) || r in multiset(rest);
      assert r in seen;
    }
    BlockIsSlice(front, block, rest, added, skip);
  }

  lemma TailByTime(view: seq<Row>, k: nat)
    requires ByTime(view) && k <= |view|
    ensures ByTime(view[k..])
  {
  }

  lemma JoinByTime(a: seq<Row>, b: seq<Row>)
    requires ByTime(a) && ByTime(b) && forall r, s :: r in a && s in b ==> r.createdAt <= s.createdAt
    ensures ByTime(a + b)
  {
    forall i, j | 0 <= i < j < |a + b| ensures (a + b)[i].createdAt <= (a + b)[j].createdAt {
      if i < |a| <= j {
        assert a[i] in a && b[j - |a|] in b;
      }
    }
  }

  lemma SameMembers(a: seq<Row>, b: seq<Row>)
    requires multiset(a) == multiset(b)
    ensures forall r :: r in a <==> r in b
  {
    forall r ensures r in a <==> r in b {
      assert r in a <==> r in multiset(a);
    }
  }

  /** The rows `low` in order, then the chunk, then the rows `high` in order. */
  lemma ChunkBetween(low: seq<Row>, added: seq<Row>, high: seq<Row>, t: int) returns (view: seq<Row>)
    requires forall r :: r in low ==> r.createdAt <= t
    requires forall r :: r in added ==> r.createdAt == t
    requires forall r :: r in high ==> r.createdAt >= t
    ensures ByTime(view) && multiset(view) == multiset(low) + multiset(added) + multiset(high)
    ensures |view| == |low| + |added| + |high|
    ensures view == SortByTime(low) + added + SortByTime(high)
    ensures |SortByTime(low)| == |low| && |SortByTime(high)| == |high|
    ensures forall r :: r in SortByTime(low) + SortByTime(high) ==> r in low || r in high
  {
    hide SortByTime;
    SortIsByTime(low);
    SortIsByTime(high);
    var a, b := SortByTime(low), SortByTime(high);
    assert |a| == |multiset(a)| == |low| && |b| == |multiset(b)| == |high|;
    SameMembers(a, low);
    SameMembers(b, high);
    JoinByTime(a, added);
    JoinByTime(a + added, b);
    view := a + added + b;
  }

  /** Out of place, one of two admissible orders goes wrong: the chunk before its ties, or after them. */
  lemma OutOfPlaceFails(seen: seq<Row>, added: seq<Row>, t: int, skip: nat) returns (view: seq<Row>)
    requires 0 < |added| <= CHUNK && !InPlace(seen, t, skip, |added|)
    requires forall r :: r in added ==> r.createdAt == t && r !in seen
    ensures ByTime(view) && multiset(view) == multiset(seen + added)
    ensures multiset(Slice(view, skip, CHUNK)) != multiset(added)
  {
    hide Slice, Sift, SortByTime, ByTime;
    var before, ties, after := Sift(seen, t, Before), Sift(seen, t, At), Sift(seen, t, After);
    SiftParts(seen, t);
    var first := ChunkBetween(before, added, ties + after, t);
    BlockIsSlice(SortByTime(before), added, SortByTime(ties + after), added, skip);
    view := first;
    if multiset(Slice(first, skip, CHUNK)) == multiset(added) {
      view := ChunkBetween(before + ties, added, after, t);
      BlockIsSlice(SortByTime(before + ties), added, SortByTime(after), added, skip);
    }
  }

  lemma InPlaceUnderClock(base: seq<Row>, mine: seq<Row>, added: seq<Row>, campaign: string, since: int, t: int)
    requires NoneWaiting(base, campaign) && added != []
    requires forall r :: r in mine + added ==> Matching(r, campaign, since)
    requires forall r :: r in mine ==> r.createdAt < t
    requires forall r :: r in added ==> r.createdAt == t
    ensures t >= since && InPlace(Pending(base + mine, campaign, since), t, |mine|, |added|)
    ensures forall r :: r in added ==> r !in base + mine
  {
    AllMatch(base, mine, [], campaign, since);
    assert base + mine + [] == base + mine && mine + [] == mine;
    assert added[0] in added && added[0] in mine + added;
    SiftParts(mine, t);
    SiftNone(mine, t, At);
    SiftNone(mine, t, After);
    assert |mine| == |multiset(mine)|;
    assert |Sift(mine, t, Before)| == |multiset(Sift(mine, t, Before))|;
    forall r | r in added ensures r !in base + mine {
      assert r in mine + added;
    }
  }

  /** Under an orderly clock the re-read of chunk c is chunk c. */
  lemma RereadUnderClock(base: seq<Row>, mine: seq<Row>, added: seq<Row>, campaign: string, customers: seq<nat>,
                         clock: Clock, chunks: nat, c: nat, view: seq<Row>)
    requires NoneWaiting(base, campaign) && Orderly(clock, chunks) && c < chunks
    requires Written(mine + added, |base|, campaign, customers, clock)
    requires |mine| == c * CHUNK && 0 < |added| <= CHUNK
    requires IsView(view, base + mine + added, campaign, clock.readAt(c) - REREAD_WINDOW_MS)
    ensures multiset(Slice(view, |mine|, CHUNK)) == multiset(added)
  {
    var since, t, all := clock.readAt(c) - REREAD_WINDOW_MS, clock.insertedAt(c), mine + added;
    forall k | 0 <= k < |all|
      ensures Matching(all[k], campaign, since)
      ensures if k < |mine| then all[k].createdAt < t else all[k].createdAt == t
    {
      assert if k < |mine| then k / CHUNK < c else k / CHUNK == c;
    }
    forall r | r in mine ensures r.createdAt < t && Matching(r, campaign, since) {
      var k :| 0 <= k < |mine| && mine[k] == r;
      assert all[k] == r;
    }
    forall r | r in added ensures r.createdAt == t && Matching(r, campaign, since) {
      var k :| 0 <= k < |added| && added[k] == r;
      assert all[|mine| + k] == r;
    }
    hide Written, Orderly, NoneWaiting, InPlace;
    InPlaceUnderClock(base, mine, added, campaign, since, t);
    assert base + mine + added == (base + mine) + added;
    RereadIsChunk(base + mine, added, campaign, since, t, |mine|);
  }

  lemma {:induction false} RemoveAt<T>(s: seq<T>, i: nat)
    requires i < |s|
    ensures multiset(s) == multiset(s[..i] + s[i + 1..]) + multiset{s[i]}
  {
    assert s == s[..i] + [s[i]] + s[i + 1..];
  }

  function Map<T, U>(f: T -> U, s: seq<T>): (r: seq<U>)
    ensures |r| == |s| && forall i :: 0 <= i < |s| ==> r[i] == f(s[i])
  {
    seq(|s|, i requires 0 <= i < |s| => f(s[i]))
  }

  lemma MapRemoveAt<T, U>(f: T -> U, s: seq<T>, i: nat)
    requires i < |s|
    ensures multiset(Map(f, s)) == multiset(Map(f, s[..i] + s[i + 1..])) + multiset{f(s[i])}
  {
    RemoveAt(Map(f, s), i);
    assert Map(f, s[..i] + s[i + 1..]) == Map(f, s)[..i] + Map(f, s)[i + 1..];
  }

  lemma SameRemoved<T>(a: seq<T>, b: seq<T>, i: nat)
    requires multiset(a) == multiset(b) && a != [] && i < |b| && b[i] == a[0]
    ensures multiset(a[..0] + a[0 + 1..]) == multiset(b[..i] + b[i + 1..])
    ensures |a[..0] + a[0 + 1..]| < |a|
  {
    RemoveAt(a, 0);
    RemoveAt(b, i);
    assert multiset(a[..0] + a[0 + 1..]) == multiset(a) - multiset{a[0]};
    assert multiset(b[..i] + b[i + 1..]) == multiset(b) - multiset{b[i]};
  }

  /** Reordering rows reorders their columns. */
  lemma {:induction false} MapPermutes<T(!new), U(!new)>(f: T -> U, a: seq<T>, b: seq<T>)
    requires multiset(a) == multiset(b)
    ensures multiset(Map(f, a)) == multiset(Map(f, b))
    decreases |a|
  {
    if a == [] {
      assert |multiset(b)| == 0 && b == [];
    } else {
      hide Map;
      assert a[0] in multiset(b);
      var i :| 0 <= i < |b| && b[i] == a[0];
      SameRemoved(a, b, i);
      MapPermutes(f, a[..0] + a[0 + 1..], b[..i] + b[i + 1..]);
      MapRemoveAt(f, a, 0);
      MapRemoveAt(f, b, i);
    }
  }

  /** What a launch promises: one job per recipient with a phone, to that phone, each for its own new row. */
  ghost predicate OneJobPerRecipient(jobs: seq<Job>, recipients: seq<Recipient>, firstId: nat) {
    && multiset(JobCustomers(jobs)) == multiset(CustomerIds(Reachable(recipients)))
    && multiset(JobMessages(jobs)) == multiset(seq(|Reachable(recipients)|, i => firstId + i))
    && forall j :: j in jobs ==> PhoneOf(recipients, j.customerId) == Some(j.phone)
  }

  lemma AllSendable(read: seq<Row>, mine: seq<Row>, recipients: seq<Recipient>, firstId: nat, campaign: string,
                    clock: Clock)
    requires DistinctIds(recipients) && multiset(read) == multiset(mine)
    requires Written(mine, firstId, campaign, CustomerIds(Reachable(recipients)), clock)
    ensures forall r :: r in read ==> Sendable(PhoneOf(recipients, r.customerId))
  {
    forall r | r in read ensures Sendable(PhoneOf(recipients, r.customerId)) {
      assert r in multiset(mine);
      var k :| 0 <= k < |mine| && mine[k] == r;
      assert Reachable(recipients)[k] in recipients;
      PhoneFound(recipients, Reachable(recipients)[k]);
    }
  }

  lemma Columns(jobs: seq<Job>, read: seq<Row>, recipients: seq<Recipient>)
    requires AllMadeFrom(jobs, read, recipients)
    ensures JobCustomers(jobs) == Map((r: Row) => r.customerId, read)
    ensures JobMessages(jobs) == Map((r: Row) => r.id, read)
    ensures forall j :: j in jobs ==> PhoneOf(recipients, j.customerId) == Some(j.phone)
  {
  }

  lemma WrittenColumns(mine: seq<Row>, firstId: nat, campaign: string, customers: seq<nat>, clock: Clock)
    requires Written(mine, firstId, campaign, customers, clock) && |mine| == |customers|
    ensures Map((r: Row) => r.customerId, mine) == customers
    ensures Map((r: Row) => r.id, mine) == seq(|customers|, i => firstId + i)
  {
  }

  lemma Conclude(read: seq<Row>, mine: seq<Row>, recipients: seq<Recipient>, firstId: nat, campaign: string,
                 clock: Clock)
    requires DistinctIds(recipients) && multiset(read) == multiset(mine)
    requires Written(mine, firstId, campaign, CustomerIds(Reachable(recipients)), clock)
    requires |mine| == |Reachable(recipients)|
    ensures OneJobPerRecipient(JobsFor(read, recipients), recipients, firstId)
    ensures |JobsFor(read, recipients)| == |mine|
  {
    hide Written, DistinctIds, Reachable, JobsFor, PhoneOf, Map;
    AllSendable(read, mine, recipients, firstId, campaign, clock);
    NoRowPassedOver(read, recipients);
    Columns(JobsFor(read, recipients), read, recipients);
    WrittenColumns(mine, firstId, campaign, CustomerIds(Reachable(recipients)), clock);
    MapPermutes((r: Row) => r.customerId, read, mine);
    MapPermutes((r: Row) => r.id, read, mine);
    assert |read| == |multiset(read)| == |multiset(mine)|;
  }

  /** What the insert / re-read loop keeps: rows written so far, jobs of the rows read, and nothing read twice or
      missed. */
  ghost predicate Progress(rows: seq<Row>, base: seq<Row>, mine: seq<Row>, read: seq<Row>, jobs: seq<Job>,
                           campaign: string, recipients: seq<Recipient>, records: seq<nat>, clock: Clock) {
    && rows == base + mine && Written(mine, |base|, campaign, records, clock)
    && jobs == JobsFor(read, recipients) && Waiting(read, rows, campaign)
    && (NoneWaiting(base, campaign) && Orderly(clock, Chunks(|records|)) ==> multiset(read) == multiset(mine))
  }

  lemma StillWaiting(read: seq<Row>, page: seq<Row>, rows: seq<Row>, added: seq<Row>, campaign: string)
    requires Waiting(read, rows, campaign) && Waiting(page, rows + added, campaign)
    ensures Waiting(read + page, rows + added, campaign)
  {
  }

  lemma ChunkProgress(rows: seq<Row>, base: seq<Row>, mine: seq<Row>, read: seq<Row>, jobs: seq<Job>, campaign: string,
                      recipients: seq<Recipient>, records: seq<nat>, clock: Clock, c: nat, view: seq<Row>)
    requires Progress(rows, base, mine, read, jobs, campaign, recipients, records, clock)
    requires |mine| == c * CHUNK < |records|
    requires IsView(view, rows + NewRows(|rows|, campaign, Slice(records, |mine|, CHUNK), clock.insertedAt(c)),
                    campaign, clock.readAt(c) - REREAD_WINDOW_MS)
    ensures var added := NewRows(|rows|, campaign, Slice(records, |mine|, CHUNK), clock.insertedAt(c));
      var page := Slice(view, |mine|, CHUNK);
      Progress(rows + added, base, mine + added, read + page, jobs + JobsFor(page, recipients),
               campaign, recipients, records, clock)
  {
    hide Written, NoneWaiting, Orderly, IsView, JobsFor, Waiting;
    var slice := Slice(records, |mine|, CHUNK);
    var added := NewRows(|rows|, campaign, slice, clock.insertedAt(c));
    var page := Slice(view, |mine|, CHUNK);
    assert slice == records[|mine|..|mine| + |slice|];
    assert |rows| == |base| + |mine|;
    ChunkWritten(mine, |base|, campaign, records, clock, c, |mine| + |slice|);
    JobsForConcat(read, page, recipients);
    PageIsWaiting(view, rows + added, campaign, clock.readAt(c) - REREAD_WINDOW_MS, |mine|, CHUNK);
    StillWaiting(read, page, rows, added, campaign);
    assert rows + added == base + (mine + added) == base + mine + added;
    if NoneWaiting(base, campaign) && Orderly(clock, Chunks(|records|)) {
      assert c < Chunks(|records|);
      RereadUnderClock(base, mine, added, campaign, records, clock, Chunks(|records|), c, view);
      assert multiset(read + page) == multiset(read) + multiset(page);
      assert multiset(mine + added) == multiset(mine) + multiset(added);
    }
  }

  // ---- Who is reached ----------------------------------------------------------------------------

  /** The positions of the recipients with no number, or an empty one. */
  function WithoutNumber(recipients: seq<Recipient>): set<nat> {
    set i: nat | i < |recipients| && (recipients[i].phone == None || recipients[i].phone == Some(""))
  }

  lemma {:induction false} SkippedAreWithoutNumber(recipients: seq<Recipient>)
    ensures |Reachable(recipients)| + |WithoutNumber(recipients)| == |recipients|
  {
    if recipients != [] {
      var n := |recipients| - 1;
      var front := recipients[..n];
      SkippedAreWithoutNumber(front);
      assert WithoutNumber(recipients) == WithoutNumber(front) + if Sendable(recipients[n].phone) then {} else {n};
    }
  }

  /** The jobs for a customer. */
  function JobsTo(jobs: seq<Job>, id: nat): set<nat> {
    set k: nat | k < |jobs| && jobs[k].customerId == id
  }

  lemma {:induction false} JobsToCount(jobs: seq<Job>, id: nat)
    ensures |JobsTo(jobs, id)| == multiset(JobCustomers(jobs))[id]
  {
    if jobs != [] {
      var n := |jobs| - 1;
      var front := jobs[..n];
      JobsToCount(front, id);
      assert JobsTo(jobs, id) == JobsTo(front, id) + if jobs[n].customerId == id then {n} else {};
      assert JobCustomers(jobs) == JobCustomers(front) + [jobs[n].customerId];
    }
  }

  lemma LastReachable(front: seq<Recipient>, last: Recipient)
    ensures CustomerIds(Reachable(front + [last]))
         == CustomerIds(Reachable(front)) + if Sendable(last.phone) then [last.id] else []
  {
    assert (front + [last])[..|front|] == front;
  }

  lemma NotReachable(recipients: seq<Recipient>, id: nat)
    requires forall r :: r in recipients ==> r.id != id
    ensures id !in CustomerIds(Reachable(recipients))
  {
    forall k | 0 <= k < |Reachable(recipients)| ensures Reachable(recipients)[k].id != id {
      assert Reachable(recipients)[k] in recipients;
    }
  }

  /** An id is listed once among the reachable recipients if its recipient has a number, and not at all otherwise. */
  lemma {:induction false} ReachableOnce(recipients: seq<Recipient>, i: nat)
    requires DistinctIds(recipients) && i < |recipients|
    ensures multiset(CustomerIds(Reachable(recipients)))[recipients[i].id]
         == if Sendable(recipients[i].phone) then 1 else 0
    decreases |recipients|
  {
    var n := |recipients| - 1;
    var front, last := recipients[..n], recipients[n];
    assert recipients == front + [last];
    hide Sendable, Reachable, CustomerIds;
    LastReachable(front, last);
    if i < n {
      ReachableOnce(front, i);
    } else {
      NotReachable(front, last.id);
    }
  }

  /** One job to each recipient with a number, none to the others. */
  ghost predicate ExactlyOneJobEach(jobs: seq<Job>, recipients: seq<Recipient>) {
    forall i :: 0 <= i < |recipients| ==>
      |JobsTo(jobs, recipients[i].id)|
      == if recipients[i].phone == None || recipients[i].phone == Some("") then 0 else 1
  }

  lemma OneJobEach(jobs: seq<Job>, recipients: seq<Recipient>, firstId: nat)
    requires DistinctIds(recipients) && OneJobPerRecipient(jobs, recipients, firstId)
    ensures ExactlyOneJobEach(jobs, recipients)
  {
    hide DistinctIds, JobsTo, Reachable;
    forall i | 0 <= i < |recipients|
      ensures |JobsTo(jobs, recipients[i].id)| == if Sendable(recipients[i].phone) then 1 else 0
    {
      JobsToCount(jobs, recipients[i].id);
      ReachableOnce(recipients, i);
    }
  }

  /** Every job is to a recipient's own number, which is not empty. */
  ghost predicate ToOwnNumber(jobs: seq<Job>, recipients: seq<Recipient>) {
    forall j :: j in jobs ==> j.phone != "" && Recipient(j.customerId, Some(j.phone)) in recipients
  }

  lemma {:induction false} NumberIsListed(recipients: seq<Recipient>, id: nat)
    ensures PhoneOf(recipients, id).Some? ==> Recipient(id, PhoneOf(recipients, id)) in recipients
  {
    if recipients != [] && recipients[0].id != id {
      NumberIsListed(recipients[1..], id);
    }
  }

  lemma {:induction false} JobsAreToOwnNumbers(rows: seq<Row>, recipients: seq<Recipient>)
    ensures ToOwnNumber(JobsFor(rows, recipients), recipients)
  {
    if rows != [] {
      JobsAreToOwnNumbers(rows[..|rows| - 1], recipients);
      NumberIsListed(recipients, rows[|rows| - 1].customerId);
    }
  }

  lemma NobodyToReach(recipients: seq<Recipient>)
    ensures ToOwnNumber([], recipients)
    ensures Reachable(recipients) == [] ==> ExactlyOneJobEach([], recipients)
  {
    if Reachable(recipients) == [] {
      forall i | 0 <= i < |recipients| ensures !Sendable(recipients[i].phone) {
        assert recipients[i] in recipients;
      }
    }
  }

  /** A recipient with this id and a number. */
  ghost predicate HasNumber(recipients: seq<Recipient>, id: nat) {
    exists p :: p != "" && Recipient(id, Some(p)) in recipients
  }

  lemma ReachableHaveNumbers(recipients: seq<Recipient>, id: nat)
    ensures id in CustomerIds(Reachable(recipients)) <==> HasNumber(recipients, id)
  {
    if id in CustomerIds(Reachable(recipients)) {
      var i :| 0 <= i < |Reachable(recipients)| && Reachable(recipients)[i].id == id;
      var r := Reachable(recipients)[i];
      assert r in Reachable(recipients) && r == Recipient(id, Some(r.phone.value));
    }
    if HasNumber(recipients, id) {
      var p :| p != "" && Recipient(id, Some(p)) in recipients;
      var i :| 0 <= i < |Reachable(recipients)| && Reachable(recipients)[i] == Recipient(id, Some(p));
      assert CustomerIds(Reachable(recipients))[i] == id;
    }
  }

  /** A row whose customer is listed with a number gets its job. */
  lemma {:induction false} RowGetsJob(rows: seq<Row>, recipients: seq<Recipient>, r: Row, p: string)
    requires r in rows && PhoneOf(recipients, r.customerId) == Some(p) && p != ""
    ensures Job(r.id, r.customerId, p) in JobsFor(rows, recipients)
  {
    if r != rows[|rows| - 1] {
      RowGetsJob(rows[..|rows| - 1], recipients, r, p);
    }
  }

  // ---- Bulk enqueue ------------------------------------------------------------------------------

  function Delay(k: nat): nat {
    k / CHUNK * STAGGER_MS + k % CHUNK * SPACING_MS
  }

  function Staggered(jobs: seq<Job>): seq<Queued> {
    seq(|jobs|, k requires 0 <= k < |jobs| => Queued(jobs[k], Delay(k)))
  }

  lemma DelayInChunk(i: nat, idx: nat)
    requires i % CHUNK == 0 && idx < CHUNK
    ensures Delay(i + idx) == i / CHUNK * STAGGER_MS + idx * SPACING_MS
  {
    var c := i / CHUNK;
    assert i + idx == CHUNK * c + idx;
    assert (i + idx) / CHUNK == c && (i + idx) % CHUNK == idx;
  }

  lemma StaggeredChunk(jobs: seq<Job>, i: nat)
    requires i < |jobs| && i % CHUNK == 0
    ensures var chunk := Slice(jobs, i, CHUNK);
      Staggered(jobs)[..i]
      + seq(|chunk|, idx requires 0 <= idx < |chunk| => Queued(chunk[idx], i / CHUNK * STAGGER_MS + idx * SPACING_MS))
      == Staggered(jobs)[..i + |chunk|]
  {
    hide Delay;
    var chunk, first := Slice(jobs, i, CHUNK), i / CHUNK * STAGGER_MS;
    forall idx | 0 <= idx < |chunk|
      ensures Staggered(jobs)[i + idx] == Queued(chunk[idx], first + idx * SPACING_MS)
    {
      DelayInChunk(i, idx);
    }
  }

  /** A launch of n jobs finishes handing them out 50 ms per full chunk plus 4990 ms after it starts. */
  lemma DelayBound(k: nat, n: nat)
    requires k < n
    ensures Delay(k) <= STAGGER_MS * ((n - 1) / CHUNK) + 4990
  {
    assert k / CHUNK <= (n - 1) / CHUNK;
  }

  /** The jobs among the first n that wait exactly d milliseconds. */
  function Sharing(n: nat, d: nat): set<nat> {
    set k: nat | k < n && Delay(k) == d
  }

  lemma OnePerChunk(start: nat, a: nat, b: nat)
    requires start % CHUNK == 0 && start <= a < start + CHUNK && start <= b < start + CHUNK && Delay(a) == Delay(b)
    ensures a == b
  {
    assert a / CHUNK == start / CHUNK == b / CHUNK;
    assert a % CHUNK == b % CHUNK;
  }

  lemma AtMostOneMore(start: nat, n: nat, d: nat)
    requires start % CHUNK == 0 && start <= n <= start + CHUNK
    ensures |Sharing(n, d)| <= |Sharing(start, d)| + 1
  {
    hide Delay;
    var last := Sharing(n, d) - Sharing(start, d);
    assert Sharing(n, d) == Sharing(start, d) + last;
    if last != {} {
      var a :| a in last;
      forall b | b in last ensures b == a {
        OnePerChunk(start, a, b);
      }
      assert last == {a};
    }
  }

  lemma LastChunk(n: nat) returns (start: nat)
    requires n > 0
    ensures start % CHUNK == 0 && start < n <= start + CHUNK && Chunks(n) == Chunks(start) + 1
  {
    start := (n - 1) / CHUNK * CHUNK;
  }

  /** At most one job of each chunk waits the same time. */
  lemma {:induction false} DelaysAreSpread(n: nat, d: nat)
    ensures |Sharing(n, d)| <= Chunks(n)
  {
    if n > 0 {
      var start := LastChunk(n);
      DelaysAreSpread(start, d);
      AtMostOneMore(start, n, d);
    }
  }

  // ---- The service -------------------------------------------------------------------------------

  /** The guards of a launch, in order; the quota guard is only reached with someone to send to. */
  function Gate(status: CampaignStatus, hasLayout: bool, quota: Option<int>, needed: nat): Option<Error> {
    if status == ACTIVE then Some(AlreadyLaunched)
    else if status == COMPLETED then Some(AlreadyCompleted)
    else if !hasLayout then Some(HasNoLayout)
    else if needed > 0 && quota.Some? && quota.value != -1 && quota.value < needed then Some(InsufficientQuota)
    else None
  }

  /** What refuses a launch, and that nothing else does: a quota of -1 is no limit, and the recipients counted
      against it include those without a number. */
  lemma RefusedIff(status: CampaignStatus, hasLayout: bool, quota: Option<int>, needed: nat)
    ensures var open := status != ACTIVE && status != COMPLETED;
      var short := needed > 0 && exists left :: quota == Some(left) && left != -1 && left < needed;
      && (Gate(status, hasLayout, quota, needed) == Some(AlreadyLaunched) <==> status == ACTIVE)
      && (Gate(status, hasLayout, quota, needed) == Some(AlreadyCompleted) <==> status == COMPLETED)
      && (Gate(status, hasLayout, quota, needed) == Some(HasNoLayout) <==> open && !hasLayout)
      && (Gate(status, hasLayout, quota, needed) == Some(InsufficientQuota) <==> open && hasLayout && short)
  {
    if quota.Some? {
      assert quota == Some(quota.value);
    }
  }

  class CampaignService {
    var status: CampaignStatus
    var hasLayout: bool
    var quota: Option<int>
    var rows: seq<Row>
    var queue: seq<Queued>

    method CreateMany(campaign: string, customers: seq<nat>, at: int)
      modifies `rows
      ensures rows == old(rows) + NewRows(|old(rows)|, campaign, customers, at)
    {
      rows := rows + NewRows(|rows|, campaign, customers, at);
    }

    /** Promises only what the database does: some order of the matching rows by creation time, sliced. */
    method FindPending(campaign: string, since: int, skip: nat, take: nat)
      returns (page: seq<Row>, ghost view: seq<Row>)
      ensures IsView(view, rows, campaign, since) && page == Slice(view, skip, take)
    {
      SortIsByTime(Pending(rows, campaign, since));
      view := SortByTime(Pending(rows, campaign, since));
      page := Slice(SortByTime(Pending(rows, campaign, since)), skip, take);
    }

    method EnqueueBulk(jobs: seq<Job>)
      modifies `queue
      ensures queue == old(queue) + Staggered(jobs)
      ensures |queue| == |old(queue)| + |jobs|
      ensures forall k :: 0 <= k < |jobs| ==>
                queue[|old(queue)| + k] == Queued(jobs[k], k / 500 * 50 + k % 500 * 10)
    {
      var i := 0;
      while i < |jobs|
        invariant i % CHUNK == 0 || i == |jobs|
        invariant i <= |jobs|
        invariant queue == old(queue) + Staggered(jobs)[..i]
      {
        hide Staggered;
        StaggeredChunk(jobs, i);
        var chunk := Slice(jobs, i, CHUNK);
        queue := queue
          + seq(|chunk|, idx requires 0 <= idx < |chunk| =>
                  Queued(chunk[idx], i / CHUNK * STAGGER_MS + idx * SPACING_MS));
        i := i + |chunk|;
      }
    }

    method JobsOf(page: seq<Row>, recipients: seq<Recipient>) returns (jobs: seq<Job>)
      ensures jobs == JobsFor(page, recipients)
      ensures ToOwnNumber(jobs, recipients)
      ensures forall r, p :: r in page && PhoneOf(recipients, r.customerId) == Some(p) && p != "" ==>
                Job(r.id, r.customerId, p) in jobs
    {
      jobs := [];
      for k := 0 to |page|
        invariant jobs == JobsFor(page[..k], recipients)
      {
        assert page[..k + 1][..k] == page[..k];
        var phone := PhoneOf(recipients, page[k].customerId);
        if Sendable(phone) {
          jobs := jobs + [Job(page[k].id, page[k].customerId, phone.value)];
        }
      }
      assert page[..|page|] == page;
      hide JobsFor, ToOwnNumber;
      JobsAreToOwnNumbers(page, recipients);
      forall r, p | r in page && PhoneOf(recipients, r.customerId) == Some(p) && p != ""
        ensures Job(r.id, r.customerId, p) in jobs
      {
        RowGetsJob(page, recipients, r, p);
      }
    }

    method BuildRecords(recipients: seq<Recipient>) returns (records: seq<nat>, skipped: nat)
      ensures records == CustomerIds(Reachable(recipients)) && skipped + |records| == |recipients|
      ensures skipped == |WithoutNumber(recipients)| && forall id :: id in records <==> HasNumber(recipients, id)
    {
      records, skipped := [], 0;
      for k := 0 to |recipients|
        invariant records == CustomerIds(Reachable(recipients[..k])) && skipped + |records| == k
      {
        assert recipients[..k + 1][..k] == recipients[..k];
        if Sendable(recipients[k].phone) {
          records := records + [recipients[k].id];
        } else {
          skipped := skipped + 1;
        }
      }
      assert recipients[..|recipients|] == recipients;
      hide Reachable, WithoutNumber, HasNumber, CustomerIds;
      SkippedAreWithoutNumber(recipients);
      forall id ensures id in records <==> HasNumber(recipients, id) {
        ReachableHaveNumbers(recipients, id);
      }
    }

    /** The insert / re-read loop; `read` collects the rows the re-reads returned. */
    method InsertAndReread(campaign: string, recipients: seq<Recipient>, records: seq<nat>, clock: Clock)
      returns (jobs: seq<Job>, ghost read: seq<Row>)
      modifies `rows
      ensures old(rows) <= rows && |rows| == |old(rows)| + |records|
      ensures Written(rows[|old(rows)|..], |old(rows)|, campaign, records, clock)
      ensures jobs == JobsFor(read, recipients) && Waiting(read, rows, campaign)
      ensures NoneWaiting(old(rows), campaign) && Orderly(clock, Chunks(|records|))
          ==> multiset(read) == multiset(rows[|old(rows)|..])
    {
      ghost var base, mine: seq<Row> := rows, [];
      jobs, read := [], [];
      var i, c := 0, 0;
      while i < |records|
        invariant i == |mine| <= |records| && (i == c * CHUNK || i == |records|)
        invariant Progress(rows, base, mine, read, jobs, campaign, recipients, records, clock)
      {
        hide Progress, JobsFor, IsView;
        var slice := Slice(records, i, CHUNK);
        ghost var before, added := rows, NewRows(|rows|, campaign, slice, clock.insertedAt(c));
        CreateMany(campaign, slice, clock.insertedAt(c));
        var page, view := FindPending(campaign, clock.readAt(c) - REREAD_WINDOW_MS, i, CHUNK);
        ChunkProgress(before, base, mine, read, jobs, campaign, recipients, records, clock, c, view);
        var more := JobsOf(page, recipients);
        jobs, read, mine := jobs + more, read + page, mine + added;
        i, c := i + |slice|, c + 1;
      }
      assert rows[|base|..] == mine;
    }

    /**
     * A refused launch, or one with nobody to reach, changes nothing. Otherwise one row per reachable
     * recipient is written, the campaign is active and the queued jobs are each for a waiting row of the
     * campaign and a recipient's number; with an orderly clock and no row of the campaign waiting, that is
     * one job per reachable recipient.
     */
    method LaunchCampaign(campaign: string, recipients: seq<Recipient>, clock: Clock)
      returns (outcome: Outcome, ghost jobs: seq<Job>)
      requires DistinctIds(recipients)
      modifies `status, `rows, `queue
      ensures match old(Gate(status, hasLayout, quota, |recipients|))
              case Some(error) => outcome == Refused(error)
              case None => outcome == Launched(|jobs|, |recipients| - |Reachable(recipients)|)
      ensures outcome.Launched? ==> outcome.skipped == |WithoutNumber(recipients)|
      ensures ToOwnNumber(jobs, recipients)
      ensures outcome.Launched? && NoneWaiting(old(rows), campaign)
              && Orderly(clock, Chunks(|recipients| - |WithoutNumber(recipients)|)) ==>
                ExactlyOneJobEach(jobs, recipients)
      ensures outcome.Refused? || Reachable(recipients) == [] ==>
                status == old(status) && rows == old(rows) && queue == old(queue) && jobs == []
      ensures outcome.Launched? && Reachable(recipients) != [] ==>
                && status == ACTIVE
                && queue == old(queue) + Staggered(jobs)
                && (forall j :: j in jobs ==>
                      exists r :: r in rows && r.campaignId == campaign && r.pending && MadeFrom(j, r, recipients))
                && old(rows) <= rows && |rows| == |old(rows)| + |Reachable(recipients)|
                && Written(rows[|old(rows)|..], |old(rows)|, campaign, CustomerIds(Reachable(recipients)), clock)
                && (NoneWaiting(old(rows), campaign) && Orderly(clock, Chunks(|Reachable(recipients)|)) ==>
                      && OneJobPerRecipient(jobs, recipients, |old(rows)|)
                      && outcome.queued + outcome.skipped == |recipients|)
    {
      hide Written, NoneWaiting, Orderly, JobsFor, DistinctIds, OneJobPerRecipient, WithoutNumber, ToOwnNumber,
           ExactlyOneJobEach, Reachable;
      SkippedAreWithoutNumber(recipients);
      NobodyToReach(recipients);
      jobs := [];
      if status == ACTIVE { return Refused(AlreadyLaunched), []; }
      if status == COMPLETED { return Refused(AlreadyCompleted), []; }
      if !hasLayout { return Refused(HasNoLayout), []; }
      if |recipients| == 0 { return Launched(0, 0), []; }
      if quota.Some? && quota.value != -1 && quota.value < |recipients| {
        return Refused(InsufficientQuota), [];
      }
      var records, skipped := BuildRecords(recipients);
      if records == [] { return Launched(0, skipped), []; }
      var toSend, read := InsertAndReread(campaign, recipients, records, clock);
      if NoneWaiting(old(rows), campaign) && Orderly(clock, Chunks(|records|)) {
        Conclude(read, rows[|old(rows)|..], recipients, |old(rows)|, campaign, clock);
        OneJobEach(toSend, recipients, |old(rows)|);
      }
      JobsAreToOwnNumbers(read, recipients);
      EnqueueBulk(toSend);
      status := ACTIVE;
      return Launched(|toSend|, skipped), toSend;
    }
  }
}
