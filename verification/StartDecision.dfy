/** Whether an agent instance may be started (internal/reconciler/start_decision.go). */
module StartDecision {
  import opened Records

  const MAX_START_ATTEMPTS := 10
  const HISTORY_PAGE_SIZE := 100
  const BACKOFF_SCHEDULE: seq<Time> := [10 * SECOND, 30 * SECOND, 60 * SECOND, 300 * SECOND, 900 * SECOND]
  const ACTIVE: set<WorkloadStatus> := {Starting, Running, Stopping}

  /** A workload record of one instance; a nil row or one without meta has the empty id. */
  datatype Row = Row(
    id: Id,
    status: WorkloadStatus,
    createdAt: Option<Time>,
    removedAt: Option<Time>,
    updatedAt: Option<Time>)

  datatype Page = Page(rows: seq<Row>, next: Option<nat>)

  /** The outcome of a paged read: its rows, a failed call, or a row the read refuses. */
  datatype Listing = Rows(rows: seq<Row>) | Unavailable | Malformed

  datatype Decision = Start | Hold | Pause | Unreadable

  /** The rows with one of the given statuses, in order; no statuses means no filter. */
  function Select(rows: seq<Row>, statuses: set<WorkloadStatus>): seq<Row> {
    if rows == [] then []
    else (if statuses == {} || rows[0].status in statuses then [rows[0]] else []) + Select(rows[1..], statuses)
  }

  /** The first limit elements, or everything when the limit is not positive. */
  function First<T>(s: seq<T>, limit: int): seq<T> {
    if 0 < limit < |s| then s[..limit] else s
  }

  predicate AllNamed(rows: seq<Row>) {
    forall i :: 0 <= i < |rows| ==> rows[i].id != ""
  }

  predicate AllDated(rows: seq<Row>) {
    forall i :: 0 <= i < |rows| ==> rows[i].createdAt.Some?
  }

  /** Newest first, by creation time. */
  predicate NewestFirst(rows: seq<Row>)
    requires AllDated(rows)
  {
    forall i, j :: 0 <= i < j < |rows| ==> rows[i].createdAt.value >= rows[j].createdAt.value
  }

  /**
   * The service that keeps the workload history of one instance. It cuts a listing into pages as
   * it likes; it only has to make progress. Calls may fail unless the service is up.
   */
  class WorkloadHistory {
    const rows: seq<Row>
    const up: bool

    constructor (rows: seq<Row>, up: bool)
      ensures this.rows == rows && this.up == up
    {
      this.rows, this.up := rows, up;
    }

    method ListPage(statuses: set<WorkloadStatus>, pageSize: int, token: nat) returns (r: Result<Page>)
      requires token <= |Select(rows, statuses)|
      ensures up ==> r.Ok?
      ensures r.Ok? ==>
        var all, next := Select(rows, statuses), token + |r.value.rows|;
        && next <= |all| && r.value.rows == all[token..next]
        && ((r.value.next == None && next == |all|) || (r.value.next == Some(next) && next > token))
    {
      var fails: bool := *;
      if !up && fails {
        return Err;
      }
      var all := Select(rows, statuses);
      var size :| size >= 0;
      var last: bool := *;
      if token == |all| || size == 0 || token + size > |all| || (token + size == |all| && last) {
        return Ok(Page(all[token..], None));
      }
      return Ok(Page(all[token..token + size], Some(token + size)));
    }
  }

  lemma AllNamedPrefix(rows: seq<Row>, n: nat)
    requires n <= |rows|
    ensures AllNamed(rows) ==> AllNamed(rows[..n])
    ensures AllNamed(rows[..n]) && n < |rows| && rows[n].id != "" ==> AllNamed(rows[..n + 1])
  {
  }

  /** Appends rows start .. start + |page| of the listing one by one, until the limit is reached. */
  method AppendPage(ghost all: seq<Row>, start: nat, rows: seq<Row>, page: seq<Row>, limit: int)
    returns (ok: bool, more: seq<Row>)
    requires start <= start + |page| <= |all|
    requires rows == all[..start] && page == all[start..start + |page|] && AllNamed(rows)
    requires limit > 0 ==> start < limit
    ensures ok ==> AllNamed(more)
    ensures ok ==> more == all[..if 0 < limit < start + |page| then limit else start + |page|]
    ensures !ok ==> !AllNamed(First(all, limit))
  {
    more := rows;
    for k := 0 to |page|
      invariant more == all[..start + k] && AllNamed(more)
      invariant limit > 0 ==> start + k < limit
    {
      assert page[k] == all[start + k];
      if page[k].id == "" {
        assert First(all, limit)[start + k] == page[k];
        return false, more;
      }
      more := more + [page[k]];
      assert more == all[..start + k + 1];
      if limit > 0 && |more| >= limit {
        return true, more;
      }
    }
    ok := true;
  }

  /** Reads pages until limit rows are held or the last page has been read. */
  method ListWorkloads(h: WorkloadHistory, instance: Id, statuses: set<WorkloadStatus>, limit: int) returns (r: Listing)
    ensures var wanted := First(Select(h.rows, statuses), limit);
      && (r.Rows? ==> r.rows == wanted && AllNamed(wanted) && instance != "")
      && (r.Malformed? ==> !AllNamed(wanted) || instance == "")
      && (r.Unavailable? ==> !h.up)
  {
    if instance == "" {
      return Malformed;
    }
    ghost var all := Select(h.rows, statuses);
    var rows: seq<Row> := [];
    var token := 0;
    while true
      invariant token <= |all| && rows == all[..token] && AllNamed(rows)
      invariant limit > 0 ==> token < limit
      decreases |all| - token
    {
      var pageSize := HISTORY_PAGE_SIZE;
      if limit > 0 {
        var remaining := limit - |rows|;
        if remaining <= 0 {
          break;
        }
        if remaining < pageSize {
          pageSize := remaining;
        }
      }
      var resp := h.ListPage(statuses, pageSize, token);
      if resp.Err? {
        return Unavailable;
      }
      var accepted;
      accepted, rows := AppendPage(all, token, rows, resp.value.rows, limit);
      if !accepted {
        return Malformed;
      }
      if limit > 0 && |rows| >= limit {
        break;
      }
      if resp.value.next.None? {
        break;
      }
      token := resp.value.next.value;
    }
    assert all[..|all|] == all;
    return Rows(rows);
  }

  function LatestOf(rows: seq<Row>, statuses: set<WorkloadStatus>): Option<Row> {
    var matching := Select(rows, statuses);
    if matching == [] then None else Some(matching[0])
  }

  /** When a terminal workload ended: a failure the runner reported carries no removal time. */
  function EndedAt(row: Row): Option<Time> {
    if row.removedAt.Some? then row.removedAt else row.updatedAt
  }

  /** Failures created at or before this instant no longer count against the instance. */
  function ResetFloor(stopped: Option<Row>, updatedAt: Time): Option<Time> {
    match stopped
    case None => Some(updatedAt)
    case Some(row) =>
      if row.createdAt.None? then None
      else if row.createdAt.value > updatedAt then row.createdAt
      else Some(updatedAt)
  }

  /** How many rows come before the first one created at or before the floor; None if one is undated. */
  function CountAbove(rows: seq<Row>, floor: Time): Option<nat> {
    if rows == [] then Some(0)
    else if rows[0].createdAt.None? then None
    else if rows[0].createdAt.value <= floor then Some(0)
    else match CountAbove(rows[1..], floor) case None => None case Some(n) => Some(n + 1)
  }

  /** How long to wait after the n-th consecutive failure. */
  function Backoff(n: nat): Time
    requires n > 0
  {
    BACKOFF_SCHEDULE[if n - 1 < |BACKOFF_SCHEDULE| then n - 1 else |BACKOFF_SCHEDULE| - 1]
  }

  /** The decision from the newest terminal row, the newest stopped row and the failures counted. */
  function DecideOn(
    busy: bool, latest: Option<Row>, stopped: Option<Row>, failures: seq<Row>, updatedAt: Option<Time>, now: Time)
    : Decision
  {
    if busy then Hold
    else if latest.None? || latest.value.status.Stopped? then Start
    else if updatedAt.None? || EndedAt(latest.value).None? then Unreadable
    else if updatedAt.value > EndedAt(latest.value).value then Start
    else match ResetFloor(stopped, updatedAt.value)
      case None => Unreadable
      case Some(floor) =>
        match CountAbove(failures, floor)
        case None => Unreadable
        case Some(n) =>
          if n >= MAX_START_ATTEMPTS then Pause
          else if n > 0 && now - EndedAt(latest.value).value < Backoff(n) then Hold
          else Start
  }

  function DecideFrom(rows: seq<Row>, failures: seq<Row>, updatedAt: Option<Time>, now: Time): Decision {
    DecideOn(LatestOf(rows, ACTIVE).Some?, LatestOf(rows, {Stopped, Failed}), LatestOf(rows, {Stopped}), failures,
        updatedAt, now)
  }

  /** The decision made from every failure ever recorded. */
  function Decide(rows: seq<Row>, updatedAt: Option<Time>, now: Time): Decision {
    DecideFrom(rows, Select(rows, {Failed}), updatedAt, now)
  }

  /** Counts failures until one is not after the floor. */
  method CountConsecutive(recent: seq<Row>, resetFloor: Time) returns (n: Option<nat>)
    ensures n == CountAbove(recent, resetFloor)
  {
    var consecutive := 0;
    for k := 0 to |recent|
      invariant consecutive == k
      invariant CountAbove(recent, resetFloor) ==
        match CountAbove(recent[k..], resetFloor) case None => None case Some(rest) => Some(rest + k)
    {
      assert recent[k..][1..] == recent[k + 1..];
      var failureAt := recent[k].createdAt;
      if failureAt.None? {
        return None;
      }
      if failureAt.value <= resetFloor {
        break;
      }
      consecutive := consecutive + 1;
    }
    return Some(consecutive);
  }

  /** The newest row with one of the statuses. */
  method Latest(h: WorkloadHistory, instance: Id, statuses: set<WorkloadStatus>) returns (read: bool, row: Option<Row>)
    ensures h.up && AllNamed(h.rows) && instance != "" ==> read
    ensures read ==> row == LatestOf(h.rows, statuses)
  {
    SelectNamed(h.rows, statuses);
    AllNamedPrefix(Select(h.rows, statuses), if |Select(h.rows, statuses)| > 0 then 1 else 0);
    var listing := ListWorkloads(h, instance, statuses, 1);
    if !listing.Rows? {
      return false, None;
    }
    if |listing.rows| == 0 {
      return true, None;
    }
    return true, Some(listing.rows[0]);
  }

  /** The failures the decision looks at: one more than it needs to give up. */
  method RecentFailures(h: WorkloadHistory, instance: Id) returns (read: bool, failures: seq<Row>)
    ensures h.up && AllNamed(h.rows) && instance != "" ==> read
    ensures read ==> failures == First(Select(h.rows, {Failed}), MAX_START_ATTEMPTS + 1)
  {
    SelectNamed(h.rows, {Failed});
    var listing := ListWorkloads(h, instance, {Failed}, MAX_START_ATTEMPTS + 1);
    if !listing.Rows? {
      return false, [];
    }
    return true, listing.rows;
  }

  /**
   * The decision, made from truncated reads; read is false when a listing failed. On a history
   * whose rows are dated it is the decision of the complete history.
   */
  method ShouldStart(h: WorkloadHistory, instance: Id, updatedAt: Option<Time>, now: Time) returns (d: Decision,
      read: bool)
    ensures h.up && AllNamed(h.rows) && instance != "" ==> read
    ensures read ==> d == DecideFrom(h.rows, First(Select(h.rows, {Failed}), MAX_START_ATTEMPTS + 1), updatedAt, now)
    ensures read && AllDated(h.rows) ==> d == Decide(h.rows, updatedAt, now)
    ensures !read ==> d.Unreadable?
  {
    if AllDated(h.rows) {
      DecisionFromTruncatedRead(h.rows, updatedAt, now);
    }
    var active, latest, lastStopped, recent;
    read, active := Latest(h, instance, ACTIVE);
    if !read {
      return Unreadable, false;
    }
    if active.Some? {
      return Hold, true;
    }
    read, latest := Latest(h, instance, {Stopped, Failed});
    if !read {
      return Unreadable, false;
    }
    if latest.None? || latest.value.status.Stopped? {
      return Start, true;
    }
    var latestRemovedAt := EndedAt(latest.value);
    if updatedAt.None? || latestRemovedAt.None? {
      return Unreadable, true;
    }
    if updatedAt.value > latestRemovedAt.value {
      return Start, true;
    }
    read, lastStopped := Latest(h, instance, {Stopped});
    if !read {
      return Unreadable, false;
    }
    var resetFloor := updatedAt.value;
    if lastStopped.Some? {
      var stoppedAt := lastStopped.value.createdAt;
      if stoppedAt.None? {
        return Unreadable, true;
      }
      if stoppedAt.value > resetFloor {
        resetFloor := stoppedAt.value;
      }
    }
    read, recent := RecentFailures(h, instance);
    if !read {
      return Unreadable, false;
    }
    var consecutive := CountConsecutive(recent, resetFloor);
    if consecutive.None? {
      return Unreadable, true;
    }
    if consecutive.value >= MAX_START_ATTEMPTS {
      return Pause, true;
    }
    if consecutive.value == 0 {
      return Start, true;
    }
    var index := consecutive.value - 1;
    if index >= |BACKOFF_SCHEDULE| {
      index := |BACKOFF_SCHEDULE| - 1;
    }
    if now - latestRemovedAt.value < BACKOFF_SCHEDULE[index] {
      return Hold, true;
    }
    return Start, true;
  }

  lemma {:induction false} SelectSound(rows: seq<Row>, statuses: set<WorkloadStatus>)
    ensures forall r :: r in Select(rows, statuses) <==> r in rows && (statuses == {} || r.status in statuses)
  {
    if rows != [] { SelectSound(rows[1..], statuses); }
  }

  lemma SelectNamed(rows: seq<Row>, statuses: set<WorkloadStatus>)
    ensures AllNamed(rows) ==> AllNamed(Select(rows, statuses))
    ensures AllDated(rows) ==> AllDated(Select(rows, statuses))
  {
    SelectSound(rows, statuses);
    var selected := Select(rows, statuses);
    forall i | 0 <= i < |selected| ensures selected[i] in rows {
      assert selected[i] in selected;
    }
  }

  /** Cutting the list at limit rows only caps the count at limit. */
  lemma {:induction false} TruncatedCount(rows: seq<Row>, floor: Time, limit: nat)
    requires AllDated(rows) && limit > 0
    ensures CountAbove(rows, floor).Some? && CountAbove(First(rows, limit), floor).Some?
    ensures var full, cut := CountAbove(rows, floor).value, CountAbove(First(rows, limit), floor).value;
      cut == if full < limit then full else limit
  {
    if rows != [] {
      if limit > 1 {
        TruncatedCount(rows[1..], floor, limit - 1);
        if limit < |rows| { assert rows[..limit][1..] == rows[1..][..limit - 1]; }
      } else {
        CountDefined(rows, floor);
        assert |rows| > 1 ==> rows[..1][1..] == [];
      }
    }
  }

  lemma {:induction false} CountDefined(rows: seq<Row>, floor: Time)
    requires AllDated(rows)
    ensures CountAbove(rows, floor).Some? && CountAbove(rows, floor).value <= |rows|
  {
    if rows != [] { CountDefined(rows[1..], floor); }
  }

  /** Eleven failures decide exactly as the complete history does. */
  lemma DecisionFromTruncatedRead(rows: seq<Row>, updatedAt: Option<Time>, now: Time)
    requires AllDated(rows)
    ensures DecideFrom(rows, First(Select(rows, {Failed}), MAX_START_ATTEMPTS + 1), updatedAt, now)
         == Decide(rows, updatedAt, now)
  {
    SelectNamed(rows, {Failed});
    if updatedAt.Some? {
      var floor := ResetFloor(LatestOf(rows, {Stopped}), updatedAt.value);
      if floor.Some? {
        TruncatedCount(Select(rows, {Failed}), floor.value, MAX_START_ATTEMPTS + 1);
      }
    }
  }

  /** In a newest-first list the counted rows are exactly the ones created after the floor. */
  lemma {:induction false} CountIsExact(rows: seq<Row>, floor: Time)
    requires AllDated(rows) && NewestFirst(rows)
    ensures CountAbove(rows, floor).Some? && CountAbove(rows, floor).value <= |rows|
    ensures forall i :: 0 <= i < |rows| ==> (rows[i].createdAt.value > floor <==> i < CountAbove(rows, floor).value)
  {
    if rows != [] {
      CountIsExact(rows[1..], floor);
      forall i | 0 < i < |rows|
        ensures rows[i].createdAt.value > floor <==> i < CountAbove(rows, floor).value
      {
        assert rows[i] == rows[1..][i - 1];
      }
    }
  }

  /** The same rows, but that some which have a removal time have been updated at another time. */
  predicate DifferInUpdates(a: seq<Row>, b: seq<Row>) {
    && |a| == |b|
    && forall i :: 0 <= i < |a| ==>
         b[i] == a[i].(updatedAt := b[i].updatedAt) && (a[i].removedAt.None? ==> b[i] == a[i])
  }

  lemma DifferJoined(a: seq<Row>, b: seq<Row>, c: seq<Row>, d: seq<Row>)
    requires DifferInUpdates(a, b) && DifferInUpdates(c, d)
    ensures DifferInUpdates(a + c, b + d)
  {
  }

  lemma {:induction false} SelectedDifferInUpdates(a: seq<Row>, b: seq<Row>, statuses: set<WorkloadStatus>)
    requires DifferInUpdates(a, b)
    ensures DifferInUpdates(Select(a, statuses), Select(b, statuses))
    decreases |a|
  {
    if a != [] {
      SelectedDifferInUpdates(a[1..], b[1..], statuses);
      var selected := statuses == {} || a[0].status in statuses;
      assert b[0] == a[0].(updatedAt := b[0].updatedAt) && (a[0].removedAt.None? ==> b[0] == a[0]);
      DifferJoined(if selected then [a[0]] else [], if selected then [b[0]] else [], Select(a[1..], statuses),
        Select(b[1..], statuses));
    }
  }

  lemma {:induction false} CountIgnoresUpdates(a: seq<Row>, b: seq<Row>, floor: Time)
    requires DifferInUpdates(a, b)
    ensures CountAbove(a, floor) == CountAbove(b, floor)
    decreases |a|
  {
    if a != [] {
      CountIgnoresUpdates(a[1..], b[1..], floor);
    }
  }

  /** Once a record has a removal time, later updates of it make no difference to the decision. */
  lemma DecisionIgnoresUpdates(a: seq<Row>, b: seq<Row>, updatedAt: Option<Time>, now: Time)
    requires DifferInUpdates(a, b)
    ensures Decide(a, updatedAt, now) == Decide(b, updatedAt, now)
  {
    SelectedDifferInUpdates(a, b, ACTIVE);
    SelectedDifferInUpdates(a, b, {Stopped, Failed});
    SelectedDifferInUpdates(a, b, {Stopped});
    SelectedDifferInUpdates(a, b, {Failed});
    var stopped := LatestOf(a, {Stopped});
    if updatedAt.Some? && ResetFloor(stopped, updatedAt.value).Some? {
      CountIgnoresUpdates(Select(a, {Failed}), Select(b, {Failed}), ResetFloor(stopped, updatedAt.value).value);
    }
  }

  /** How long to wait after the n-th failure that counts, in seconds. */
  function WaitInSeconds(n: nat): int {
    match n
    case 0 => 0
    case 1 => 10
    case 2 => 30
    case 3 => 60
    case 4 => 300
    case _ => 900
  }

  /** The record was created after the configuration was last changed, and after every stopped record. */
  ghost predicate Counts(rows: seq<Row>, updatedAt: Time, row: Row)
    requires AllDated(rows)
  {
    && row.status.Failed? && row.createdAt.Some? && row.createdAt.value > updatedAt
    && forall i :: 0 <= i < |rows| && rows[i].status.Stopped? ==> row.createdAt.value > rows[i].createdAt.value
  }

  /** Of the records only the first n failures count. */
  ghost predicate CountTo(rows: seq<Row>, updatedAt: Time, n: nat)
    requires AllDated(rows)
  {
    var failures := Select(rows, {Failed});
    n <= |failures| && forall i :: 0 <= i < |failures| ==> (Counts(rows, updatedAt, failures[i]) <==> i < n)
  }

  lemma {:induction false} NoneSelected(rows: seq<Row>, statuses: set<WorkloadStatus>)
    requires statuses != {} && forall i :: 0 <= i < |rows| ==> rows[i].status !in statuses
    ensures Select(rows, statuses) == []
    decreases |rows|
  {
    if rows != [] {
      NoneSelected(rows[1..], statuses);
    }
  }

  lemma {:induction false} SelectOrdered(rows: seq<Row>, statuses: set<WorkloadStatus>)
    requires AllDated(rows) && NewestFirst(rows)
    ensures AllDated(Select(rows, statuses)) && NewestFirst(Select(rows, statuses))
    decreases |rows|
  {
    SelectNamed(rows, statuses);
    if rows != [] {
      SelectOrdered(rows[1..], statuses);
      var rest := Select(rows[1..], statuses);
      SelectSound(rows[1..], statuses);
      forall i | 0 <= i < |rest| ensures rest[i].createdAt.value <= rows[0].createdAt.value {
        assert rest[i] in rest && rest[i] in rows[1..];
      }
    }
  }

  /** The floor is the later of the configuration change and the creation of the newest stopped record. */
  lemma CountMeans(rows: seq<Row>, updatedAt: Time) returns (floor: Time, n: nat)
    requires AllDated(rows) && NewestFirst(rows)
    ensures ResetFloor(LatestOf(rows, {Stopped}), updatedAt) == Some(floor)
    ensures CountAbove(Select(rows, {Failed}), floor) == Some(n) && CountTo(rows, updatedAt, n)
  {
    var stopped, failures := Select(rows, {Stopped}), Select(rows, {Failed});
    SelectOrdered(rows, {Stopped});
    SelectOrdered(rows, {Failed});
    SelectSound(rows, {Stopped});
    SelectSound(rows, {Failed});
    forall k | 0 <= k < |rows| && rows[k].status.Stopped?
      ensures stopped != [] && rows[k].createdAt.value <= stopped[0].createdAt.value
    {
      assert rows[k] in stopped;
    }
    if stopped != [] {
      assert stopped[0] in stopped;
      var k :| 0 <= k < |rows| && rows[k] == stopped[0];
      assert rows[k].status.Stopped?;
    }
    floor := ResetFloor(LatestOf(rows, {Stopped}), updatedAt).value;
    CountIsExact(failures, floor);
    n := CountAbove(failures, floor).value;
    forall i | 0 <= i < |failures| ensures Counts(rows, updatedAt, failures[i]) <==> i < n {
      assert failures[i] in failures;
    }
  }

  /**
   * The decision in so many words, for a history that is dated and newest first, with no active record, and whose
   * newest record is a failure that ended at an instant: removed then or, if it has no removal time, last
   * updated then. The n-th failure that counts is waited for 10, 30, 60, 300 and then 900 s, and the tenth
   * pauses the instance, unless the configuration has been changed since.
   */
  lemma DecidesByEnd(rows: seq<Row>, updatedAt: Time, now: Time, ended: Time, n: nat)
    requires rows != [] && AllDated(rows) && NewestFirst(rows)
    requires forall i :: 0 <= i < |rows| ==> rows[i].status in {Stopped, Failed}
    requires rows[0].status.Failed?
    requires rows[0].removedAt == Some(ended) || (rows[0].removedAt == None && rows[0].updatedAt == Some(ended))
    requires CountTo(rows, updatedAt, n)
    ensures Decide(rows, Some(updatedAt), now) ==
      if updatedAt > ended then Start
      else if n >= 10 then Pause
      else if now - ended < WaitInSeconds(n) * SECOND && n > 0 then Hold
      else Start
  {
    NoneSelected(rows, ACTIVE);
    var floor, m := CountMeans(rows, updatedAt);
    var failures := Select(rows, {Failed});
    var atM := m < |failures| && Counts(rows, updatedAt, failures[m]);
    var atN := n < |failures| && Counts(rows, updatedAt, failures[n]);
    assert m == n;
  }

  /** A stopped record, or none at all, lets the instance start at once; an active one holds it back. */
  lemma DecidesAtOnce(rows: seq<Row>, updatedAt: Option<Time>, now: Time)
    ensures (exists r :: r in rows && r.status in {Starting, Running, Stopping}) ==>
      Decide(rows, updatedAt, now) == Hold
    ensures (forall r :: r in rows ==> r.status !in {Starting, Running, Stopping, Failed}) ==>
      Decide(rows, updatedAt, now) == Start
  {
    SelectSound(rows, ACTIVE);
    SelectSound(rows, {Stopped, Failed});
    if exists r :: r in rows && r.status in {Starting, Running, Stopping} {
      var r :| r in rows && r.status in {Starting, Running, Stopping};
      assert r in Select(rows, ACTIVE);
    } else if forall r :: r in rows ==> r.status !in {Starting, Running, Stopping, Failed} {
      NoneSelected(rows, ACTIVE);
      if Select(rows, {Stopped, Failed}) != [] {
        assert Select(rows, {Stopped, Failed})[0] in Select(rows, {Stopped, Failed});
      }
    }
  }
}
