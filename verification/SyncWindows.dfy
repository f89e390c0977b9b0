/** Window progression and checkpoint compare-and-advance of the Taobao and Meituan order
    syncs (src/platform/taobao/sync.rs, src/platform/meituan/sync.rs). Times are seconds. */
module SyncWindows {
  import opened Wrappers
  import opened Domain

  type Time = int

  /** Window length, overlap with the previous window, and the longest query the platform
      accepts. */
  datatype Plan = Plan(window: int, overlap: int, limit: int) {
    predicate Valid() { 0 < overlap < window <= limit }
  }

  const TAOBAO := Plan(20 * 60, 5 * 60, 3 * 3600)
  const MEITUAN := Plan(30 * 60, 5 * 60, 90 * 86400)

  datatype Checkpoint = Checkpoint(cursor: Option<string>, start: Option<Time>, end: Option<Time>)

  datatype Query = Query(start: Time, end: Time, cursor: Option<string>) {
    /** The query's `validate`; the Meituan one also refuses an empty cursor. */
    predicate Valid(p: Plan) {
      start < end && end - start <= p.limit && cursor != Some("")
    }
  }

  datatype SyncError = MissingStart | MissingEnd

  /** `next_window`. */
  function NextWindow(p: Plan, c: Option<Checkpoint>, now: Time): Result<Query, SyncError> {
    if c.Some? && c.value.cursor.Some? then
      if c.value.start.None? then Err(MissingStart)
      else if c.value.end.None? then Err(MissingEnd)
      else Ok(Query(c.value.start.value, c.value.end.value, c.value.cursor))
    else if c.Some? && c.value.end.Some? then
      var start := c.value.end.value - p.overlap;
      var end := Min(start + p.window, now);
      if end > start then Ok(Query(start, end, None)) else Ok(Query(now - p.window, now, None))
    else Ok(Query(now - p.window, now, None))
  }

  /** A checkpoint as `sync_next` writes it: a query that passed `validate`. */
  predicate Sound(p: Plan, c: Checkpoint) {
    && c.start.Some? && c.end.Some?
    && Query(c.start.value, c.end.value, c.cursor).Valid(p)
  }

  /** Both platforms' constants are what the theorems below ask of a plan. */
  lemma PlansAreValid()
    ensures TAOBAO.Valid() && MEITUAN.Valid()
  {
  }

  /** What the worker asks for is always a query the platform accepts. */
  lemma NextWindowIsValid(p: Plan, c: Option<Checkpoint>, now: Time)
    requires p.Valid() && (c.Some? ==> Sound(p, c.value))
    ensures NextWindow(p, c, now).Ok? && NextWindow(p, c, now).value.Valid(p)
  {
  }

  /** After a finished window the end does not go back if and only if the clock did not. */
  lemma EndGoesBackIff(p: Plan, c: Checkpoint, now: Time)
    requires p.Valid() && Sound(p, c) && c.cursor.None?
    ensures NextWindow(p, Some(c), now).value.end >= c.end.value <==> now >= c.end.value
  {
  }

  /** The end after n finished windows at one `now`. */
  function EndAfter(p: Plan, end: Time, now: Time, n: nat): Time
    requires p.Valid()
    decreases n
  {
    if n == 0 then end
    else
      var c := Checkpoint(None, Some(end - 1), Some(end));
      EndAfter(p, NextWindow(p, Some(c), now).value.end, now, n - 1)
  }

  lemma OneMore(n: nat, step: int)
    requires n > 0 && step > 0
    ensures n * step == (n - 1) * step + step && (n - 1) * step >= 0
  {
  }

  lemma {:induction false} CatchUp(p: Plan, end: Time, now: Time, n: nat)
    requires p.Valid() && end <= now
    ensures EndAfter(p, end, now, n) == Min(end + n * (p.window - p.overlap), now)
    decreases n
  {
    if n > 0 {
      var step := p.window - p.overlap;
      var next := Min(end + step, now);
      CatchUp(p, next, now, n - 1);
      OneMore(n, step);
    }
  }

  // -------------------------------------------------------- concurrent workers

  /** A worker between reading the checkpoint and ending. */
  datatype Job = Job(id: nat, seen: Option<Checkpoint>, now: Time)

  /** `passed` are the jobs whose comparison succeeded; `holder` is the one that locked the
      row. Comparing against a missing row locks nothing. `windows` lists the windows whose
      last page was committed; `updated` is last_platform_updated_at. */
  datatype Sync = Sync(row: Option<Checkpoint>, updated: Option<Time>, clock: Time, started: nat,
                       fetching: set<Job>, passed: set<Job>, holder: Option<Job>, windows: seq<Query>)

  datatype Event =
    | Begin(now: Time)
    | GiveUp(job: Job)
    | Compare(job: Job)
    | Commit(job: Job, next: Option<string>, newest: Option<Time>)

  /** COALESCE(GREATEST(old, new), old, new). */
  function Later(a: Option<Time>, b: Option<Time>): Option<Time> {
    if a.None? then b
    else if b.None? then a
    else Some(if a.value >= b.value then a.value else b.value)
  }

  function Step(p: Plan, s: Sync, e: Event): Sync {
    match e
    case Begin(now) =>
      if now < s.clock || NextWindow(p, s.row, now).Err? then s
      else s.(clock := now, started := s.started + 1, fetching := s.fetching + {Job(s.started, s.row, now)})
    case GiveUp(job) =>
      s.(fetching := s.fetching - {job}, passed := s.passed - {job}, holder := if s.holder == Some(job) then None else s.holder)
    case Compare(job) =>
      if job !in s.fetching || (s.row.Some? && s.holder.Some?) then s
      else if s.row != job.seen then s.(fetching := s.fetching - {job})
      else s.(fetching := s.fetching - {job}, passed := s.passed + {job}, holder := if s.row.Some? then Some(job) else s.holder)
    case Commit(job, next, newest) =>
      if job !in s.passed || (s.holder.Some? && s.holder != Some(job)) || next == Some("") then s
      else
        var r := NextWindow(p, job.seen, job.now);
        if r.Err? then s
        else
          s.(row := Some(Checkpoint(next, Some(r.value.start), Some(r.value.end))),
             updated := Later(s.updated, newest),
             passed := s.passed - {job}, holder := None,
             windows := if next.None? then s.windows + [r.value] else s.windows)
  }

  function Run(p: Plan, s: Sync, events: seq<Event>): Sync
    decreases events
  {
    if events == [] then s else Run(p, Step(p, s, events[0]), events[1..])
  }

  /** The job's commit would be applied now. */
  predicate Commits(s: Sync, job: Job) {
    job in s.passed && (s.holder.Some? ==> s.holder == Some(job))
  }

  // ------------------------------------------------ compare-and-advance

  /** A job that compared against a row holds that row, unchanged, until it ends. */
  ghost predicate Locked(s: Sync) {
    && (forall j :: j in s.passed && j.seen.Some? ==> s.holder == Some(j))
    && (s.holder.Some? ==> s.holder.value in s.passed && s.row == s.holder.value.seen && s.row.Some?)
    && (s.row.None? ==> forall j :: j in s.passed ==> j.seen.None?)
    && (forall j :: j in s.fetching + s.passed ==> j.id < s.started)
    && (forall j, k :: j in s.fetching + s.passed && k in s.fetching + s.passed && j.id == k.id ==> j == k)
    && s.fetching * s.passed == {}
  }

  lemma StepLocked(p: Plan, s: Sync, e: Event)
    requires Locked(s)
    ensures Locked(Step(p, s, e))
  {
  }

  lemma {:induction false} RunLocked(p: Plan, s: Sync, events: seq<Event>)
    requires Locked(s)
    ensures Locked(Run(p, s, events))
    decreases events
  {
    hide Step;
    if events != [] {
      StepLocked(p, s, events[0]);
      RunLocked(p, Step(p, s, events[0]), events[1..]);
    }
  }

  const FRESH := Sync(None, None, 0, 0, {}, {}, None, [])

  /** Checkpoints are what finished syncs wrote, and no clock reading went back. */
  ghost predicate Timely(p: Plan, s: Sync) {
    && Locked(s)
    && (s.row.Some? ==> Sound(p, s.row.value) && s.row.value.end.value <= s.clock)
    && (forall j :: j in s.fetching + s.passed ==>
          && j.now <= s.clock
          && (j.seen.Some? ==> Sound(p, j.seen.value) && j.seen.value.end.value <= j.now))
  }

  lemma StepTimely(p: Plan, s: Sync, e: Event)
    requires p.Valid() && Timely(p, s)
    ensures Timely(p, Step(p, s, e))
  {
    hide Locked;
    StepLocked(p, s, e);
  }

  lemma {:induction false} RunTimely(p: Plan, s: Sync, events: seq<Event>)
    requires p.Valid() && Timely(p, s)
    ensures Timely(p, Run(p, s, events))
    decreases events
  {
    hide Step;
    if events != [] {
      StepTimely(p, s, events[0]);
      RunTimely(p, Step(p, s, events[0]), events[1..]);
    }
  }

  /** Over every run of any number of workers: a commit replaces exactly the checkpoint its
      worker saw if and only if it saw one, or there still is none. */
  lemma CommitReplacesWhatItSawIff(p: Plan, events: seq<Event>, job: Job)
    requires Commits(Run(p, FRESH, events), job)
    ensures Run(p, FRESH, events).row == job.seen <==> job.seen.Some? || Run(p, FRESH, events).row.None?
  {
    RunLocked(p, FRESH, events);
  }

  /** Past a comparison with a row nobody else is. */
  lemma OneHolder(p: Plan, events: seq<Event>, job: Job)
    requires Commits(Run(p, FRESH, events), job) && job.seen.Some?
    ensures forall other :: other in Run(p, FRESH, events).passed && other.seen.Some? ==> other == job
  {
    RunLocked(p, FRESH, events);
  }

  /** This commit would move the checkpoint's end back. */
  ghost predicate PutsBack(p: Plan, s: Sync, job: Job, next: Option<string>, newest: Option<Time>) {
    && Commits(s, job) && s.row.Some? && s.row.value.end.Some?
    && var after := Step(p, s, Commit(job, next, newest)).row;
       after.Some? && after.value.end.Some? && after.value.end.value < s.row.value.end.value
  }

  /** Exactly when a commit moves the end back: its worker saw no checkpoint, there is one
      now, and it reaches beyond the worker's clock reading. */
  lemma PutsBackIff(p: Plan, events: seq<Event>, job: Job, next: Option<string>, newest: Option<Time>)
    requires p.Valid() && Commits(Run(p, FRESH, events), job) && next != Some("")
    ensures PutsBack(p, Run(p, FRESH, events), job, next, newest)
            <==> && job.seen.None? && Run(p, FRESH, events).row.Some?
                 && Run(p, FRESH, events).row.value.end.Some? && job.now < Run(p, FRESH, events).row.value.end.value
  {
    hide Run;
    RunTimely(p, FRESH, events);
  }

  /** The case happens: two first syncs can both pass the comparison with a missing row, and
      the late one puts the checkpoint back. */
  lemma FirstSyncsRace()
    ensures exists events, job :: PutsBack(TAOBAO, Run(TAOBAO, FRESH, events), job, None, None)
  {
    var early, late := Job(0, None, 1000), Job(1, None, 5000);
    var e := [Begin(1000), Begin(5000), Compare(early), Compare(late), Commit(late, None, None)];
    var s1 := Step(TAOBAO, FRESH, e[0]);
    var s2 := Step(TAOBAO, s1, e[1]);
    assert s2.fetching == {early, late};
    var s3 := Step(TAOBAO, s2, e[2]);
    var s4 := Step(TAOBAO, s3, e[3]);
    var s5 := Step(TAOBAO, s4, e[4]);
    assert early in s5.passed && s5.row == Some(Checkpoint(None, Some(3800), Some(5000)));
    RunFive(TAOBAO, FRESH, e);
    assert PutsBack(TAOBAO, s5, early, None, None);
  }

  lemma RunFive(p: Plan, s: Sync, e: seq<Event>)
    requires |e| == 5
    ensures Run(p, s, e) == Step(p, Step(p, Step(p, Step(p, Step(p, s, e[0]), e[1]), e[2]), e[3]), e[4])
  {
    hide Step;
    var s1 := Step(p, s, e[0]);
    var s2 := Step(p, s1, e[1]);
    var s3 := Step(p, s2, e[2]);
    assert e[1..][1..] == e[2..] && e[2..][1..] == e[3..] && e[3..][1..] == [e[4]] && [e[4]][1..] == [];
    assert Run(p, s, e) == Run(p, s1, e[1..]) == Run(p, s2, e[2..]) == Run(p, s3, e[3..]);
    assert Run(p, s3, e[3..]) == Run(p, Step(p, s3, e[3]), [e[4]]);
    assert Run(p, Step(p, s3, e[3]), [e[4]]) == Run(p, Step(p, Step(p, s3, e[3]), e[4]), []);
  }

  /** A commit that is applied leaves the newest platform time it and all before it have seen. */
  lemma CommitKeepsNewest(p: Plan, s: Sync, job: Job, next: Option<string>, newest: Option<Time>)
    requires Commits(s, job) && NextWindow(p, job.seen, job.now).Ok? && next != Some("")
    ensures var after := Step(p, s, Commit(job, next, newest)).updated;
            && (after == s.updated || after == newest)
            && (s.updated.Some? ==> after.Some? && s.updated.value <= after.value)
            && (newest.Some? ==> after.Some? && newest.value <= after.value)
  {
  }

  /** Over every run the newest platform time seen is never lost and never goes back. */
  lemma {:induction false} NewestNeverGoesBack(p: Plan, s: Sync, events: seq<Event>)
    ensures s.updated.Some? ==> Run(p, s, events).updated.Some? && s.updated.value <= Run(p, s, events).updated.value
    decreases events
  {
    if events != [] {
      NewestNeverGoesBack(p, Step(p, s, events[0]), events[1..]);
    }
  }

  // --------------------------------------------------- coverage of a serial run

  /** From a first committed page, whether or not it finished its window. */
  function Established(first: Query): Sync {
    Sync(Some(Checkpoint(first.cursor, Some(first.start), Some(first.end))), None, first.end, 0, {}, {}, None,
         if first.cursor.None? then [first] else [])
  }

  /** Each window begins before the previous one ends and ends no earlier. */
  ghost predicate GapFree(windows: seq<Query>) {
    forall i :: 0 < i < |windows| ==> windows[i].start < windows[i - 1].end <= windows[i].end
  }

  /** Up to where the finished windows reach: the checkpoint's end, or where the window
      still being paged joins them. */
  ghost predicate Reach(p: Plan, row: Checkpoint, windows: seq<Query>, start: Time)
    requires row.start.Some? && row.end.Some?
  {
    if windows == [] then row.cursor.Some? && row.start.value == start
    else
      && windows[0].start == start
      && windows[|windows| - 1].end == (if row.cursor.None? then row.end.value else row.start.value + p.overlap)
      && windows[|windows| - 1].end <= row.end.value
  }

  ghost predicate Covered(p: Plan, s: Sync, start: Time) {
    && Timely(p, s) && s.row.Some?
    && GapFree(s.windows) && Reach(p, s.row.value, s.windows, start)
    && (forall i :: 0 <= i < |s.windows| ==> Query(s.windows[i].start, s.windows[i].end, None).Valid(p))
    && (forall j :: j in s.fetching + s.passed ==> j.seen.Some?)
  }

  lemma GapFreeMore(windows: seq<Query>, q: Query)
    requires GapFree(windows)
    requires windows != [] ==> q.start < windows[|windows| - 1].end <= q.end
    ensures GapFree(windows + [q])
  {
  }

  /** A committed page carries the windows on. */
  lemma PageCarriesOn(p: Plan, row: Checkpoint, windows: seq<Query>, start: Time, now: Time, next: Option<string>)
    requires p.Valid() && Sound(p, row) && row.end.value <= now && GapFree(windows) && Reach(p, row, windows, start)
    ensures var q := NextWindow(p, Some(row), now).value;
            var windows' := if next.None? then windows + [q] else windows;
            && row.end.value <= q.end <= now && GapFree(windows')
            && Reach(p, Checkpoint(next, Some(q.start), Some(q.end)), windows', start)
  {
    hide GapFree;
    GapFreeMore(windows, NextWindow(p, Some(row), now).value);
  }

  lemma CommitCovered(p: Plan, s: Sync, start: Time, job: Job, next: Option<string>, newest: Option<Time>)
    requires p.Valid() && Covered(p, s, start)
    ensures Covered(p, Step(p, s, Commit(job, next, newest)), start)
    ensures s.row.value.end.value <= Step(p, s, Commit(job, next, newest)).row.value.end.value
  {
    hide Locked, GapFree, Reach;
    StepLocked(p, s, Commit(job, next, newest));
    if Commits(s, job) {
      HolderSawTheRow(s, job);
      PageCarriesOn(p, s.row.value, s.windows, start, job.now, next);
    }
  }

  lemma StepCovered(p: Plan, s: Sync, start: Time, e: Event)
    requires p.Valid() && Covered(p, s, start)
    ensures Covered(p, Step(p, s, e), start)
    ensures s.row.value.end.value <= Step(p, s, e).row.value.end.value
  {
    hide Locked, GapFree, Reach;
    StepLocked(p, s, e);
    if e.Commit? {
      CommitCovered(p, s, start, e.job, e.next, e.newest);
    }
  }

  lemma HolderSawTheRow(s: Sync, job: Job)
    requires Locked(s) && Commits(s, job) && s.row.Some? && job.seen.Some?
    ensures job.seen == s.row
  {
  }

  lemma {:induction false} RunCovered(p: Plan, s: Sync, start: Time, events: seq<Event>)
    requires p.Valid() && Covered(p, s, start)
    ensures Covered(p, Run(p, s, events), start) && s.row.value.end.value <= Run(p, s, events).row.value.end.value
    decreases events
  {
    hide Step;
    if events != [] {
      StepCovered(p, s, start, events[0]);
      RunCovered(p, Step(p, s, events[0]), start, events[1..]);
    }
  }

  lemma {:induction false} ChainCovers(windows: seq<Query>, t: Time)
    requires |windows| > 0 && GapFree(windows)
    requires windows[0].start <= t <= windows[|windows| - 1].end
    ensures exists i :: 0 <= i < |windows| && windows[i].start <= t <= windows[i].end
  {
    if |windows| > 1 && t <= windows[|windows| - 2].end {
      ChainCovers(windows[..|windows| - 1], t);
    }
  }

  lemma {:induction false} RunAppend(p: Plan, s: Sync, before: seq<Event>, after: seq<Event>)
    ensures Run(p, s, before + after) == Run(p, Run(p, s, before), after)
    decreases before
  {
    hide Step;
    if before == [] {
      assert before + after == after;
    } else {
      assert (before + after)[1..] == before[1..] + after;
      RunAppend(p, Step(p, s, before[0]), before[1..], after);
    }
  }

  /** At no point of such a run does the checkpoint's end go back. */
  lemma EndNeverGoesBack(p: Plan, first: Query, before: seq<Event>, after: seq<Event>)
    requires p.Valid() && first.Valid(p)
    ensures var earlier, later := Run(p, Established(first), before).row, Run(p, Established(first), before + after).row;
            earlier.Some? && later.Some? && earlier.value.end.Some? && later.value.end.Some?
            && earlier.value.end.value <= later.value.end.value
  {
    RunCovered(p, Established(first), first.start, before);
    RunCovered(p, Run(p, Established(first), before), first.start, after);
    RunAppend(p, Established(first), before, after);
  }

  /** Over every run after a first committed page, with any number of workers, pages,
      failures and non-decreasing clock readings: every finished window is one the platform
      accepts, and together they cover one interval without a gap, from the first start up
      to the checkpoint, or up to where the window being paged joined it. */
  lemma WindowsCoverOneInterval(p: Plan, first: Query, events: seq<Event>, t: Time)
    requires p.Valid() && first.Valid(p)
    ensures var s := Run(p, Established(first), events);
            && s.row.Some? && Sound(p, s.row.value)
            && (forall i :: 0 <= i < |s.windows| ==> Query(s.windows[i].start, s.windows[i].end, None).Valid(p))
            && (s.windows == [] ==> s.row.value.cursor.Some? && s.row.value.start.value == first.start)
            && var upTo := if s.row.value.cursor.None? then s.row.value.end.value else s.row.value.start.value + p.overlap;
               s.windows != [] && first.start <= t <= upTo ==>
                 exists i :: 0 <= i < |s.windows| && s.windows[i].start <= t <= s.windows[i].end
  {
    RunCovered(p, Established(first), first.start, events);
    var s := Run(p, Established(first), events);
    if s.windows != [] && first.start <= t <= s.windows[|s.windows| - 1].end {
      ChainCovers(s.windows, t);
    }
  }

  // ------------------------------------------------------------ one sync_next

  /** A normalised page. Meituan pages have a next one exactly when they carry a cursor. */
  datatype Page = Page(hasNext: bool, cursor: Option<string>, newest: Option<Time>)

  datatype Failure = BadCheckpoint(error: SyncError) | BadQuery | CursorMissing | ConcurrentSync

  /** How a `sync_next` that read `seen` ends when it finds `current`. */
  function Verdict(p: Plan, current: Option<Checkpoint>, seen: Option<Checkpoint>, now: Time, page: Page): Result<Query, Failure> {
    match NextWindow(p, seen, now)
    case Err(error) => Err(BadCheckpoint(error))
    case Ok(query) =>
      if !query.Valid(p) then Err(BadQuery)
      else if page.hasNext && page.cursor.None? then Err(CursorMissing)
      else if current != seen then Err(ConcurrentSync)
      else Ok(query)
  }

  /** The checkpoint a finished `sync_next` writes. */
  function Written(q: Query, page: Page): Checkpoint {
    Checkpoint(if page.hasNext then page.cursor else None, Some(q.start), Some(q.end))
  }

  /** What `sync_next` asks for first: one window up to now. */
  lemma FirstQuery(p: Plan, now: Time, page: Page)
    requires p.Valid() && (page.hasNext ==> page.cursor.Some?)
    ensures Verdict(p, None, None, now, page) == Ok(Query(now - p.window, now, None))
  {
  }

  /** After a page with a next one, the next query asks for the same window and carries exactly
      that page's cursor, whatever the clock says. After the last page it carries none and asks
      for the window that overlaps the finished one, cut off at the clock; or, with the clock
      back before that overlap, for the window that ends at the clock. */
  lemma NextQuery(p: Plan, row: Option<Checkpoint>, now: Time, page: Page, now': Time, page': Page)
    requires p.Valid() && (row.Some? ==> Sound(p, row.value))
    requires Verdict(p, row, row, now, page).Ok? && page.cursor != Some("") && (page'.hasNext ==> page'.cursor.Some?)
    ensures var q := Verdict(p, row, row, now, page).value;
            var row' := Some(Written(q, page));
            && Sound(p, row'.value)
            && Verdict(p, row', row', now', page')
               == Ok(if page.hasNext then Query(q.start, q.end, page.cursor)
                     else if q.end - p.overlap < now' then Query(q.end - p.overlap, Min(q.end - p.overlap + p.window, now'), None)
                     else Query(now' - p.window, now', None))
  {
  }

  /** One `sync_next` after another, each finding what the one before wrote. */
  datatype Visit = Visit(now: Time, page: Page)

  /** The queries they ask, as far as they go through. */
  function Queries(p: Plan, row: Option<Checkpoint>, visits: seq<Visit>): seq<Query>
    decreases visits
  {
    if visits == [] then []
    else
      match Verdict(p, row, row, visits[0].now, visits[0].page)
      case Err(_) => []
      case Ok(q) => [q] + Queries(p, Some(Written(q, visits[0].page)), visits[1..])
  }

  predicate Readable(page: Page) {
    page.cursor != Some("") && (page.hasNext ==> page.cursor.Some?)
  }

  /** However the clock goes: from a finished window on, as many visits as the platform has
      pages ask for one and the same window, the first without a cursor and each later one
      with the cursor of the page before, so that every page is fetched once and in order. */
  lemma {:induction false} WindowIsPagedThrough(p: Plan, row: Option<Checkpoint>, visits: seq<Visit>)
    requires p.Valid() && (row.Some? ==> Sound(p, row.value)) && visits != []
    requires forall i :: 0 <= i < |visits| ==> Readable(visits[i].page) && (visits[i].page.hasNext <==> i < |visits| - 1)
    ensures var queries := Queries(p, row, visits);
            && |queries| == |visits|
            && (row.None? || row.value.cursor.None? ==> queries[0].cursor == None)
            && (row.Some? && row.value.cursor.Some? ==>
                  queries[0] == Query(row.value.start.value, row.value.end.value, row.value.cursor))
            && forall i :: 0 < i < |visits| ==> queries[i] == Query(queries[0].start, queries[0].end, visits[i - 1].page.cursor)
    decreases visits
  {
    var first := Verdict(p, row, row, visits[0].now, visits[0].page);
    NextWindowIsValid(p, row, visits[0].now);
    if |visits| > 1 {
      NextQuery(p, row, visits[0].now, visits[0].page, visits[1].now, visits[1].page);
      var rest := visits[1..];
      assert forall i :: 0 <= i < |rest| ==> rest[i] == visits[i + 1];
      WindowIsPagedThrough(p, Some(Written(first.value, visits[0].page)), rest);
      var queries := Queries(p, row, visits);
      assert queries == [first.value] + Queries(p, Some(Written(first.value, visits[0].page)), rest);
      forall i | 0 < i < |visits|
        ensures queries[i] == Query(queries[0].start, queries[0].end, visits[i - 1].page.cursor)
      {
        assert queries[i] == Queries(p, Some(Written(first.value, visits[0].page)), rest)[i - 1];
        if i > 1 {
          assert visits[i - 1] == rest[i - 2];
        }
      }
    }
  }

  class CheckpointRow {
    const plan: Plan
    var row: Option<Checkpoint>
    var updated: Option<Time>

    predicate Valid()
      reads this
    {
      plan.Valid() && (row.Some? ==> Sound(plan, row.value))
    }

    constructor (plan: Plan)
      requires plan.Valid()
      ensures Valid() && this.plan == plan && row == None && updated == None
    {
      this.plan := plan;
      row, updated := None, None;
    }

    method SyncNext(seen: Option<Checkpoint>, now: Time, page: Page) returns (r: Result<Query, Failure>)
      requires Valid() && page.cursor != Some("")
      modifies this`row, this`updated
      ensures Valid()
      ensures r == Verdict(plan, old(row), seen, now, page)
      ensures r.Ok? <==> seen == old(row) && (page.hasNext ==> page.cursor.Some?)
      ensures if r.Err? then row == old(row) && updated == old(updated) else
                && row == Some(Written(r.value, page))
                && updated == Later(old(updated), page.newest)
    {
      var window := NextWindow(plan, seen, now);
      if window.Err? { return Err(BadCheckpoint(window.error)); }
      var query := window.value;
      if !query.Valid(plan) { return Err(BadQuery); }
      if page.hasNext && page.cursor.None? { return Err(CursorMissing); }
      if row != seen { return Err(ConcurrentSync); }
      var cursor: Option<string> := None;
      if page.hasNext {
        cursor := page.cursor;
      }
      row := Some(Checkpoint(cursor, Some(query.start), Some(query.end)));
      if updated.None? || (page.newest.Some? && updated.value < page.newest.value) {
        updated := page.newest;
      }
      return Ok(query);
    }
  }
}
