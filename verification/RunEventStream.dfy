/**
  An ordered tail over a log with concurrent writers and reconnecting clients:
  packages/persistence/src/run-event-stream.ts, with the event counter of
  packages/persistence/src/run-write-context.ts. The rows are those of one run.
 */
module RunEventStream {
  import opened Wrappers
  import opened LastEventId

  const DEFAULT_READ_LIMIT := 500
  const MAX_RUN_EVENT_READ_LIMIT := 1000

  datatype Event = Event(id: nat, kind: string, attempt: nat, payload: string)

  // ---- Reading a page ---------------------------------------------------------------------------------------------

  function Min(a: nat, b: nat): nat {
    if a <= b then a else b
  }

  /** normalizeReadLimit: the default, or a positive integer, and never more than the ceiling. */
  function NormalizeReadLimit(limit: Option<real>, ceiling: nat): (r: Result<nat, ()>)
    requires ceiling >= 1
    ensures r.Ok? <==> limit.None? || (limit.value >= 1.0 && limit.value == limit.value.Floor as real)
    ensures r.Ok? ==> 1 <= r.value <= ceiling
    ensures r.Ok? && limit.None? && ceiling >= 500 ==> r.value == 500
    ensures r.Ok? && r.value < ceiling ==> r.value as real == if limit.None? then 500.0 else limit.value
  {
    match limit
    case None => Ok(Min(DEFAULT_READ_LIMIT, ceiling))
    case Some(number) =>
      if number.Floor as real != number || number <= 0.0 then Err(())
      else Ok(Min(number.Floor, ceiling))
  }

  /** A read without a limit asks for 500 rows, one with a limit for as many and never for more than 1000. */
  lemma ReadLimits(limit: Option<real>)
    ensures var r := NormalizeReadLimit(limit, MAX_RUN_EVENT_READ_LIMIT);
            && (limit == None ==> r == Ok(500))
            && (limit.Some? && limit.value >= 1.0 && limit.value.Floor as real == limit.value ==>
                  r == Ok(if limit.value <= 1000.0 then limit.value.Floor else 1000))
            && (limit.Some? && (limit.value < 1.0 || limit.value.Floor as real != limit.value) ==> r.Err?)
  {}

  /**
    What the query promises: the first rows after the id, in order, no more than the limit and no fewer than it
    could.
   */
  ghost predicate IsPage(rows: set<Event>, after: nat, limit: nat, page: seq<Event>) {
    && |page| <= limit
    && (forall i :: 0 <= i < |page| ==> page[i] in rows && page[i].id > after)
    && (forall i, j :: 0 <= i < j < |page| ==> page[i].id < page[j].id)
    && (forall e :: e in rows && e.id > after && e !in page ==>
          |page| == limit && forall i :: 0 <= i < |page| ==> page[i].id < e.id)
  }

  predicate KeyedById(rows: set<Event>) {
    forall e, f :: e in rows && f in rows && e.id == f.id ==> e == f
  }

  lemma FirstExists(rows: set<Event>) returns (first: Event)
    requires rows != {}
    ensures first in rows && forall e :: e in rows ==> first.id <= e.id
  {
    var some :| some in rows;
    if rows == {some} {
      first := some;
    } else {
      var rest := FirstExists(rows - {some});
      first := if some.id < rest.id then some else rest;
      assert forall e :: e in rows ==> e == some || e in rows - {some};
    }
  }

  /** The page so far, and the rows it could still take. */
  ghost predicate Split(rows: set<Event>, after: nat, page: seq<Event>, rest: set<Event>) {
    && (forall e :: e in rest <==> e in rows && e.id > after && e !in page)
    && (forall i :: 0 <= i < |page| ==> page[i] in rows && page[i].id > after)
    && (forall i, j :: 0 <= i < j < |page| ==> page[i].id < page[j].id)
    && (forall e, i :: e in rest && 0 <= i < |page| ==> page[i].id < e.id)
  }

  lemma SplitOneMore(rows: set<Event>, after: nat, page: seq<Event>, rest: set<Event>, e: Event)
    requires KeyedById(rows) && Split(rows, after, page, rest)
    requires e in rest && forall f :: f in rest ==> e.id <= f.id
    ensures Split(rows, after, page + [e], rest - {e})
  {}

  /** SELECT … WHERE seq > after ORDER BY seq LIMIT limit. */
  method Select(rows: set<Event>, after: nat, limit: nat) returns (page: seq<Event>)
    requires KeyedById(rows)
    ensures IsPage(rows, after, limit, page)
  {
    page := [];
    var rest := set e | e in rows && e.id > after;
    while |page| < limit && rest != {}
      invariant |page| <= limit && Split(rows, after, page, rest)
      decreases limit - |page|
    {
      ghost var first := FirstExists(rest);
      var e :| e in rest && forall f :: f in rest ==> e.id <= f.id;
      SplitOneMore(rows, after, page, rest, e);
      page, rest := page + [e], rest - {e};
    }
  }

  /** readAfter; both arguments are checked before the table is asked. */
  method ReadAfter(rows: set<Event>, after: Value, limit: Option<real>) returns (r: Result<seq<Event>, ()>)
    requires KeyedById(rows)
    ensures r.Ok? <==> ParseLastEventId(after).Ok? && NormalizeReadLimit(limit, MAX_RUN_EVENT_READ_LIMIT).Ok?
    ensures r.Ok? ==> IsPage(rows, ParseLastEventId(after).value,
                             NormalizeReadLimit(limit, MAX_RUN_EVENT_READ_LIMIT).value, r.value)
  {
    var validated := ParseLastEventId(after);
    if validated.Err? { return Err(()); }
    var n := NormalizeReadLimit(limit, MAX_RUN_EVENT_READ_LIMIT);
    if n.Err? { return Err(()); }
    var page := Select(rows, validated.value, n.value);
    return Ok(page);
  }

  // ---- The log ----------------------------------------------------------------------------------------------------

  /** Events are numbered from one, without a gap. */
  ghost predicate IsLog(log: seq<Event>) {
    forall i :: 0 <= i < |log| ==> log[i].id == i + 1
  }

  function Rows(log: seq<Event>): set<Event> {
    set e | e in log
  }

  function Slice(log: seq<Event>, after: nat, limit: nat): seq<Event> {
    if after >= |log| then [] else log[after..Min(after + limit, |log|)]
  }

  /** On a gap-free log a page is the next slice of it. */
  lemma PageIsSlice(log: seq<Event>, after: nat, limit: nat, page: seq<Event>)
    requires IsLog(log) && IsPage(Rows(log), after, limit, page)
    ensures page == Slice(log, after, limit)
  {
    PageFollows(log, after, limit, page, |page|);
    assert forall i :: 0 <= i < |log| ==> log[i] in Rows(log);
    assert after + |page| < |log| ==> log[after + |page|] !in page;
  }

  /** The first n events of the page are the log's after this one. */
  ghost predicate Matches(log: seq<Event>, after: nat, page: seq<Event>, n: nat) {
    n <= |page| && (n > 0 ==> after + n <= |log|) && forall k :: 0 <= k < n ==> page[k] == log[after + k]
  }

  lemma {:induction false} PageFollows(log: seq<Event>, after: nat, limit: nat, page: seq<Event>, n: nat)
    requires IsLog(log) && IsPage(Rows(log), after, limit, page) && n <= |page|
    ensures Matches(log, after, page, n)
  {
    if n > 0 {
      PageFollows(log, after, limit, page, n - 1);
      var i := PlaceInLog(log, after, limit, page, n - 1);
      ExpectedOnPage(log, after, limit, page, n - 1, i);
    }
  }

  lemma PlaceInLog(log: seq<Event>, after: nat, limit: nat, page: seq<Event>, n: nat) returns (i: nat)
    requires IsLog(log) && IsPage(Rows(log), after, limit, page) && n < |page|
    requires Matches(log, after, page, n)
    ensures after + n <= i < |log| && page[n] == log[i]
  {
    assert page[n] in Rows(log);
    i :| 0 <= i < |log| && log[i] == page[n];
    if n > 0 { assert page[n - 1].id < page[n].id; }
  }

  /** The event the log has next cannot be missing from the page, so it is the next one there. */
  lemma ExpectedOnPage(log: seq<Event>, after: nat, limit: nat, page: seq<Event>, n: nat, i: nat)
    requires IsLog(log) && IsPage(Rows(log), after, limit, page) && n < |page|
    requires after + n <= i < |log| && page[n] == log[i]
    requires Matches(log, after, page, n)
    ensures i == after + n && Matches(log, after, page, n + 1)
  {
    var expected := log[after + n];
    assert expected in Rows(log) && expected.id > after;
    assert page[n].id >= expected.id;
    assert expected in page;
    var k :| 0 <= k < |page| && page[k] == expected;
  }

  // ---- The tail, one session --------------------------------------------------------------------------------------

  /** What was delivered is the log's events after start, from the first, without gap, repetition or disorder. */
  ghost predicate Follows(delivered: seq<Event>, log: seq<Event>, start: nat) {
    && (delivered != [] ==> start + |delivered| <= |log|)
    && forall k :: 0 <= k < |delivered| ==> delivered[k] == log[start + k]
  }

  ghost predicate Growing(logs: seq<seq<Event>>) {
    && (forall i :: 0 <= i < |logs| ==> IsLog(logs[i]))
    && forall i, j :: 0 <= i <= j < |logs| ==> logs[i] <= logs[j]
  }

  lemma RowsAreKeyed(log: seq<Event>)
    requires IsLog(log)
    ensures KeyedById(Rows(log))
  {}

  /** A poll of the tail: readAfter from the cursor. */
  method PollOnce(log: seq<Event>, cursor: nat, pageSize: nat) returns (page: seq<Event>)
    requires IsLog(log) && cursor <= MAX_RUN_EVENT_SEQ && 1 <= pageSize <= MAX_RUN_EVENT_READ_LIMIT
    ensures page == Slice(log, cursor, pageSize)
  {
    RowsAreKeyed(log);
    NumberIsItself(cursor as real, cursor);
    assert NormalizeReadLimit(Some(pageSize as real), MAX_RUN_EVENT_READ_LIMIT) == Ok(pageSize);
    var events := ReadAfter(Rows(log), Num(cursor as real), Some(pageSize as real));
    page := events.value;
    PageIsSlice(log, cursor, pageSize, page);
  }

  /** The loop that hands a page over; stopped says that the signal was seen. */
  method HandOver(page: seq<Event>, delivered0: seq<Event>, cursor0: nat, checks0: nat, aborted: nat -> bool,
                  ghost log: seq<Event>, ghost start: nat, ghost pageSize: nat)
    returns (delivered: seq<Event>, cursor: nat, checks: nat, stopped: bool)
    requires IsLog(log) && |log| <= MAX_RUN_EVENT_SEQ && Follows(delivered0, log, start)
    requires cursor0 == start + |delivered0| <= MAX_RUN_EVENT_SEQ
    requires page == Slice(log, start + |delivered0|, pageSize)
    ensures delivered0 <= delivered && Follows(delivered, log, start)
    ensures cursor == start + |delivered| <= MAX_RUN_EVENT_SEQ
    ensures !stopped ==> delivered == delivered0 + page
    ensures stopped ==> exists n :: aborted(n)
  {
    delivered, cursor, checks := delivered0, cursor0, checks0;
    for j := 0 to |page|
      invariant delivered == delivered0 + page[..j] && cursor == start + |delivered| <= MAX_RUN_EVENT_SEQ
      invariant Follows(delivered, log, start)
    {
      if aborted(checks) { return delivered, cursor, checks, true; }
      checks := checks + 1;
      delivered := delivered + [page[j]];
      cursor := page[j].id;
    }
    assert page[..|page|] == page;
    stopped := aborted(checks);
    checks := checks + 1;
  }

  /** One round of the endless loop; progress says what it brings when it is not stopped. */
  method Round(log: seq<Event>, delivered0: seq<Event>, cursor0: nat, checks0: nat, aborted: nat -> bool,
               pageSize: nat, ghost start: nat)
    returns (delivered: seq<Event>, cursor: nat, checks: nat, stopped: bool)
    requires IsLog(log) && |log| <= MAX_RUN_EVENT_SEQ && 1 <= pageSize <= MAX_RUN_EVENT_READ_LIMIT
    requires Follows(delivered0, log, start) && cursor0 == start + |delivered0| <= MAX_RUN_EVENT_SEQ
    ensures delivered0 <= delivered && Follows(delivered, log, start)
    ensures cursor == start + |delivered| <= MAX_RUN_EVENT_SEQ
    ensures !stopped ==> |delivered| > |delivered0| || cursor >= |log|
    ensures stopped ==> exists n :: aborted(n)
  {
    if aborted(checks0) { return delivered0, cursor0, checks0, true; }
    var page := PollOnce(log, cursor0, pageSize);
    delivered, cursor, checks, stopped :=
      HandOver(page, delivered0, cursor0, checks0 + 1, aborted, log, start, pageSize);
  }

  /** The log as it was after i polls. */
  ghost function LogAfter(logs: seq<seq<Event>>, i: nat): seq<Event>
    requires i <= |logs|
  {
    if i == 0 then [] else logs[i - 1]
  }

  /** What was delivered by the last poll is as good at the next. */
  lemma StillFollows(delivered: seq<Event>, logs: seq<seq<Event>>, i: nat, start: nat)
    requires Growing(logs) && i < |logs| && Follows(delivered, LogAfter(logs, i), start)
    ensures Follows(delivered, logs[i], start) && IsLog(logs[i]) && |logs[0]| <= |logs[i]|
  {
    assert logs[0] <= logs[i] && LogAfter(logs, i) <= logs[i];
    FollowsLonger(delivered, LogAfter(logs, i), logs[i], start);
  }

  /** The endless loop, over the committed log at each poll; it stops when aborted or when the polls are used up. */
  method PollRounds(start: nat, pageSize: nat, logs: seq<seq<Event>>, aborted: nat -> bool)
    returns (delivered: seq<Event>, ghost polled: nat)
    requires Growing(logs) && 1 <= pageSize <= MAX_RUN_EVENT_READ_LIMIT && start <= MAX_RUN_EVENT_SEQ
    requires forall i :: 0 <= i < |logs| ==> |logs[i]| <= MAX_RUN_EVENT_SEQ
    ensures polled <= |logs| && Follows(delivered, LogAfter(logs, polled), start)
    ensures (forall n :: !aborted(n)) && |logs| > 0 ==>
              |delivered| >= |logs| || start + |delivered| >= |logs[0]|
  {
    polled, delivered := 0, [];
    var cursor, checks: nat := start, 0;
    for i := 0 to |logs|
      invariant polled == i && cursor == start + |delivered| <= MAX_RUN_EVENT_SEQ
      invariant Follows(delivered, LogAfter(logs, i), start)
      invariant |delivered| >= i || cursor >= |logs[0]|
    {
      StillFollows(delivered, logs, i, start);
      var stopped;
      polled := i + 1;
      delivered, cursor, checks, stopped := Round(logs[i], delivered, cursor, checks, aborted, pageSize, start);
      if stopped { return; }
    }
  }

  /** tail: the id is checked before anything is asked; the signal is asked as often as the code asks it. */
  method Tail(lastEventId: Option<Value>, pageSize: nat, logs: seq<seq<Event>>, aborted: nat -> bool)
    returns (r: Result<seq<Event>, ()>, ghost polled: nat)
    requires Growing(logs) && 1 <= pageSize <= MAX_RUN_EVENT_READ_LIMIT
    requires forall i :: 0 <= i < |logs| ==> |logs[i]| <= MAX_RUN_EVENT_SEQ
    ensures r.Ok? <==> lastEventId.None? || ParseLastEventId(lastEventId.value).Ok?
    ensures polled <= |logs|
    ensures r.Ok? ==> Follows(r.value, LogAfter(logs, polled), StartOf(lastEventId))
    ensures r.Ok? && (forall n :: !aborted(n)) && |logs| > 0 ==>
              |r.value| >= |logs| || StartOf(lastEventId) + |r.value| >= |logs[0]|
  {
    var parsed := ParseLastEventId(if lastEventId.None? then Num(0.0) else lastEventId.value);
    if parsed.Err? { return Err(()), 0; }
    var delivered;
    delivered, polled := PollRounds(parsed.value, pageSize, logs, aborted);
    return Ok(delivered), polled;
  }

  /** Where a tail starts: from the beginning when no id is given. */
  function StartOf(lastEventId: Option<Value>): nat
    requires lastEventId.Some? ==> ParseLastEventId(lastEventId.value).Ok?
  {
    if lastEventId.None? then 0 else ParseLastEventId(lastEventId.value).value
  }

  // ---- Writers, the stream and its client -------------------------------------------------------------------------

  /** An open transaction: the events it has inserted, and the counter as it sees it. */
  datatype Tx = Tx(pending: seq<Event>, counter: nat)

  /** log is the committed rows in commit order; the counter row is locked from the first increment to the end. */
  datatype Db = Db(log: seq<Event>, counter: nat, open: map<nat, Tx>, lock: Option<nat>)

  /** A client: what it has seen, what is on its way to it, and the tail that serves it. */
  datatype Client = Client(start: nat, seen: seq<Event>, inflight: seq<Event>, cursor: nat, page: seq<Event>,
                           pageSize: nat)

  datatype World = World(db: Db, client: Client)

  datatype Move =
    | BeginTx(t: nat)
    | Append(t: nat, kind: string, attempt: nat, payload: string)
    | Commit(t: nat)
    | Abort(t: nat)
    | Poll(answer: seq<Event>)
    | Yield
    | Receive
    | Reconnect(pageSize: nat)

  /** The id the client resumes from: the last it has seen, else the one it first asked for. */
  function LastSeen(c: Client): nat {
    if c.seen == [] then c.start else c.seen[|c.seen| - 1].id
  }

  ghost predicate Enabled(w: World, m: Move) {
    var db := w.db;
    match m
    case BeginTx(t) => t !in db.open
    case Append(t, _, _, _) =>
      && t in db.open && (db.lock.None? || db.lock == Some(t))
      && (if db.lock.None? then db.counter else db.open[t].counter) < MAX_RUN_EVENT_SEQ
    case Commit(t) => t in db.open
    case Abort(t) => t in db.open
    case Poll(page) => w.client.page == [] && IsPage(Rows(db.log), w.client.cursor, w.client.pageSize, page)
    case Yield => w.client.page != []
    case Receive => w.client.inflight != []
    case Reconnect(pageSize) => pageSize >= 1 && ParseLastEventId(Text(Print(LastSeen(w.client)))).Ok?
  }

  function Unlock(db: Db, t: nat): Db {
    db.(open := db.open - {t}, lock := if db.lock == Some(t) then None else db.lock)
  }

  function AfterDb(db: Db, m: Move): Db
    requires m.Append? || m.Commit? || m.Abort? ==> m.t in db.open
  {
    match m
    case BeginTx(t) => db.(open := db.open[t := Tx([], 0)])
    case Append(t, kind, attempt, payload) =>
      var id := 1 + if db.lock.None? then db.counter else db.open[t].counter;
      db.(open := db.open[t := Tx(db.open[t].pending + [Event(id, kind, attempt, payload)], id)], lock := Some(t))
    case Commit(t) =>
      var done := Unlock(db, t);
      if db.lock == Some(t) then done.(log := db.log + db.open[t].pending, counter := db.open[t].counter) else done
    case Abort(t) => Unlock(db, t)
    case _ => db
  }

  ghost function Next(w: World, m: Move): World
    requires Enabled(w, m)
  {
    var c := w.client;
    match m
    case Poll(page) => w.(client := c.(page := page))
    case Yield =>
      w.(client := c.(inflight := c.inflight + [c.page[0]], cursor := c.page[0].id, page := c.page[1..]))
    case Receive => w.(client := c.(seen := c.seen + [c.inflight[0]], inflight := c.inflight[1..]))
    case Reconnect(pageSize) =>
      w.(client := c.(inflight := [], page := [], pageSize := pageSize,
                      cursor := ParseLastEventId(Text(Print(LastSeen(c)))).value))
    case _ => w.(db := AfterDb(w.db, m))
  }

  ghost predicate Run(states: seq<World>, moves: seq<Move>) {
    && |states| == |moves| + 1
    && (exists start: nat, pageSize: nat :: start <= MAX_RUN_EVENT_SEQ && pageSize >= 1
          && states[0] == World(Db([], 0, map[], None), Client(start, [], [], start, [], pageSize)))
    && forall i :: 0 <= i < |moves| ==> Enabled(states[i], moves[i]) && states[i + 1] == Next(states[i], moves[i])
  }

  /** Only the holder of the counter row has inserted events, and they continue the log. */
  ghost predicate DbInv(db: Db) {
    && IsLog(db.log) && db.counter == |db.log| <= MAX_RUN_EVENT_SEQ
    && (db.lock.Some? ==> db.lock.value in db.open)
    && forall t :: t in db.open ==>
         if db.lock == Some(t) then
           && db.open[t].counter == db.counter + |db.open[t].pending| <= MAX_RUN_EVENT_SEQ
           && forall j :: 0 <= j < |db.open[t].pending| ==> db.open[t].pending[j].id == db.counter + j + 1
         else db.open[t].pending == []
  }

  ghost predicate ClientInv(c: Client, log: seq<Event>) {
    && c.start <= MAX_RUN_EVENT_SEQ && c.pageSize >= 1
    && Follows(c.seen + c.inflight, log, c.start)
    && c.cursor == c.start + |c.seen| + |c.inflight|
    && Follows(c.page, log, c.cursor)
  }

  ghost predicate Inv(w: World) {
    DbInv(w.db) && ClientInv(w.client, w.db.log)
  }

  lemma DbMoveKeepsInv(db: Db, m: Move)
    requires DbInv(db) && (m.BeginTx? || m.Append? || m.Commit? || m.Abort?)
    requires Enabled(World(db, Client(0, [], [], 0, [], 1)), m)
    ensures DbInv(AfterDb(db, m)) && db.log <= AfterDb(db, m).log
  {}

  lemma FollowsLonger(delivered: seq<Event>, log: seq<Event>, log': seq<Event>, start: nat)
    requires Follows(delivered, log, start) && log <= log'
    ensures Follows(delivered, log', start)
  {}

  lemma ClientMoveKeepsInv(w: World, m: Move)
    requires Inv(w) && Enabled(w, m) && (m.Poll? || m.Yield? || m.Receive?)
    ensures ClientInv(Next(w, m).client, w.db.log)
  {
    match m
    case Poll(page) => PageIsSlice(w.db.log, w.client.cursor, w.client.pageSize, page);
    case Yield => YieldKeepsInv(w.client, w.db.log);
    case Receive => ReceiveKeepsInv(w.client, w.db.log);
  }

  lemma YieldKeepsInv(c: Client, log: seq<Event>)
    requires IsLog(log) && ClientInv(c, log) && c.page != []
    ensures ClientInv(c.(inflight := c.inflight + [c.page[0]], cursor := c.page[0].id, page := c.page[1..]), log)
  {
    assert c.page[0] == log[c.cursor];
    FollowsOneMore(c.seen + c.inflight, log, c.start, c.page[0]);
    assert c.seen + (c.inflight + [c.page[0]]) == (c.seen + c.inflight) + [c.page[0]];
    FollowsRest(c.page, log, c.cursor);
  }

  lemma FollowsOneMore(delivered: seq<Event>, log: seq<Event>, start: nat, e: Event)
    requires Follows(delivered, log, start) && start + |delivered| < |log| && e == log[start + |delivered|]
    ensures Follows(delivered + [e], log, start)
  {}

  lemma FollowsRest(page: seq<Event>, log: seq<Event>, cursor: nat)
    requires Follows(page, log, cursor) && page != []
    ensures Follows(page[1..], log, cursor + 1)
  {}

  lemma ReceiveKeepsInv(c: Client, log: seq<Event>)
    requires ClientInv(c, log) && c.inflight != []
    ensures ClientInv(c.(seen := c.seen + [c.inflight[0]], inflight := c.inflight[1..]), log)
  {
    assert (c.seen + [c.inflight[0]]) + c.inflight[1..] == c.seen + c.inflight;
  }

  /** A reconnect resumes exactly after what the client has seen. */
  lemma ResumesAfterSeen(c: Client, log: seq<Event>)
    requires ClientInv(c, log) && IsLog(log) && |log| <= MAX_RUN_EVENT_SEQ
    ensures LastSeen(c) == c.start + |c.seen| && ParseLastEventId(Text(Print(LastSeen(c)))) == Ok(LastSeen(c))
  {
    if c.seen != [] {
      var k := |c.seen| - 1;
      assert (c.seen + c.inflight)[k] == log[c.start + k];
    }
    TextIsCanonical(Print(LastSeen(c)), LastSeen(c));
  }

  lemma ReconnectKeepsInv(w: World, m: Move)
    requires Inv(w) && Enabled(w, m) && m.Reconnect?
    ensures ClientInv(Next(w, m).client, w.db.log)
  {
    ResumesAfterSeen(w.client, w.db.log);
    assert forall k :: 0 <= k < |w.client.seen| ==> (w.client.seen + w.client.inflight)[k] == w.client.seen[k];
    assert w.client.seen + [] == w.client.seen;
  }

  lemma MoveKeepsInv(w: World, m: Move)
    requires Inv(w) && Enabled(w, m)
    ensures Inv(Next(w, m)) && w.db.log <= Next(w, m).db.log && w.client.seen <= Next(w, m).client.seen
    ensures Next(w, m).client.start == w.client.start
  {
    if m.Reconnect? {
      ReconnectKeepsInv(w, m);
    } else if m.Poll? || m.Yield? || m.Receive? {
      ClientMoveKeepsInv(w, m);
    } else {
      DbMoveKeepsInv(w.db, m);
      var c, log' := w.client, AfterDb(w.db, m).log;
      FollowsLonger(c.seen + c.inflight, w.db.log, log', c.start);
      FollowsLonger(c.page, w.db.log, log', c.cursor);
    }
  }

  lemma {:induction false} RunKeepsInv(states: seq<World>, moves: seq<Move>, n: nat)
    requires Run(states, moves) && n < |states|
    ensures Inv(states[n])
  {
    if n > 0 {
      RunKeepsInv(states, moves, n - 1);
      MoveKeepsInv(states[n - 1], moves[n - 1]);
    }
  }

  /**
    At every moment, whatever the writers commit or abort and however often the client reconnects, what the client has
    seen is a gap-free, duplicate-free, in-order prefix of the committed events after its start.
   */
  lemma SeenIsExact(states: seq<World>, moves: seq<Move>, n: nat)
    requires Run(states, moves) && n < |states|
    ensures var c, log := states[n].client, states[n].db.log;
            && Follows(c.seen, log, c.start)
            && (forall k :: 0 <= k < |c.seen| ==> c.seen[k].id == c.start + k + 1)
  {
    RunKeepsInv(states, moves, n);
    var c := states[n].client;
    assert forall k :: 0 <= k < |c.seen| ==> (c.seen + c.inflight)[k] == c.seen[k];
  }

  /** Committed events and seen events only ever grow at the end: nothing is inserted behind a reader. */
  lemma {:induction false} NothingAppearsBehind(states: seq<World>, moves: seq<Move>, i: nat, n: nat)
    requires Run(states, moves) && i <= n < |states|
    ensures states[i].db.log <= states[n].db.log && states[i].client.seen <= states[n].client.seen
    ensures states[i].client.start == states[n].client.start
    decreases n
  {
    if i < n {
      NothingAppearsBehind(states, moves, i, n - 1);
      RunKeepsInv(states, moves, n - 1);
      MoveKeepsInv(states[n - 1], moves[n - 1]);
    }
  }

  /** A client can always reconnect, and a poll behind the log always brings events. */
  lemma NeverStuck(states: seq<World>, moves: seq<Move>, n: nat, pageSize: nat, page: seq<Event>)
    requires Run(states, moves) && n < |states| && pageSize >= 1
    ensures Enabled(states[n], Reconnect(pageSize))
    ensures Enabled(states[n], Poll(page)) && states[n].client.cursor < |states[n].db.log| ==> page != []
    ensures states[n].client.cursor <= MAX_RUN_EVENT_SEQ
  {
    RunKeepsInv(states, moves, n);
    var c, log := states[n].client, states[n].db.log;
    ResumesAfterSeen(c, log);
    if Enabled(states[n], Poll(page)) { PageIsSlice(log, c.cursor, c.pageSize, page); }
  }

  // ---- What the log holds -----------------------------------------------------------------------------------------

  /** An event without its number. */
  datatype Row = Row(kind: string, attempt: nat, payload: string)

  function RowOf(e: Event): Row {
    Row(e.kind, e.attempt, e.payload)
  }

  /** What the moves append on behalf of a transaction, in order. */
  function Appended(moves: seq<Move>, t: nat): seq<Row> {
    if moves == [] then [] else
    var last := moves[|moves| - 1];
    Appended(moves[..|moves| - 1], t)
    + if last.Append? && last.t == t then [Row(last.kind, last.attempt, last.payload)] else []
  }

  ghost predicate HasRows(events: seq<Event>, rows: seq<Row>) {
    |events| == |rows| && forall i :: 0 <= i < |rows| ==> RowOf(events[i]) == rows[i]
  }

  /** The transaction began at the b-th move and is still open before the n-th. */
  ghost predicate OpenSince(moves: seq<Move>, t: nat, b: nat, n: nat) {
    && b < n <= |moves| && moves[b] == BeginTx(t)
    && forall i :: b < i < n ==> !((moves[i].BeginTx? || moves[i].Commit? || moves[i].Abort?) && moves[i].t == t)
  }

  lemma PendingOneMove(db: Db, m: Move, t: nat)
    requires m.Append? || m.Commit? || m.Abort? ==> m.t in db.open
    requires m != BeginTx(t) && t in AfterDb(db, m).open
    ensures t in db.open && m != Commit(t) && m != Abort(t) && (m.BeginTx? ==> m.t != t)
    ensures var more := Appended([m], t);
            forall rows :: HasRows(db.open[t].pending, rows) ==> HasRows(AfterDb(db, m).open[t].pending, rows + more)
  {
    assert [m][..0] == [];
  }

  lemma {:induction false} AppendedOneMore(moves: seq<Move>, b: nat, n: nat, t: nat)
    requires b <= n < |moves|
    ensures Appended(moves[b..n + 1], t) == Appended(moves[b..n], t) + Appended([moves[n]], t)
  {
    assert moves[b..n + 1][..n - b] == moves[b..n] && [moves[n]][..0] == [];
  }

  lemma DbMoves(w: World, m: Move)
    requires Enabled(w, m)
    ensures m.Append? || m.Commit? || m.Abort? ==> m.t in w.db.open
    ensures Next(w, m).db == AfterDb(w.db, m)
  {}

  /** An open transaction holds exactly what has been appended since it began. */
  lemma {:induction false} PendingIsWhatWasAppended(states: seq<World>, moves: seq<Move>, n: nat, t: nat)
    returns (b: nat)
    requires Run(states, moves) && n < |states| && t in states[n].db.open
    ensures OpenSince(moves, t, b, n) && HasRows(states[n].db.open[t].pending, Appended(moves[b..n], t))
    decreases n
  {
    var m := moves[n - 1];
    DbMoves(states[n - 1], m);
    if m == BeginTx(t) {
      b := n - 1;
      assert moves[b..n] == [m] && [m][..0] == [];
    } else {
      PendingOneMove(states[n - 1].db, m, t);
      b := PendingIsWhatWasAppended(states, moves, n - 1, t);
      AppendedOneMore(moves, b, n - 1, t);
    }
  }

  /**
    The log changes by commits alone, and a commit adds at its end exactly what its transaction has appended since it
    began, in that order: nothing of a transaction that aborts, and nothing nobody appended.
   */
  lemma LogIsWhatWasCommitted(states: seq<World>, moves: seq<Move>, n: nat) returns (b: nat)
    requires Run(states, moves) && n < |moves|
    ensures !moves[n].Commit? ==> states[n + 1].db.log == states[n].db.log
    ensures moves[n].Commit? ==>
              && OpenSince(moves, moves[n].t, b, n)
              && states[n].db.log <= states[n + 1].db.log
              && HasRows(states[n + 1].db.log[|states[n].db.log|..], Appended(moves[b..n], moves[n].t))
  {
    var m, db := moves[n], states[n].db;
    DbMoves(states[n], m);
    b := 0;
    if m.Commit? {
      RunKeepsInv(states, moves, n);
      b := PendingIsWhatWasAppended(states, moves, n, m.t);
      assert states[n + 1].db.log == db.log + db.open[m.t].pending;
      assert states[n + 1].db.log[|db.log|..] == db.open[m.t].pending;
    }
  }

  // ---- What a client gets -----------------------------------------------------------------------------------------

  /** The next slice of the log is a page the query may answer with. */
  lemma SliceIsPage(log: seq<Event>, after: nat, limit: nat)
    requires IsLog(log)
    ensures IsPage(Rows(log), after, limit, Slice(log, after, limit))
  {
    var page := Slice(log, after, limit);
    forall e | e in Rows(log) && e.id > after && e !in page
      ensures |page| == limit && forall i :: 0 <= i < |page| ==> page[i].id < e.id
    {
      var k :| 0 <= k < |log| && log[k] == e;
      assert forall i :: 0 <= i < |page| ==> page[i] == log[after + i] && page[i] in page;
      assert forall i :: after <= i < after + |page| ==> log[i] == page[i - after];
    }
  }

  lemma PollBrings(w: World)
    requires Inv(w) && w.client.page == []
    ensures var page := Slice(w.db.log, w.client.cursor, w.client.pageSize);
            && Enabled(w, Poll(page))
            && Next(w, Poll(page)) == World(w.db, w.client.(page := page))
  {
    SliceIsPage(w.db.log, w.client.cursor, w.client.pageSize);
  }

  lemma DeliveryBrings(w: World)
    requires w.client.page != [] && w.client.inflight == []
    ensures Enabled(w, Yield)
    ensures var w' := Next(w, Yield);
            && Enabled(w', Receive)
            && Next(w', Receive).client.seen == w.client.seen + [w.client.page[0]] && Next(w', Receive).db == w.db
  {}

  /** A waiting client behind the log is brought the next event by one poll, one yield and one receive. */
  lemma NextEventArrives(states: seq<World>, moves: seq<Move>, n: nat)
    requires Run(states, moves) && n < |states|
    requires var c := states[n].client;
             c.page == [] && c.inflight == [] && c.start + |c.seen| < |states[n].db.log|
    ensures var w, c := states[n], states[n].client;
            var page := Slice(w.db.log, c.start + |c.seen|, c.pageSize);
            && Enabled(w, Poll(page))
            && var w1 := Next(w, Poll(page));
               && Enabled(w1, Yield)
               && var w2 := Next(w1, Yield);
                  && Enabled(w2, Receive)
                  && Next(w2, Receive).client.seen == c.seen + [w.db.log[c.start + |c.seen|]]
                  && Next(w2, Receive).db == w.db
  {
    RunKeepsInv(states, moves, n);
    var w := states[n];
    PollBrings(w);
    DeliveryBrings(Next(w, Poll(Slice(w.db.log, w.client.cursor, w.client.pageSize))));
  }
}
