/** The life of a feed at the index server: a row is locked, initialised at the
    primary storage, refreshed, marked with an error, destroyed and initialised
    again. */
module FeedRows {
  import opened Text

  const HIST: bv32 := 1
  const CONT: bv32 := 2
  const DONE: bv32 := 4
  const ERROR: bv32 := 8

  const RECONNECT_TIME := 1200
  const TRIES := 10

  datatype Row = Row(feedid: Option<Bytes>, state: bv32, locked: bool, expires: Option<int>)

  datatype Conf = Conf(history: bool, continuous: bool)

  /** How one attempt to reach the primary storage goes. NoCredentials is any failure
      in front of the call, such as conditions that cannot be converted: the row is
      left as it is. */
  datatype Attempt = NoCredentials | Fault | Answer(feedid: Bytes, expires: int)

  predicate HasError(state: bv32) {
    state & ERROR != 0
  }

  function ConfState(c: Conf): (s: bv32)
    ensures s < 4
  {
    (if c.history then HIST else 0) | (if c.continuous then CONT else 0)
  }

  /** Half way to a time, with C division; done by the caller and again by initFeed. */
  function Half(t: int, now: int): int {
    if t >= now then now + (t - now) / 2 else now - (now - t) / 2
  }

  // ----- the rows lockSearchFeed picks ------------------------------------------------------------------

  predicate Due(e: Option<int>, now: int) {
    e.Some? && e.value <= now
  }

  predicate Selectable(r: Row, refresh: bool, now: int) {
    && !r.locked
    && if refresh then r.feedid.Some? && Due(r.expires, now)
       else r.feedid.None? && (r.state < ERROR || Due(r.expires, now))
  }

  /** `state < 8` is the test for a clear ERROR bit, as long as no higher bit is used. */
  lemma SmallStateHasNoError(state: bv32)
    requires state < 16
    ensures state < ERROR <==> !HasError(state)
  {
  }

  // ----- one round on one row ------------------------------------------------------------------------------

  /** What a round works with: the row as locked, its place in the configuration, and
      the feed ids other rows hold, which the table keeps unique. */
  datatype Case = Case(refresh: bool, status: bv32, conf: Option<Conf>, taken: set<Bytes>, now: int)

  predicate Configured(c: Case) {
    c.refresh || c.conf.Some?
  }

  /** MyFeedIndex or MyFeedRefresh: the row afterwards, and success. */
  function Try(c: Case, r: Row, a: Attempt): (Row, bool) {
    if a.NoCredentials? || !Configured(c) then (r, false)
    else if a.Fault? then (r.(locked := false), false)
    else
      var expires := Some(Half(Half(a.expires, c.now), c.now));
      var written :=
        if c.refresh then r.(state := c.status & !ERROR, expires := expires)
        else if a.feedid in c.taken then r
        else r.(feedid := Some(a.feedid), state := ConfState(c.conf.value), expires := expires);
      (written.(locked := false), true)
  }

  /** The retry loop, from the i-th attempt on. */
  function Tries(c: Case, r: Row, attempts: seq<Attempt>): (Row, bool)
    decreases attempts
  {
    if attempts == [] then (r, false)
    else
      var (r', ok) := Try(c, r, attempts[0]);
      if ok then (r', true) else Tries(c, r', attempts[1..])
  }

  /** tryReconnectFeed and destroyTryReconnectFeed: the row after a failed round on a
      row of the given state. */
  function AfterFailure(r: Row, refresh: bool, status: bv32, now: int): Row {
    if !refresh || !HasError(status) then
      r.(state := status | ERROR, expires := Some(now + RECONNECT_TIME / (if refresh then 2 else 1)))
    else r.(feedid := None, state := 0, expires := Some(now - 1))
  }

  /** A whole round, from the lock to the bookkeeping after a failure. */
  function Round(c: Case, r: Row, attempts: seq<Attempt>): (Row, bool) {
    var (r', ok) := Tries(c, r.(locked := true), attempts);
    (if ok then r' else AfterFailure(r', c.refresh, c.status, c.now), ok)
  }

  predicate Reaches(c: Case, attempts: seq<Attempt>) {
    Configured(c) && exists i :: 0 <= i < |attempts| && !attempts[i].NoCredentials?
  }

  lemma {:induction false} TriesUnlock(c: Case, r: Row, attempts: seq<Attempt>)
    ensures !Tries(c, r, attempts).0.locked <==> !r.locked || Reaches(c, attempts)
    decreases attempts
  {
    if attempts != [] {
      var (r', ok) := Try(c, r, attempts[0]);
      TriesUnlock(c, r', attempts[1..]);
      assert forall i :: 1 <= i < |attempts| ==> attempts[i] == attempts[1..][i - 1];
      if Reaches(c, attempts[1..]) {
        var i :| 0 <= i < |attempts[1..]| && !attempts[1..][i].NoCredentials?;
        assert !attempts[i + 1].NoCredentials?;
      }
    }
  }

  /** A round ends with its feed unlocked if and only if the feed is configured and
      the credentials load in at least one of the attempts. */
  lemma RoundUnlocksIff(c: Case, r: Row, attempts: seq<Attempt>)
    ensures !Round(c, r, attempts).0.locked <==> Reaches(c, attempts)
  {
    TriesUnlock(c, r.(locked := true), attempts);
  }

  /** Ten attempts without credentials leave the row locked. */
  lemma WithoutCredentialsItStaysLocked(c: Case, r: Row)
    ensures Round(c, r, seq(10, i => NoCredentials)).0.locked
  {
    RoundUnlocksIff(c, r, seq(10, i => NoCredentials));
  }

  lemma {:induction false} TriesOutcome(c: Case, r: Row, attempts: seq<Attempt>)
    requires c.status == r.state && r.state < 16
    ensures var (r', ok) := Tries(c, r, attempts);
      && r'.state < 16
      && (!ok ==> r'.state == r.state && r'.feedid == r.feedid)
      && (ok && c.refresh ==> r'.feedid == r.feedid && !HasError(r'.state))
      && (ok && !c.refresh ==> (r'.feedid == r.feedid && r'.state == r.state)
                               || (r'.feedid.Some? && r'.feedid.value !in c.taken && !HasError(r'.state)))
    decreases attempts
  {
    if attempts != [] {
      var (r', ok) := Try(c, r, attempts[0]);
      if ok {
        ClearedState(c.status);
        if c.conf.Some? { ConfStateHasNoError(c.conf.value); }
      } else {
        TriesOutcome(c, r', attempts[1..]);
      }
    }
  }

  lemma ClearedState(state: bv32)
    requires state < 16
    ensures (state & !ERROR) < 16 && !HasError(state & !ERROR)
    ensures (state | ERROR) < 16 && HasError(state | ERROR)
  {
  }

  lemma ConfStateHasNoError(c: Conf)
    ensures !HasError(ConfState(c)) && ConfState(c) < 16
  {
  }

  /** What a round makes of a row that was fit for it. */
  lemma RoundOutcome(c: Case, r: Row, attempts: seq<Attempt>)
    requires c.status == r.state && r.state < 16 && (c.refresh <==> r.feedid.Some?)
    ensures var (r', ok) := Round(c, r, attempts);
      && r'.state < 16
      && (c.refresh && ok ==> r'.feedid == r.feedid && !HasError(r'.state))
      && (c.refresh && !ok ==> if HasError(r.state) then r'.feedid.None?
                               else r'.feedid == r.feedid && HasError(r'.state))
      && (!c.refresh && r'.feedid.Some? ==> ok && !HasError(r'.state) && r'.feedid.value !in c.taken)
  {
    TriesOutcome(c, r.(locked := true), attempts);
    ClearedState(r.state);
  }

  lemma HalfWay(t: int, now: int)
    requires t >= now
    ensures now <= Half(t, now) && 2 * (Half(t, now) - now) <= t - now < 2 * (Half(t, now) - now) + 2
  {
  }

  predicate FirstAnswer(attempts: seq<Attempt>, i: nat) {
    i < |attempts| && attempts[i].Answer? && forall k :: 0 <= k < i ==> !attempts[k].Answer?
  }

  lemma FailedTry(c: Case, r: Row, a: Attempt)
    requires !a.Answer?
    ensures !Try(c, r, a).1 && Try(c, r, a).0 == r.(locked := Try(c, r, a).0.locked)
  {
  }

  lemma FirstAnswerTail(attempts: seq<Attempt>, i: nat)
    requires FirstAnswer(attempts, i) && i > 0
    ensures FirstAnswer(attempts[1..], i - 1) && attempts[1..][i - 1] == attempts[i] && !attempts[0].Answer?
  {
    assert forall k :: 0 <= k < i ==> attempts[k + 1] == attempts[1..][k];
  }

  /** All attempts in front of the first answer leave everything but the lock alone. */
  lemma {:induction false} TriesAnswer(c: Case, r: Row, attempts: seq<Attempt>, i: nat) returns (locked: bool)
    requires Configured(c) && FirstAnswer(attempts, i)
    ensures Tries(c, r, attempts) == Try(c, r.(locked := locked), attempts[i]) && Tries(c, r, attempts).1
    decreases attempts
  {
    if i == 0 {
      locked := r.locked;
      assert r.(locked := locked) == r;
    } else {
      var r' := Try(c, r, attempts[0]).0;
      FirstAnswerTail(attempts, i);
      FailedTry(c, r, attempts[0]);
      locked := TriesAnswer(c, r', attempts[1..], i - 1);
      assert r'.(locked := locked) == r.(locked := locked);
    }
  }

  lemma {:induction false} TriesFail(c: Case, r: Row, attempts: seq<Attempt>)
    requires !Configured(c) || forall i :: 0 <= i < |attempts| ==> !attempts[i].Answer?
    ensures !Tries(c, r, attempts).1 && Tries(c, r, attempts).0 == r.(locked := Tries(c, r, attempts).0.locked)
    decreases attempts
  {
    if attempts != [] {
      assert forall i :: 0 <= i < |attempts| - 1 ==> attempts[i + 1] == attempts[1..][i];
      TriesFail(c, Try(c, r, attempts[0]).0, attempts[1..]);
    }
  }

  lemma {:induction false} SomeFirstAnswer(attempts: seq<Attempt>, j: nat) returns (i: nat)
    requires j < |attempts| && attempts[j].Answer?
    ensures FirstAnswer(attempts, i)
  {
    if k :| 0 <= k < j && attempts[k].Answer? {
      i := SomeFirstAnswer(attempts, k);
    } else {
      i := j;
    }
  }

  /** A round succeeds if and only if the feed is configured and some attempt is answered. */
  lemma RoundSucceedsIff(c: Case, r: Row, attempts: seq<Attempt>)
    ensures Round(c, r, attempts).1 <==>
      (c.refresh || c.conf.Some?) && exists i :: 0 <= i < |attempts| && attempts[i].Answer?
  {
    if Configured(c) && exists i :: 0 <= i < |attempts| && attempts[i].Answer? {
      var j :| 0 <= j < |attempts| && attempts[j].Answer?;
      var i := SomeFirstAnswer(attempts, j);
      var locked := TriesAnswer(c, r.(locked := true), attempts, i);
    } else {
      TriesFail(c, r.(locked := true), attempts);
    }
  }

  /** A time at a quarter of the way, rounded down twice. */
  predicate QuarterWay(due: int, now: int, end: int) {
    4 * (due - now) <= end - now < 4 * (due - now) + 4
  }

  lemma HalfTwice(end: int, now: int)
    requires end >= now
    ensures QuarterWay(Half(Half(end, now), now), now, end) && Half(Half(end, now), now) >= now
  {
    HalfWay(end, now);
    HalfWay(Half(end, now), now);
  }

  lemma ConfStateBits(c: Conf)
    ensures ConfState(c) < 4 && (ConfState(c) & 1 != 0 <==> c.history) && (ConfState(c) & 2 != 0 <==> c.continuous)
  {
  }

  /** A feed that is answered is initialised: with the id of the answer, HIST and CONT as
      configured and no other bit, due after a quarter of the time granted. If another
      feed holds the id, the row stays as it was. Either way it is unlocked. */
  lemma AnswerInitialises(c: Case, r: Row, attempts: seq<Attempt>, i: nat)
    requires !c.refresh && c.conf.Some? && FirstAnswer(attempts, i) && attempts[i].expires >= c.now
    ensures var (r', ok) := Round(c, r, attempts);
      ok && !r'.locked &&
      if attempts[i].feedid in c.taken then r'.feedid == r.feedid && r'.state == r.state && r'.expires == r.expires
      else
        && r'.feedid == Some(attempts[i].feedid) && r'.state < 4
        && (r'.state & 1 != 0 <==> c.conf.value.history) && (r'.state & 2 != 0 <==> c.conf.value.continuous)
        && r'.expires.Some? && QuarterWay(r'.expires.value, c.now, attempts[i].expires)
  {
    var locked := TriesAnswer(c, r.(locked := true), attempts, i);
    ConfStateBits(c.conf.value);
    HalfTwice(attempts[i].expires, c.now);
  }

  lemma ClearedBits(state: bv32)
    requires state < 16
    ensures var s := state & !ERROR; s < 8 && s & 1 == state & 1 && s & 2 == state & 2 && s & 4 == state & 4
    ensures var s := state | ERROR;
      s < 16 && s & 8 != 0 && s & 1 == state & 1 && s & 2 == state & 2 && s & 4 == state & 4
  {
  }

  /** A feed whose refresh is answered keeps its id, HIST, CONT and DONE, loses ERROR, is
      unlocked, and due again after a quarter of the time granted: before it expires at
      the primary storage. */
  lemma AnswerRefreshes(c: Case, r: Row, attempts: seq<Attempt>, i: nat)
    requires c.refresh && c.status == r.state && r.state < 16
    requires FirstAnswer(attempts, i) && attempts[i].expires >= c.now
    ensures var (r', ok) := Round(c, r, attempts);
      && ok && !r'.locked && r'.feedid == r.feedid && r'.state < 8
      && r'.state & 1 == r.state & 1 && r'.state & 2 == r.state & 2 && r'.state & 4 == r.state & 4
      && r'.expires.Some? && QuarterWay(r'.expires.value, c.now, attempts[i].expires)
  {
    var locked := TriesAnswer(c, r.(locked := true), attempts, i);
    ClearedBits(r.state);
    HalfTwice(attempts[i].expires, c.now);
  }

  /** A failed round sets ERROR and changes no other bit nor the id, unless it is a
      refresh of a feed that had ERROR: that one loses its id and all bits. */
  lemma FailureMarks(c: Case, r: Row, attempts: seq<Attempt>)
    requires c.status == r.state && r.state < 16 && !Round(c, r, attempts).1
    ensures var r' := Round(c, r, attempts).0;
      if c.refresh && r.state & 8 != 0 then r'.feedid == None && r'.state == 0
      else
        && r'.feedid == r.feedid && r'.state < 16 && r'.state & 8 != 0
        && r'.state & 1 == r.state & 1 && r'.state & 2 == r.state & 2 && r'.state & 4 == r.state & 4
  {
    RoundSucceedsIff(c, r, attempts);
    TriesFail(c, r.(locked := true), attempts);
    ClearedBits(r.state);
  }

  /** A feed that was refreshed or initialised is picked again when it is due, for a
      refresh; one not yet initialised and without ERROR at any time; a locked one never. */
  lemma PickedWhenDue(r: Row, refresh: bool, time: int)
    requires r.state < 8 && (r.feedid.Some? ==> r.expires.Some?)
    ensures Selectable(r, refresh, time) <==>
      !r.locked && if r.feedid.Some? then refresh && time >= r.expires.value else !refresh
  {
  }

  /** When a feed whose round failed is picked again: a feed that could not be
      initialised after 1200 seconds, one that could not be refreshed after 600, and
      one that lost its id at once, to be initialised anew. */
  lemma FailedRoundIsRetried(c: Case, r: Row, attempts: seq<Attempt>, refresh: bool, time: int)
    requires c.status == r.state && r.state < 16 && (c.refresh <==> r.feedid.Some?)
    requires Reaches(c, attempts) && !Round(c, r, attempts).1
    ensures Selectable(Round(c, r, attempts).0, refresh, time) <==>
      if !c.refresh then !refresh && time >= c.now + 1200
      else if !HasError(r.state) then refresh && time >= c.now + 600
      else !refresh
  {
    TriesUnlock(c, r.(locked := true), attempts);
    TriesOutcome(c, r.(locked := true), attempts);
    ClearedState(r.state);
    SmallStateHasNoError(r.state | ERROR);
  }

  // ----- the table ------------------------------------------------------------------------------------------

  type Table = map<int, Row>

  type Confs = map<int, Conf>

  function Taken(t: Table, uid: int): set<Bytes> {
    set u | u in t && u != uid && t[u].feedid.Some? :: t[u].feedid.value
  }

  function CaseOf(t: Table, confs: Confs, uid: int, refresh: bool, now: int): Case
    requires uid in t
  {
    Case(refresh, t[uid].state, if uid in confs then Some(confs[uid]) else None, Taken(t, uid), now)
  }

  datatype Step =
    /** One turn of feed_caller's outer loop on the row that was picked. */
    | FeederRound(refresh: bool, uid: int, attempts: seq<Attempt>, now: int)
    | UpdateJobs(feedid: Bytes, feedDone: bool)

  /** A round that took place, and how it ended. */
  datatype Event = Event(uid: int, refresh: bool, ok: bool)

  predicate Enabled(t: Table, step: Step) {
    step.FeederRound? ==>
      step.uid in t && Selectable(t[step.uid], step.refresh, step.now) && |step.attempts| == TRIES
  }

  function MarkDone(t: Table, feedid: Bytes): Table {
    map u | u in t :: if t[u].feedid == Some(feedid) then t[u].(state := t[u].state | DONE) else t[u]
  }

  function Next(confs: Confs, t: Table, step: Step): (Table, seq<Event>)
    requires Enabled(t, step)
  {
    match step
    case FeederRound(refresh, uid, attempts, now) =>
      var (r, ok) := Round(CaseOf(t, confs, uid, refresh, now), t[uid], attempts);
      (t[uid := r], [Event(uid, refresh, ok)])
    case UpdateJobs(feedid, feedDone) =>
      (if feedDone then MarkDone(t, feedid) else t, [])
  }

  lemma DoneBits(state: bv32)
    requires state < 16
    ensures var s := state | DONE;
      s < 16 && s & 4 != 0 && s & 1 == state & 1 && s & 2 == state & 2 && s & 8 == state & 8
  {
  }

  /** UpdateJobs sets DONE on the feed of that id when told that it is done, and changes
      nothing else. */
  lemma UpdateJobsMarksDone(confs: Confs, t: Table, feedid: Bytes, feedDone: bool, u: int)
    requires u in t && t[u].state < 16
    ensures var t' := Next(confs, t, UpdateJobs(feedid, feedDone)).0;
      && t'.Keys == t.Keys && t'[u] == t[u].(state := t'[u].state)
      && if feedDone && t[u].feedid == Some(feedid) then
           && t'[u].state < 16 && t'[u].state & 4 != 0
           && t'[u].state & 1 == t[u].state & 1 && t'[u].state & 2 == t[u].state & 2
           && t'[u].state & 8 == t[u].state & 8
         else t'[u].state == t[u].state
  {
    DoneBits(t[u].state);
  }

  /** A round works on the row that was picked, as it and the configuration are, and on
      no other. */
  lemma RoundIsOnOneRow(confs: Confs, t: Table, uid: int, refresh: bool, attempts: seq<Attempt>, now: int)
    requires Enabled(t, FeederRound(refresh, uid, attempts, now))
    ensures var (t', es) := Next(confs, t, FeederRound(refresh, uid, attempts, now));
      var conf := if uid in confs then Some(confs[uid]) else None;
      var taken := set u | u in t && u != uid && t[u].feedid.Some? :: t[u].feedid.value;
      && t'.Keys == t.Keys && (forall u :: u in t && u != uid ==> t'[u] == t[u])
      && es == [Event(uid, refresh, Round(Case(refresh, t[uid].state, conf, taken, now), t[uid], attempts).1)]
      && t'[uid] == Round(Case(refresh, t[uid].state, conf, taken, now), t[uid], attempts).0
  {
  }

  // ----- the table changed in place -----------------------------------------------------------------------------

  class FeedTable {
    const confs: Confs
    var rows: Table

    constructor (confs: Confs, rows: Table)
      ensures this.confs == confs && this.rows == rows
    {
      this.confs, this.rows := confs, rows;
    }

    /** glite_jpis_unlockFeed */
    method UnlockFeed(uid: int)
      requires uid in rows
      modifies this
      ensures rows == old(rows)[uid := old(rows)[uid].(locked := false)]
    {
      rows := rows[uid := rows[uid].(locked := false)];
    }

    /** glite_jpis_initFeed; a feed id another row holds is refused by the table. */
    method InitFeed(uid: int, feedid: Bytes, feedExpires: int, status: bv32, now: int)
      requires uid in rows
      modifies this
      ensures rows == if feedid in Taken(old(rows), uid) then old(rows)
                      else old(rows)[uid := old(rows)[uid].(feedid := Some(feedid), state := status,
                                                            expires := Some(Half(feedExpires, now)))]
    {
      if feedid !in Taken(rows, uid) {
        rows := rows[uid := rows[uid].(feedid := Some(feedid), state := status,
                                       expires := Some(Half(feedExpires, now)))];
      }
    }

    /** MyFeedIndex */
    method MyFeedIndex(uid: int, a: Attempt, now: int) returns (ok: bool)
      requires uid in rows
      modifies this
      ensures var c := CaseOf(old(rows), confs, uid, false, now);
        rows == old(rows)[uid := Try(c, old(rows)[uid], a).0] && ok == Try(c, old(rows)[uid], a).1
    {
      if a.NoCredentials? || uid !in confs {
        assert rows == rows[uid := rows[uid]];
        return false;
      }
      if a.Fault? {
        UnlockFeed(uid);
        return false;
      }
      InitFeed(uid, a.feedid, Half(a.expires, now), ConfState(confs[uid]), now);
      UnlockFeed(uid);
      ok := true;
    }

    /** MyFeedRefresh, with the status and feed id read when the row was locked. */
    method MyFeedRefresh(uid: int, status: bv32, feedid: Bytes, a: Attempt, now: int) returns (ok: bool)
      requires uid in rows && rows[uid].feedid == Some(feedid) && feedid !in Taken(rows, uid)
      modifies this
      ensures var c := Case(true, status, if uid in confs then Some(confs[uid]) else None, Taken(old(rows), uid), now);
        rows == old(rows)[uid := Try(c, old(rows)[uid], a).0] && ok == Try(c, old(rows)[uid], a).1
    {
      if a.NoCredentials? {
        assert rows == rows[uid := rows[uid]];
        return false;
      }
      if a.Fault? {
        UnlockFeed(uid);
        return false;
      }
      InitFeed(uid, feedid, Half(a.expires, now), status & !ERROR, now);
      UnlockFeed(uid);
      TwoUpdates(old(rows), uid, old(rows)[uid].(feedid := Some(feedid), state := status & !ERROR,
                                                 expires := Some(Half(Half(a.expires, now), now))), rows[uid]);
      ok := true;
    }

    /** The retry loop of feed_caller on a locked row. */
    method Contact(uid: int, refresh: bool, attempts: seq<Attempt>, now: int) returns (ok: bool)
      requires uid in rows && UniqueIds(rows) && (refresh <==> rows[uid].feedid.Some?) && |attempts| == TRIES
      modifies this
      ensures var c := CaseOf(old(rows), confs, uid, refresh, now);
        rows == old(rows)[uid := Tries(c, old(rows)[uid], attempts).0] && ok == Tries(c, old(rows)[uid], attempts).1
    {
      ghost var c := CaseOf(rows, confs, uid, refresh, now);
      ghost var first := rows[uid];
      var status, feedid := rows[uid].state, rows[uid].feedid;
      ok := false;
      var i := 0;
      assert attempts[0..] == attempts && rows == rows[uid := rows[uid]];
      while i < TRIES && !ok
        invariant 0 <= i <= TRIES && uid in rows && rows == old(rows)[uid := rows[uid]]
        invariant !ok ==> rows[uid].feedid == feedid && rows[uid].state == status
        invariant !ok ==> Tries(c, first, attempts) == Tries(c, rows[uid], attempts[i..])
        invariant ok ==> Tries(c, first, attempts) == (rows[uid], true)
      {
        assert attempts[i..][0] == attempts[i] && attempts[i..][1..] == attempts[i + 1..];
        OtherRowsKeepIds(old(rows), rows, uid);
        if !refresh {
          ok := MyFeedIndex(uid, attempts[i], now);
        } else {
          ok := MyFeedRefresh(uid, status, feedid.value, attempts[i], now);
        }
        i := i + 1;
      }
    }

    /** One turn of feed_caller on the row lockSearchFeed picked. */
    method FeedRound(uid: int, refresh: bool, attempts: seq<Attempt>, now: int) returns (ok: bool)
      requires uid in rows && UniqueIds(rows) && Selectable(rows[uid], refresh, now) && |attempts| == TRIES
      modifies this
      ensures (rows, [Event(uid, refresh, ok)]) == Next(confs, old(rows), FeederRound(refresh, uid, attempts, now))
    {
      var status := rows[uid].state;
      rows := rows[uid := rows[uid].(locked := true)];
      OtherRowsKeepIds(old(rows), rows, uid);
      assert CaseOf(rows, confs, uid, refresh, now) == CaseOf(old(rows), confs, uid, refresh, now);
      ok := Contact(uid, refresh, attempts, now);
      TwoUpdates(old(rows), uid, old(rows)[uid].(locked := true), rows[uid]);
      if !ok {
        var r := rows[uid];
        rows := rows[uid := AfterFailure(r, refresh, status, now)];
        TwoUpdates(old(rows), uid, r, rows[uid]);
      }
    }

    /** The state update of UpdateJobs; the feed id names one row or none. */
    method UpdateJobsState(feedid: Bytes, feedDone: bool) returns (known: bool)
      requires UniqueIds(rows)
      modifies this
      ensures known <==> exists u :: u in old(rows) && old(rows)[u].feedid == Some(feedid)
      ensures rows == Next(confs, old(rows), UpdateJobs(feedid, feedDone)).0
    {
      if u :| u in rows && rows[u].feedid == Some(feedid) {
        var status := rows[u].state;
        DoneTwice(status);
        MarkDoneOnOne(rows, u, feedid);
        if feedDone && status & DONE == 0 {
          rows := rows[u := rows[u].(state := status | DONE)];
        }
        return true;
      }
      MarkDoneOnNone(rows, feedid);
      return false;
    }

    /** One pass of feed_caller's outer loop: a round if the table offers a row. */
    method Pass(refresh: bool, now: int, attempts: int -> seq<Attempt>) returns (ghost steps: seq<Step>)
      requires UniqueIds(rows) && forall u :: |attempts(u)| == 10
      modifies this
      ensures UniqueIds(rows) && CanRun(confs, old(rows), steps) && rows == RunTable(confs, old(rows), steps)
      ensures |steps| <= 1 && AreRounds(steps, refresh, now, attempts)
      ensures steps == [] <==> forall u :: u in old(rows) ==> !Selectable(old(rows)[u], refresh, now)
    {
      steps := [];
      if uid :| uid in rows && Selectable(rows[uid], refresh, now) {
        ghost var step := FeederRound(refresh, uid, attempts(uid), now);
        NextKeepsIds(confs, rows, step);
        RunSnoc(confs, rows, [], step);
        var _ := FeedRound(uid, refresh, attempts(uid), now);
        steps := [] + [step];
      }
    }

    /** feed_caller: one round for an uninitialised feed, then one for a feed to
        refresh. */
    method FeedCaller(now: int, attempts: int -> seq<Attempt>) returns (ghost first: seq<Step>, ghost second: seq<Step>)
      requires UniqueIds(rows) && forall u :: |attempts(u)| == 10
      modifies this
      ensures UniqueIds(rows) && CanRun(confs, old(rows), first)
      ensures CanRun(confs, RunTable(confs, old(rows), first), second)
      ensures rows == RunTable(confs, RunTable(confs, old(rows), first), second)
      ensures |first| <= 1 && AreRounds(first, false, now, attempts)
      ensures |second| <= 1 && AreRounds(second, true, now, attempts)
    {
      first := Pass(false, now, attempts);
      second := Pass(true, now, attempts);
    }
  }

  /** Rounds of one kind at one time, going as the attempts for their feeds go. */
  ghost predicate AreRounds(steps: seq<Step>, refresh: bool, now: int, attempts: int -> seq<Attempt>) {
    forall i :: 0 <= i < |steps| ==>
      steps[i].FeederRound? && steps[i] == FeederRound(refresh, steps[i].uid, attempts(steps[i].uid), now)
  }

  /** The unique index on feedid. */
  ghost predicate UniqueIds(t: Table) {
    forall u, v :: u in t && v in t && u != v && t[u].feedid.Some? ==> t[u].feedid != t[v].feedid
  }

  lemma TwoUpdates(t: Table, uid: int, a: Row, b: Row)
    ensures t[uid := a][uid := b] == t[uid := b]
  {
  }

  lemma OtherRowsKeepIds(t: Table, t': Table, uid: int)
    requires uid in t && UniqueIds(t) && uid in t' && t' == t[uid := t'[uid]] && t'[uid].feedid == t[uid].feedid
    ensures Taken(t', uid) == Taken(t, uid) && UniqueIds(t')
    ensures t[uid].feedid.Some? ==> t[uid].feedid.value !in Taken(t, uid)
  {
    forall x ensures x in Taken(t', uid) <==> x in Taken(t, uid) {
      if x in Taken(t, uid) {
        var u :| u in t && u != uid && t[u].feedid == Some(x);
        assert t'[u].feedid == Some(x);
      }
      if x in Taken(t', uid) {
        var u :| u in t' && u != uid && t'[u].feedid == Some(x);
        assert t[u].feedid == Some(x);
      }
    }
  }

  // ----- whole runs --------------------------------------------------------------------------------------------------

  ghost predicate CanRun(confs: Confs, t: Table, steps: seq<Step>)
    decreases |steps|, 0
  {
    steps == [] || (CanRun(confs, t, steps[..|steps| - 1])
                    && Enabled(RunTable(confs, t, steps[..|steps| - 1]), steps[|steps| - 1]))
  }

  ghost function RunTable(confs: Confs, t: Table, steps: seq<Step>): Table
    requires CanRun(confs, t, steps)
    decreases |steps|, 1
  {
    if steps == [] then t else Next(confs, RunTable(confs, t, steps[..|steps| - 1]), steps[|steps| - 1]).0
  }

  ghost function RunLog(confs: Confs, t: Table, steps: seq<Step>): seq<Event>
    requires CanRun(confs, t, steps)
    decreases |steps|
  {
    if steps == [] then []
    else RunLog(confs, t, steps[..|steps| - 1])
         + Next(confs, RunTable(confs, t, steps[..|steps| - 1]), steps[|steps| - 1]).1
  }

  lemma RunSnoc(confs: Confs, t: Table, steps: seq<Step>, step: Step)
    requires CanRun(confs, t, steps) && Enabled(RunTable(confs, t, steps), step)
    ensures CanRun(confs, t, steps + [step])
    ensures RunTable(confs, t, steps + [step]) == Next(confs, RunTable(confs, t, steps), step).0
  {
    assert (steps + [step])[..|steps|] == steps;
  }

  /** The last round a feed took part in. */
  function LastRound(log: seq<Event>, uid: int): Option<Event> {
    if log == [] then None
    else if log[|log| - 1].uid == uid then Some(log[|log| - 1])
    else LastRound(log[..|log| - 1], uid)
  }

  predicate FailedRefresh(e: Option<Event>) {
    e.Some? && e.value.refresh && !e.value.ok
  }

  predicate RowExplained(r: Row, last: Option<Event>) {
    r.state < 16 && (r.feedid.Some? ==> (HasError(r.state) <==> FailedRefresh(last)))
  }

  ghost predicate Inv(t: Table, log: seq<Event>) {
    UniqueIds(t) && forall uid :: uid in t ==> RowExplained(t[uid], LastRound(log, uid))
  }

  lemma MarkDoneOnOne(t: Table, u: int, feedid: Bytes)
    requires u in t && t[u].feedid == Some(feedid) && UniqueIds(t)
    ensures MarkDone(t, feedid) == t[u := t[u].(state := t[u].state | DONE)]
    ensures t[u].state | DONE == t[u].state ==> MarkDone(t, feedid) == t
  {
    var t' := t[u := t[u].(state := t[u].state | DONE)];
    forall v | v in t ensures MarkDone(t, feedid)[v] == t'[v] {
      if v != u { assert t[v].feedid != t[u].feedid; }
    }
  }

  lemma MarkDoneOnNone(t: Table, feedid: Bytes)
    requires forall u :: u in t ==> t[u].feedid != Some(feedid)
    ensures MarkDone(t, feedid) == t
  {
    forall v | v in t ensures MarkDone(t, feedid)[v] == t[v] {}
  }

  lemma DoneTwice(state: bv32)
    ensures state & DONE != 0 ==> state | DONE == state
  {
  }

  lemma DoneKeepsError(state: bv32)
    requires state < 16
    ensures (state | DONE) < 16 && (HasError(state | DONE) <==> HasError(state))
  {
  }

  lemma LastRoundSnoc(log: seq<Event>, e: Event, uid: int)
    ensures LastRound(log + [e], uid) == if e.uid == uid then Some(e) else LastRound(log, uid)
  {
    assert (log + [e])[..|log|] == log;
  }

  lemma TakenHolds(t: Table, uid: int, u: int)
    requires u in t && u != uid && t[u].feedid.Some?
    ensures t[u].feedid.value in Taken(t, uid)
  {
  }

  lemma TryId(c: Case, r: Row, a: Attempt)
    ensures var r' := Try(c, r, a).0;
      r'.feedid == r.feedid || (r'.feedid.Some? && r'.feedid.value !in c.taken)
  {
  }

  lemma {:induction false} TriesId(c: Case, r: Row, attempts: seq<Attempt>)
    ensures var r' := Tries(c, r, attempts).0;
      r'.feedid == r.feedid || (r'.feedid.Some? && r'.feedid.value !in c.taken)
    decreases attempts
  {
    if attempts != [] {
      TryId(c, r, attempts[0]);
      if !Try(c, r, attempts[0]).1 {
        TriesId(c, Try(c, r, attempts[0]).0, attempts[1..]);
      }
    }
  }

  lemma NextKeepsIds(confs: Confs, t: Table, step: Step)
    requires Enabled(t, step) && UniqueIds(t)
    ensures UniqueIds(Next(confs, t, step).0)
  {
    if step.FeederRound? {
      var c := CaseOf(t, confs, step.uid, step.refresh, step.now);
      TriesId(c, t[step.uid].(locked := true), step.attempts);
      forall u | u in t && u != step.uid && t[u].feedid.Some? ensures t[u].feedid.value in c.taken {
        TakenHolds(t, step.uid, u);
      }
    }
  }

  lemma StepKeepsInv(confs: Confs, t: Table, log: seq<Event>, step: Step)
    requires Enabled(t, step) && Inv(t, log)
    ensures Inv(Next(confs, t, step).0, log + Next(confs, t, step).1)
  {
    var (t', es) := Next(confs, t, step);
    NextKeepsIds(confs, t, step);
    if step.FeederRound? {
      var e := es[0];
      RoundOutcome(CaseOf(t, confs, step.uid, step.refresh, step.now), t[step.uid], step.attempts);
      forall uid | uid in t' ensures RowExplained(t'[uid], LastRound(log + es, uid)) {
        assert es == [e];
        LastRoundSnoc(log, e, uid);
      }
    } else {
      assert log + es == log;
      forall uid | uid in t' ensures RowExplained(t'[uid], LastRound(log, uid)) {
        DoneKeepsError(t[uid].state);
      }
    }
  }

  /** A table as initDatabaseFeeds leaves it. */
  predicate Fresh(t: Table) {
    forall uid :: uid in t ==> t[uid].feedid.None? && t[uid].state < 4 && !t[uid].locked
  }

  /** Over every run: states stay below 16, feed ids stay unique, and an initialised
      feed has ERROR if and only if its last round was a failed refresh. */
  lemma {:induction false} RunKeepsInv(confs: Confs, t: Table, steps: seq<Step>)
    requires Fresh(t) && CanRun(confs, t, steps)
    ensures Inv(RunTable(confs, t, steps), RunLog(confs, t, steps))
    decreases |steps|
  {
    if steps != [] {
      var head := steps[..|steps| - 1];
      RunKeepsInv(confs, t, head);
      StepKeepsInv(confs, RunTable(confs, t, head), RunLog(confs, t, head), steps[|steps| - 1]);
    }
  }

  /** A feed loses its id only in a failed refresh round whose predecessor on that
      feed was a failed refresh round too. */
  lemma IdIsDroppedAfterTwoFailures(confs: Confs, t: Table, steps: seq<Step>, uid: int)
    requires Fresh(t) && CanRun(confs, t, steps) && steps != []
    requires CanRun(confs, t, steps[..|steps| - 1])
    requires var s := RunTable(confs, t, steps[..|steps| - 1]); uid in s && s[uid].feedid.Some?
    requires uid in RunTable(confs, t, steps) && RunTable(confs, t, steps)[uid].feedid.None?
    ensures FailedRefresh(LastRound(RunLog(confs, t, steps), uid))
    ensures FailedRefresh(LastRound(RunLog(confs, t, steps[..|steps| - 1]), uid))
  {
    var head, last := steps[..|steps| - 1], steps[|steps| - 1];
    RunKeepsInv(confs, t, head);
    var s, log := RunTable(confs, t, head), RunLog(confs, t, head);
    if last.FeederRound? {
      RoundOutcome(CaseOf(s, confs, last.uid, last.refresh, last.now), s[last.uid], last.attempts);
      LastRoundSnoc(log, Next(confs, s, last).1[0], uid);
      assert Next(confs, s, last).1 == [Next(confs, s, last).1[0]];
    }
  }

  /** Every round of the run has a configured feed and loads credentials at least once. */
  ghost predicate RoundsReach(confs: Confs, steps: seq<Step>) {
    forall i :: 0 <= i < |steps| && steps[i].FeederRound? ==>
      (steps[i].refresh || steps[i].uid in confs)
      && exists k :: 0 <= k < |steps[i].attempts| && !steps[i].attempts[k].NoCredentials?
  }

  /** Then no feed is ever left locked between rounds. */
  lemma {:induction false} NothingStaysLocked(confs: Confs, t: Table, steps: seq<Step>, uid: int)
    requires Fresh(t) && CanRun(confs, t, steps) && RoundsReach(confs, steps)
    requires uid in RunTable(confs, t, steps)
    ensures !RunTable(confs, t, steps)[uid].locked
    decreases |steps|
  {
    if steps != [] {
      var head, last := steps[..|steps| - 1], steps[|steps| - 1];
      assert RoundsReach(confs, head);
      var s := RunTable(confs, t, head);
      NothingStaysLocked(confs, t, head, uid);
      if last.FeederRound? {
        RoundUnlocksIff(CaseOf(s, confs, last.uid, last.refresh, last.now), s[last.uid], last.attempts);
      }
    }
  }
}
