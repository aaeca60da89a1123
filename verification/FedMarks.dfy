/** Which jobs a feed has already received. A feed gets all attributes of a job
    first; only a job marked as fed gets increments. */
module FedMarks {
  import opened Text
  import opened KnownAttrs
  import FeedQuery

  /** A mark: a feed id and the unique part of a job id. */
  type Marks = set<(Bytes, Bytes)>

  /** The attributes each feed id was handed out for, the feeds table with expiry
      times, and the fed_jobs table. */
  datatype State = State(issued: map<Bytes, seq<Bytes>>, feeds: map<Bytes, int>, fed: Marks)

  const EMPTY: State := State(map[], map[], {})

  /** names are the attributes whose values a send carries; owner and job id go with
      every send. */
  datatype Event =
    | FullSent(id: Bytes, job: Bytes, names: seq<Bytes>, ok: bool)
    | BatchSent(id: Bytes, jobs: seq<Bytes>, names: seq<Bytes>, ok: bool)
    | Increment(id: Bytes, job: Bytes)
    | Purged(ids: set<Bytes>)

  datatype Step =
    /** A new feed id for a list of attributes. */
    | Request(id: Bytes, attrs: seq<Bytes>)
    /** match_feed: does the feed match, what the send reports, and what an unset
        fed flag happens to hold. */
    | Match(id: Bytes, job: Bytes, matches: bool, ok: bool, unset: bool)
    | Drain(id: Bytes, continuous: bool, jobs: seq<Bytes>, ok: bool)
    | Purge(now: int)
    | Store(id: Bytes, expires: int)
    | Refresh(id: Bytes, expires: int)

  /** full_feed asks for the owner too. */
  function FullAttrs(attrs: seq<Bytes>): seq<Bytes> {
    if ATTR_OWNER in attrs then attrs else [ATTR_OWNER] + attrs
  }

  /** What a batch feed extracts for its jobs. */
  function BatchNames(attrs: seq<Bytes>): seq<Bytes> {
    FeedQuery.MetaAttrs(attrs) + FeedQuery.OtherAttrs(attrs)
  }

  function Mark(fed: Marks, id: Bytes, job: Bytes): Marks {
    if Unique(job).Some? then fed + {(id, Unique(job).value)} else fed
  }

  function MarkAll(fed: Marks, id: Bytes, jobs: seq<Bytes>): Marks {
    if jobs == [] then fed else Mark(MarkAll(fed, id, jobs[..|jobs| - 1]), id, jobs[|jobs| - 1])
  }

  /** The marks after a batch. */
  function Drained(fed: Marks, id: Bytes, continuous: bool, jobs: seq<Bytes>, ok: bool): Marks {
    if ok && continuous then MarkAll(fed, id, jobs) else fed
  }

  function Expired(feeds: map<Bytes, int>, now: int): set<Bytes> {
    set id | id in feeds && feeds[id] < now
  }

  predicate IsFed(fed: Marks, id: Bytes, job: Bytes, unset: bool) {
    if Unique(job).None? then unset else (id, Unique(job).value) in fed
  }

  function Next(s: State, step: Step): (State, seq<Event>) {
    match step
    case Request(id, attrs) => (if id in s.issued then s else s.(issued := s.issued[id := attrs]), [])
    case Match(id, job, matches, ok, unset) =>
      if id !in s.issued || !matches then (s, [])
      else if IsFed(s.fed, id, job, unset) then (s, [Increment(id, job)])
      else
        (if ok then s.(fed := Mark(s.fed, id, job)) else s, [FullSent(id, job, FullAttrs(s.issued[id]), ok)])
    case Drain(id, continuous, jobs, ok) =>
      if id !in s.issued || jobs == [] then (s, [])
      else
        (s.(fed := Drained(s.fed, id, continuous, jobs, ok)), [BatchSent(id, jobs, BatchNames(s.issued[id]), ok)])
    case Purge(now) =>
      var gone := Expired(s.feeds, now);
      (s.(feeds := s.feeds - gone, fed := set m | m in s.fed && m.0 !in gone), [Purged(gone)])
    case Store(id, expires) =>
      (if id in s.issued && id !in s.feeds then s.(feeds := s.feeds[id := expires]) else s, [])
    case Refresh(id, expires) => (if id in s.feeds then s.(feeds := s.feeds[id := expires]) else s, [])
  }

  // ----- the tables changed in place -----------------------------------------------------------------

  class Tables {
    var issued: map<Bytes, seq<Bytes>>
    var feeds: map<Bytes, int>
    var fed: Marks
    var log: seq<Event>

    constructor ()
      ensures Now() == EMPTY && log == []
    {
      issued, feeds, fed, log := map[], map[], {}, [];
    }

    function Now(): State
      reads this
    {
      State(issued, feeds, fed)
    }

    /** glite_jppsbe_set_fed */
    method SetFed(id: Bytes, job: Bytes)
      modifies `fed
      ensures fed == Mark(old(fed), id, job)
    {
      var u := Unique(job);
      if u.Some? {
        fed := fed + {(id, u.value)};
      }
    }

    /** glite_jppsbe_check_fed: leaves the flag alone for a job id without a slash. */
    method CheckFed(id: Bytes, job: Bytes, unset: bool) returns (result: bool)
      ensures result == IsFed(fed, id, job, unset)
    {
      var u := Unique(job);
      result := unset;
      if u.Some? {
        result := (id, u.value) in fed;
      }
    }

    /** match_feed, given whether the feed matches. */
    method MatchFeed(id: Bytes, job: Bytes, matches: bool, ok: bool, unset: bool)
      modifies this
      ensures var (s, es) := Next(old(Now()), Match(id, job, matches, ok, unset));
        Now() == s && log == old(log) + es
    {
      if id !in issued || !matches { return; }
      var f := CheckFed(id, job, unset);
      if !f {
        log := log + [FullSent(id, job, FullAttrs(issued[id]), ok)];
        if ok { SetFed(id, job); }
      } else {
        log := log + [Increment(id, job)];
      }
    }

    /** glite_jppsbe_purge_feeds: the marks of each expired feed, then the feeds. A
        purge removes the marks of exactly the feeds it removes. */
    method PurgeFeeds(now: int)
      modifies this
      ensures var (s, es) := Next(old(Now()), Purge(now)); Now() == s && log == old(log) + es
      ensures forall id :: id in feeds <==> id in old(feeds) && now <= old(feeds)[id]
      ensures forall id :: id in feeds ==> feeds[id] == old(feeds)[id]
      ensures forall id, u :: (id, u) in fed <==> (id, u) in old(fed) && !(id in old(feeds) && id !in feeds)
    {
      var selected := Expired(feeds, now);
      var left := selected;
      while left != {}
        invariant left <= selected && feeds == old(feeds) && issued == old(issued) && log == old(log)
        invariant fed == set m | m in old(fed) && m.0 !in selected - left
        decreases left
      {
        var id :| id in left;
        fed := set m | m in fed && m.0 != id;
        left := left - {id};
      }
      feeds := map id | id in feeds && !(feeds[id] < now) :: feeds[id];
      assert feeds == old(feeds) - selected;
      log := log + [Purged(selected)];
    }
  }

  // ----- whole runs ------------------------------------------------------------------------------------

  function RunState(s: State, steps: seq<Step>): State
    decreases |steps|
  {
    if steps == [] then s else Next(RunState(s, steps[..|steps| - 1]), steps[|steps| - 1]).0
  }

  function RunLog(s: State, steps: seq<Step>): seq<Event>
    decreases |steps|
  {
    if steps == [] then []
    else RunLog(s, steps[..|steps| - 1]) + Next(RunState(s, steps[..|steps| - 1]), steps[|steps| - 1]).1
  }

  /** All attributes of a feed, owner and job id being sent anyway. */
  predicate Covers(names: seq<Bytes>, attrs: seq<Bytes>) {
    forall a :: a in attrs ==> a in names || a == ATTR_OWNER || a == ATTR_JOBID
  }

  /** A send of that very job with all the attributes, reported as successful. */
  predicate IsFullSend(e: Event, id: Bytes, job: Bytes, attrs: seq<Bytes>) {
    match e
    case FullSent(id', job', names, ok) => ok && id' == id && job' == job && Covers(names, attrs)
    case BatchSent(id', jobs, names, ok) => ok && id' == id && job in jobs && Covers(names, attrs)
    case _ => false
  }

  predicate PurgesFeed(e: Event, id: Bytes) {
    e.Purged? && id in e.ids
  }

  /** The feed got the whole job at event i and was not purged since. */
  predicate FedAt(log: seq<Event>, i: nat, id: Bytes, job: Bytes, attrs: seq<Bytes>)
    requires i < |log|
  {
    IsFullSend(log[i], id, job, attrs) && forall k :: i < k < |log| ==> !PurgesFeed(log[k], id)
  }

  predicate WasFed(log: seq<Event>, id: Bytes, job: Bytes, attrs: seq<Bytes>) {
    exists i :: 0 <= i < |log| && FedAt(log, i, id, job, attrs)
  }

  function StepJobs(step: Step): set<Bytes> {
    match step
    case Match(_, job, _, _, _) => {job}
    case Drain(_, _, jobs, _) => set job | job in jobs
    case _ => {}
  }

  /** The run deals with no other jobs. */
  predicate About(steps: seq<Step>, jobs: set<Bytes>) {
    forall i :: 0 <= i < |steps| ==> StepJobs(steps[i]) <= jobs
  }

  ghost predicate MarkExplained(s: State, log: seq<Event>, jobs: set<Bytes>, id: Bytes, u: Bytes) {
    id in s.issued && exists job :: job in jobs && Unique(job) == Some(u) && WasFed(log, id, job, s.issued[id])
  }

  ghost predicate MarksExplained(s: State, log: seq<Event>, jobs: set<Bytes>) {
    forall id, u :: (id, u) in s.fed ==> MarkExplained(s, log, jobs, id, u)
  }

  /** An increment follows a full send of its very job to its feed, with all of that
      feed's attributes, and no purge of the feed since. */
  predicate Explained(s: State, log: seq<Event>, k: nat)
    requires k < |log|
  {
    var e := log[k];
    e.Increment? ==> e.id in s.issued && WasFed(log[..k], e.id, e.job, s.issued[e.id])
  }

  predicate FullBeforeIncrements(steps: seq<Step>) {
    var s, log := RunState(EMPTY, steps), RunLog(EMPTY, steps);
    forall k :: 0 <= k < |log| ==> Explained(s, log, k)
  }

  /** Every job id has a unique part, and no two share one. */
  predicate Separate(jobs: set<Bytes>) {
    && (forall job :: job in jobs ==> SLASH in job)
    && (forall a, b :: a in jobs && b in jobs && Unique(a) == Unique(b) ==> a == b)
  }

  lemma WasFedStays(log: seq<Event>, e: Event, id: Bytes, job: Bytes, attrs: seq<Bytes>)
    requires WasFed(log, id, job, attrs) && !PurgesFeed(e, id)
    ensures WasFed(log + [e], id, job, attrs)
  {
    var i :| 0 <= i < |log| && FedAt(log, i, id, job, attrs);
    assert FedAt(log + [e], i, id, job, attrs);
  }

  lemma FreshlyFed(log: seq<Event>, e: Event, id: Bytes, job: Bytes, attrs: seq<Bytes>)
    requires IsFullSend(e, id, job, attrs)
    ensures WasFed(log + [e], id, job, attrs)
  {
    assert FedAt(log + [e], |log|, id, job, attrs);
  }

  /** What a batch carries are all attributes of its feed. */
  lemma BatchCovers(attrs: seq<Bytes>)
    ensures Covers(BatchNames(attrs), attrs)
  {
    FeedQuery.AttrSplitMembers(attrs);
  }

  lemma {:induction false} MarkAllMembers(fed: Marks, id: Bytes, jobs: seq<Bytes>, m: (Bytes, Bytes))
    requires m in MarkAll(fed, id, jobs)
    ensures m in fed || (m.0 == id && exists i :: 0 <= i < |jobs| && Unique(jobs[i]) == Some(m.1))
  {
    if jobs != [] && m in MarkAll(fed, id, jobs[..|jobs| - 1]) {
      MarkAllMembers(fed, id, jobs[..|jobs| - 1], m);
      if m !in fed {
        var i :| 0 <= i < |jobs| - 1 && Unique(jobs[..|jobs| - 1][i]) == Some(m.1);
        assert Unique(jobs[i]) == Some(m.1);
      }
    }
  }

  lemma {:induction false} MarkAllIff(fed: Marks, id: Bytes, jobs: seq<Bytes>, x: Bytes, u: Bytes)
    ensures (x, u) in MarkAll(fed, id, jobs) <==>
      (x, u) in fed || (x == id && exists i :: 0 <= i < |jobs| && Unique(jobs[i]) == Some(u))
  {
    if jobs != [] {
      var head := jobs[..|jobs| - 1];
      MarkAllIff(fed, id, head, x, u);
      assert forall i :: 0 <= i < |head| ==> head[i] == jobs[i];
      if exists i :: 0 <= i < |head| && Unique(head[i]) == Some(u) {
        var i :| 0 <= i < |head| && Unique(head[i]) == Some(u);
        assert Unique(jobs[i]) == Some(u);
      }
    }
  }

  /** A batch marks exactly the jobs it holds, if it is a continuous feed's and was
      reported as successful. */
  lemma DrainMarksIff(s: State, id: Bytes, continuous: bool, jobs: seq<Bytes>, ok: bool, x: Bytes, u: Bytes)
    requires id in s.issued
    ensures (x, u) in Next(s, Drain(id, continuous, jobs, ok)).0.fed <==>
      || (x, u) in s.fed
      || (x == id && continuous && ok && exists i :: 0 <= i < |jobs| && Unique(jobs[i]) == Some(u))
  {
    MarkAllIff(s.fed, id, jobs, x, u);
  }

  /** What match_feed does for a feed that matches: an increment exactly if the job is
      marked; otherwise all attributes and the owner, and a mark if that was reported as
      successful. */
  lemma MatchOutcome(s: State, id: Bytes, job: Bytes, ok: bool, unset: bool)
    requires id in s.issued && SLASH in job
    ensures var (s', es) := Next(s, Match(id, job, true, ok, unset));
      var u := Unique(job).value;
      && |es| == 1 && s'.issued == s.issued && s'.feeds == s.feeds
      && if (id, u) in s.fed then es[0] == Increment(id, job) && s'.fed == s.fed
         else
           && es[0].FullSent? && es[0].id == id && es[0].job == job && es[0].ok == ok
           && (forall a :: a in es[0].names <==> a in s.issued[id] || a == ATTR_OWNER)
           && s'.fed == s.fed + (if ok then {(id, u)} else {})
  {
  }

  predicate NotPurged(log: seq<Event>, id: Bytes) {
    forall k :: 0 <= k < |log| ==> !PurgesFeed(log[k], id)
  }

  lemma NotPurgedConcat(a: seq<Event>, b: seq<Event>, id: Bytes)
    requires NotPurged(a + b, id)
    ensures NotPurged(a, id) && NotPurged(b, id)
  {
    assert forall k :: 0 <= k < |a| ==> a[k] == (a + b)[k];
    assert forall k :: 0 <= k < |b| ==> b[k] == (a + b)[|a| + k];
  }

  /** A mark stays as long as its feed is not purged. */
  lemma {:induction false} MarkStays(s: State, steps: seq<Step>, id: Bytes, u: Bytes)
    requires (id, u) in s.fed && NotPurged(RunLog(s, steps), id)
    ensures (id, u) in RunState(s, steps).fed
    decreases |steps|
  {
    if steps != [] {
      var head, last := steps[..|steps| - 1], steps[|steps| - 1];
      NotPurgedConcat(RunLog(s, head), Next(RunState(s, head), last).1, id);
      MarkStays(s, head, id, u);
      MarkStaysOneStep(RunState(s, head), last, id, u);
    }
  }

  lemma MarkStaysOneStep(s: State, step: Step, id: Bytes, u: Bytes)
    requires (id, u) in s.fed && NotPurged(Next(s, step).1, id)
    ensures (id, u) in Next(s, step).0.fed
  {
    if step.Purge? {
      assert !PurgesFeed(Next(s, step).1[0], id);
    } else if step.Drain? && step.id in s.issued {
      DrainMarksIff(s, step.id, step.continuous, step.jobs, step.ok, id, u);
    }
  }

  lemma {:induction false} IssuedInRun(s: State, steps: seq<Step>, id: Bytes)
    requires id in s.issued
    ensures id in RunState(s, steps).issued && RunState(s, steps).issued[id] == s.issued[id]
    decreases |steps|
  {
    if steps != [] {
      IssuedInRun(s, steps[..|steps| - 1], id);
      IssuedStays(RunState(s, steps[..|steps| - 1]), steps[|steps| - 1], id);
    }
  }

  /** A job sent in a successful batch of a continuous feed gets increments from then on,
      as long as the feed is not purged. */
  lemma BatchedJobGetsIncrements(s: State, id: Bytes, jobs: seq<Bytes>, i: nat, steps: seq<Step>, ok: bool, unset: bool)
    requires id in s.issued && i < |jobs| && SLASH in jobs[i]
    requires NotPurged(RunLog(Next(s, Drain(id, true, jobs, true)).0, steps), id)
    ensures var t := RunState(Next(s, Drain(id, true, jobs, true)).0, steps);
      Next(t, Match(id, jobs[i], true, ok, unset)).1 == [Increment(id, jobs[i])]
  {
    var t, u := Next(s, Drain(id, true, jobs, true)).0, Unique(jobs[i]).value;
    DrainMarksIff(s, id, true, jobs, true, id, u);
    IssuedStays(s, Drain(id, true, jobs, true), id);
    MarkStays(t, steps, id, u);
    IssuedInRun(t, steps, id);
    MatchOutcome(RunState(t, steps), id, jobs[i], ok, unset);
  }

  /** A stored or refreshed feed is purged exactly after its time. */
  lemma PurgedAfterItsTime(s: State, id: Bytes, expires: int, now: int)
    requires id in s.issued
    ensures var t := Next(Next(s, Store(id, expires)).0, Refresh(id, expires)).0;
      id in Next(t, Purge(now)).0.feeds <==> now <= expires
  {
  }

  /** Attributes stay with their feed id. */
  lemma IssuedStays(s: State, step: Step, id: Bytes)
    requires id in s.issued
    ensures id in Next(s, step).0.issued && Next(s, step).0.issued[id] == s.issued[id]
  {
  }

  /** A mark a step makes is for a job the step sends in full. */
  lemma NewMark(s: State, step: Step, id: Bytes, u: Bytes) returns (job: Bytes)
    requires (id, u) in Next(s, step).0.fed && (id, u) !in s.fed
    ensures job in StepJobs(step) && Unique(job) == Some(u) && id in s.issued
    ensures |Next(s, step).1| == 1 && IsFullSend(Next(s, step).1[0], id, job, s.issued[id])
  {
    if step.Match? {
      job := step.job;
    } else {
      MarkAllMembers(s.fed, step.id, step.jobs, (id, u));
      var i :| 0 <= i < |step.jobs| && Unique(step.jobs[i]) == Some(u);
      job := step.jobs[i];
      BatchCovers(s.issued[id]);
    }
  }

  lemma OldMarkStays(s: State, log: seq<Event>, step: Step, jobs: set<Bytes>, id: Bytes, u: Bytes)
    requires MarkExplained(s, log, jobs, id, u) && (id, u) in Next(s, step).0.fed
    ensures MarkExplained(Next(s, step).0, log + Next(s, step).1, jobs, id, u)
  {
    var (s', es) := Next(s, step);
    IssuedStays(s, step, id);
    var job :| job in jobs && Unique(job) == Some(u) && WasFed(log, id, job, s.issued[id]);
    if es == [] {
      assert log + es == log;
    } else {
      assert es == [es[0]];
      WasFedStays(log, es[0], id, job, s.issued[id]);
    }
  }

  /** Every step keeps all marks explained by the log. */
  lemma StepKeepsMarks(s: State, log: seq<Event>, step: Step, jobs: set<Bytes>)
    requires MarksExplained(s, log, jobs) && StepJobs(step) <= jobs
    ensures MarksExplained(Next(s, step).0, log + Next(s, step).1, jobs)
  {
    var (s', es) := Next(s, step);
    forall id, u | (id, u) in s'.fed ensures MarkExplained(s', log + es, jobs, id, u) {
      if (id, u) in s.fed {
        OldMarkStays(s, log, step, jobs, id, u);
      } else {
        var job := NewMark(s, step, id, u);
        IssuedStays(s, step, id);
        FreshlyFed(log, es[0], id, job, s.issued[id]);
        assert es == [es[0]];
      }
    }
  }

  lemma {:induction false} RunKeepsMarks(steps: seq<Step>, jobs: set<Bytes>)
    requires About(steps, jobs)
    ensures MarksExplained(RunState(EMPTY, steps), RunLog(EMPTY, steps), jobs)
  {
    if steps != [] {
      var head := steps[..|steps| - 1];
      RunKeepsMarks(head, jobs);
      StepKeepsMarks(RunState(EMPTY, head), RunLog(EMPTY, head), steps[|steps| - 1], jobs);
    }
  }

  /** A step explains its own increment, if its marks are explained and no other job
      shares the unique part. */
  lemma StepExplainsIncrement(s: State, log: seq<Event>, step: Step, jobs: set<Bytes>)
    requires MarksExplained(s, log, jobs) && StepJobs(step) <= jobs && Separate(jobs)
    ensures var es := Next(s, step).1;
      forall e :: e in es && e.Increment? ==> e.id in s.issued && WasFed(log, e.id, e.job, s.issued[e.id])
  {
    if step.Match? && Next(s, step).1 == [Increment(step.id, step.job)] {
      assert SLASH in step.job;
      assert MarkExplained(s, log, jobs, step.id, Unique(step.job).value);
    }
  }

  lemma ExplainedStays(s: State, log: seq<Event>, step: Step, k: nat)
    requires k < |log| && Explained(s, log, k)
    ensures Explained(Next(s, step).0, log + Next(s, step).1, k)
  {
    assert (log + Next(s, step).1)[..k] == log[..k];
    if log[k].Increment? { IssuedStays(s, step, log[k].id); }
  }

  /** Full before incremental: over every run on jobs with unique parts of their own,
      each increment was preceded by a send of that very job to that feed with all of
      the feed's attributes, reported as successful, and no purge of the feed since. */
  lemma {:induction false} FullBeforeIncremental(steps: seq<Step>, jobs: set<Bytes>)
    requires About(steps, jobs) && Separate(jobs)
    ensures FullBeforeIncrements(steps)
    decreases |steps|
  {
    if steps != [] {
      var head, last := steps[..|steps| - 1], steps[|steps| - 1];
      var s, log := RunState(EMPTY, head), RunLog(EMPTY, head);
      var es := Next(s, last).1;
      FullBeforeIncremental(head, jobs);
      RunKeepsMarks(head, jobs);
      StepExplainsIncrement(s, log, last, jobs);
      forall k | 0 <= k < |log + es| ensures Explained(Next(s, last).0, log + es, k) {
        if k < |log| {
          ExplainedStays(s, log, last, k);
        } else {
          assert (log + es)[..k] == log;
          if es[0].Increment? { IssuedStays(s, last, es[0].id); }
        }
      }
    }
  }

  // ----- exactly when -------------------------------------------------------------------------------------

  lemma TwoSteps(a: Step, b: Step)
    ensures RunState(EMPTY, [a, b]) == Next(Next(EMPTY, a).0, b).0
    ensures RunLog(EMPTY, [a, b]) == Next(EMPTY, a).1 + Next(Next(EMPTY, a).0, b).1
  {
    assert [a, b][..1] == [a] && [a][..0] == [];
    assert RunState(EMPTY, [a]) == Next(EMPTY, a).0;
    assert RunLog(EMPTY, [a]) == [] + Next(EMPTY, a).1;
  }

  lemma ThreeSteps(a: Step, b: Step, c: Step)
    ensures var s := RunState(EMPTY, [a, b]);
      && RunState(EMPTY, [a, b, c]) == Next(s, c).0
      && RunLog(EMPTY, [a, b, c]) == RunLog(EMPTY, [a, b]) + Next(s, c).1
  {
    assert [a, b, c][..2] == [a, b];
  }

  /** Without a slash in the job id the fed flag is never set, and an increment can
      go out first. */
  lemma MalformedJobGoesFirst(job: Bytes)
    requires SLASH !in job
    ensures !FullBeforeIncrements([Request([], []), Match([], job, true, true, true)])
  {
    var a, b := Request([], []), Match([], job, true, true, true);
    TwoSteps(a, b);
    var log := RunLog(EMPTY, [a, b]);
    assert log == [Increment([], job)];
    assert !Explained(RunState(EMPTY, [a, b]), log, 0);
  }

  /** A job whose unique part another job has is taken for fed once the other is. */
  lemma SharedUniquePartGoesFirst(sent: Bytes, other: Bytes)
    requires sent != other && SLASH in sent && Unique(sent) == Unique(other)
    ensures !FullBeforeIncrements([Request([], []), Match([], sent, true, true, false),
                                   Match([], other, true, true, false)])
  {
    var a, b, c := Request([], []), Match([], sent, true, true, false), Match([], other, true, true, false);
    TwoSteps(a, b);
    ThreeSteps(a, b, c);
    var s, log := RunState(EMPTY, [a, b, c]), RunLog(EMPTY, [a, b, c]);
    assert log == [FullSent([], sent, FullAttrs([]), true), Increment([], other)];
    assert !Explained(s, log, 1);
  }

  /** The jobs a/x and b/x: b/x gets an increment although only a/x was sent. */
  lemma AliasedJobs()
    ensures var a, b := Ascii("a/x"), Ascii("b/x");
      !FullBeforeIncrements([Request([], []), Match([], a, true, true, false), Match([], b, true, true, false)])
  {
    var a, b := Ascii("a/x"), Ascii("b/x");
    assert a[2] == 120 && a[1] == SLASH && a[..2][..1] == a[..1] && a[0] == 97;
    assert b[2] == 120 && b[1] == SLASH && b[0] == 98;
    assert Unique(a[..2]) == Some([]) && Unique(b[..2]) == Some([]);
    SharedUniquePartGoesFirst(a, b);
  }

  /** Full before incremental holds of every run on a set of jobs if and only if each
      of them has a unique part and no two share one. */
  lemma FullBeforeIncrementalIff(jobs: set<Bytes>)
    ensures (forall steps :: About(steps, jobs) ==> FullBeforeIncrements(steps)) <==> Separate(jobs)
  {
    if Separate(jobs) {
      forall steps | About(steps, jobs) ensures FullBeforeIncrements(steps) {
        FullBeforeIncremental(steps, jobs);
      }
    } else if job :| job in jobs && SLASH !in job {
      MalformedJobGoesFirst(job);
      assert About([Request([], []), Match([], job, true, true, true)], jobs);
    } else {
      var a, b :| a in jobs && b in jobs && Unique(a) == Unique(b) && a != b;
      SharedUniquePartGoesFirst(a, b);
      assert About([Request([], []), Match([], a, true, true, false), Match([], b, true, true, false)], jobs);
    }
  }
}
