/** The batch feed: matching jobs are stacked and sent in batches of 200. */
module BatchFeed {
  import opened Text
  import opened AttrValues
  import opened KnownAttrs
  import opened FeedQuery
  import opened FedMarks

  const BATCH_FEED_SIZE := 200

  datatype Entry = Entry(job: Bytes, owner: Bytes, attrs: seq<AttrVal>)

  /** One call of multi_feed and the outcome it reported. */
  datatype Batch = Batch(done: bool, entries: seq<Entry>, ok: bool)

  /** A job from the backend, with its metadata. */
  datatype JobRow = JobRow(job: Bytes, meta: seq<AttrVal>)

  /** How the backend query went: refused, failed, or a stream of jobs that may
      break off with a database error. */
  datatype Stream = Refused | Rows(rows: seq<JobRow>, broken: bool)

  /** The part of a feed that does not change while it runs. */
  datatype Plan = Plan(metaAttr: seq<Bytes>, otherAttr: seq<Bytes>, intOther: nat,
                       metaQry: seq<QueryRec>, otherQry: seq<QueryRec>)

  function PlanOf(attrs: seq<Bytes>, qry: seq<QueryRec>): (p: Plan)
    ensures p.intOther <= |p.otherAttr|
  {
    var other := OtherAttrs(attrs);
    Plan(MetaAttrs(attrs), other + ExtraAttrs(other, OtherQry(qry)), |other|, MetaQry(qry), OtherQry(qry))
  }

  type Fetch = (Bytes, seq<Bytes>) -> Fetched

  /** What the C code takes for granted: values compare with the conditions on them,
      and the metadata of a row includes the owner. */
  ghost predicate RowOk(p: Plan, fetch: Fetch, row: JobRow) {
    && (fetch(row.job, p.otherAttr).Values? ==> AllCheckable(p.otherQry, fetch(row.job, p.otherAttr).vals))
    && (exists i :: 0 <= i < |row.meta| && row.meta[i].name == ATTR_OWNER)
  }

  // ----- one job ------------------------------------------------------------------------------------

  datatype Verdict = Bad | Skip | Push(entry: Entry)

  function OwnerOf(meta: seq<AttrVal>): Bytes
    requires exists i :: 0 <= i < |meta| && meta[i].name == ATTR_OWNER
  {
    if meta[0].name == ATTR_OWNER then meta[0].value
    else
      assert forall i :: 1 <= i < |meta| ==> meta[i] == meta[1..][i - 1];
      OwnerOf(meta[1..])
  }

  function Outgoing(p: Plan, row: JobRow, other: Fetched): seq<AttrVal>
    requires p.intOther <= |p.otherAttr|
  {
    Extract(row.meta, p.metaAttr) + (if other.Values? then Extract(other.vals, p.otherAttr[..p.intOther]) else [])
  }

  ghost function Judge(p: Plan, fetch: Fetch, row: JobRow): Verdict
    requires RowOk(p, fetch, row) && p.intOther <= |p.otherAttr|
  {
    var other := fetch(row.job, p.otherAttr);
    if other.Failed? then Bad
    else if !(p.otherQry == [] || (other.Values? && Passes(p.otherQry, other.vals))) then Skip
    else
      var out := Outgoing(p, row, other);
      if out == [] then Skip else Push(Entry(row.job, OwnerOf(row.meta), out))
  }

  ghost predicate RowsOk(p: Plan, fetch: Fetch, rows: seq<JobRow>) {
    p.intOther <= |p.otherAttr| && forall i :: 0 <= i < |rows| ==> RowOk(p, fetch, rows[i])
  }

  /** The entries of a stream of jobs, up to the first job that cannot be judged. */
  ghost function Accepted(p: Plan, fetch: Fetch, rows: seq<JobRow>): seq<Entry>
    requires RowsOk(p, fetch, rows)
  {
    if rows == [] then []
    else
      match Judge(p, fetch, rows[0])
      case Bad => []
      case Skip => Accepted(p, fetch, rows[1..])
      case Push(e) => [e] + Accepted(p, fetch, rows[1..])
  }

  ghost predicate Judged(p: Plan, fetch: Fetch, rows: seq<JobRow>)
    requires RowsOk(p, fetch, rows)
  {
    forall i :: 0 <= i < |rows| ==> Judge(p, fetch, rows[i]) != Bad
  }

  /** Batches sent, jobs stacked and the code after a callback. */
  datatype After = After(sent: seq<Batch>, stack: seq<Entry>, code: int)

  ghost function TurnOf(v: Verdict, sent: seq<Batch>, stack: seq<Entry>, ok: bool): After {
    var all := stack + (if v.Push? then [v.entry] else []);
    if |all| < BATCH_FEED_SIZE then After(sent, all, if v.Bad? then EIO else 0)
    else After(sent + [Batch(false, all, ok)], [], if ok then 0 else EIO)
  }

  /** A job cannot be judged exactly if its attributes cannot be retrieved. */
  lemma JudgedIff(p: Plan, fetch: Fetch, rows: seq<JobRow>)
    requires RowsOk(p, fetch, rows)
    ensures Judged(p, fetch, rows) <==> forall i :: 0 <= i < |rows| ==> !fetch(rows[i].job, p.otherAttr).Failed?
  {
  }

  // ----- batches -------------------------------------------------------------------------------------

  function SentEntries(sent: seq<Batch>): seq<Entry> {
    if sent == [] then [] else SentEntries(sent[..|sent| - 1]) + sent[|sent| - 1].entries
  }

  /** Full batches, all reported sent. */
  predicate Regular(sent: seq<Batch>) {
    forall i :: 0 <= i < |sent| ==> sent[i].ok && !sent[i].done && |sent[i].entries| == BATCH_FEED_SIZE
  }

  /** A finished run: regular batches, but the last may be smaller, then it is the
      done one, or may have been reported as failed. */
  predicate WellBatched(sent: seq<Batch>) {
    sent == [] || (Regular(sent[..|sent| - 1])
                   && var last := sent[|sent| - 1];
                   if last.done then 1 <= |last.entries| < BATCH_FEED_SIZE else |last.entries| == BATCH_FEED_SIZE)
  }

  predicate AllOk(sent: seq<Batch>) {
    forall i :: 0 <= i < |sent| ==> sent[i].ok
  }

  /** A well-batched part of what was accepted; unless a send failed, fewer entries than
      make a batch are missing. */
  predicate Stopped(sent: seq<Batch>, accepted: seq<Entry>) {
    && WellBatched(sent) && SentEntries(sent) <= accepted
    && (AllOk(sent) ==> |accepted| < |SentEntries(sent)| + BATCH_FEED_SIZE)
  }

  /** The outcome of each batch is the one multi_feed reports for it. */
  predicate Reported(sent: seq<Batch>, sendOk: nat -> bool) {
    forall k: nat :: k < |sent| ==> sent[k].ok == sendOk(k)
  }

  lemma SentSnoc(sent: seq<Batch>, b: Batch)
    ensures SentEntries(sent + [b]) == SentEntries(sent) + b.entries
  {
    assert (sent + [b])[..|sent|] == sent;
  }

  function JobsOf(entries: seq<Entry>): seq<Bytes> {
    seq(|entries|, i requires 0 <= i < |entries| => entries[i].job)
  }

  /** The fed_jobs table after the batches of a feed. */
  function FedAfter(fed: Marks, id: Bytes, continuous: bool, sent: seq<Batch>): Marks {
    if sent == [] then fed
    else
      var last := sent[|sent| - 1];
      Drained(FedAfter(fed, id, continuous, sent[..|sent| - 1]), id, continuous, JobsOf(last.entries), last.ok)
  }

  /** Some batch reported as successful holds a job with that unique part. */
  predicate Delivered(sent: seq<Batch>, u: Bytes) {
    exists k :: 0 <= k < |sent| && sent[k].ok && HoldsJob(sent[k].entries, u)
  }

  predicate HoldsJob(entries: seq<Entry>, u: Bytes) {
    exists e :: 0 <= e < |entries| && Unique(entries[e].job) == Some(u)
  }

  lemma JobsOfHolds(entries: seq<Entry>, u: Bytes)
    ensures HoldsJob(entries, u) <==> exists i :: 0 <= i < |JobsOf(entries)| && Unique(JobsOf(entries)[i]) == Some(u)
  {
    forall e | 0 <= e < |entries| ensures JobsOf(entries)[e] == entries[e].job {}
    if HoldsJob(entries, u) {
      var e :| 0 <= e < |entries| && Unique(entries[e].job) == Some(u);
      assert Unique(JobsOf(entries)[e]) == Some(u);
    }
  }

  /** A feed marks exactly the jobs it delivered, if it is continuous. */
  lemma {:induction false} FedAfterIff(fed: Marks, id: Bytes, continuous: bool, sent: seq<Batch>, x: Bytes, u: Bytes)
    ensures (x, u) in FedAfter(fed, id, continuous, sent) <==>
      (x, u) in fed || (x == id && continuous && Delivered(sent, u))
  {
    if sent != [] {
      var head, last := sent[..|sent| - 1], sent[|sent| - 1];
      FedAfterIff(fed, id, continuous, head, x, u);
      MarkAllIff(FedAfter(fed, id, continuous, head), id, JobsOf(last.entries), x, u);
      JobsOfHolds(last.entries, u);
      DeliveredSnoc(sent, u);
    }
  }

  lemma NothingSent(fed: Marks, id: Bytes, continuous: bool)
    ensures FedAfter(fed, id, continuous, []) == fed && forall u :: !Delivered([], u)
  {
  }

  /** A batch holds 200 jobs and is not the done one, or is the last, with fewer. */
  predicate FullOrLast(sent: seq<Batch>, k: nat)
    requires k < |sent|
  {
    && (sent[k].done <==> |sent[k].entries| < 200) && 1 <= |sent[k].entries| <= 200
    && (k < |sent| - 1 ==> sent[k].ok && !sent[k].done)
  }

  lemma BatchSizes(sent: seq<Batch>)
    requires WellBatched(sent)
    ensures forall k :: 0 <= k < |sent| ==> FullOrLast(sent, k)
  {
    if sent != [] {
      var head := sent[..|sent| - 1];
      assert forall k :: 0 <= k < |head| ==> head[k] == sent[k];
    }
  }

  lemma DeliveredSnoc(sent: seq<Batch>, u: Bytes)
    requires sent != []
    ensures var last := sent[|sent| - 1];
      Delivered(sent, u) <==> Delivered(sent[..|sent| - 1], u) || (last.ok && HoldsJob(last.entries, u))
  {
    var head := sent[..|sent| - 1];
    if Delivered(head, u) {
      var k :| 0 <= k < |head| && head[k].ok && HoldsJob(head[k].entries, u);
      assert sent[k] == head[k];
    }
    if Delivered(sent, u) {
      var k :| 0 <= k < |sent| && sent[k].ok && HoldsJob(sent[k].entries, u);
      if k < |head| { assert head[k] == sent[k]; }
    }
  }

  /** The batches of a feed as steps of its history. */
  function Drains(id: Bytes, continuous: bool, sent: seq<Batch>): seq<Step> {
    seq(|sent|, i requires 0 <= i < |sent| => Drain(id, continuous, JobsOf(sent[i].entries), sent[i].ok))
  }

  /** Draining leaves the marks that these steps leave. */
  lemma {:induction false} FedAfterDrains(s: State, id: Bytes, continuous: bool, sent: seq<Batch>)
    requires id in s.issued
    ensures RunState(s, Drains(id, continuous, sent)) == s.(fed := FedAfter(s.fed, id, continuous, sent))
  {
    if sent != [] {
      var head := sent[..|sent| - 1];
      FedAfterDrains(s, id, continuous, head);
      assert Drains(id, continuous, sent)[..|sent| - 1] == Drains(id, continuous, head);
    }
  }

  /** The sends of a feed as its history records them. */
  function Sends(id: Bytes, attrs: seq<Bytes>, sent: seq<Batch>): seq<Event> {
    if sent == [] then []
    else
      var last := sent[|sent| - 1];
      Sends(id, attrs, sent[..|sent| - 1])
      + (if last.entries == [] then [] else [BatchSent(id, JobsOf(last.entries), BatchNames(attrs), last.ok)])
  }

  lemma {:induction false} SendsOfDrains(s: State, id: Bytes, continuous: bool, sent: seq<Batch>)
    requires id in s.issued
    ensures RunLog(s, Drains(id, continuous, sent)) == Sends(id, s.issued[id], sent)
  {
    if sent != [] {
      var head, last := sent[..|sent| - 1], sent[|sent| - 1];
      SendsOfDrains(s, id, continuous, head);
      FedAfterDrains(s, id, continuous, head);
      assert Drains(id, continuous, sent)[..|sent| - 1] == Drains(id, continuous, head);
      assert JobsOf(last.entries) == [] <==> last.entries == [];
    }
  }

  class JpFeed {
    const id: Bytes
    const attrs: seq<Bytes>
    const continuous: bool
    ghost const before: Marks
    var plan: Plan
    // jobs stacked for the next batch, in three parallel lists
    var jobs: seq<Bytes>
    var owners: seq<Bytes>
    var jobAttrs: seq<seq<AttrVal>>
    var njobs: nat
    // calls of multi_feed so far, and the fed_jobs table
    var sent: seq<Batch>
    var fed: Marks

    constructor (id: Bytes, attrs: seq<Bytes>, continuous: bool, fed: Marks)
      ensures Valid() && Stack() == [] && sent == [] && this.fed == fed == before
      ensures this.id == id && this.attrs == attrs && this.continuous == continuous
    {
      this.id, this.attrs, this.continuous, before := id, attrs, continuous, fed;
      plan := Plan([], [], 0, [], []);
      jobs, owners, jobAttrs, njobs := [], [], [], 0;
      sent, this.fed := [], fed;
    }

    ghost predicate Valid()
      reads this
    {
      && |jobs| == |owners| == |jobAttrs| == njobs && plan.intOther <= |plan.otherAttr|
      && fed == FedAfter(before, id, continuous, sent)
    }

    function Stack(): seq<Entry>
      requires |jobs| == |owners| == |jobAttrs|
      reads this
    {
      seq(|jobs|, i requires 0 <= i < |jobs| == |owners| == |jobAttrs| reads this =>
        Entry(jobs[i], owners[i], jobAttrs[i]))
    }

    /** drop_jobs */
    method DropJobs()
      modifies `jobs, `owners, `jobAttrs, `njobs
      ensures njobs == 0 && jobs == [] && owners == [] && jobAttrs == []
    {
      jobs, owners, jobAttrs, njobs := [], [], [], 0;
    }

    /** drain_feed: sends the stack, if there is one, marks its jobs as fed when a
        continuous feed succeeds, and empties it in any case. */
    method DrainFeed(done: bool, ok: bool) returns (code: int)
      requires Valid()
      modifies `jobs, `owners, `jobAttrs, `njobs, `sent, `fed
      ensures Valid() && njobs == 0 && Stack() == []
      ensures if old(Stack()) == [] then sent == old(sent) && code == 0
              else sent == old(sent) + [Batch(done, old(Stack()), ok)] && code == (if ok then 0 else EIO)
    {
      code := 0;
      if njobs != 0 {
        var batch := Batch(done, Stack(), ok);
        code := if ok then 0 else EIO;
        if ok && continuous {
          MarkFed();
        }
        assert JobsOf(batch.entries) == jobs;
        assert (sent + [batch])[..|sent|] == sent;
        sent := sent + [batch];
        DropJobs();
      }
    }

    /** set_fed for every job of the stack. */
    method MarkFed()
      requires |jobs| == |owners| == |jobAttrs| == njobs
      modifies `fed
      ensures fed == MarkAll(old(fed), id, jobs)
    {
      for i := 0 to njobs
        invariant fed == MarkAll(old(fed), id, jobs[..i])
      {
        assert jobs[..i + 1][..i] == jobs[..i];
        fed := Mark(fed, id, jobs[i]);
      }
      assert jobs[..njobs] == jobs;
    }

    /** feed_query_callback; the code is 0 or EIO. */
    method Callback(row: JobRow, fetch: Fetch, ok: bool) returns (code: int)
      requires Valid() && RowOk(plan, fetch, row) && njobs < BATCH_FEED_SIZE
      modifies `jobs, `owners, `jobAttrs, `njobs, `sent, `fed
      ensures Valid() && njobs < BATCH_FEED_SIZE
      ensures After(sent, Stack(), code) == TurnOf(Judge(plan, fetch, row), old(sent), old(Stack()), ok)
    {
      var other := fetch(row.job, plan.otherAttr);
      if other.Failed? { return EIO; }
      var pass := Filter(plan.otherQry, other);
      if !pass { return 0; }
      var out := Outgoing(plan, row, other);
      code := 0;
      if out != [] {
        PushJob(row.job, OwnerOf(row.meta), out);
        if njobs >= BATCH_FEED_SIZE {
          code := DrainFeed(false, ok);
        }
      }
    }

    /** A job on top of the stack. */
    method PushJob(job: Bytes, owner: Bytes, out: seq<AttrVal>)
      requires Valid()
      modifies `jobs, `owners, `jobAttrs, `njobs
      ensures Valid() && Stack() == old(Stack()) + [Entry(job, owner, out)]
    {
      jobs, jobAttrs := jobs + [job], jobAttrs + [out];
      owners := owners + [owner];
      njobs := njobs + 1;
    }

    /** The backend query driving the callback; sendOk(n) is the outcome multi_feed
        reports for the n-th batch. */
    method RunQuery(rows: seq<JobRow>, fetch: Fetch, sendOk: nat -> bool) returns (code: int)
      requires Valid() && njobs == 0 && sent == [] && RowsOk(plan, fetch, rows)
      modifies `jobs, `owners, `jobAttrs, `njobs, `sent, `fed
      ensures Valid() && njobs < BATCH_FEED_SIZE
      ensures code == 0 ==> Regular(sent) && Judged(plan, fetch, rows)
      ensures code == 0 ==> SentEntries(sent) + Stack() == Accepted(plan, fetch, rows)
      ensures code != 0 ==> Stopped(sent, Accepted(plan, fetch, rows))
      ensures code != 0 ==> !Judged(plan, fetch, rows) || !AllOk(sent)
      ensures Reported(sent, sendOk)
    {
      assert Stack() == [];
      assert rows[..0] == [];
      for i := 0 to |rows|
        invariant Running(rows, i, fetch, sendOk)
      {
        code := Turn(rows, i, fetch, sendOk);
        if code != 0 {
          return EIO;
        }
      }
      assert rows[..|rows|] == rows;
      code := 0;
    }

    /** The query has taken i rows without a failure: the sent batches and the stack
        together are what was accepted from them. */
    ghost predicate Running(rows: seq<JobRow>, i: nat, fetch: Fetch, sendOk: nat -> bool)
      reads this
    {
      Valid() && Reported(sent, sendOk) && BeforeTurn(plan, fetch, rows, i, sent, Stack())
    }

    /** One turn of the query. */
    method Turn(rows: seq<JobRow>, i: nat, fetch: Fetch, sendOk: nat -> bool) returns (code: int)
      requires i < |rows| && RowsOk(plan, fetch, rows) && Running(rows, i, fetch, sendOk)
      modifies `jobs, `owners, `jobAttrs, `njobs, `sent, `fed
      ensures Valid() && njobs < BATCH_FEED_SIZE && Reported(sent, sendOk)
      ensures code == 0 ==> Running(rows, i + 1, fetch, sendOk)
      ensures code != 0 ==> Stopped(sent, Accepted(plan, fetch, rows))
      ensures code != 0 ==> !Judged(plan, fetch, rows) || !AllOk(sent)
    {
      ghost var sent0, stack0 := sent, Stack();
      RowsSnoc(plan, fetch, rows, i);
      TurnKeeps(plan, fetch, rows, i, sent0, stack0, sendOk);
      TurnReported(Judge(plan, fetch, rows[i]), sent0, stack0, sendOk);
      code := Callback(rows[i], fetch, sendOk(|sent|));
    }

    /** The query and the final batch. */
    method RunPlanned(rows: seq<JobRow>, broken: bool, fetch: Fetch, sendOk: nat -> bool) returns (code: int)
      requires Valid() && njobs == 0 && sent == [] && RowsOk(plan, fetch, rows)
      modifies `jobs, `owners, `jobAttrs, `njobs, `sent, `fed
      ensures Valid() && njobs == 0
      ensures Stopped(sent, Accepted(plan, fetch, rows))
      ensures code == 0 <==> !broken && Judged(plan, fetch, rows) && AllOk(sent)
      ensures code == 0 ==> SentEntries(sent) == Accepted(plan, fetch, rows)
      ensures Reported(sent, sendOk)
    {
      code := RunQuery(rows, fetch, sendOk);
      RegularIsWellBatched(sent);
      if code != 0 || broken {
        DropJobs();
        return EIO;
      }
      ghost var sent0, stack0 := sent, Stack();
      code := DrainFeed(true, sendOk(|sent|));
      LastDrain(sent0, stack0, sendOk, sent, code);
    }

    /** run_feed_deferred, up to the assertion of jpfeed_free that no job is left on
        the stack. */
    method RunFeedDeferred(qry: seq<QueryRec>, stream: Stream, fetch: Fetch, sendOk: nat -> bool)
      returns (code: int)
      requires Valid() && njobs == 0 && sent == []
      requires stream.Rows? ==> RowsOk(PlanOf(attrs, qry), fetch, stream.rows)
      modifies this
      ensures Valid() && plan == PlanOf(attrs, qry) && njobs == 0
      ensures MetaQry(qry) != [] && stream.Rows? ==> Stopped(sent, Accepted(plan, fetch, stream.rows))
      ensures MetaQry(qry) == [] || !stream.Rows? ==> sent == []
      ensures code == 0 <==>
        MetaQry(qry) != [] && stream.Rows? && !stream.broken && Judged(plan, fetch, stream.rows) && AllOk(sent)
      ensures code == 0 ==> SentEntries(sent) == Accepted(plan, fetch, stream.rows)
      ensures Reported(sent, sendOk)
      ensures forall x, u :: (x, u) in fed <==> (x, u) in old(fed) || (x == id && continuous && Delivered(sent, u))
      ensures forall k :: 0 <= k < |sent| ==> FullOrLast(sent, k)
    {
      var metaAttr, otherAttr := SplitAttrs(attrs);
      var metaQry, otherQry := SplitQry(qry);
      var all := ExtendOther(otherAttr, otherQry);
      plan := Plan(metaAttr, all, |otherAttr|, metaQry, otherQry);
      if metaQry == [] {
        NothingSent(fed, id, continuous);
        return EINVAL;
      }
      if stream.Refused? {
        DropJobs();
        NothingSent(fed, id, continuous);
        return EINVAL;
      }
      code := RunPlanned(stream.rows, stream.broken, fetch, sendOk);
      BatchSizes(sent);
      forall x, u ensures (x, u) in fed <==> (x, u) in before || (x == id && continuous && Delivered(sent, u)) {
        FedAfterIff(before, id, continuous, sent, x, u);
      }
    }
  }

  /** A feed whose id was issued for its attributes leaves the marks its batches leave in
      the history, which records them as sends of all these attributes. */
  lemma FeedIsHistory(f: JpFeed, s: State)
    requires f.Valid() && f.id in s.issued && s.issued[f.id] == f.attrs && s.fed == f.before
    ensures RunState(s, Drains(f.id, f.continuous, f.sent)) == s.(fed := f.fed)
    ensures RunLog(s, Drains(f.id, f.continuous, f.sent)) == Sends(f.id, f.attrs, f.sent)
    ensures Covers(BatchNames(f.attrs), f.attrs)
  {
    FedAfterDrains(s, f.id, f.continuous, f.sent);
    SendsOfDrains(s, f.id, f.continuous, f.sent);
    BatchCovers(f.attrs);
  }

  lemma RegularIsWellBatched(sent: seq<Batch>)
    ensures Regular(sent) ==> WellBatched(sent) && AllOk(sent)
  {
  }

  lemma LastBatch(sent: seq<Batch>, b: Batch)
    requires Regular(sent) && (if b.done then 1 <= |b.entries| < BATCH_FEED_SIZE else |b.entries| == BATCH_FEED_SIZE)
    ensures WellBatched(sent + [b]) && (AllOk(sent + [b]) <==> b.ok)
    ensures SentEntries(sent + [b]) == SentEntries(sent) + b.entries
  {
    var all := sent + [b];
    SentSnoc(sent, b);
    assert all[..|all| - 1] == sent;
    assert all[|sent|] == b;
  }

  /** The drain behind the query. */
  lemma LastDrain(sent0: seq<Batch>, stack: seq<Entry>, sendOk: nat -> bool, sent: seq<Batch>, code: int)
    requires Regular(sent0) && Reported(sent0, sendOk) && |stack| < BATCH_FEED_SIZE
    requires if stack == [] then sent == sent0 && code == 0
             else sent == sent0 + [Batch(true, stack, sendOk(|sent0|))] && code == (if sendOk(|sent0|) then 0 else EIO)
    ensures WellBatched(sent) && (AllOk(sent) <==> code == 0) && SentEntries(sent) == SentEntries(sent0) + stack
    ensures Reported(sent, sendOk)
  {
    RegularIsWellBatched(sent0);
    if stack != [] {
      LastBatch(sent0, Batch(true, stack, sendOk(|sent0|)));
    } else {
      assert SentEntries(sent) + stack == SentEntries(sent);
    }
  }

  lemma RowsSnoc(p: Plan, fetch: Fetch, rows: seq<JobRow>, i: nat)
    requires i < |rows| && RowsOk(p, fetch, rows)
    ensures RowsOk(p, fetch, rows[..i]) && RowsOk(p, fetch, rows[..i + 1])
  {
    forall k | 0 <= k < i + 1 ensures RowOk(p, fetch, rows[k]) {}
  }

  lemma {:induction false} AcceptedSnoc(p: Plan, fetch: Fetch, rows: seq<JobRow>, row: JobRow)
    requires RowsOk(p, fetch, rows) && RowsOk(p, fetch, rows + [row]) && RowOk(p, fetch, row) && Judged(p, fetch, rows)
    ensures var v := Judge(p, fetch, row);
      Accepted(p, fetch, rows + [row]) == Accepted(p, fetch, rows) + (if v.Push? then [v.entry] else [])
  {
    if rows == [] {
      assert (rows + [row])[0] == row && (rows + [row])[1..] == [];
    } else {
      assert (rows + [row])[1..] == rows[1..] + [row] && (rows + [row])[0] == rows[0];
      forall k | 0 <= k < |rows[1..]| ensures RowOk(p, fetch, rows[1..][k]) && Judge(p, fetch, rows[1..][k]) != Bad {
        assert rows[1..][k] == rows[k + 1];
      }
      assert RowsOk(p, fetch, rows[1..] + [row]);
      AcceptedSnoc(p, fetch, rows[1..], row);
    }
  }

  lemma {:induction false} AcceptedGrows(p: Plan, fetch: Fetch, rows: seq<JobRow>, k: nat)
    requires RowsOk(p, fetch, rows) && k <= |rows| && RowsOk(p, fetch, rows[..k]) && Judged(p, fetch, rows[..k])
    ensures Accepted(p, fetch, rows[..k]) <= Accepted(p, fetch, rows)
  {
    if k > 0 {
      var tail := rows[1..];
      assert rows[..k][1..] == tail[..k - 1] && rows[..k][0] == rows[0];
      forall i | 0 <= i < |tail| ensures RowOk(p, fetch, tail[i]) { assert tail[i] == rows[i + 1]; }
      var head := tail[..k - 1];
      forall i | 0 <= i < |head| ensures Judge(p, fetch, head[i]) != Bad { assert head[i] == rows[..k][i + 1]; }
      AcceptedGrows(p, fetch, tail, k - 1);
    }
  }

  lemma JudgedSnoc(p: Plan, fetch: Fetch, rows: seq<JobRow>, i: nat)
    requires i < |rows| && RowsOk(p, fetch, rows) && RowsOk(p, fetch, rows[..i]) && RowsOk(p, fetch, rows[..i + 1])
    requires Judged(p, fetch, rows[..i])
    ensures Judged(p, fetch, rows[..i + 1]) <==> Judge(p, fetch, rows[i]) != Bad
    ensures Judged(p, fetch, rows) ==> Judge(p, fetch, rows[i]) != Bad
  {
    assert rows[..i + 1] == rows[..i] + [rows[i]];
    assert rows[..i + 1][i] == rows[i];
  }

  /** Nothing is accepted from a job that cannot be judged on. */
  lemma {:induction false} AcceptedStops(p: Plan, fetch: Fetch, rows: seq<JobRow>, k: nat)
    requires RowsOk(p, fetch, rows) && k < |rows| && RowsOk(p, fetch, rows[..k]) && Judged(p, fetch, rows[..k])
    requires Judge(p, fetch, rows[k]) == Bad
    ensures Accepted(p, fetch, rows) == Accepted(p, fetch, rows[..k])
  {
    if k > 0 {
      var tail := rows[1..];
      assert rows[..k][1..] == tail[..k - 1] && rows[..k][0] == rows[0];
      forall i | 0 <= i < |tail| ensures RowOk(p, fetch, tail[i]) { assert tail[i] == rows[i + 1]; }
      var head := tail[..k - 1];
      forall i | 0 <= i < |head| ensures Judge(p, fetch, head[i]) != Bad { assert head[i] == rows[..k][i + 1]; }
      AcceptedStops(p, fetch, tail, k - 1);
    }
  }

  ghost predicate BeforeTurn(p: Plan, fetch: Fetch, rows: seq<JobRow>, i: nat, sent: seq<Batch>, stack: seq<Entry>)
  {
    && i <= |rows| && RowsOk(p, fetch, rows[..i]) && Judged(p, fetch, rows[..i]) && Regular(sent)
    && |stack| < BATCH_FEED_SIZE && SentEntries(sent) + stack == Accepted(p, fetch, rows[..i])
  }

  /** A job that cannot be judged. */
  lemma TurnFails(p: Plan, fetch: Fetch, rows: seq<JobRow>, i: nat, sent: seq<Batch>, stack: seq<Entry>)
    requires i < |rows| && RowsOk(p, fetch, rows) && BeforeTurn(p, fetch, rows, i, sent, stack)
    requires Judge(p, fetch, rows[i]) == Bad
    ensures Stopped(sent, Accepted(p, fetch, rows)) && !Judged(p, fetch, rows)
  {
    RegularIsWellBatched(sent);
    AcceptedStops(p, fetch, rows, i);
  }

  /** A job that is skipped or stacked. */
  lemma TurnStacks(p: Plan, fetch: Fetch, rows: seq<JobRow>, i: nat, sent: seq<Batch>, stack: seq<Entry>)
    requires i < |rows| && RowsOk(p, fetch, rows) && BeforeTurn(p, fetch, rows, i, sent, stack)
    requires Judge(p, fetch, rows[i]) != Bad
    ensures var v := Judge(p, fetch, rows[i]);
      var all := stack + (if v.Push? then [v.entry] else []);
      && RowsOk(p, fetch, rows[..i + 1]) && Judged(p, fetch, rows[..i + 1])
      && SentEntries(sent) + all == Accepted(p, fetch, rows[..i + 1])
  {
    var v := Judge(p, fetch, rows[i]);
    var more := if v.Push? then [v.entry] else [];
    RowsSnoc(p, fetch, rows, i);
    assert rows[..i + 1] == rows[..i] + [rows[i]];
    AcceptedSnoc(p, fetch, rows[..i], rows[i]);
    assert SentEntries(sent) + (stack + more) == SentEntries(sent) + stack + more;
    JudgedSnoc(p, fetch, rows, i);
  }

  /** A batch that is full. */
  lemma TurnSends(p: Plan, fetch: Fetch, rows: seq<JobRow>, i: nat, sent: seq<Batch>, all: seq<Entry>, ok: bool)
    requires i <= |rows| && RowsOk(p, fetch, rows) && RowsOk(p, fetch, rows[..i]) && Judged(p, fetch, rows[..i])
    requires Regular(sent) && |all| == BATCH_FEED_SIZE && SentEntries(sent) + all == Accepted(p, fetch, rows[..i])
    ensures var more := sent + [Batch(false, all, ok)];
      && (AllOk(more) <==> ok) && (ok ==> BeforeTurn(p, fetch, rows, i, more, []))
      && (!ok ==> Stopped(more, Accepted(p, fetch, rows)))
  {
    assert SentEntries(sent) + all + [] == SentEntries(sent) + all;
    LastBatch(sent, Batch(false, all, ok));
    AcceptedGrows(p, fetch, rows, i);
  }

  lemma TurnReported(v: Verdict, sent: seq<Batch>, stack: seq<Entry>, sendOk: nat -> bool)
    requires Reported(sent, sendOk)
    ensures Reported(TurnOf(v, sent, stack, sendOk(|sent|)).sent, sendOk)
  {
  }

  /** One turn of the query loop: sent batches and stack together stay what was
      accepted, and a failure leaves a well-batched part behind. */
  lemma TurnKeeps(p: Plan, fetch: Fetch, rows: seq<JobRow>, i: nat,
                  sent: seq<Batch>, stack: seq<Entry>, sendOk: nat -> bool)
    requires i < |rows| && RowsOk(p, fetch, rows) && BeforeTurn(p, fetch, rows, i, sent, stack)
    ensures var a := TurnOf(Judge(p, fetch, rows[i]), sent, stack, sendOk(|sent|));
      && (a.code == 0 ==> BeforeTurn(p, fetch, rows, i + 1, a.sent, a.stack))
      && (a.code != 0 ==> Stopped(a.sent, Accepted(p, fetch, rows)))
      && (a.code != 0 ==> !Judged(p, fetch, rows) || !AllOk(a.sent))
  {
    var v := Judge(p, fetch, rows[i]);
    if v.Bad? {
      assert stack + [] == stack;
      TurnFails(p, fetch, rows, i, sent, stack);
    } else {
      var all := stack + (if v.Push? then [v.entry] else []);
      TurnStacks(p, fetch, rows, i, sent, stack);
      if |all| >= BATCH_FEED_SIZE {
        TurnSends(p, fetch, rows, i + 1, sent, all, sendOk(|sent|));
      }
    }
  }

  // ----- what a subscriber receives -------------------------------------------------------------------------

  ghost predicate PushedBy(p: Plan, fetch: Fetch, row: JobRow, e: Entry)
    requires RowOk(p, fetch, row) && p.intOther <= |p.otherAttr|
  {
    Judge(p, fetch, row) == Push(e)
  }

  /** The accepted entries are those of the pushed jobs, no more and no fewer. */
  lemma {:induction false} AcceptedExactly(p: Plan, fetch: Fetch, rows: seq<JobRow>, e: Entry)
    requires RowsOk(p, fetch, rows) && Judged(p, fetch, rows)
    ensures e in Accepted(p, fetch, rows) <==> exists i :: 0 <= i < |rows| && PushedBy(p, fetch, rows[i], e)
  {
    if rows != [] {
      var tail := rows[1..];
      forall i | 0 <= i < |tail|
        ensures tail[i] == rows[i + 1] && RowOk(p, fetch, tail[i]) && Judge(p, fetch, tail[i]) != Bad
      {}
      AcceptedExactly(p, fetch, tail, e);
      if i :| 0 <= i < |tail| && PushedBy(p, fetch, tail[i], e) {
        assert PushedBy(p, fetch, rows[i + 1], e);
      }
    }
  }

  /** Distinct jobs are sent once each. */
  lemma {:induction false} AcceptedOnce(p: Plan, fetch: Fetch, rows: seq<JobRow>)
    requires RowsOk(p, fetch, rows) && Judged(p, fetch, rows)
    requires forall i, j :: 0 <= i < j < |rows| ==> rows[i].job != rows[j].job
    ensures var es := Accepted(p, fetch, rows); forall i, j :: 0 <= i < j < |es| ==> es[i].job != es[j].job
  {
    if rows != [] {
      var tail := rows[1..];
      forall i | 0 <= i < |tail|
        ensures tail[i] == rows[i + 1] && RowOk(p, fetch, tail[i]) && Judge(p, fetch, tail[i]) != Bad
      {}
      AcceptedOnce(p, fetch, tail);
      var es := Accepted(p, fetch, tail);
      forall k | 0 <= k < |es| ensures es[k].job != rows[0].job {
        AcceptedExactly(p, fetch, tail, es[k]);
        var i :| 0 <= i < |tail| && PushedBy(p, fetch, tail[i], es[k]);
        assert tail[i].job == es[k].job;
      }
    }
  }

  /** An entry carries exactly the job's values of requested attributes, and none of
      an attribute that was fetched for a condition only. */
  lemma OnlyRequestedIsSent(attrs: seq<Bytes>, qry: seq<QueryRec>, row: JobRow, other: Fetched, v: AttrVal)
    ensures v in Outgoing(PlanOf(attrs, qry), row, other) <==>
      && v.name in attrs && v.name != ATTR_OWNER && v.name != ATTR_JOBID
      && (if IsMetadata(v.name) then v in row.meta else other.Values? && v in other.vals)
  {
    var p := PlanOf(attrs, qry);
    AttrSplitMembers(attrs);
    ExtractMembers(row.meta, p.metaAttr);
    if other.Values? {
      ExtractMembers(other.vals, p.otherAttr[..p.intOther]);
      assert p.otherAttr[..p.intOther] == OtherAttrs(attrs);
    }
  }

  // ----- from the whole query to what is sent -------------------------------------------------------------

  /** A value the feed asks for, stored with the job. */
  predicate HasToSend(attrs: seq<Bytes>, row: JobRow, store: Bytes -> seq<AttrVal>, v: AttrVal) {
    v.name in attrs && v.name != ATTR_OWNER && v.name != ATTR_JOBID
    && if IsMetadata(v.name) then v in row.meta else v in store(v.name)
  }

  /** The value of the first metadata item named owner. */
  predicate IsOwner(meta: seq<AttrVal>, owner: Bytes) {
    exists i :: 0 <= i < |meta| && meta[i].name == ATTR_OWNER && meta[i].value == owner
                && forall k :: 0 <= k < i ==> meta[k].name != ATTR_OWNER
  }

  lemma {:induction false} OwnerIsFirst(meta: seq<AttrVal>)
    requires exists i :: 0 <= i < |meta| && meta[i].name == ATTR_OWNER
    ensures IsOwner(meta, OwnerOf(meta))
  {
    if meta[0].name != ATTR_OWNER {
      var tail := meta[1..];
      assert forall i :: 0 <= i < |tail| ==> tail[i] == meta[i + 1];
      OwnerIsFirst(tail);
      var i :| 0 <= i < |tail| && tail[i].name == ATTR_OWNER && tail[i].value == OwnerOf(tail)
               && forall k :: 0 <= k < i ==> tail[k].name != ATTR_OWNER;
      assert meta[i + 1].name == ATTR_OWNER;
      assert forall k :: 1 <= k < i + 1 ==> meta[k] == tail[k - 1];
    }
  }

  /** What is fetched of a store is, for a requested name, what is stored. */
  lemma SentFromStore(attrs: seq<Bytes>, qry: seq<QueryRec>, row: JobRow, store: Bytes -> seq<AttrVal>, v: AttrVal)
    requires Filed(store)
    ensures v in Outgoing(PlanOf(attrs, qry), row, FetchFrom(store, PlanOf(attrs, qry).otherAttr)) <==>
      HasToSend(attrs, row, store, v)
  {
    var p := PlanOf(attrs, qry);
    OnlyRequestedIsSent(attrs, qry, row, FetchFrom(store, p.otherAttr), v);
    GatherMembers(store, p.otherAttr);
    AttrSplitMembers(attrs);
  }

  /** What a batch carries of a job is every stored value of the names its history
      records, and no other. */
  lemma BatchCarriesNames(attrs: seq<Bytes>, qry: seq<QueryRec>, row: JobRow, store: Bytes -> seq<AttrVal>, v: AttrVal)
    requires Filed(store)
    ensures v in Outgoing(PlanOf(attrs, qry), row, FetchFrom(store, PlanOf(attrs, qry).otherAttr)) <==>
      v.name in BatchNames(attrs) && if IsMetadata(v.name) then v in row.meta else v in store(v.name)
  {
    SentFromStore(attrs, qry, row, store, v);
    AttrSplitMembers(attrs);
  }

  /** The feed sends a job the backend found if and only if the job satisfies every
      condition of the whole query and has a requested value; and then it sends exactly
      its requested values. */
  lemma SentIffWanted(attrs: seq<Bytes>, qry: seq<QueryRec>, metaSat: QueryRec -> bool,
                      store: Bytes -> seq<AttrVal>, fetch: Fetch, row: JobRow)
    requires Filed(store) && StoreCheckable(qry, store)
    requires fetch(row.job, PlanOf(attrs, qry).otherAttr) == FetchFrom(store, PlanOf(attrs, qry).otherAttr)
    requires RowOk(PlanOf(attrs, qry), fetch, row)
    requires forall q :: q in MetaQry(qry) ==> metaSat(q)
    ensures var verdict := Judge(PlanOf(attrs, qry), fetch, row);
      && (verdict.Push? <==>
          && (forall q :: q in qry ==> Satisfied(q, metaSat, store))
          && exists v :: HasToSend(attrs, row, store, v))
      && (verdict.Push? ==> verdict.entry.job == row.job && IsOwner(row.meta, verdict.entry.owner))
      && (verdict.Push? ==> forall v :: v in verdict.entry.attrs <==> HasToSend(attrs, row, store, v))
  {
    var p := PlanOf(attrs, qry);
    var out := Outgoing(p, row, FetchFrom(store, p.otherAttr));
    OwnerIsFirst(row.meta);
    SplitPreservesMeaning(attrs, qry, metaSat, store);
    forall v ensures v in out <==> HasToSend(attrs, row, store, v) {
      SentFromStore(attrs, qry, row, store, v);
    }
    if out != [] { assert HasToSend(attrs, row, store, out[0]); }
  }
}
