/** Uploading files to the primary storage: a row per file goes from absent to
    uploading to committed, and the transfer service asks that row before it lets
    anyone write. */
module Uploads {
  import opened Text

  /** Paths are built from a prefix; users are known by the digest of their name,
      which is hexadecimal text. */
  datatype Config = Config(internal: Bytes, external: Bytes, digest: Bytes -> Bytes)

  ghost predicate GoodConfig(cfg: Config) {
    forall name :: SLASH !in cfg.digest(name)
  }

  datatype JobInfo = JobInfo(dgJobid: Bytes, owner: Bytes, regTime: int)

  datatype FileState = Uploading(deadline: int) | Committed

  datatype FileRow = FileRow(intPath: Bytes, extUrl: Bytes, state: FileState, user: Bytes)

  /** The key (jobid, filename) of the files table. */
  type Key = (Bytes, Bytes)

  datatype Store = Store(jobs: map<Bytes, JobInfo>, users: map<Bytes, Bytes>,
                         files: map<Key, FileRow>, disk: map<Bytes, Bytes>)

  datatype Code = OK | Fails(errno: int) | Denied

  const UPLOAD_TIME := 300

  // ----- names and paths --------------------------------------------------------------------------

  /** C division of a time by a week. */
  function Week(t: int): int {
    if t >= 0 then t / 604800 else -((-t) / 604800)
  }

  function BaseName(class_: Bytes, name: Option<Bytes>): Bytes {
    if name.Some? then class_ + [DOT] + name.value else class_
  }

  function PathTail(job: JobInfo, k: Key): Bytes {
    job.owner + [SLASH] + (Decimal(Week(job.regTime)) + [SLASH] + (k.0 + [SLASH] + k.1))
  }

  function PathOf(prefix: Bytes, job: JobInfo, k: Key): Bytes {
    prefix + Ascii("/data/") + PathTail(job, k)
  }

  /** strchr at the first dot: the class and, behind it, the name. */
  function SplitName(base: Bytes): (Bytes, Option<Bytes>) {
    var n := IndexOf(base, DOT);
    if n == |base| then (base, None) else (base[..n], Some(base[n + 1..]))
  }

  /** Splitting a base name recovers class and name exactly for dot-free classes. */
  lemma SplitBaseNameIff(class_: Bytes, name: Option<Bytes>)
    ensures SplitName(BaseName(class_, name)) == (class_, name) <==> DOT !in class_
  {
    var base := BaseName(class_, name);
    assert base[..|class_|] == class_;
    IndexOfWithin(base, DOT, |class_|);
    if DOT !in class_ && name.Some? {
      IndexOfFirst(class_, DOT, name.value);
      assert base[|class_| + 1..] == name.value;
    }
  }

  /** The class a.b comes back as the class a and the name b. */
  lemma DottedClassIsSplit()
    ensures SplitName(BaseName(Ascii("a.b"), None)) == (Ascii("a"), Some(Ascii("b")))
    ensures SplitName(BaseName(Ascii("a.b"), None)) != (Ascii("a.b"), None)
  {
    var base := Ascii("a.b");
    assert base == Ascii("a") + [DOT] + Ascii("b");
    IndexOfFirst(Ascii("a"), DOT, Ascii("b"));
    assert base[..1] == Ascii("a") && base[2..] == Ascii("b");
    assert |Ascii("a")| == 1;
  }

  lemma SplitAtSlash(a: Bytes, r: Bytes, b: Bytes, t: Bytes)
    requires SLASH !in a && SLASH !in b && a + [SLASH] + r == b + [SLASH] + t
    ensures a == b && r == t
  {
    IndexOfFirst(a, SLASH, r);
    IndexOfFirst(b, SLASH, t);
    var s := a + [SLASH] + r;
    assert s[..|a|] == a && s[|a| + 1..] == r;
    assert s[..|b|] == b && s[|b| + 1..] == t;
  }

  /** Different files have different paths. */
  lemma PathsDiffer(prefix: Bytes, j1: JobInfo, k1: Key, j2: JobInfo, k2: Key)
    requires SLASH !in j1.owner && SLASH !in j2.owner && SLASH !in k1.0 && SLASH !in k2.0
    requires PathOf(prefix, j1, k1) == PathOf(prefix, j2, k2)
    ensures k1 == k2
  {
    var head := prefix + Ascii("/data/");
    assert (head + PathTail(j1, k1))[|head|..] == PathTail(j1, k1);
    assert (head + PathTail(j2, k2))[|head|..] == PathTail(j2, k2);
    var w1, w2 := Decimal(Week(j1.regTime)), Decimal(Week(j2.regTime));
    var u1, u2 := k1.0 + [SLASH] + k1.1, k2.0 + [SLASH] + k2.1;
    DecimalHasNo(Week(j1.regTime), SLASH);
    DecimalHasNo(Week(j2.regTime), SLASH);
    SplitAtSlash(j1.owner, w1 + [SLASH] + u1, j2.owner, w2 + [SLASH] + u2);
    SplitAtSlash(w1, u1, w2, u2);
    SplitAtSlash(k1.0, k1.1, k2.0, k2.1);
  }

  // ----- steps ----------------------------------------------------------------------------------------

  datatype Step =
    | Register(job: Bytes, owner: Bytes, time: int)
    | Start(peer: Bytes, job: Bytes, class_: Bytes, name: Option<Bytes>, time: int)
    | Transfer(client: Bytes, action: Bytes, url: Bytes, bytes: Bytes)
    | Commit(peer: Bytes, destination: Bytes)

  /** store_user: the first name stored under a digest stays. */
  function StoreUser(users: map<Bytes, Bytes>, id: Bytes, subject: Bytes): map<Bytes, Bytes> {
    if id in users then users else users[id := subject]
  }

  /** "delete from files where ... state = 'uploading' and deadline < now", for one job. */
  function PurgeExpired(files: map<Key, FileRow>, ju: Bytes, now: int): map<Key, FileRow> {
    map k | k in files && !(k.0 == ju && IsExpired(files[k], now)) :: files[k]
  }

  predicate IsExpired(r: FileRow, now: int) {
    r.state.Uploading? && r.state.deadline < now
  }

  function NewRow(cfg: Config, job: JobInfo, k: Key, peer: Bytes, now: int): FileRow {
    FileRow(PathOf(cfg.internal, job, k), PathOf(cfg.external, job, k), Uploading(now + UPLOAD_TIME), cfg.digest(peer))
  }

  function StartUpload(cfg: Config, s: Store, peer: Bytes, job: Bytes, base: Bytes, now: int): (Store, Code) {
    var u := Unique(job);
    if u.None? then (s, Fails(EINVAL))
    else if u.value !in s.jobs then (s, Fails(ENOENT))
    else
      var k := (u.value, base);
      var files := PurgeExpired(s.files, u.value, now);
      var t := s.(users := StoreUser(s.users, cfg.digest(peer), peer), files := files);
      if k in files then (t, Fails(EEXIST))
      else (t.(files := files[k := NewRow(cfg, s.jobs[u.value], k, peer, now)]), OK)
  }

  predicate IsUploadTo(s: Store, k: Key, destination: Bytes) {
    k in s.files && s.files[k].extUrl == destination && s.files[k].state.Uploading?
  }

  /** The upload in progress to a destination, if any. */
  ghost function FindUpload(s: Store, destination: Bytes): (r: Option<Key>)
    ensures r.Some? ==> IsUploadTo(s, r.value, destination)
    ensures r.None? ==> forall k :: !IsUploadTo(s, k, destination)
  {
    if exists k :: IsUploadTo(s, k, destination) then
      var k :| IsUploadTo(s, k, destination); Some(k)
    else None
  }

  ghost function CommitUpload(cfg: Config, s: Store, peer: Bytes, destination: Bytes): (Store, Code) {
    match FindUpload(s, destination)
    case None => (s, Fails(ENOENT))
    case Some(k) =>
      if s.files[k].user != cfg.digest(peer) then (s, Fails(EPERM))
      else (s.(files := s.files[k := s.files[k].(state := Committed)]), OK)
  }

  /** The position behind the first "ftp://", or None. */
  function BehindScheme(url: Bytes): Option<Bytes> {
    if |url| < 6 then None
    else if url[..6] == Ascii("ftp://") then Some(url[6..])
    else BehindScheme(url[1..])
  }

  /** The file path inside a transfer URL. */
  function ObjectPath(url: Bytes): Option<Bytes> {
    match BehindScheme(url)
    case None => None
    case Some(s) => if IndexOf(s, SLASH) == |s| then None else Some(s[IndexOf(s, SLASH)..])
  }

  predicate SchemeAt(url: Bytes, i: nat) {
    i + 6 <= |url| && url[i..i + 6] == Ascii("ftp://")
  }

  lemma {:induction false} BehindFirstScheme(url: Bytes, n: nat)
    requires SchemeAt(url, n) && forall i :: 0 <= i < n ==> !SchemeAt(url, i)
    ensures BehindScheme(url) == Some(url[n + 6..])
    decreases n
  {
    if n > 0 {
      var tail := url[1..];
      assert tail[n - 1..n + 5] == url[n..n + 6];
      forall i | 0 <= i < n - 1 ensures !SchemeAt(tail, i) {
        assert !SchemeAt(url, i + 1);
        assert i + 7 <= |url| ==> tail[i..i + 6] == url[i + 1..i + 7];
      }
      BehindFirstScheme(tail, n - 1);
      assert tail[n + 5..] == url[n + 6..];
      assert !SchemeAt(url, 0);
    }
  }

  /** A transfer URL names the path from the first slash behind its host on. */
  lemma PathInUrl(url: Bytes, n: nat, host: Bytes, path: Bytes)
    requires SchemeAt(url, n) && (forall i :: 0 <= i < n ==> !SchemeAt(url, i))
    requires url[n + 6..] == host + [SLASH] + path && SLASH !in host
    ensures ObjectPath(url) == Some([SLASH] + path)
  {
    BehindFirstScheme(url, n);
    IndexOfFirst(host, SLASH, path);
    assert (host + [SLASH] + path)[|host|..] == [SLASH] + path;
  }

  /** authz_write: a row with that path, started by that client, still uploading. */
  predicate MayWriteRow(s: Store, k: Key, path: Bytes, client: Bytes) {
    && k in s.files && s.files[k].intPath == path && s.files[k].state.Uploading?
    && s.files[k].user in s.users && s.users[s.files[k].user] == client
  }

  predicate IsWriting(action: Bytes) {
    action == Ascii("create") || action == Ascii("write")
  }

  /** The dispatch: create and write ask authz_write, delete and unknown actions
      are refused, reading changes nothing. */
  ghost predicate MayChange(s: Store, client: Bytes, action: Bytes, path: Bytes) {
    IsWriting(action) && exists k :: MayWriteRow(s, k, path, client)
  }

  ghost function TransferFile(s: Store, client: Bytes, action: Bytes, url: Bytes, bytes: Bytes): (Store, Code) {
    match ObjectPath(url)
    case None => (s, Denied)
    case Some(p) => if MayChange(s, client, action, p) then (s.(disk := s.disk[p := bytes]), OK) else (s, Denied)
  }

  function RegisterJob(cfg: Config, s: Store, job: Bytes, owner: Bytes, now: int): (Store, Code) {
    var u := Unique(job);
    if u.None? then (s, Fails(EINVAL))
    else
      var t := s.(users := StoreUser(s.users, cfg.digest(owner), owner));
      if u.value in s.jobs then (t, Fails(EEXIST))
      else (t.(jobs := s.jobs[u.value := JobInfo(job, cfg.digest(owner), now)]), OK)
  }

  ghost function Next(cfg: Config, s: Store, step: Step): (Store, Code) {
    match step
    case Register(job, owner, time) => RegisterJob(cfg, s, job, owner, time)
    case Start(peer, job, class_, name, time) => StartUpload(cfg, s, peer, job, BaseName(class_, name), time)
    case Transfer(client, action, url, bytes) => TransferFile(s, client, action, url, bytes)
    case Commit(peer, destination) => CommitUpload(cfg, s, peer, destination)
  }

  // ----- invariant ----------------------------------------------------------------------------------------

  predicate JobOk(ju: Bytes, j: JobInfo) {
    SLASH !in ju && SLASH !in j.owner && Unique(j.dgJobid) == Some(ju)
  }

  predicate RowOk(cfg: Config, s: Store, k: Key)
    requires k in s.files
  {
    && k.0 in s.jobs
    && s.files[k].intPath == PathOf(cfg.internal, s.jobs[k.0], k)
    && s.files[k].extUrl == PathOf(cfg.external, s.jobs[k.0], k)
  }

  /** Every row lives at the paths of its own job and name. */
  ghost predicate Inv(cfg: Config, s: Store) {
    && (forall ju :: ju in s.jobs ==> JobOk(ju, s.jobs[ju]))
    && (forall k :: k in s.files ==> RowOk(cfg, s, k))
  }

  lemma RowsHaveOwnPaths(cfg: Config, s: Store, k1: Key, k2: Key)
    requires Inv(cfg, s) && k1 in s.files && k2 in s.files
    ensures s.files[k1].intPath == s.files[k2].intPath ==> k1 == k2
    ensures s.files[k1].extUrl == s.files[k2].extUrl ==> k1 == k2
  {
    assert RowOk(cfg, s, k1) && RowOk(cfg, s, k2) && JobOk(k1.0, s.jobs[k1.0]) && JobOk(k2.0, s.jobs[k2.0]);
    if s.files[k1].intPath == s.files[k2].intPath {
      PathsDiffer(cfg.internal, s.jobs[k1.0], k1, s.jobs[k2.0], k2);
    }
    if s.files[k1].extUrl == s.files[k2].extUrl {
      PathsDiffer(cfg.external, s.jobs[k1.0], k1, s.jobs[k2.0], k2);
    }
  }

  lemma RegisterKeepsInv(cfg: Config, s: Store, job: Bytes, owner: Bytes, now: int)
    requires GoodConfig(cfg) && Inv(cfg, s)
    ensures Inv(cfg, RegisterJob(cfg, s, job, owner, now).0)
  {
    var t := RegisterJob(cfg, s, job, owner, now).0;
    if Unique(job).Some? {
      UniqueHasNoSlash(job);
    }
    forall k | k in t.files ensures RowOk(cfg, t, k) {
      assert RowOk(cfg, s, k);
    }
  }

  /** The files table may lose rows and gain one at its own paths. */
  lemma FilesKeepInv(cfg: Config, s: Store, t: Store)
    requires Inv(cfg, s) && t.jobs == s.jobs
    requires forall k :: k in t.files ==>
      if k in s.files && SamePaths(s.files[k], t.files[k]) then true else RowOk(cfg, t, k)
    ensures Inv(cfg, t)
  {
    forall k | k in t.files ensures RowOk(cfg, t, k) {
      if k in s.files { assert RowOk(cfg, s, k); }
    }
  }

  predicate SamePaths(a: FileRow, b: FileRow) {
    a.intPath == b.intPath && a.extUrl == b.extUrl
  }

  lemma StartKeepsInv(cfg: Config, s: Store, peer: Bytes, job: Bytes, base: Bytes, now: int)
    requires Inv(cfg, s)
    ensures Inv(cfg, StartUpload(cfg, s, peer, job, base, now).0)
  {
    FilesKeepInv(cfg, s, StartUpload(cfg, s, peer, job, base, now).0);
  }

  lemma CommitKeepsInv(cfg: Config, s: Store, peer: Bytes, destination: Bytes)
    requires Inv(cfg, s)
    ensures Inv(cfg, CommitUpload(cfg, s, peer, destination).0)
  {
    FilesKeepInv(cfg, s, CommitUpload(cfg, s, peer, destination).0);
  }

  lemma TransferKeepsInv(cfg: Config, s: Store, client: Bytes, action: Bytes, url: Bytes, bytes: Bytes)
    requires Inv(cfg, s)
    ensures Inv(cfg, TransferFile(s, client, action, url, bytes).0)
  {
    FilesKeepInv(cfg, s, TransferFile(s, client, action, url, bytes).0);
  }

  lemma StepKeepsInv(cfg: Config, s: Store, step: Step)
    requires GoodConfig(cfg) && Inv(cfg, s)
    ensures Inv(cfg, Next(cfg, s, step).0)
  {
    match step
    case Register(job, owner, time) => RegisterKeepsInv(cfg, s, job, owner, time);
    case Start(peer, job, class_, name, time) => StartKeepsInv(cfg, s, peer, job, BaseName(class_, name), time);
    case Transfer(client, action, url, bytes) => TransferKeepsInv(cfg, s, client, action, url, bytes);
    case Commit(peer, destination) => CommitKeepsInv(cfg, s, peer, destination);
  }

  // ----- what may happen to a row ----------------------------------------------------------------------------

  function RowAt(s: Store, k: Key): Option<FileRow> {
    if k in s.files then Some(s.files[k]) else None
  }

  /** The moves of the protocol: absent to uploading to committed; an expired upload
      may vanish, or vanish and be started anew by one call. */
  predicate Moves(before: Option<FileRow>, after: Option<FileRow>) {
    || after == before
    || (before.None? && after.Some? && after.value.state.Uploading?)
    || (before.Some? && before.value.state.Uploading? && after.None?)
    || (before.Some? && before.value.state.Uploading? && after == Some(before.value.(state := Committed)))
    || (before.Some? && before.value.state.Uploading? && after.Some? && after.value.state.Uploading?)
  }

  /** A row is replaced or dropped only by a start call for its own job after its
      deadline, and committed only by the client that started it. */
  predicate MoveCause(cfg: Config, step: Step, k: Key, before: Option<FileRow>, after: Option<FileRow>) {
    if after == before then true
    else if before.Some? && after == Some(before.value.(state := Committed)) then
      step.Commit? && step.destination == before.value.extUrl && cfg.digest(step.peer) == before.value.user
    else
      && step.Start? && Unique(step.job) == Some(k.0)
      && (before.Some? ==> IsExpired(before.value, step.time))
      && (after.Some? ==> BaseName(step.class_, step.name) == k.1 && after.value.user == cfg.digest(step.peer)
                          && after.value.state == Uploading(step.time + UPLOAD_TIME))
  }

  /** The row is an upload whose deadline has passed. */
  predicate Overdue(files: map<Key, FileRow>, k: Key, now: int) {
    k in files && files[k].state.Uploading? && files[k].state.deadline < now
  }

  /** A start call succeeds if and only if the job id has a unique part, that job is
      registered, and the file has no row or an overdue one; its row is then a new upload
      by that peer, for 300 seconds. */
  lemma StartSucceedsIff(cfg: Config, s: Store, peer: Bytes, job: Bytes, class_: Bytes, name: Option<Bytes>, now: int)
    ensures var (t, code) := Next(cfg, s, Start(peer, job, class_, name, now));
      && (code == OK <==>
          && SLASH in job && Unique(job).value in s.jobs
          && var k := (Unique(job).value, BaseName(class_, name)); k !in s.files || Overdue(s.files, k, now))
      && (code == OK ==>
            var k := (Unique(job).value, BaseName(class_, name));
            && k in t.files && t.files[k].state == Uploading(now + 300) && t.files[k].user == cfg.digest(peer)
            && t.files[k].extUrl == PathOf(cfg.external, s.jobs[k.0], k)
            && t.files[k].intPath == PathOf(cfg.internal, s.jobs[k.0], k))
  {
  }

  /** A start call on a registered job leaves no overdue upload of that job; but for these
      and the file it starts, every row stays, and none is added. It knows the peer by the
      digest of its name from then on. */
  lemma StartClears(cfg: Config, s: Store, peer: Bytes, job: Bytes, class_: Bytes, name: Option<Bytes>, now: int,
                    k: Key)
    requires SLASH in job && Unique(job).value in s.jobs
    ensures var (t, code) := Next(cfg, s, Start(peer, job, class_, name, now));
      && (k.0 == Unique(job).value ==> !Overdue(t.files, k, now))
      && (code != OK || k != (Unique(job).value, BaseName(class_, name)) ==>
            RowAt(t, k) == if k.0 == Unique(job).value && Overdue(s.files, k, now) then None else RowAt(s, k))
      && t.jobs == s.jobs && t.disk == s.disk && cfg.digest(peer) in t.users
      && (forall id :: id in s.users ==> id in t.users && t.users[id] == s.users[id])
      && (cfg.digest(peer) !in s.users ==> t.users[cfg.digest(peer)] == peer)
  {
  }

  /** A registration succeeds if and only if the id has a unique part no job has yet, and
      then stores the job under it, with its owner's digest and the time; otherwise no job
      changes. The owner is known by that digest from then on. */
  lemma RegisterStores(cfg: Config, s: Store, job: Bytes, owner: Bytes, now: int)
    ensures var (t, code) := Next(cfg, s, Register(job, owner, now));
      && (code == OK <==> SLASH in job && Unique(job).value !in s.jobs)
      && t.files == s.files && t.disk == s.disk
      && (code == OK ==> t.jobs == s.jobs[Unique(job).value := JobInfo(job, cfg.digest(owner), now)])
      && (code != OK ==> t.jobs == s.jobs)
      && (SLASH in job ==> cfg.digest(owner) in t.users)
      && (forall id :: id in s.users ==> id in t.users && t.users[id] == s.users[id])
      && (SLASH in job && cfg.digest(owner) !in s.users ==> t.users[cfg.digest(owner)] == owner)
  {
  }

  lemma StepMoves(cfg: Config, s: Store, step: Step, k: Key)
    requires Inv(cfg, s)
    ensures var before, after := RowAt(s, k), RowAt(Next(cfg, s, step).0, k);
      Moves(before, after) && MoveCause(cfg, step, k, before, after)
  {
    match step
    case Start(peer, job, class_, name, time) => StartMoves(cfg, s, step, k);
    case Commit(peer, destination) => CommitMoves(cfg, s, peer, destination, k);
    case Register(job, owner, time) =>
    case Transfer(client, action, url, bytes) => TransferKeepsRows(s, client, action, url, bytes);
  }

  lemma TransferKeepsRows(s: Store, client: Bytes, action: Bytes, url: Bytes, bytes: Bytes)
    ensures TransferFile(s, client, action, url, bytes).0.files == s.files
  {
  }

  lemma StartMoves(cfg: Config, s: Store, step: Step, k: Key)
    requires step.Start?
    ensures var base := BaseName(step.class_, step.name);
      var before, after := RowAt(s, k), RowAt(StartUpload(cfg, s, step.peer, step.job, base, step.time).0, k);
      Moves(before, after) && MoveCause(cfg, step, k, before, after)
  {
  }

  lemma CommitMoves(cfg: Config, s: Store, peer: Bytes, destination: Bytes, k: Key)
    ensures var before, after := RowAt(s, k), RowAt(CommitUpload(cfg, s, peer, destination).0, k);
      Moves(before, after) && MoveCause(cfg, Commit(peer, destination), k, before, after)
  {
  }

  lemma NobodyMayWriteCommitted(cfg: Config, s: Store, k: Key, client: Bytes, action: Bytes)
    requires Inv(cfg, s) && k in s.files && s.files[k].state == Committed
    ensures !MayChange(s, client, action, s.files[k].intPath)
  {
    forall j | j in s.files && s.files[j].intPath == s.files[k].intPath ensures j == k {
      RowsHaveOwnPaths(cfg, s, j, k);
    }
  }

  predicate SameBytes(d: map<Bytes, Bytes>, e: map<Bytes, Bytes>, p: Bytes) {
    (p in d <==> p in e) && (p in d ==> d[p] == e[p])
  }

  lemma OnlyTransfersWrite(cfg: Config, s: Store, step: Step)
    requires !step.Transfer?
    ensures Next(cfg, s, step).0.disk == s.disk
  {
  }

  lemma TransferSparesCommitted(cfg: Config, s: Store, k: Key, client: Bytes, action: Bytes, url: Bytes, bytes: Bytes)
    requires Inv(cfg, s) && k in s.files && s.files[k].state == Committed
    ensures SameBytes(s.disk, TransferFile(s, client, action, url, bytes).0.disk, s.files[k].intPath)
  {
    NobodyMayWriteCommitted(cfg, s, k, client, action);
  }

  lemma CommittedRowStays(cfg: Config, s: Store, step: Step, k: Key)
    requires Inv(cfg, s) && k in s.files && s.files[k].state == Committed
    ensures RowAt(Next(cfg, s, step).0, k) == RowAt(s, k)
  {
    StepMoves(cfg, s, step, k);
  }

  /** No step changes a committed row or the bytes of its file. */
  lemma CommittedIsFinal(cfg: Config, s: Store, step: Step, k: Key)
    requires Inv(cfg, s) && k in s.files && s.files[k].state == Committed
    ensures RowAt(Next(cfg, s, step).0, k) == RowAt(s, k)
    ensures SameBytes(s.disk, Next(cfg, s, step).0.disk, s.files[k].intPath)
  {
    CommittedRowStays(cfg, s, step, k);
    if step.Transfer? {
      TransferSparesCommitted(cfg, s, k, step.client, step.action, step.url, step.bytes);
    } else {
      OnlyTransfersWrite(cfg, s, step);
    }
  }

  // ----- whole runs --------------------------------------------------------------------------------------------

  ghost function Run(cfg: Config, s: Store, steps: seq<Step>): Store
    decreases |steps|
  {
    if steps == [] then s else Next(cfg, Run(cfg, s, steps[..|steps| - 1]), steps[|steps| - 1]).0
  }

  const EMPTY: Store := Store(map[], map[], map[], map[])

  lemma {:induction false} RunKeepsInv(cfg: Config, s: Store, steps: seq<Step>)
    requires GoodConfig(cfg) && Inv(cfg, s)
    ensures Inv(cfg, Run(cfg, s, steps))
    decreases |steps|
  {
    if steps != [] {
      RunKeepsInv(cfg, s, steps[..|steps| - 1]);
      StepKeepsInv(cfg, Run(cfg, s, steps[..|steps| - 1]), steps[|steps| - 1]);
    }
  }

  /** Upload safety over every run: from any state that satisfies the invariant, as
      every reachable one does, a committed row and the bytes of its file come out of
      all further steps unchanged. */
  lemma {:induction false} CommittedForever(cfg: Config, s: Store, more: seq<Step>, k: Key)
    requires GoodConfig(cfg) && Inv(cfg, s) && k in s.files && s.files[k].state == Committed
    ensures RowAt(Run(cfg, s, more), k) == RowAt(s, k)
    ensures SameBytes(s.disk, Run(cfg, s, more).disk, s.files[k].intPath)
    decreases |more|
  {
    if more != [] {
      var head := more[..|more| - 1];
      CommittedForever(cfg, s, head, k);
      RunKeepsInv(cfg, s, head);
      CommittedIsFinal(cfg, Run(cfg, s, head), more[|more| - 1], k);
    }
  }

  predicate NoStartAfter(steps: seq<Step>, time: int) {
    forall i :: 0 <= i < |steps| && steps[i].Start? ==> steps[i].time <= time
  }

  /** Until its deadline an upload is nobody else's: whatever is called up to then, the
      row stays as it was started, or was committed. */
  lemma {:induction false} OpenUntilDeadline(cfg: Config, s: Store, more: seq<Step>, k: Key)
    requires GoodConfig(cfg) && Inv(cfg, s) && k in s.files && s.files[k].state.Uploading?
    requires NoStartAfter(more, s.files[k].state.deadline)
    ensures var after := RowAt(Run(cfg, s, more), k);
      after == RowAt(s, k) || after == Some(s.files[k].(state := Committed))
    decreases |more|
  {
    if more != [] {
      var head, last := more[..|more| - 1], more[|more| - 1];
      assert NoStartAfter(head, s.files[k].state.deadline) by {
        assert forall i :: 0 <= i < |head| ==> head[i] == more[i];
      }
      OpenUntilDeadline(cfg, s, head, k);
      RunKeepsInv(cfg, s, head);
      StepMoves(cfg, Run(cfg, s, head), last, k);
    }
  }

  // ----- who started an upload -----------------------------------------------------------------------------------

  /** Is the step a successful start call for a file? */
  ghost predicate Starts(cfg: Config, s: Store, step: Step, k: Key) {
    && step.Start? && Unique(step.job) == Some(k.0) && BaseName(step.class_, step.name) == k.1
    && Next(cfg, s, step).1 == OK
  }

  /** The identity behind the last successful start call for a file. */
  ghost function Starter(cfg: Config, steps: seq<Step>, k: Key): Option<Bytes>
    decreases |steps|
  {
    if steps == [] then None
    else
      var head, last := steps[..|steps| - 1], steps[|steps| - 1];
      if Starts(cfg, Run(cfg, EMPTY, head), last, k) then Some(cfg.digest(last.peer)) else Starter(cfg, head, k)
  }

  /** A row's user comes with a successful start and stays otherwise. */
  lemma UserAfterStep(cfg: Config, s: Store, step: Step, k: Key)
    requires k in Next(cfg, s, step).0.files
    ensures var user := Next(cfg, s, step).0.files[k].user;
      if Starts(cfg, s, step, k) then user == cfg.digest(step.peer) else k in s.files && user == s.files[k].user
  {
  }

  lemma {:induction false} RowsBelongToStarter(cfg: Config, steps: seq<Step>, k: Key)
    requires k in Run(cfg, EMPTY, steps).files
    ensures Starter(cfg, steps, k) == Some(Run(cfg, EMPTY, steps).files[k].user)
    decreases |steps|
  {
    var head, last := steps[..|steps| - 1], steps[|steps| - 1];
    UserAfterStep(cfg, Run(cfg, EMPTY, head), last, k);
    if !Starts(cfg, Run(cfg, EMPTY, head), last, k) {
      RowsBelongToStarter(cfg, head, k);
    }
  }

  ghost predicate CommitsUpload(cfg: Config, steps: seq<Step>, s: Store, k: Key, peer: Bytes, destination: Bytes) {
    IsUploadTo(s, k, destination) && Starter(cfg, steps, k) == Some(cfg.digest(peer))
  }

  /** A commit succeeds if and only if there is an open upload to that destination
      started by that identity, and then commits exactly that row; otherwise nothing
      changes. */
  lemma CommitIsByStarter(cfg: Config, steps: seq<Step>, peer: Bytes, destination: Bytes)
    requires GoodConfig(cfg)
    ensures var s := Run(cfg, EMPTY, steps);
      var (t, code) := Next(cfg, s, Commit(peer, destination));
      && (code == OK <==> exists k :: CommitsUpload(cfg, steps, s, k, peer, destination))
      && (forall k :: CommitsUpload(cfg, steps, s, k, peer, destination) ==>
            t == s.(files := s.files[k := s.files[k].(state := Committed)]))
      && (code != OK ==> t == s)
  {
    var s := Run(cfg, EMPTY, steps);
    RunKeepsInv(cfg, EMPTY, steps);
    var r := FindUpload(s, destination);
    if r.Some? {
      RowsBelongToStarter(cfg, steps, r.value);
      forall k | IsUploadTo(s, k, destination) ensures k == r.value {
        UploadIsUnique(cfg, s, k, r.value, destination);
      }
      assert CommitsUpload(cfg, steps, s, r.value, peer, destination) <==> s.files[r.value].user == cfg.digest(peer);
    }
  }

  /** Users are stored under the digest of their name. */
  ghost predicate UsersOk(cfg: Config, s: Store) {
    forall id :: id in s.users ==> cfg.digest(s.users[id]) == id
  }

  lemma StepKeepsUsers(cfg: Config, s: Store, step: Step)
    requires UsersOk(cfg, s)
    ensures UsersOk(cfg, Next(cfg, s, step).0)
  {
  }

  lemma {:induction false} RunKeepsUsers(cfg: Config, steps: seq<Step>)
    ensures UsersOk(cfg, Run(cfg, EMPTY, steps))
    decreases |steps|
  {
    if steps != [] {
      RunKeepsUsers(cfg, steps[..|steps| - 1]);
      StepKeepsUsers(cfg, Run(cfg, EMPTY, steps[..|steps| - 1]), steps[|steps| - 1]);
    }
  }

  /** The file of an open upload, started under the client's digest, which was first
      stored for the client itself. */
  ghost predicate WritesUpload(cfg: Config, steps: seq<Step>, s: Store, k: Key, client: Bytes, url: Bytes) {
    && k in s.files && s.files[k].state.Uploading? && ObjectPath(url) == Some(s.files[k].intPath)
    && Starter(cfg, steps, k) == Some(cfg.digest(client))
    && cfg.digest(client) in s.users && s.users[cfg.digest(client)] == client
  }

  lemma WriterIsStarter(cfg: Config, steps: seq<Step>, k: Key, client: Bytes, url: Bytes)
    ensures var s := Run(cfg, EMPTY, steps);
      WritesUpload(cfg, steps, s, k, client, url) <==>
      ObjectPath(url).Some? && MayWriteRow(s, k, ObjectPath(url).value, client)
  {
    var s := Run(cfg, EMPTY, steps);
    if k in s.files {
      RunKeepsUsers(cfg, steps);
      RowsBelongToStarter(cfg, steps, k);
    }
  }

  /** Over every run, a transfer goes through if and only if it writes the file of an
      open upload for the identity that started it; it then sets exactly that file's
      bytes, and otherwise nothing changes. */
  lemma TransferIsByStarter(cfg: Config, steps: seq<Step>, client: Bytes, action: Bytes, url: Bytes, bytes: Bytes)
    ensures var s := Run(cfg, EMPTY, steps);
      var (t, code) := Next(cfg, s, Transfer(client, action, url, bytes));
      && (code == OK <==> IsWriting(action) && exists k :: WritesUpload(cfg, steps, s, k, client, url))
      && (code == OK ==> t == s.(disk := s.disk[ObjectPath(url).value := bytes]))
      && (code != OK ==> t == s)
  {
    var s := Run(cfg, EMPTY, steps);
    forall k
      ensures WritesUpload(cfg, steps, s, k, client, url) <==>
        ObjectPath(url).Some? && MayWriteRow(s, k, ObjectPath(url).value, client)
    {
      WriterIsStarter(cfg, steps, k, client, url);
    }
    if ObjectPath(url).Some? {
      var p := ObjectPath(url).value;
      assert (exists k :: WritesUpload(cfg, steps, s, k, client, url)) <==> (exists k :: MayWriteRow(s, k, p, client));
    }
  }

  /** There is at most one upload to a destination, so the commit has no choice. */
  lemma UploadIsUnique(cfg: Config, s: Store, k1: Key, k2: Key, destination: Bytes)
    requires Inv(cfg, s) && IsUploadTo(s, k1, destination) && IsUploadTo(s, k2, destination)
    ensures k1 == k2
  {
    RowsHaveOwnPaths(cfg, s, k1, k2);
  }

  // ----- destinations -----------------------------------------------------------------------------------------------

  /** glite_jppsbe_destination_info: some row with that URL and its job. */
  ghost predicate InfoOf(s: Store, destination: Bytes, job: Bytes, class_: Bytes, name: Option<Bytes>) {
    exists k :: k in s.files && s.files[k].extUrl == destination && k.0 in s.jobs
                && s.jobs[k.0].dgJobid == job && SplitName(k.1) == (class_, name)
  }

  function Destination(cfg: Config, s: Store, job: Bytes, class_: Bytes, name: Option<Bytes>): Bytes
    requires Unique(job).Some? && Unique(job).value in s.jobs
  {
    var ju := Unique(job).value;
    PathOf(cfg.external, s.jobs[ju], (ju, BaseName(class_, name)))
  }

  predicate Registered(s: Store, job: Bytes) {
    Unique(job).Some? && Unique(job).value in s.jobs && s.jobs[Unique(job).value].dgJobid == job
  }

  /** Destinations identify uploads: for registered jobs and dot-free classes, equal
      destinations mean equal job, class and name. */
  lemma DestinationsIdentify(cfg: Config, s: Store, j1: Bytes, c1: Bytes, n1: Option<Bytes>,
                             j2: Bytes, c2: Bytes, n2: Option<Bytes>)
    requires Inv(cfg, s) && Registered(s, j1) && Registered(s, j2) && DOT !in c1 && DOT !in c2
    ensures Destination(cfg, s, j1, c1, n1) == Destination(cfg, s, j2, c2, n2) <==> j1 == j2 && c1 == c2 && n1 == n2
  {
    var u1, u2 := Unique(j1).value, Unique(j2).value;
    assert JobOk(u1, s.jobs[u1]) && JobOk(u2, s.jobs[u2]);
    if Destination(cfg, s, j1, c1, n1) == Destination(cfg, s, j2, c2, n2) {
      PathsDiffer(cfg.external, s.jobs[u1], (u1, BaseName(c1, n1)), s.jobs[u2], (u2, BaseName(c2, n2)));
    }
    SplitBaseNameIff(c1, n1);
    SplitBaseNameIff(c2, n2);
  }

  /** After a successful start, destination_info answers with the job, class and name
      of the call if and only if the class has no dot and the job id is the registered
      one, not another with the same unique part. */
  lemma InfoAfterStart(cfg: Config, s: Store, peer: Bytes, job: Bytes, class_: Bytes, name: Option<Bytes>, time: int)
    requires GoodConfig(cfg) && Inv(cfg, s)
    requires Unique(job).Some? && Unique(job).value in s.jobs
    requires Next(cfg, s, Start(peer, job, class_, name, time)).1 == OK
    ensures var t := Next(cfg, s, Start(peer, job, class_, name, time)).0;
      InfoOf(t, Destination(cfg, s, job, class_, name), job, class_, name) <==> DOT !in class_ && Registered(s, job)
  {
    var step := Start(peer, job, class_, name, time);
    var t, ju, base := Next(cfg, s, step).0, Unique(job).value, BaseName(class_, name);
    var dest := Destination(cfg, s, job, class_, name);
    StepKeepsInv(cfg, s, step);
    assert (ju, base) in t.files && t.files[(ju, base)].extUrl == dest;
    SplitBaseNameIff(class_, name);
    forall k | k in t.files && t.files[k].extUrl == dest ensures k == (ju, base) {
      RowsHaveOwnPaths(cfg, t, k, (ju, base));
    }
  }

  // ----- the tables changed in place --------------------------------------------------------------------------------

  class Backend {
    const cfg: Config
    var jobs: map<Bytes, JobInfo>
    var users: map<Bytes, Bytes>
    var files: map<Key, FileRow>
    var disk: map<Bytes, Bytes>

    function Now(): Store
      reads this
    {
      Store(jobs, users, files, disk)
    }

    constructor (cfg: Config)
      ensures this.cfg == cfg && Now() == EMPTY
    {
      this.cfg := cfg;
      jobs, users, files, disk := map[], map[], map[], map[];
    }

    /** store_user, for a name under its digest. */
    method KeepUser(subject: Bytes)
      modifies `users
      ensures users == StoreUser(old(users), cfg.digest(subject), subject)
    {
      var id := cfg.digest(subject);
      if id !in users {
        users := users[id := subject];
      }
    }

    /** glite_jppsbe_register_job */
    method Register(job: Bytes, owner: Bytes, now: int) returns (code: Code)
      modifies this
      ensures (Now(), code) == RegisterJob(cfg, old(Now()), job, owner, now)
    {
      var u := Unique(job);
      if u.None? { return Fails(EINVAL); }
      KeepUser(owner);
      if u.value in jobs { return Fails(EEXIST); }
      jobs := jobs[u.value := JobInfo(job, cfg.digest(owner), now)];
      code := OK;
    }

    /** glite_jppsbe_start_upload: expired uploads of the job go first, even when the
        file turns out to be taken. */
    method Start(peer: Bytes, job: Bytes, class_: Bytes, name: Option<Bytes>, now: int) returns (code: Code)
      modifies this
      ensures (Now(), code) == StartUpload(cfg, old(Now()), peer, job, BaseName(class_, name), now)
    {
      var u := Unique(job);
      if u.None? { return Fails(EINVAL); }
      if u.value !in jobs { return Fails(ENOENT); }
      var k := (u.value, BaseName(class_, name));
      KeepUser(peer);
      files := PurgeExpired(files, u.value, now);
      if k in files { return Fails(EEXIST); }
      files := files[k := NewRow(cfg, jobs[u.value], k, peer, now)];
      code := OK;
    }

    /** glite_jppsbe_commit_upload */
    method Commit(peer: Bytes, destination: Bytes) returns (code: Code)
      requires Inv(cfg, Now())
      modifies `files
      ensures (Now(), code) == CommitUpload(cfg, old(Now()), peer, destination)
    {
      var found := set k | k in files && files[k].extUrl == destination && files[k].state.Uploading?;
      if found == {} {
        assert forall k :: IsUploadTo(Now(), k, destination) ==> k in found;
        return Fails(ENOENT);
      }
      var k :| k in found;
      assert IsUploadTo(Now(), k, destination);
      UploadIsUnique(cfg, Now(), k, FindUpload(Now(), destination).value, destination);
      if files[k].user != cfg.digest(peer) { return Fails(EPERM); }
      files := files[k := files[k].(state := Committed)];
      code := OK;
    }

    /** authz_write and the transfer it lets through. */
    method Transfer(client: Bytes, action: Bytes, url: Bytes, bytes: Bytes) returns (code: Code)
      modifies `disk
      ensures (Now(), code) == TransferFile(old(Now()), client, action, url, bytes)
    {
      var path := ObjectPath(url);
      if path.None? || !IsWriting(action) { return Denied; }
      var rows := set k | k in files && MayWriteRow(Now(), k, path.value, client);
      assert forall k :: k in rows <==> MayWriteRow(Now(), k, path.value, client);
      if rows == {} { return Denied; }
      ghost var k :| k in rows;
      disk := disk[path.value := bytes];
      code := OK;
    }
  }
}
