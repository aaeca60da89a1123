/** Collecting attributes from job files through plugins. A plugin keeps its last
    file open between attributes; the answers must be those of opening every file
    anew for every attribute. */
module HandleCache {
  import opened Text
  import opened AttrValues
  import FeedQuery

  datatype Plugin = Plugin(id: nat, namespaces: seq<Bytes>, classes: seq<Bytes>, uris: seq<Bytes>)

  datatype Namespace = Namespace(name: Bytes, plugins: seq<Plugin>)

  type FileName = Option<Bytes>

  /** What a job's files and plugins do, the same at every call: the names stored
      under a class, which files open, for which a plugin opens, and what the plugin
      then answers; and the tags. */
  datatype World = World(
    names: Bytes -> seq<FileName>,
    fileOpens: (Bytes, FileName) -> bool,
    pluginOpens: (nat, Bytes, FileName) -> bool,
    answers: (nat, Bytes, FileName, Bytes) -> Option<seq<AttrVal>>,
    tags: Bytes -> Option<seq<AttrVal>>)

  /** Files of one class are all named or all unnamed; otherwise the name comparison
      would follow a NULL pointer. */
  ghost predicate Uniform(w: World) {
    forall c, i, j :: 0 <= i < |w.names(c)| && 0 <= j < |w.names(c)| ==> (w.names(c)[i].Some? <==> w.names(c)[j].Some?)
  }

  // ----- opening every file anew -----------------------------------------------------------------------

  /** Values of a plugin get origin FILE and, without a detail of their own, the
      class URI and file name. */
  function Stamp(v: AttrVal, uri: Bytes, name: FileName): AttrVal {
    v.(origin := ORIG_FILE,
       detail := if v.detail.Some? then v.detail else Some(uri + [SPACE] + (if name.Some? then name.value else [])))
  }

  function StampAll(vs: seq<AttrVal>, uri: Bytes, name: FileName): seq<AttrVal> {
    seq(|vs|, i requires 0 <= i < |vs| => Stamp(vs[i], uri, name))
  }

  predicate Opens(w: World, p: nat, class_: Bytes, name: FileName) {
    w.fileOpens(class_, name) && w.pluginOpens(p, class_, name)
  }

  function FileValues(w: World, p: Plugin, class_: Bytes, uri: Bytes, attr: Bytes, name: FileName): seq<AttrVal> {
    if !Opens(w, p.id, class_, name) then []
    else
      match w.answers(p.id, class_, name, attr)
      case None => []
      case Some(vs) => StampAll(vs, uri, name)
  }

  function ClassValues(w: World, p: Plugin, class_: Bytes, uri: Bytes, attr: Bytes, names: seq<FileName>)
    : seq<AttrVal>
  {
    if names == [] then []
    else
      ClassValues(w, p, class_, uri, attr, names[..|names| - 1])
      + FileValues(w, p, class_, uri, attr, names[|names| - 1])
  }

  /** Some classes of a plugin, with their URIs. */
  function ClassesValues(w: World, p: Plugin, attr: Bytes, cs: seq<Bytes>, us: seq<Bytes>): seq<AttrVal>
    requires |cs| == |us|
  {
    if cs == [] then []
    else
      var n := |cs| - 1;
      ClassesValues(w, p, attr, cs[..n], us[..n]) + ClassValues(w, p, cs[n], us[n], attr, w.names(cs[n]))
  }

  function PluginValues(w: World, p: Plugin, attr: Bytes): seq<AttrVal>
    requires |p.classes| == |p.uris|
  {
    ClassesValues(w, p, attr, p.classes, p.uris)
  }

  predicate GoodPlugins(ps: seq<Plugin>) {
    forall i :: 0 <= i < |ps| ==> |ps[i].classes| == |ps[i].uris|
  }

  function PluginsValues(w: World, ps: seq<Plugin>, attr: Bytes): seq<AttrVal>
    requires GoodPlugins(ps)
  {
    if ps == [] then []
    else PluginsValues(w, ps[..|ps| - 1], attr) + PluginValues(w, ps[|ps| - 1], attr)
  }

  /** The part of an attribute name in front of its last colon. */
  function NamespaceOf(attr: Bytes): Bytes {
    if attr == [] then []
    else if attr[|attr| - 1] == COLON then attr[..|attr| - 1]
    else NamespaceOf(attr[..|attr| - 1])
  }

  predicate GoodTable(known: seq<Namespace>) {
    forall j :: 0 <= j < |known| ==> GoodPlugins(known[j].plugins)
  }

  /** The position of a namespace, or the length of the table. */
  function Find(known: seq<Namespace>, name: Bytes): (j: nat)
    ensures j <= |known|
    ensures j < |known| ==> known[j].name == name
    ensures forall i :: 0 <= i < j ==> known[i].name != name
  {
    if known == [] then 0
    else
      var j := Find(known[..|known| - 1], name);
      if j < |known| - 1 || known[|known| - 1].name == name then j else |known|
  }

  function AttrValuesFresh(w: World, known: seq<Namespace>, attr: Bytes): seq<AttrVal>
    requires GoodTable(known)
  {
    var j := Find(known, NamespaceOf(attr));
    (if w.tags(attr).Some? then w.tags(attr).value else [])
    + (if j < |known| then PluginsValues(w, known[j].plugins, attr) else [])
  }

  function AllValuesFresh(w: World, known: seq<Namespace>, attrs: seq<Bytes>): seq<AttrVal>
    requires GoodTable(known)
  {
    if attrs == [] then []
    else AllValuesFresh(w, known, attrs[..|attrs| - 1]) + AttrValuesFresh(w, known, attrs[|attrs| - 1])
  }

  // ----- the questions asked ----------------------------------------------------------------------------------

  /** What a plugin handle was opened on. */
  datatype Target = Target(plugin: nat, class_: Bytes, file: FileName)

  /** The plugins and files asked, question by question. */
  function FileVisits(w: World, p: Plugin, class_: Bytes, name: FileName): seq<Target> {
    if Opens(w, p.id, class_, name) then [Target(p.id, class_, name)] else []
  }

  function ClassVisits(w: World, p: Plugin, class_: Bytes, names: seq<FileName>): seq<Target> {
    if names == [] then []
    else ClassVisits(w, p, class_, names[..|names| - 1]) + FileVisits(w, p, class_, names[|names| - 1])
  }

  function ClassesVisits(w: World, p: Plugin, cs: seq<Bytes>): seq<Target> {
    if cs == [] then []
    else ClassesVisits(w, p, cs[..|cs| - 1]) + ClassVisits(w, p, cs[|cs| - 1], w.names(cs[|cs| - 1]))
  }

  function PluginsVisits(w: World, ps: seq<Plugin>): seq<Target> {
    if ps == [] then []
    else PluginsVisits(w, ps[..|ps| - 1]) + ClassesVisits(w, ps[|ps| - 1], ps[|ps| - 1].classes)
  }

  function AttrVisits(w: World, known: seq<Namespace>, attr: Bytes): seq<Target> {
    var j := Find(known, NamespaceOf(attr));
    if j < |known| then PluginsVisits(w, known[j].plugins) else []
  }

  function AllVisits(w: World, known: seq<Namespace>, attrs: seq<Bytes>): seq<Target> {
    if attrs == [] then []
    else AllVisits(w, known, attrs[..|attrs| - 1]) + AttrVisits(w, known, attrs[|attrs| - 1])
  }

  // ----- files a plugin refuses --------------------------------------------------------------------------

  /** A file that opens while the plugin refuses it. */
  predicate Refused(w: World, p: nat, class_: Bytes, name: FileName) {
    w.fileOpens(class_, name) && !w.pluginOpens(p, class_, name)
  }

  function FileLeaks(w: World, p: Plugin, class_: Bytes, name: FileName): nat {
    if Refused(w, p.id, class_, name) then 1 else 0
  }

  function ClassLeaks(w: World, p: Plugin, class_: Bytes, names: seq<FileName>): nat {
    if names == [] then 0
    else ClassLeaks(w, p, class_, names[..|names| - 1]) + FileLeaks(w, p, class_, names[|names| - 1])
  }

  function ClassesLeaks(w: World, p: Plugin, cs: seq<Bytes>): nat {
    if cs == [] then 0
    else ClassesLeaks(w, p, cs[..|cs| - 1]) + ClassLeaks(w, p, cs[|cs| - 1], w.names(cs[|cs| - 1]))
  }

  function PluginsLeaks(w: World, ps: seq<Plugin>): nat {
    if ps == [] then 0
    else PluginsLeaks(w, ps[..|ps| - 1]) + ClassesLeaks(w, ps[|ps| - 1], ps[|ps| - 1].classes)
  }

  function AttrLeaks(w: World, known: seq<Namespace>, attr: Bytes): nat {
    var j := Find(known, NamespaceOf(attr));
    if j < |known| then PluginsLeaks(w, known[j].plugins) else 0
  }

  /** How often the files asked for attributes are refused. */
  function AllLeaks(w: World, known: seq<Namespace>, attrs: seq<Bytes>): nat {
    if attrs == [] then 0
    else AllLeaks(w, known, attrs[..|attrs| - 1]) + AttrLeaks(w, known, attrs[|attrs| - 1])
  }

  /** Every file of the plugin's classes that opens, the plugin opens too. */
  predicate PluginAccepts(w: World, p: Plugin) {
    forall l, n :: 0 <= l < |p.classes| && 0 <= n < |w.names(p.classes[l])| ==>
      !Refused(w, p.id, p.classes[l], w.names(p.classes[l])[n])
  }

  /** So it is for every plugin of the namespace of every attribute. */
  predicate NoneRefused(w: World, known: seq<Namespace>, attrs: seq<Bytes>) {
    forall i :: 0 <= i < |attrs| ==> NamespaceAccepts(w, known, attrs[i])
  }

  predicate NamespaceAccepts(w: World, known: seq<Namespace>, attr: Bytes) {
    var j := Find(known, NamespaceOf(attr));
    j < |known| ==> forall k :: 0 <= k < |known[j].plugins| ==> PluginAccepts(w, known[j].plugins[k])
  }

  lemma {:induction false} ClassLeaksIff(w: World, p: Plugin, class_: Bytes, names: seq<FileName>)
    ensures ClassLeaks(w, p, class_, names) == 0 <==>
      forall n :: 0 <= n < |names| ==> !Refused(w, p.id, class_, names[n])
  {
    if names != [] {
      var head := names[..|names| - 1];
      ClassLeaksIff(w, p, class_, head);
      assert forall n :: 0 <= n < |head| ==> head[n] == names[n];
    }
  }

  lemma {:induction false} ClassesLeaksIff(w: World, p: Plugin, cs: seq<Bytes>)
    ensures ClassesLeaks(w, p, cs) == 0 <==>
      forall l, n :: 0 <= l < |cs| && 0 <= n < |w.names(cs[l])| ==> !Refused(w, p.id, cs[l], w.names(cs[l])[n])
  {
    if cs != [] {
      var head, last := cs[..|cs| - 1], cs[|cs| - 1];
      ClassesLeaksIff(w, p, head);
      ClassLeaksIff(w, p, last, w.names(last));
      assert forall l :: 0 <= l < |head| ==> head[l] == cs[l];
    }
  }

  lemma {:induction false} PluginsLeaksIff(w: World, ps: seq<Plugin>)
    ensures PluginsLeaks(w, ps) == 0 <==> forall k :: 0 <= k < |ps| ==> PluginAccepts(w, ps[k])
  {
    if ps != [] {
      var head, last := ps[..|ps| - 1], ps[|ps| - 1];
      PluginsLeaksIff(w, head);
      ClassesLeaksIff(w, last, last.classes);
      assert forall k :: 0 <= k < |head| ==> head[k] == ps[k];
    }
  }

  lemma AttrLeaksIff(w: World, known: seq<Namespace>, attr: Bytes)
    ensures AttrLeaks(w, known, attr) == 0 <==> NamespaceAccepts(w, known, attr)
  {
    var j := Find(known, NamespaceOf(attr));
    if j < |known| { PluginsLeaksIff(w, known[j].plugins); }
  }

  /** Nothing leaks if and only if no plugin asked refuses a file that opens. */
  lemma {:induction false} NoLeakIff(w: World, known: seq<Namespace>, attrs: seq<Bytes>)
    ensures AllLeaks(w, known, attrs) == 0 <==> NoneRefused(w, known, attrs)
  {
    if attrs != [] {
      var head := attrs[..|attrs| - 1];
      NoLeakIff(w, known, head);
      AttrLeaksIff(w, known, attrs[|attrs| - 1]);
      assert forall i :: 0 <= i < |head| ==> head[i] == attrs[i];
    }
  }

  // A plugin 0 for the namespace n and the class c, whose one file it refuses.
  const LEAKY_WORLD: World := World(c => [None], (c, n) => true, (p, c, n) => false, (p, c, n, a) => None, a => None)
  const LEAKY_TABLE: seq<Namespace> := [Namespace([110], [Plugin(0, [[110]], [[99]], [[117]])])]

  // ----- the cache -------------------------------------------------------------------------------------------

  /** An open slot: class and file as remembered, and the plugin handle. */
  datatype Slot = Slot(class_: Bytes, file: FileName, handle: nat)

  /** A slot is a position in the namespace table and one among its plugins. */
  type SlotKey = (nat, nat)

  type Slots = map<SlotKey, Slot>

  predicate KeyOk(known: seq<Namespace>, key: SlotKey) {
    key.0 < |known| && key.1 < |known[key.0].plugins|
  }

  function PluginAt(known: seq<Namespace>, key: SlotKey): Plugin
    requires KeyOk(known, key)
  {
    known[key.0].plugins[key.1]
  }

  /** Each plugin handle ever opened is either held by exactly one slot and not
      closed, or held by none and closed once. owner names the holder. */
  ghost predicate HandlesOk(slots: Slots, targets: seq<Target>, closes: seq<nat>, owner: seq<Option<SlotKey>>) {
    && |owner| == |targets| == |closes|
    && (forall h :: 0 <= h < |owner| ==> closes[h] == if owner[h].None? then 1 else 0)
    && (forall h :: 0 <= h < |owner| && owner[h].Some? ==> owner[h].value in slots && slots[owner[h].value].handle == h)
    && (forall key :: key in slots ==> slots[key].handle < |owner| && owner[slots[key].handle] == Some(key))
  }

  /** A slot remembers what its handle was opened on, and that it could be opened. */
  ghost predicate SlotOk(w: World, known: seq<Namespace>, slots: Slots, targets: seq<Target>, key: SlotKey)
    requires key in slots
  {
    var s := slots[key];
    && KeyOk(known, key) && s.handle < |targets|
    && targets[s.handle] == Target(PluginAt(known, key).id, s.class_, s.file)
    && Opens(w, PluginAt(known, key).id, s.class_, s.file)
  }

  ghost predicate SlotsOk(w: World, known: seq<Namespace>, slots: Slots, targets: seq<Target>) {
    forall key :: key in slots ==> SlotOk(w, known, slots, targets, key)
  }

  /** The file a slot remembers is one of its class. */
  predicate FilesFit(w: World, slots: Slots) {
    forall key :: key in slots ==> slots[key].file in w.names(slots[key].class_)
  }

  lemma CloseKeepsHandles(slots: Slots, targets: seq<Target>, closes: seq<nat>, owner: seq<Option<SlotKey>>,
                          key: SlotKey)
    requires HandlesOk(slots, targets, closes, owner) && key in slots
    ensures var h := slots[key].handle;
      h < |closes| && HandlesOk(slots - {key}, targets, closes[h := closes[h] + 1], owner[h := None])
  {
  }

  lemma OpenKeepsHandles(slots: Slots, targets: seq<Target>, closes: seq<nat>, owner: seq<Option<SlotKey>>,
                         key: SlotKey, s: Slot, t: Target)
    requires HandlesOk(slots, targets, closes, owner) && key !in slots && s.handle == |targets|
    ensures HandlesOk(slots[key := s], targets + [t], closes + [0], owner + [Some(key)])
  {
  }

  lemma OpenKeepsSlots(w: World, known: seq<Namespace>, slots: Slots, targets: seq<Target>, key: SlotKey, s: Slot)
    requires SlotsOk(w, known, slots, targets) && KeyOk(known, key) && s.handle == |targets|
    requires Opens(w, PluginAt(known, key).id, s.class_, s.file)
    ensures SlotsOk(w, known, slots[key := s], targets + [Target(PluginAt(known, key).id, s.class_, s.file)])
  {
    var slots', targets' := slots[key := s], targets + [Target(PluginAt(known, key).id, s.class_, s.file)];
    forall k | k in slots' ensures SlotOk(w, known, slots', targets', k) {
      if k != key { assert SlotOk(w, known, slots, targets, k); }
    }
  }

  lemma CloseKeepsSlots(w: World, known: seq<Namespace>, slots: Slots, targets: seq<Target>, key: SlotKey)
    requires SlotsOk(w, known, slots, targets)
    ensures SlotsOk(w, known, slots - {key}, targets)
  {
    forall k | k in slots - {key} ensures SlotOk(w, known, slots - {key}, targets, k) {
      assert SlotOk(w, known, slots, targets, k);
    }
  }

  lemma SlotCount(slots: Slots, key: SlotKey, s: Slot)
    ensures key in slots ==> |slots - {key}| == |slots| - 1
    ensures key !in slots ==> |slots[key := s]| == |slots| + 1
  {
    assert (slots - {key}).Keys == slots.Keys - {key};
    assert slots[key := s].Keys == slots.Keys + {key};
  }

  /** The slots, what each plugin handle was opened on and how often it was closed,
      the backend files open now, and those a plugin refused, which stay open. */
  datatype RawState = RawState(world: World, known: seq<Namespace>, slots: Slots, targets: seq<Target>,
                               closes: seq<nat>, owner: seq<Option<SlotKey>>, filesOpen: nat, leaked: nat)

  ghost predicate Consistent(r: RawState) {
    && GoodTable(r.known) && HandlesOk(r.slots, r.targets, r.closes, r.owner)
    && SlotsOk(r.world, r.known, r.slots, r.targets) && FilesFit(r.world, r.slots)
    && r.filesOpen == r.leaked + |r.slots|
  }

  const NO_WORLD: World := World(c => [], (c, n) => false, (p, c, n) => false, (p, c, n, a) => None, a => None)

  type State = r: RawState | Consistent(r) witness RawState(NO_WORLD, [], map[], [], [], [], 0, 0)

  function Initial(known: seq<Namespace>): (s: State)
    requires GoodTable(known)
  {
    RawState(NO_WORLD, known, map[], [], [], [], 0, 0)
  }

  /** Without open slots the cache serves any job. */
  function ForJob(s: State, world: World): (t: State)
    requires s.slots == map[]
    ensures t.world == world && t.known == s.known && t.slots == map[]
    ensures t.leaked == s.leaked && t.filesOpen == s.filesOpen && t.targets == s.targets
  {
    s.(world := world)
  }

  /** The same job and table, and every handle of before. */
  ghost predicate SameWorld(s: RawState, t: RawState) {
    s.world == t.world && s.known == t.known && s.targets <= t.targets
  }

  /** The plugin handle of a slot closed, then its backend file. */
  function Closed(r: RawState, key: SlotKey): RawState
    requires key in r.slots && r.slots[key].handle < |r.closes| == |r.owner| && r.filesOpen > 0
  {
    var h := r.slots[key].handle;
    r.(slots := r.slots - {key}, closes := r.closes[h := r.closes[h] + 1], owner := r.owner[h := None],
       filesOpen := r.filesOpen - 1)
  }

  lemma ClosedIsConsistent(r: RawState, key: SlotKey)
    requires Consistent(r) && key in r.slots
    ensures r.slots[key].handle < |r.closes| == |r.owner| && r.filesOpen > 0
    ensures Consistent(Closed(r, key))
  {
    CloseKeepsHandles(r.slots, r.targets, r.closes, r.owner, key);
    CloseKeepsSlots(r.world, r.known, r.slots, r.targets, key);
    SlotCount(r.slots, key, r.slots[key]);
  }

  function CloseSlot(s: State, key: SlotKey): (t: State)
    requires key in s.slots
    ensures SameWorld(s, t) && t.slots == s.slots - {key} && t.targets == s.targets && t.leaked == s.leaked
  {
    ClosedIsConsistent(s, key);
    Closed(s, key)
  }

  function Filled(r: RawState, key: SlotKey, class_: Bytes, name: FileName): RawState
    requires KeyOk(r.known, key)
  {
    var slot, target := Slot(class_, name, |r.targets|), Target(PluginAt(r.known, key).id, class_, name);
    r.(slots := r.slots[key := slot], targets := r.targets + [target], closes := r.closes + [0],
       owner := r.owner + [Some(key)], filesOpen := r.filesOpen + 1)
  }

  lemma FilledIsConsistent(r: RawState, key: SlotKey, class_: Bytes, name: FileName)
    requires Consistent(r) && key !in r.slots && KeyOk(r.known, key) && name in r.world.names(class_)
    requires Opens(r.world, PluginAt(r.known, key).id, class_, name)
    ensures Consistent(Filled(r, key, class_, name))
  {
    var slot, target := Slot(class_, name, |r.targets|), Target(PluginAt(r.known, key).id, class_, name);
    OpenKeepsHandles(r.slots, r.targets, r.closes, r.owner, key, slot, target);
    OpenKeepsSlots(r.world, r.known, r.slots, r.targets, key, slot);
    SlotCount(r.slots, key, slot);
  }

  function FillSlot(s: State, key: SlotKey, class_: Bytes, name: FileName): (t: State)
    requires key !in s.slots && KeyOk(s.known, key) && name in s.world.names(class_)
    requires Opens(s.world, PluginAt(s.known, key).id, class_, name)
    ensures SameWorld(s, t) && t.slots == s.slots[key := Slot(class_, name, |s.targets|)]
    ensures t.leaked == s.leaked
  {
    FilledIsConsistent(s, key, class_, name);
    Filled(s, key, class_, name)
  }

  /** All other slots stay as they are; this one is emptied, left alone or opened anew. */
  predicate KeepsSlots(s: RawState, t: RawState, key: SlotKey) {
    forall k :: k in t.slots ==>
      (k in s.slots && t.slots[k] == s.slots[k]) || (k == key && t.slots[k].handle >= |s.targets|)
  }

  /** Opening a file and the plugin on it, for an empty slot. */
  function OpenSlot(s: State, key: SlotKey, class_: Bytes, name: FileName): (r: (State, bool))
    requires key !in s.slots && KeyOk(s.known, key) && name in s.world.names(class_)
    ensures SameWorld(s, r.0) && r.1 == Opens(s.world, PluginAt(s.known, key).id, class_, name)
    ensures r.1 ==> Holds(r.0, key, class_, name)
    ensures r.0.leaked == s.leaked + FileLeaks(s.world, PluginAt(s.known, key), class_, name)
    ensures KeepsSlots(s, r.0, key)
  {
    if !s.world.fileOpens(class_, name) then (s, false)
    else if !s.world.pluginOpens(PluginAt(s.known, key).id, class_, name) then
      (s.(filesOpen := s.filesOpen + 1, leaked := s.leaked + 1), false)
    else (FillSlot(s, key, class_, name), true)
  }

  predicate Holds(s: State, key: SlotKey, class_: Bytes, name: FileName) {
    key in s.slots && s.slots[key].class_ == class_ && s.slots[key].file == name
  }

  /** One file in process_files: the slot's handle is reused when it is on the same
      class and file, else closed and replaced. */
  function ReadyFile(s: State, key: SlotKey, class_: Bytes, name: FileName): (r: (State, bool))
    requires KeyOk(s.known, key) && Uniform(s.world) && name in s.world.names(class_)
    ensures SameWorld(s, r.0) && r.1 == Opens(s.world, PluginAt(s.known, key).id, class_, name)
    ensures r.1 ==> Holds(r.0, key, class_, name)
    ensures r.0.leaked == s.leaked + FileLeaks(s.world, PluginAt(s.known, key), class_, name)
    ensures KeepsSlots(s, r.0, key)
  {
    UniformNames(s.world, class_);
    if key in s.slots && s.slots[key].class_ == class_
       && ((s.slots[key].file.None? && name.None?) || s.slots[key].file.value == name.value)
    then
      HeldHandle(s, key);
      (s, true)
    else OpenSlot(if key in s.slots then CloseSlot(s, key) else s, key, class_, name)
  }

  lemma HeldHandle(s: State, key: SlotKey)
    requires key in s.slots
    ensures SlotOk(s.world, s.known, s.slots, s.targets, key)
  {
  }

  lemma OneMoreFile(w: World, p: Plugin, class_: Bytes, uri: Bytes, attr: Bytes, names: seq<FileName>, n: nat)
    requires n < |names|
    ensures ClassValues(w, p, class_, uri, attr, names[..n + 1])
         == ClassValues(w, p, class_, uri, attr, names[..n]) + FileValues(w, p, class_, uri, attr, names[n])
    ensures ClassLeaks(w, p, class_, names[..n + 1])
         == ClassLeaks(w, p, class_, names[..n]) + FileLeaks(w, p, class_, names[n])
    ensures ClassVisits(w, p, class_, names[..n + 1])
         == ClassVisits(w, p, class_, names[..n]) + FileVisits(w, p, class_, names[n])
  {
    assert names[..n + 1][..n] == names[..n];
  }

  lemma InTurn<T>(a: seq<T>, b: seq<T>, c: seq<T>)
    ensures a + (b + c) == a + b + c
  {
  }

  lemma OneMoreClass(w: World, p: Plugin, attr: Bytes, cs: seq<Bytes>, us: seq<Bytes>, n: nat)
    requires n < |cs| == |us|
    ensures ClassesValues(w, p, attr, cs[..n + 1], us[..n + 1])
         == ClassesValues(w, p, attr, cs[..n], us[..n]) + ClassValues(w, p, cs[n], us[n], attr, w.names(cs[n]))
    ensures ClassesLeaks(w, p, cs[..n + 1]) == ClassesLeaks(w, p, cs[..n]) + ClassLeaks(w, p, cs[n], w.names(cs[n]))
    ensures ClassesVisits(w, p, cs[..n + 1]) == ClassesVisits(w, p, cs[..n]) + ClassVisits(w, p, cs[n], w.names(cs[n]))
  {
    assert cs[..n + 1][..n] == cs[..n] && us[..n + 1][..n] == us[..n];
  }

  lemma OneMoreAttr(w: World, known: seq<Namespace>, attrs: seq<Bytes>, i: nat)
    requires GoodTable(known) && i < |attrs|
    ensures AllValuesFresh(w, known, attrs[..i + 1])
         == AllValuesFresh(w, known, attrs[..i]) + AttrValuesFresh(w, known, attrs[i])
    ensures AllLeaks(w, known, attrs[..i + 1]) == AllLeaks(w, known, attrs[..i]) + AttrLeaks(w, known, attrs[i])
    ensures AllVisits(w, known, attrs[..i + 1]) == AllVisits(w, known, attrs[..i]) + AttrVisits(w, known, attrs[i])
  {
    assert attrs[..i + 1][..i] == attrs[..i];
  }

  lemma OneMorePlugin(w: World, ps: seq<Plugin>, k: nat, attr: Bytes)
    requires k < |ps| && GoodPlugins(ps)
    ensures GoodPlugins(ps[..k]) && GoodPlugins(ps[..k + 1])
    ensures PluginsValues(w, ps[..k + 1], attr)
         == PluginsValues(w, ps[..k], attr) + PluginValues(w, ps[k], attr)
    ensures PluginsLeaks(w, ps[..k + 1]) == PluginsLeaks(w, ps[..k]) + ClassesLeaks(w, ps[k], ps[k].classes)
    ensures PluginsVisits(w, ps[..k + 1]) == PluginsVisits(w, ps[..k]) + ClassesVisits(w, ps[k], ps[k].classes)
  {
    assert ps[..k + 1][..k] == ps[..k];
  }

  predicate OpenedFrom(targets: seq<Target>, base: nat, t: Target) {
    exists h :: base <= h < |targets| && targets[h] == t
  }

  predicate AllOpenedFrom(targets: seq<Target>, base: nat, asked: seq<Target>) {
    asked == [] || (AllOpenedFrom(targets, base, asked[..|asked| - 1])
                    && OpenedFrom(targets, base, asked[|asked| - 1]))
  }

  lemma {:induction false} AllOpenedFromAt(targets: seq<Target>, base: nat, asked: seq<Target>, i: nat)
    requires AllOpenedFrom(targets, base, asked) && i < |asked|
    ensures OpenedFrom(targets, base, asked[i])
  {
    if i < |asked| - 1 { AllOpenedFromAt(targets, base, asked[..|asked| - 1], i); }
  }

  /** The open slots and the questions asked go through handles from number base on. */
  ghost predicate LogOk(s: RawState, base: nat, asked: seq<Target>) {
    && base <= |s.targets| && AllOpenedFrom(s.targets, base, asked)
    && forall key :: key in s.slots ==> base <= s.slots[key].handle
  }

  lemma {:induction false} MoreTargets(targets: seq<Target>, more: seq<Target>, base: nat, asked: seq<Target>)
    requires AllOpenedFrom(targets, base, asked) && targets <= more
    ensures AllOpenedFrom(more, base, asked)
  {
    if asked != [] {
      MoreTargets(targets, more, base, asked[..|asked| - 1]);
      var h :| base <= h < |targets| && targets[h] == asked[|asked| - 1];
      assert more[h] == asked[|asked| - 1];
    }
  }

  lemma LogStays(s: RawState, t: RawState, base: nat, asked: seq<Target>, key: SlotKey)
    requires LogOk(s, base, asked) && s.targets <= t.targets && KeepsSlots(s, t, key)
    ensures LogOk(t, base, asked)
  {
    MoreTargets(s.targets, t.targets, base, asked);
  }

  lemma LogOneMore(s: RawState, base: nat, asked: seq<Target>, h: nat)
    requires LogOk(s, base, asked) && base <= h < |s.targets|
    ensures LogOk(s, base, asked + [s.targets[h]])
  {
    assert (asked + [s.targets[h]])[..|asked|] == asked;
    assert OpenedFrom(s.targets, base, s.targets[h]);
  }

  /** From s to t the cache served its job, leaking so many files. */
  ghost predicate Served(s: RawState, t: RawState, leaks: nat) {
    SameWorld(s, t) && t.leaked == s.leaked + leaks
  }

  class Cache {
    const plugins: seq<Plugin>
    var state: State
    // since the last call for a job: its first handle, and what its questions went to
    var base: nat
    var asked: seq<Target>

    constructor (plugins: seq<Plugin>)
      requires GoodPlugins(plugins)
      ensures Scanned(state.known, plugins) && this.plugins == plugins && state.slots == map[] && state.filesOpen == 0
    {
      var known := ScanNamespaces(plugins);
      this.plugins := plugins;
      state, base, asked := Initial(known), 0, [];
    }

    /** Reuses the handle of a slot, or closes and opens. */
    method MakeReady(key: SlotKey, class_: Bytes, name: FileName) returns (ok: bool)
      requires LogOk(state, base, asked)
      requires KeyOk(state.known, key) && Uniform(state.world) && name in state.world.names(class_)
      modifies `state
      ensures LogOk(state, base, asked)
      ensures var w, p := old(state.world), PluginAt(old(state.known), key);
        && Served(old(state), state, FileLeaks(w, p, class_, name))
        && ok == Opens(w, p.id, class_, name) && (ok ==> Holds(state, key, class_, name))
    {
      var (next, opens) := ReadyFile(state, key, class_, name);
      LogStays(state, next, base, asked, key);
      state := next;
      return opens;
    }

    /** The values of one file, asked through whatever handle the slot holds. */
    method OneFile(key: SlotKey, class_: Bytes, uri: Bytes, attr: Bytes, name: FileName) returns (vals: seq<AttrVal>)
      requires LogOk(state, base, asked)
      requires KeyOk(state.known, key) && Uniform(state.world) && name in state.world.names(class_)
      modifies `state, `asked
      ensures LogOk(state, base, asked)
      ensures var w, p := old(state.world), PluginAt(old(state.known), key);
        && Served(old(state), state, FileLeaks(w, p, class_, name))
        && asked == old(asked) + FileVisits(w, p, class_, name)
        && vals == FileValues(w, p, class_, uri, attr, name)
    {
      var ok := MakeReady(key, class_, name);
      vals := [];
      if ok {
        HeldHandle(state, key);
        LogOneMore(state, base, asked, state.slots[key].handle);
        var t := state.targets[state.slots[key].handle];
        asked := asked + [t];
        var answer := state.world.answers(t.plugin, t.class_, t.file, attr);
        if answer.Some? {
          vals := StampAll(answer.value, uri, name);
        }
      }
    }

    /** process_files: the values of one attribute from all files of one class, each
        merged to the end. */
    method ProcessFiles(key: SlotKey, class_: Bytes, uri: Bytes, attr: Bytes) returns (r: seq<AttrVal>)
      requires LogOk(state, base, asked) && KeyOk(state.known, key) && Uniform(state.world)
      modifies `state, `asked
      ensures LogOk(state, base, asked)
      ensures var w, p, names := old(state.world), PluginAt(old(state.known), key), old(state.world).names(class_);
        && Served(old(state), state, ClassLeaks(w, p, class_, names))
        && asked == old(asked) + ClassVisits(w, p, class_, names)
        && r == ClassValues(w, p, class_, uri, attr, names)
    {
      ghost var w, p := state.world, PluginAt(state.known, key);
      var names := state.world.names(class_);
      r := [];
      for n := 0 to |names|
        invariant LogOk(state, base, asked) && Served(old(state), state, ClassLeaks(w, p, class_, names[..n]))
        invariant asked == old(asked) + ClassVisits(w, p, class_, names[..n])
        invariant r == ClassValues(w, p, class_, uri, attr, names[..n])
      {
        OneMoreFile(w, p, class_, uri, attr, names, n);
        InTurn(old(asked), ClassVisits(w, p, class_, names[..n]), FileVisits(w, p, class_, names[n]));
        var vals := OneFile(key, class_, uri, attr, names[n]);
        r := r + vals;
      }
      assert names[..|names|] == names;
    }

    /** All classes of one plugin. */
    method AskPlugin(key: SlotKey, attr: Bytes) returns (r: seq<AttrVal>)
      requires LogOk(state, base, asked) && KeyOk(state.known, key) && Uniform(state.world)
      requires |PluginAt(state.known, key).classes| == |PluginAt(state.known, key).uris|
      modifies `state, `asked
      ensures LogOk(state, base, asked)
      ensures var w, p := old(state.world), PluginAt(old(state.known), key);
        && Served(old(state), state, ClassesLeaks(w, p, p.classes))
        && asked == old(asked) + ClassesVisits(w, p, p.classes)
        && r == PluginValues(w, p, attr)
    {
      ghost var w := state.world;
      var p := PluginAt(state.known, key);
      var cs, us := p.classes, p.uris;
      r := [];
      for l := 0 to |cs|
        invariant LogOk(state, base, asked) && Served(old(state), state, ClassesLeaks(w, p, cs[..l]))
        invariant asked == old(asked) + ClassesVisits(w, p, cs[..l])
        invariant r == ClassesValues(w, p, attr, cs[..l], us[..l])
      {
        OneMoreClass(w, p, attr, cs, us, l);
        InTurn(old(asked), ClassesVisits(w, p, cs[..l]), ClassVisits(w, p, cs[l], w.names(cs[l])));
        var vals := ProcessFiles(key, cs[l], us[l], attr);
        r := r + vals;
      }
      assert cs[..|cs|] == cs && us[..|us|] == us;
    }

    /** All plugins of one namespace. */
    method AskNamespace(j: nat, attr: Bytes) returns (r: seq<AttrVal>)
      requires LogOk(state, base, asked) && Uniform(state.world)
      requires j < |state.known| && GoodPlugins(state.known[j].plugins)
      modifies `state, `asked
      ensures LogOk(state, base, asked)
      ensures var w, ps := old(state.world), old(state.known)[j].plugins;
        && Served(old(state), state, PluginsLeaks(w, ps))
        && asked == old(asked) + PluginsVisits(w, ps)
        && r == PluginsValues(w, ps, attr)
    {
      ghost var w := state.world;
      var ps := state.known[j].plugins;
      r := [];
      for k := 0 to |ps|
        invariant LogOk(state, base, asked) && Served(old(state), state, PluginsLeaks(w, ps[..k]))
        invariant asked == old(asked) + PluginsVisits(w, ps[..k])
        invariant GoodPlugins(ps[..k]) && r == PluginsValues(w, ps[..k], attr)
      {
        OneMorePlugin(w, ps, k, attr);
        InTurn(old(asked), PluginsVisits(w, ps[..k]), ClassesVisits(w, ps[k], ps[k].classes));
        var vals := AskPlugin((j, k), attr);
        r := r + vals;
      }
      assert ps[..|ps|] == ps;
    }

    /** Tags first, then the plugins of the attribute's namespace. */
    method AskAttr(attr: Bytes) returns (r: seq<AttrVal>)
      requires LogOk(state, base, asked) && Uniform(state.world) && GoodTable(state.known)
      modifies `state, `asked
      ensures LogOk(state, base, asked)
      ensures var w, known := old(state.world), old(state.known);
        && Served(old(state), state, AttrLeaks(w, known, attr))
        && asked == old(asked) + AttrVisits(w, known, attr)
        && r == AttrValuesFresh(w, known, attr)
    {
      var tags := state.world.tags(attr);
      r := if tags.Some? then tags.value else [];
      var j := FindNamespace(state.known, NamespaceOf(attr));
      if j < |state.known| {
        var vals := AskNamespace(j, attr);
        r := r + vals;
      }
    }

    /** The loop of get_attrs over the attributes that are not metadata. */
    method CollectAttrs(others: seq<Bytes>) returns (out: seq<AttrVal>)
      requires LogOk(state, base, asked) && Uniform(state.world) && GoodTable(state.known)
      modifies `state, `asked
      ensures LogOk(state, base, asked)
      ensures var w, known := old(state.world), old(state.known);
        && Served(old(state), state, AllLeaks(w, known, others))
        && asked == old(asked) + AllVisits(w, known, others)
        && out == AllValuesFresh(w, known, others)
    {
      ghost var w, known := state.world, state.known;
      out := [];
      for i := 0 to |others|
        invariant LogOk(state, base, asked) && Served(old(state), state, AllLeaks(w, known, others[..i]))
        invariant asked == old(asked) + AllVisits(w, known, others[..i])
        invariant out == AllValuesFresh(w, known, others[..i])
      {
        OneMoreAttr(w, known, others, i);
        InTurn(old(asked), AllVisits(w, known, others[..i]), AttrVisits(w, known, others[i]));
        var vals := AskAttr(others[i]);
        out := out + vals;
      }
      assert others[..|others|] == others;
    }

    /** The closing loops: every slot that is open. */
    method CloseAll()
      modifies `state
      ensures state.slots == map[] && state.targets == old(state.targets)
      ensures SameWorld(old(state), state) && state.leaked == old(state.leaked)
    {
      while state.slots.Keys != {}
        invariant state.targets == old(state.targets)
        invariant SameWorld(old(state), state) && state.leaked == old(state.leaked)
        decreases state.slots.Keys
      {
        var key :| key in state.slots.Keys;
        state := CloseSlot(state, key);
      }
    }

    /** glite_jpps_get_attrs for a job's files and plugins, any number of times on one
        cache. meta is what the backend returns for the metadata, None an error. Every
        question goes to a plugin handle opened by this call on the very file, each
        handle is closed exactly once, and every file a plugin refuses is left open, and
        no other. */
    method GetAttrs(world: World, attrs: seq<Bytes>, meta: Option<seq<AttrVal>>) returns (r: Option<seq<AttrVal>>)
      requires Uniform(world) && state.slots == map[] && Scanned(state.known, plugins)
      modifies this
      ensures state.world == world && state.known == old(state.known) && state.slots == map[]
      ensures var all := AllValuesFresh(world, state.known, Others(attrs));
        r == if meta.None? || all + meta.value == [] then None else Some(all + meta.value)
      ensures meta.Some? ==>
        forall v :: (r.Some? && v in r.value) <==> v in meta.value || AnsweredAny(world, plugins, attrs, v)
      ensures old(state.targets) <= state.targets
      ensures |state.closes| == |state.targets| && forall h :: 0 <= h < |state.targets| ==> state.closes[h] == 1
      ensures asked == if meta.None? then [] else AllVisits(world, state.known, Others(attrs))
      ensures forall i :: 0 <= i < |asked| ==> OpenedFrom(state.targets, |old(state.targets)|, asked[i])
      ensures state.filesOpen == old(state.filesOpen)
                                 + (if meta.None? then 0 else AllLeaks(world, state.known, Others(attrs)))
      ensures meta.Some? ==>
        (state.filesOpen == old(state.filesOpen) <==> NoneRefused(world, state.known, Others(attrs)))
    {
      ClosedOnce(state);
      state := ForJob(state, world);
      base, asked := |state.targets|, [];
      var others := SplitOthers(attrs);
      NoLeakIff(world, state.known, others);
      ClosedOnce(state);
      if meta.None? { return None; }
      var out := CollectAttrs(others);
      CloseAll();
      ClosedOnce(state);
      forall i | 0 <= i < |asked| ensures OpenedFrom(state.targets, |old(state.targets)|, asked[i]) {
        AllOpenedFromAt(state.targets, base, asked, i);
      }
      AnswerMembers(world, state.known, plugins, attrs, meta.value);
      out := out + meta.value;
      r := if out == [] then None else Some(out);
    }
  }

  /** Without open slots, every plugin handle has been closed exactly once and only
      refused files are still open. */
  lemma ClosedOnce(s: State)
    requires s.slots == map[]
    ensures |s.closes| == |s.targets| && s.filesOpen == s.leaked
    ensures forall h :: 0 <= h < |s.targets| ==> s.closes[h] == 1
  {
    forall h | 0 <= h < |s.targets| ensures s.closes[h] == 1 {
      assert s.owner[h].None?;
    }
  }

  /** One refused file: asking the plugin for n:a leaves it open. */
  lemma RefusedFileLeaks()
    ensures AllLeaks(LEAKY_WORLD, LEAKY_TABLE, [[110, COLON, 97]]) == 1
    ensures !NoneRefused(LEAKY_WORLD, LEAKY_TABLE, [[110, COLON, 97]])
  {
    var attr: Bytes, ps := [110, COLON, 97], LEAKY_TABLE[0].plugins;
    assert attr[..2] == [110, COLON] && [110, COLON][..1] == [110];
    assert NamespaceOf([110, COLON]) == [110];
    FindIsFirst(LEAKY_TABLE, [110], 0);
    assert ps[..0] == [] && [attr][..0] == [];
    var names: seq<FileName> := [None];
    assert ClassLeaks(LEAKY_WORLD, ps[0], [99], names) == 1 by { assert names[..0] == []; }
    assert ClassesLeaks(LEAKY_WORLD, ps[0], [[99]]) == 1 by { assert [[99]][..0] == []; }
    assert PluginsLeaks(LEAKY_WORLD, ps) == 1;
    assert AllLeaks(LEAKY_WORLD, LEAKY_TABLE, []) == 0;
    NoLeakIff(LEAKY_WORLD, LEAKY_TABLE, [attr]);
  }

  method FindNamespace(known: seq<Namespace>, name: Bytes) returns (j: nat)
    ensures j == Find(known, name)
  {
    j := 0;
    while j < |known| && known[j].name != name
      invariant j <= |known| && forall i :: 0 <= i < j ==> known[i].name != name
    {
      j := j + 1;
    }
    FindIsFirst(known, name, j);
  }

  lemma UniformNames(w: World, class_: Bytes)
    requires Uniform(w)
    ensures forall a, b :: a in w.names(class_) && b in w.names(class_) ==> (a.Some? <==> b.Some?)
  {
  }

  lemma FindIsFirst(known: seq<Namespace>, name: Bytes, j: nat)
    requires j <= |known| && (j < |known| ==> known[j].name == name)
    requires forall i :: 0 <= i < j ==> known[i].name != name
    ensures Find(known, name) == j
  {
  }

  function Others(attrs: seq<Bytes>): seq<Bytes> {
    if attrs == [] then []
    else Others(attrs[..|attrs| - 1]) + (if FeedQuery.IsMetadata(attrs[|attrs| - 1]) then [] else [attrs[|attrs| - 1]])
  }

  method SplitOthers(attrs: seq<Bytes>) returns (others: seq<Bytes>)
    ensures others == Others(attrs)
  {
    others := [];
    for i := 0 to |attrs|
      invariant others == Others(attrs[..i])
    {
      assert attrs[..i + 1][..i] == attrs[..i];
      if !FeedQuery.IsMetadata(attrs[i]) { others := others + [attrs[i]]; }
    }
    assert attrs[..|attrs|] == attrs;
  }

  // ----- scan_namespaces -----------------------------------------------------------------------------------------

  /** A plugin once for every time it names the namespace. */
  function TimesNamed(p: Plugin, names: seq<Bytes>, name: Bytes): seq<Plugin> {
    if names == [] then []
    else TimesNamed(p, names[..|names| - 1], name) + (if names[|names| - 1] == name then [p] else [])
  }

  function NamedBy(ps: seq<Plugin>, name: Bytes): seq<Plugin> {
    if ps == [] then [] else NamedBy(ps[..|ps| - 1], name) + TimesNamed(ps[|ps| - 1], ps[|ps| - 1].namespaces, name)
  }

  function PluginsIn(known: seq<Namespace>, name: Bytes): seq<Plugin> {
    if Find(known, name) < |known| then known[Find(known, name)].plugins else []
  }

  function AddTo(known: seq<Namespace>, name: Bytes, p: Plugin): seq<Namespace> {
    var k := Find(known, name);
    if k < |known| then known[k := known[k].(plugins := known[k].plugins + [p])]
    else known + [Namespace(name, [p])]
  }

  lemma AddToAdds(known: seq<Namespace>, name: Bytes, p: Plugin, other: Bytes)
    ensures PluginsIn(AddTo(known, name, p), other) == PluginsIn(known, other) + (if other == name then [p] else [])
  {
    var k, j := Find(known, name), Find(known, other);
    var known' := AddTo(known, name, p);
    if j < |known| {
      FindIsFirst(known', other, j);
    } else if other == name {
      FindIsFirst(known', other, |known|);
    } else {
      FindIsFirst(known', other, |known'|);
    }
  }

  lemma ScanTurn(before: seq<Plugin>, now: seq<Namespace>, p: Plugin, j: nat, other: Bytes)
    requires j < |p.namespaces| && PluginsIn(now, other) == before + TimesNamed(p, p.namespaces[..j], other)
    ensures PluginsIn(AddTo(now, p.namespaces[j], p), other) == before + TimesNamed(p, p.namespaces[..j + 1], other)
  {
    AddToAdds(now, p.namespaces[j], p, other);
    assert p.namespaces[..j + 1][..j] == p.namespaces[..j];
    var done, more := TimesNamed(p, p.namespaces[..j], other), if other == p.namespaces[j] then [p] else [];
    assert before + done + more == before + (done + more);
  }

  /** All namespaces of one plugin. */
  method ScanPlugin(known: seq<Namespace>, p: Plugin) returns (r: seq<Namespace>)
    ensures GoodTable(known) && |p.classes| == |p.uris| ==> GoodTable(r)
    ensures forall name :: PluginsIn(r, name) == PluginsIn(known, name) + TimesNamed(p, p.namespaces, name)
  {
    r := known;
    assert p.namespaces[..0] == [];
    for j := 0 to |p.namespaces|
      invariant GoodTable(known) && |p.classes| == |p.uris| ==> GoodTable(r)
      invariant forall name :: PluginsIn(r, name) == PluginsIn(known, name) + TimesNamed(p, p.namespaces[..j], name)
    {
      forall other
        ensures PluginsIn(AddTo(r, p.namespaces[j], p), other)
             == PluginsIn(known, other) + TimesNamed(p, p.namespaces[..j + 1], other)
      {
        ScanTurn(PluginsIn(known, other), r, p, j, other);
      }
      r := AddTo(r, p.namespaces[j], p);
    }
    assert p.namespaces[..|p.namespaces|] == p.namespaces;
  }

  /** scan_namespaces: the table lists, under each namespace, exactly the plugins that
      name it, in order. */
  method ScanNamespaces(ps: seq<Plugin>) returns (known: seq<Namespace>)
    ensures GoodPlugins(ps) ==> GoodTable(known)
    ensures forall name :: PluginsIn(known, name) == NamedBy(ps, name)
  {
    known := [];
    for i := 0 to |ps|
      invariant GoodPlugins(ps) ==> GoodTable(known)
      invariant forall name :: PluginsIn(known, name) == NamedBy(ps[..i], name)
    {
      known := ScanPlugin(known, ps[i]);
      assert ps[..i + 1][..i] == ps[..i];
    }
    assert ps[..|ps|] == ps;
  }

  // ----- whose values are in the answer ------------------------------------------------------------------------------

  /** ns is what stands in front of the last colon of attr, or empty without one. */
  predicate InNamespace(attr: Bytes, ns: Bytes) {
    if COLON in attr then
      |ns| < |attr| && attr[..|ns|] == ns && attr[|ns|] == COLON && COLON !in attr[|ns| + 1..]
    else ns == []
  }

  lemma {:induction false} NamespaceIsInFront(attr: Bytes)
    ensures InNamespace(attr, NamespaceOf(attr))
  {
    if attr != [] {
      var n := |attr| - 1;
      if attr[n] == COLON {
        assert attr[n + 1..] == [];
      } else {
        NamespaceIsInFront(attr[..n]);
        assert attr == attr[..n] + [attr[n]];
        var ns := NamespaceOf(attr[..n]);
        if COLON in attr[..n] {
          assert attr[..|ns|] == attr[..n][..|ns|];
          assert attr[|ns| + 1..] == attr[..n][|ns| + 1..] + [attr[n]];
        }
      }
    }
  }

  lemma NoColonBehind(attr: Bytes, n: nat)
    requires n < |attr| && COLON !in attr[n + 1..]
    ensures forall m :: n < m < |attr| ==> attr[m] != COLON
  {
    forall m | n < m < |attr| ensures attr[m] != COLON {
      assert attr[m] == attr[n + 1..][m - n - 1];
    }
  }

  /** The namespace of a name is what is in front of its last colon. */
  lemma NamespaceIff(attr: Bytes, ns: Bytes)
    ensures NamespaceOf(attr) == ns <==> InNamespace(attr, ns)
  {
    NamespaceIsInFront(attr);
    if InNamespace(attr, ns) && COLON in attr {
      NoColonBehind(attr, |ns|);
      NoColonBehind(attr, |NamespaceOf(attr)|);
    }
  }

  lemma NamespaceOfName(ns: Bytes, local: Bytes)
    requires COLON !in local
    ensures NamespaceOf(ns + [COLON] + local) == ns && NamespaceOf(local) == []
  {
    var attr := ns + [COLON] + local;
    assert attr[..|ns|] == ns && attr[|ns|] == COLON && attr[|ns| + 1..] == local;
    NamespaceIff(attr, ns);
    NamespaceIff(local, []);
  }

  /** A value a plugin gives for one of its files: with origin FILE and, unless it has a
      detail of its own, the URI of the class and the name of the file as its detail. */
  predicate FromFile(w: World, p: Plugin, attr: Bytes, l: nat, n: nat, v: AttrVal) {
    && l < |p.classes| == |p.uris| && n < |w.names(p.classes[l])|
    && var name := w.names(p.classes[l])[n];
    && w.fileOpens(p.classes[l], name) && w.pluginOpens(p.id, p.classes[l], name)
    && w.answers(p.id, p.classes[l], name, attr).Some?
    && var detail := p.uris[l] + [32] + if name.Some? then name.value else [];
    exists a :: a in w.answers(p.id, p.classes[l], name, attr).value
      && v == AttrVal(a.name, a.value, a.binary, 3, if a.detail.Some? then a.detail else Some(detail), a.timestamp)
  }

  ghost predicate FromPlugin(w: World, p: Plugin, attr: Bytes, v: AttrVal) {
    exists l: nat, n: nat :: FromFile(w, p, attr, l, n, v)
  }

  /** A tag of the attribute, or the value of a plugin that names its namespace. */
  ghost predicate Answered(w: World, plugins: seq<Plugin>, attr: Bytes, v: AttrVal) {
    || (w.tags(attr).Some? && v in w.tags(attr).value)
    || exists p :: p in plugins && FromPlugin(w, p, attr, v)
                   && exists ns :: ns in p.namespaces && InNamespace(attr, ns)
  }

  lemma StampedMembers(w: World, p: Plugin, attr: Bytes, l: nat, n: nat, v: AttrVal)
    requires l < |p.classes| == |p.uris| && n < |w.names(p.classes[l])|
    ensures v in FileValues(w, p, p.classes[l], p.uris[l], attr, w.names(p.classes[l])[n])
            <==> FromFile(w, p, attr, l, n, v)
  {
    var name := w.names(p.classes[l])[n];
    var answer := w.answers(p.id, p.classes[l], name, attr);
    if answer.Some? {
      var out := StampAll(answer.value, p.uris[l], name);
      forall i | 0 <= i < |answer.value| ensures out[i] == Stamp(answer.value[i], p.uris[l], name) {}
      if a :| a in answer.value && v == Stamp(a, p.uris[l], name) {
        var i :| 0 <= i < |answer.value| && answer.value[i] == a;
        assert out[i] == v;
      }
    }
  }

  lemma {:induction false} ClassMembers(w: World, p: Plugin, c: Bytes, uri: Bytes, attr: Bytes, names: seq<FileName>,
                                        v: AttrVal)
    ensures v in ClassValues(w, p, c, uri, attr, names) <==>
      exists n :: 0 <= n < |names| && v in FileValues(w, p, c, uri, attr, names[n])
  {
    if names != [] {
      var head := names[..|names| - 1];
      ClassMembers(w, p, c, uri, attr, head, v);
      assert forall n :: 0 <= n < |head| ==> head[n] == names[n];
    }
  }

  lemma {:induction false} ClassesMembers(w: World, p: Plugin, attr: Bytes, cs: seq<Bytes>, us: seq<Bytes>, v: AttrVal)
    requires |cs| == |us|
    ensures v in ClassesValues(w, p, attr, cs, us) <==>
      exists l :: 0 <= l < |cs| && v in ClassValues(w, p, cs[l], us[l], attr, w.names(cs[l]))
  {
    if cs != [] {
      var n := |cs| - 1;
      ClassesMembers(w, p, attr, cs[..n], us[..n], v);
      assert forall l :: 0 <= l < n ==> cs[..n][l] == cs[l] && us[..n][l] == us[l];
    }
  }

  lemma PluginMembers(w: World, p: Plugin, attr: Bytes, v: AttrVal)
    requires |p.classes| == |p.uris|
    ensures v in PluginValues(w, p, attr) <==> FromPlugin(w, p, attr, v)
  {
    ClassesMembers(w, p, attr, p.classes, p.uris, v);
    forall l | 0 <= l < |p.classes|
      ensures v in ClassValues(w, p, p.classes[l], p.uris[l], attr, w.names(p.classes[l])) <==>
        exists n: nat :: FromFile(w, p, attr, l, n, v)
    {
      ClassMembers(w, p, p.classes[l], p.uris[l], attr, w.names(p.classes[l]), v);
      forall n | 0 <= n < |w.names(p.classes[l])|
        ensures v in FileValues(w, p, p.classes[l], p.uris[l], attr, w.names(p.classes[l])[n])
                <==> FromFile(w, p, attr, l, n, v)
      {
        StampedMembers(w, p, attr, l, n, v);
      }
    }
  }

  lemma {:induction false} PluginsMembers(w: World, ps: seq<Plugin>, attr: Bytes, v: AttrVal)
    requires GoodPlugins(ps)
    ensures v in PluginsValues(w, ps, attr) <==> exists k :: 0 <= k < |ps| && FromPlugin(w, ps[k], attr, v)
  {
    if ps != [] {
      var head := ps[..|ps| - 1];
      PluginsMembers(w, head, attr, v);
      PluginMembers(w, ps[|ps| - 1], attr, v);
      assert forall k :: 0 <= k < |head| ==> head[k] == ps[k];
    }
  }

  lemma {:induction false} TimesNamedMembers(p: Plugin, names: seq<Bytes>, name: Bytes, q: Plugin)
    ensures q in TimesNamed(p, names, name) <==> q == p && name in names
  {
    if names != [] {
      TimesNamedMembers(p, names[..|names| - 1], name, q);
      assert names == names[..|names| - 1] + [names[|names| - 1]];
    }
  }

  lemma {:induction false} NamedByMembers(ps: seq<Plugin>, name: Bytes, q: Plugin)
    ensures q in NamedBy(ps, name) <==> q in ps && name in q.namespaces
  {
    if ps != [] {
      var last := ps[|ps| - 1];
      NamedByMembers(ps[..|ps| - 1], name, q);
      TimesNamedMembers(last, last.namespaces, name, q);
      assert ps == ps[..|ps| - 1] + [last];
    }
  }

  /** The table as scan_namespaces makes it of the plugins. */
  ghost predicate Scanned(known: seq<Namespace>, plugins: seq<Plugin>) {
    GoodTable(known) && forall name :: PluginsIn(known, name) == NamedBy(plugins, name)
  }

  lemma AttrMembers(w: World, known: seq<Namespace>, plugins: seq<Plugin>, attr: Bytes, v: AttrVal)
    requires Scanned(known, plugins)
    ensures v in AttrValuesFresh(w, known, attr) <==> Answered(w, plugins, attr, v)
  {
    var ns := NamespaceOf(attr);
    var ps := PluginsIn(known, ns);
    PluginsMembers(w, ps, attr, v);
    forall p ensures p in ps <==> p in plugins && exists m :: m in p.namespaces && InNamespace(attr, m) {
      NamedByMembers(plugins, ns, p);
      forall m ensures InNamespace(attr, m) <==> m == ns { NamespaceIff(attr, m); }
    }
    assert v in PluginsValues(w, ps, attr) <==> exists p :: p in ps && FromPlugin(w, p, attr, v);
  }

  /** A value answered for one of the attributes that are not metadata. */
  ghost predicate AnsweredAny(w: World, plugins: seq<Plugin>, attrs: seq<Bytes>, v: AttrVal) {
    exists i :: 0 <= i < |attrs| && !FeedQuery.IsMetadata(attrs[i]) && Answered(w, plugins, attrs[i], v)
  }

  lemma AnsweredSnoc(w: World, plugins: seq<Plugin>, attrs: seq<Bytes>, v: AttrVal)
    requires attrs != []
    ensures var last := attrs[|attrs| - 1];
      AnsweredAny(w, plugins, attrs, v) <==>
        || AnsweredAny(w, plugins, attrs[..|attrs| - 1], v)
        || (!FeedQuery.IsMetadata(last) && Answered(w, plugins, last, v))
  {
    var head := attrs[..|attrs| - 1];
    if AnsweredAny(w, plugins, head, v) {
      var i :| 0 <= i < |head| && !FeedQuery.IsMetadata(head[i]) && Answered(w, plugins, head[i], v);
      assert attrs[i] == head[i];
    }
    if AnsweredAny(w, plugins, attrs, v) {
      var i :| 0 <= i < |attrs| && !FeedQuery.IsMetadata(attrs[i]) && Answered(w, plugins, attrs[i], v);
      if i < |head| { assert head[i] == attrs[i]; }
    }
  }

  lemma OthersSnoc(w: World, known: seq<Namespace>, attrs: seq<Bytes>)
    requires GoodTable(known) && attrs != []
    ensures var head, last := attrs[..|attrs| - 1], attrs[|attrs| - 1];
      AllValuesFresh(w, known, Others(attrs)) == AllValuesFresh(w, known, Others(head))
        + (if FeedQuery.IsMetadata(last) then [] else AttrValuesFresh(w, known, last))
  {
    var head, last := Others(attrs[..|attrs| - 1]), attrs[|attrs| - 1];
    if FeedQuery.IsMetadata(last) {
      assert head + [] == head;
      assert AllValuesFresh(w, known, head) + [] == AllValuesFresh(w, known, head);
    } else {
      assert (head + [last])[..|head|] == head;
    }
  }

  /** The values the call collects are exactly those answered for one of its attributes. */
  lemma {:induction false} CollectedMembers(w: World, known: seq<Namespace>, plugins: seq<Plugin>, attrs: seq<Bytes>,
                                            v: AttrVal)
    requires Scanned(known, plugins)
    ensures v in AllValuesFresh(w, known, Others(attrs)) <==> AnsweredAny(w, plugins, attrs, v)
  {
    if attrs != [] {
      OthersSnoc(w, known, attrs);
      AnsweredSnoc(w, plugins, attrs, v);
      CollectedMembers(w, known, plugins, attrs[..|attrs| - 1], v);
      AttrMembers(w, known, plugins, attrs[|attrs| - 1], v);
    }
  }

  lemma AnswerMembers(w: World, known: seq<Namespace>, plugins: seq<Plugin>, attrs: seq<Bytes>, meta: seq<AttrVal>)
    requires Scanned(known, plugins)
    ensures forall v :: v in AllValuesFresh(w, known, Others(attrs)) + meta <==>
      v in meta || AnsweredAny(w, plugins, attrs, v)
  {
    forall v
      ensures v in AllValuesFresh(w, known, Others(attrs)) + meta <==> v in meta || AnsweredAny(w, plugins, attrs, v)
    {
      CollectedMembers(w, known, plugins, attrs, v);
    }
  }
}
