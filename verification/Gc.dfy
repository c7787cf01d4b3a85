/**
 Cluster-wide mark and sweep of chunks (internal/node/gc.go, internal/chunk/store.go) as a step system.

 Membership is fixed, clocks agree (`now`), and no rebalance deletes metadata. Uploads, garbage
 collections of several coordinators, metadata writes and unrelated chunk writes interleave freely.
 An upload's metadata first lands no later than `grace` after each of its acknowledged chunk writes;
 a collection runs with a grace period of at least that.
 */
module Gc {
  import opened Versions

  type Node = string
  type Key = string
  type ChunkId = string

  /** Object metadata as stored under its key; a tombstone is not live. */
  datatype Record = Record(version: Version, live: bool, chunks: set<ChunkId>)

  datatype Landing = NotLanded | Landed(home: Node, time: int)

  /** `puts`: when each acknowledged copy was last written for this upload. */
  datatype Upload = Upload(key: Key, record: Record, puts: map<(Node, ChunkId), int>, landing: Landing)

  /** One run of `RunGC`. */
  datatype Collection = Collection(start: int, cutoff: int, live: set<ChunkId>, marked: set<Node>)

  datatype State = State(
    now: int,
    files: map<(Node, ChunkId), int>,   // modification time of each stored chunk copy
    meta: map<(Node, Key), Record>,
    uploads: map<nat, Upload>,
    collections: map<nat, Collection>)

  datatype Config = Config(members: set<Node>, grace: int)

  datatype Step =
    | Tick
    | BeginUpload(u: nat, key: Key, record: Record)
    | PutForUpload(u: nat, n: Node, id: ChunkId)
    | PutOther(n: Node, id: ChunkId)
    | Land(u: nat, m: Node)
    | SetMeta(m: Node, key: Key, record: Record)
    | BeginCollection(g: nat, gracePeriod: int)
    | Mark(g: nat, m: Node)
    | Sweep(g: nat, n: Node, spared: set<ChunkId>)  // what a sweep that stops early leaves

  /** `Memory.Set` on metadata. */
  function Store(meta: map<(Node, Key), Record>, m: Node, k: Key, r: Record): map<(Node, Key), Record> {
    if (m, k) in meta && Leq(r.version, meta[(m, k)].version) then meta else meta[(m, k) := r]
  }

  /** `markLiveChunks`: the chunks of all live records the member holds. */
  ghost function LiveAt(meta: map<(Node, Key), Record>, m: Node): set<ChunkId> {
    set mk, id | mk in meta && mk.0 == m && meta[mk].live && id in meta[mk].chunks :: id
  }

  /** `Store.Sweep` on node `n`. */
  predicate Doomed(c: Collection, n: Node, copy: (Node, ChunkId), mtime: int) {
    copy.0 == n && copy.1 !in c.live && mtime < c.cutoff
  }

  ghost predicate Enabled(cfg: Config, s: State, step: Step) {
    match step
    case Tick => true
    case BeginUpload(u, _, _) => u !in s.uploads
    case PutForUpload(u, n, id) => u in s.uploads && s.uploads[u].landing.NotLanded?
    case PutOther(n, id) => true
    case Land(u, m) =>
      && u in s.uploads && s.uploads[u].landing.NotLanded? && m in cfg.members
      && forall copy :: copy in s.uploads[u].puts ==> s.now <= s.uploads[u].puts[copy] + cfg.grace
    case SetMeta(m, _, _) => true
    case BeginCollection(g, gracePeriod) => g !in s.collections && gracePeriod >= cfg.grace
    case Mark(g, m) => g in s.collections && m in cfg.members
    case Sweep(g, n, _) => g in s.collections && cfg.members <= s.collections[g].marked
  }

  ghost function Do(cfg: Config, s: State, step: Step): State
    requires Enabled(cfg, s, step)
  {
    match step
    case Tick => s.(now := s.now + 1)
    case BeginUpload(u, key, record) => s.(uploads := s.uploads[u := Upload(key, record, map[], NotLanded)])
    case PutForUpload(u, n, id) =>
      s.(files := s.files[(n, id) := s.now],
         uploads := s.uploads[u := s.uploads[u].(puts := s.uploads[u].puts[(n, id) := s.now])])
    case PutOther(n, id) => s.(files := s.files[(n, id) := s.now])
    case Land(u, m) =>
      var up := s.uploads[u];
      s.(meta := Store(s.meta, m, up.key, up.record), uploads := s.uploads[u := up.(landing := Landed(m, s.now))])
    case SetMeta(m, key, record) => s.(meta := Store(s.meta, m, key, record))
    case BeginCollection(g, gracePeriod) =>
      s.(collections := s.collections[g := Collection(s.now, s.now - gracePeriod, {}, {})])
    case Mark(g, m) =>
      var c := s.collections[g];
      s.(collections := s.collections[g := c.(live := c.live + LiveAt(s.meta, m), marked := c.marked + {m})])
    case Sweep(g, n, spared) =>
      s.(files := map copy
           | copy in s.files && !(Doomed(s.collections[g], n, copy, s.files[copy]) && copy.1 !in spared)
           :: s.files[copy])
  }

  const INITIAL := State(0, map[], map[], map[], map[])

  ghost function Run(cfg: Config, steps: seq<Step>): State {
    if steps == [] then INITIAL
    else
      var s := Run(cfg, steps[..|steps| - 1]);
      if Enabled(cfg, s, steps[|steps| - 1]) then Do(cfg, s, steps[|steps| - 1]) else s
  }

  lemma RunMore(cfg: Config, before: seq<Step>, step: Step)
    requires Enabled(cfg, Run(cfg, before), step)
    ensures Run(cfg, before + [step]) == Do(cfg, Run(cfg, before), step)
  {
    assert (before + [step])[..|before|] == before;
  }

  // ------------------------------------------------------------------ invariant

  /** The member the metadata first landed on still holds exactly that record, and it is live. */
  ghost predicate Current(s: State, up: Upload) {
    && up.landing.Landed? && up.record.live
    && (up.landing.home, up.key) in s.meta && s.meta[(up.landing.home, up.key)] == up.record
  }

  ghost predicate TimesRight(cfg: Config, s: State, up: Upload) {
    && (forall copy :: copy in up.puts ==>
          && up.puts[copy] <= s.now
          && (copy in s.files ==> up.puts[copy] <= s.files[copy])
          && (up.landing.Landed? ==> up.landing.time <= up.puts[copy] + cfg.grace))
    && (up.landing.Landed? ==>
          && up.landing.time <= s.now && up.landing.home in cfg.members
          && (up.landing.home, up.key) in s.meta
          && Leq(up.record.version, s.meta[(up.landing.home, up.key)].version))
  }

  /** An upload that can still land, or whose metadata is current, has all its acknowledged copies. */
  ghost predicate CopiesKept(cfg: Config, s: State, up: Upload) {
    && (forall copy :: copy in up.puts && up.landing.NotLanded? && s.now <= up.puts[copy] + cfg.grace ==>
         copy in s.files)
    && (forall copy :: copy in up.puts && copy.1 in up.record.chunks && Current(s, up) ==> copy in s.files)
  }

  ghost predicate CollectionRight(cfg: Config, s: State, c: Collection) {
    c.start <= s.now && c.cutoff <= c.start - cfg.grace
  }

  /** A collection has marked every chunk of metadata that landed before it began and is still current. */
  ghost predicate MarkCovers(s: State, c: Collection, up: Upload) {
    Current(s, up) && up.landing.time < c.start && up.landing.home in c.marked ==> up.record.chunks <= c.live
  }

  ghost predicate UploadsRight(cfg: Config, s: State) {
    forall u :: u in s.uploads ==> TimesRight(cfg, s, s.uploads[u]) && CopiesKept(cfg, s, s.uploads[u])
  }

  ghost predicate CollectionsRight(cfg: Config, s: State) {
    && (forall g :: g in s.collections ==> CollectionRight(cfg, s, s.collections[g]))
    && (forall g, u :: g in s.collections && u in s.uploads ==> MarkCovers(s, s.collections[g], s.uploads[u]))
  }

  ghost predicate Inv(cfg: Config, s: State) {
    UploadsRight(cfg, s) && CollectionsRight(cfg, s)
  }

  /** Metadata on its home only moves forward, so a record that is no longer current never becomes so again. */
  lemma StoreForward(s: State, t: State, m: Node, k: Key, r: Record, up: Upload)
    requires t.meta == Store(s.meta, m, k, r)
    requires up.landing.Landed? ==>
               (up.landing.home, up.key) in s.meta && Leq(up.record.version, s.meta[(up.landing.home, up.key)].version)
    ensures up.landing.Landed? ==>
               (up.landing.home, up.key) in t.meta && Leq(up.record.version, t.meta[(up.landing.home, up.key)].version)
    ensures Current(t, up) ==> Current(s, up)
  {
    VersionsTotallyOrdered();
    hide Leq;
  }

  /** A sweep after a full mark spares every copy an upload still relies on. */
  lemma SweepSpares(cfg: Config, s: State, g: nat, n: Node, spared: set<ChunkId>, u: nat, copy: (Node, ChunkId))
    requires Inv(cfg, s) && Enabled(cfg, s, Sweep(g, n, spared))
    requires u in s.uploads && copy in s.uploads[u].puts && copy in s.files
    requires (s.uploads[u].landing.NotLanded? && s.now <= s.uploads[u].puts[copy] + cfg.grace)
             || (Current(s, s.uploads[u]) && copy.1 in s.uploads[u].record.chunks)
             || (s.uploads[u].landing.Landed? && s.uploads[u].landing.time >= s.collections[g].start)
    ensures !Doomed(s.collections[g], n, copy, s.files[copy])
  {
    hide Leq, CopiesKept;
    var up, c := s.uploads[u], s.collections[g];
    assert TimesRight(cfg, s, up) && CollectionRight(cfg, s, c) && MarkCovers(s, c, up);
  }

  lemma TimesKept(cfg: Config, s: State, step: Step, u: nat)
    requires Inv(cfg, s) && Enabled(cfg, s, step) && u in Do(cfg, s, step).uploads
    ensures TimesRight(cfg, Do(cfg, s, step), Do(cfg, s, step).uploads[u])
  {
    hide Store, Leq, CollectionsRight, CopiesKept, LiveAt, Doomed;
    var t := Do(cfg, s, step);
    if u in s.uploads {
      assert TimesRight(cfg, s, s.uploads[u]);
    }
    match step {
      case Land(v, m) =>
        StoreForward(s, t, m, s.uploads[v].key, s.uploads[v].record, s.uploads[u]);
        StoredAtLeast(s.meta, m, s.uploads[v].key, s.uploads[v].record);
      case SetMeta(m, key, record) =>
        if u in s.uploads {
          StoreForward(s, t, m, key, record, s.uploads[u]);
        }
      case _ =>
    }
  }

  lemma StoredAtLeast(meta: map<(Node, Key), Record>, m: Node, k: Key, r: Record)
    ensures (m, k) in Store(meta, m, k, r) && Leq(r.version, Store(meta, m, k, r)[(m, k)].version)
  {
    CompareVersionSeparates(r.version, r.version);
  }

  lemma SweepKeepsCopies(cfg: Config, s: State, g: nat, n: Node, spared: set<ChunkId>, u: nat)
    requires Inv(cfg, s) && Enabled(cfg, s, Sweep(g, n, spared)) && u in s.uploads
    ensures CopiesKept(cfg, Do(cfg, s, Sweep(g, n, spared)), s.uploads[u])
  {
    hide Leq, LiveAt, Doomed;
    var t, up := Do(cfg, s, Sweep(g, n, spared)), s.uploads[u];
    assert TimesRight(cfg, s, up) && CopiesKept(cfg, s, up);
    forall copy | copy in up.puts && copy in s.files
      && ((up.landing.NotLanded? && s.now <= up.puts[copy] + cfg.grace) ||
         (Current(s, up) && copy.1 in up.record.chunks))
      ensures copy in t.files
    {
      SweepSpares(cfg, s, g, n, spared, u, copy);
    }
  }

  lemma CopiesStayKept(cfg: Config, s: State, step: Step, u: nat)
    requires Inv(cfg, s) && Enabled(cfg, s, step) && u in Do(cfg, s, step).uploads
    ensures CopiesKept(cfg, Do(cfg, s, step), Do(cfg, s, step).uploads[u])
  {
    if step.Sweep? {
      SweepKeepsCopies(cfg, s, step.g, step.n, step.spared, u);
    } else {
      UploadsKeepCopies(cfg, s, step, u);
    }
    hide Do, Enabled, Inv, CopiesKept;
  }

  lemma UploadsKeepCopies(cfg: Config, s: State, step: Step, u: nat)
    requires Inv(cfg, s) && Enabled(cfg, s, step) && u in Do(cfg, s, step).uploads && !step.Sweep?
    ensures CopiesKept(cfg, Do(cfg, s, step), Do(cfg, s, step).uploads[u])
  {
    if u !in s.uploads {
      NewUploadKept(cfg, s, step, u);
    } else if step.Land? || step.SetMeta? {
      WritesKeepCopies(cfg, s, step, u);
    } else {
      OthersKeepCopies(cfg, s, step, u);
    }
    hide Do, Enabled, CopiesKept, TimesRight, CollectionsRight;
  }

  lemma NewUploadKept(cfg: Config, s: State, step: Step, u: nat)
    requires Enabled(cfg, s, step) && u in Do(cfg, s, step).uploads && u !in s.uploads
    ensures CopiesKept(cfg, Do(cfg, s, step), Do(cfg, s, step).uploads[u])
  {
    hide Store, LiveAt, Doomed;
  }

  lemma OthersKeepCopies(cfg: Config, s: State, step: Step, u: nat)
    requires Enabled(cfg, s, step) && u in s.uploads && !step.Sweep? && !step.Land? && !step.SetMeta?
    requires TimesRight(cfg, s, s.uploads[u]) && CopiesKept(cfg, s, s.uploads[u])
    ensures u in Do(cfg, s, step).uploads && CopiesKept(cfg, Do(cfg, s, step), Do(cfg, s, step).uploads[u])
  {
    hide Store, Leq, LiveAt, Doomed;
  }

  /** Metadata arrives: on its home it only moves forward. */
  lemma WritesKeepCopies(cfg: Config, s: State, step: Step, u: nat)
    requires Enabled(cfg, s, step) && u in s.uploads && (step.Land? || step.SetMeta?)
    requires TimesRight(cfg, s, s.uploads[u]) && CopiesKept(cfg, s, s.uploads[u])
    ensures CopiesKept(cfg, Do(cfg, s, step), Do(cfg, s, step).uploads[u])
  {
    hide Store, Leq;
    var t := Do(cfg, s, step);
    if step.Land? {
      StoreForward(s, t, step.m, s.uploads[step.u].key, s.uploads[step.u].record, s.uploads[u]);
    } else {
      StoreForward(s, t, step.m, step.key, step.record, s.uploads[u]);
    }
  }

  lemma MarkStaysCovering(cfg: Config, s: State, step: Step, g: nat, u: nat)
    requires Inv(cfg, s) && Enabled(cfg, s, step)
    requires g in Do(cfg, s, step).collections && u in Do(cfg, s, step).uploads
    ensures MarkCovers(Do(cfg, s, step), Do(cfg, s, step).collections[g], Do(cfg, s, step).uploads[u])
  {
    hide Store, Leq, CopiesKept, Doomed;
    var t := Do(cfg, s, step);
    if u in s.uploads {
      assert TimesRight(cfg, s, s.uploads[u]);
      if g in s.collections {
        assert MarkCovers(s, s.collections[g], s.uploads[u]) && CollectionRight(cfg, s, s.collections[g]);
      }
    }
    match step {
      case Land(v, m) => StoreForward(s, t, m, s.uploads[v].key, s.uploads[v].record, s.uploads[u]);
      case SetMeta(m, key, record) =>
        if u in s.uploads {
          StoreForward(s, t, m, key, record, s.uploads[u]);
        }
      case Mark(h, m) =>
        if h == g && Current(s, s.uploads[u]) && s.uploads[u].landing.home == m {
          var up := s.uploads[u];
          forall id | id in up.record.chunks ensures id in LiveAt(s.meta, m) {
            assert (m, up.key) in s.meta;
          }
        }
      case _ =>
    }
  }

  lemma InvKept(cfg: Config, s: State, step: Step)
    requires Inv(cfg, s) && Enabled(cfg, s, step)
    ensures Inv(cfg, Do(cfg, s, step))
  {
    hide TimesRight, CopiesKept, MarkCovers;
    var t := Do(cfg, s, step);
    forall u | u in t.uploads ensures TimesRight(cfg, t, t.uploads[u]) && CopiesKept(cfg, t, t.uploads[u]) {
      TimesKept(cfg, s, step, u);
      CopiesStayKept(cfg, s, step, u);
    }
    forall g, u | g in t.collections && u in t.uploads ensures MarkCovers(t, t.collections[g], t.uploads[u]) {
      MarkStaysCovering(cfg, s, step, g, u);
    }
  }

  lemma {:induction false} InvAlways(cfg: Config, steps: seq<Step>)
    ensures Inv(cfg, Run(cfg, steps))
  {
    if steps != [] {
      var n := |steps| - 1;
      hide Inv, Do, Enabled;
      InvAlways(cfg, steps[..n]);
      if Enabled(cfg, Run(cfg, steps[..n]), steps[n]) {
        InvKept(cfg, Run(cfg, steps[..n]), steps[n]);
      }
    }
  }

  // ------------------------------------------------------------------ main results

  /**
   In every run, as long as the member an upload's metadata first landed on still holds that live record,
   every acknowledged copy of every chunk it references is still stored.
   */
  lemma CurrentObjectsIntact(cfg: Config, steps: seq<Step>, u: nat, copy: (Node, ChunkId))
    requires u in Run(cfg, steps).uploads && copy in Run(cfg, steps).uploads[u].puts
    requires Current(Run(cfg, steps), Run(cfg, steps).uploads[u]) && copy.1 in Run(cfg, steps).uploads[u].record.chunks
    ensures copy in Run(cfg, steps).files
  {
    InvAlways(cfg, steps);
    assert CopiesKept(cfg, Run(cfg, steps), Run(cfg, steps).uploads[u]);
  }

  /** An upload that can still land in time finds all its acknowledged copies in place. */
  lemma PendingUploadsIntact(cfg: Config, steps: seq<Step>, u: nat, m: Node, copy: (Node, ChunkId))
    requires Enabled(cfg, Run(cfg, steps), Land(u, m)) && copy in Run(cfg, steps).uploads[u].puts
    ensures copy in Run(cfg, steps).files
  {
    InvAlways(cfg, steps);
    assert CopiesKept(cfg, Run(cfg, steps), Run(cfg, steps).uploads[u]);
  }

  /** A sweep never deletes a copy acknowledged to an upload whose metadata landed after the collection began. */
  lemma SweepSparesLateUploads(cfg: Config, steps: seq<Step>, g: nat, n: Node, spared: set<ChunkId>, u: nat,
                               copy: (Node, ChunkId))
    requires Enabled(cfg, Run(cfg, steps), Sweep(g, n, spared))
    requires var s := Run(cfg, steps);
             && u in s.uploads && copy in s.uploads[u].puts && copy in s.files
             && s.uploads[u].landing.Landed? && s.uploads[u].landing.time >= s.collections[g].start
    ensures copy in Do(cfg, Run(cfg, steps), Sweep(g, n, spared)).files
  {
    InvAlways(cfg, steps);
    SweepSpares(cfg, Run(cfg, steps), g, n, spared, u, copy);
  }

  /** What a collection has marked stays marked until its end. */
  lemma {:induction false} LiveOnlyGrows(cfg: Config, before: seq<Step>, after: seq<Step>, g: nat)
    requires g in Run(cfg, before).collections
    ensures g in Run(cfg, before + after).collections
    ensures Run(cfg, before).collections[g].live <= Run(cfg, before + after).collections[g].live
  {
    if after == [] {
      assert before + after == before;
    } else {
      var n := |after| - 1;
      assert (before + after)[..|before + after| - 1] == before + after[..n];
      LiveOnlyGrows(cfg, before, after[..n], g);
      hide Do, Enabled;
      if Enabled(cfg, Run(cfg, before + after[..n]), after[n]) {
        StepKeepsLive(cfg, Run(cfg, before + after[..n]), after[n], g);
      }
    }
  }

  lemma StepKeepsLive(cfg: Config, s: State, step: Step, g: nat)
    requires g in s.collections && Enabled(cfg, s, step)
    ensures g in Do(cfg, s, step).collections && s.collections[g].live <= Do(cfg, s, step).collections[g].live
  {
    hide LiveAt, Store, Doomed;
  }

  /**
   A chunk referenced by live metadata that a member held when it was marked is never deleted by that
   collection, on any node and however much later the sweep happens.
   */
  lemma SweepSparesMarked(cfg: Config, before: seq<Step>, g: nat, m: Node, k: Key, after: seq<Step>, n: Node,
                          spared: set<ChunkId>, copy: (Node, ChunkId))
    requires var s := Run(cfg, before);
             && Enabled(cfg, s, Mark(g, m)) && (m, k) in s.meta && s.meta[(m, k)].live &&
                copy.1 in s.meta[(m, k)].chunks
    requires var t := Run(cfg, before + [Mark(g, m)] + after);
             Enabled(cfg, t, Sweep(g, n, spared)) && copy in t.files
    ensures copy in Do(cfg, Run(cfg, before + [Mark(g, m)] + after), Sweep(g, n, spared)).files
  {
    var s := Run(cfg, before);
    assert (before + [Mark(g, m)])[..|before|] == before;
    assert Run(cfg, before + [Mark(g, m)]) == Do(cfg, s, Mark(g, m));
    assert copy.1 in LiveAt(s.meta, m);
    LiveOnlyGrows(cfg, before + [Mark(g, m)], after, g);
  }

  // ------------------------------------------------------------------ what can happen

  /** The acknowledged chunk writes of an upload, one after the other. */
  function Puts(u: nat, copies: seq<(Node, ChunkId)>): seq<Step> {
    if copies == [] then []
    else Puts(u, copies[..|copies| - 1]) + [PutForUpload(u, copies[|copies| - 1].0, copies[|copies| - 1].1)]
  }

  /** An upload under way: its copies so far are stored with the time of now. */
  ghost predicate Writing(s: State, t: State, u: nat, key: Key, record: Record, copies: seq<(Node, ChunkId)>) {
    && u in t.uploads && t.uploads[u].key == key && t.uploads[u].record == record && t.uploads[u].landing.NotLanded?
    && t.now == s.now && t.meta == s.meta && t.collections == s.collections
    && (forall copy :: copy in t.uploads[u].puts <==> copy in copies)
    && (forall copy :: copy in copies ==> t.uploads[u].puts[copy] == s.now && copy in t.files && t.files[copy] == s.now)
    && (forall copy :: copy !in copies ==> (copy in t.files <==> copy in s.files) &&
                                           (copy in s.files ==> t.files[copy] == s.files[copy]))
  }

  lemma {:induction false} PutsStore(cfg: Config, before: seq<Step>, u: nat, key: Key, record: Record,
                                     copies: seq<(Node, ChunkId)>)
    requires u !in Run(cfg, before).uploads
    ensures Writing(Run(cfg, before), Run(cfg, before + [BeginUpload(u, key, record)] + Puts(u, copies)), u, key,
                    record, copies)
  {
    var begun := before + [BeginUpload(u, key, record)];
    if copies == [] {
      RunMore(cfg, before, BeginUpload(u, key, record));
      assert begun + Puts(u, []) == begun;
    } else {
      var n := |copies| - 1;
      PutsStore(cfg, before, u, key, record, copies[..n]);
      var step := PutForUpload(u, copies[n].0, copies[n].1);
      assert begun + Puts(u, copies) == begun + Puts(u, copies[..n]) + [step];
      RunMore(cfg, begun + Puts(u, copies[..n]), step);
      assert copies == copies[..n] + [copies[n]];
      hide Run, Puts;
      PutStores(cfg, Run(cfg, before), Run(cfg, begun + Puts(u, copies[..n])), u, key, record, copies[..n], copies[n]);
    }
  }

  lemma PutStores(cfg: Config, s: State, t: State, u: nat, key: Key, record: Record, copies: seq<(Node, ChunkId)>,
                  copy: (Node, ChunkId))
    requires Writing(s, t, u, key, record, copies)
    ensures var step := PutForUpload(u, copy.0, copy.1);
            Enabled(cfg, t, step) && Writing(s, Do(cfg, t, step), u, key, record, copies + [copy])
  {
    assert (copy.0, copy.1) == copy;
    assert forall c :: c in copies + [copy] <==> c in copies || c == copy;
  }

  /**
   An upload can always complete: after any run its chunks can be written and its metadata land at once, and then every
   copy is stored with the time of now and the member holds the record, unless it holds one at least as new.
   */
  lemma UploadCanLand(cfg: Config, before: seq<Step>, u: nat, key: Key, record: Record,
                      copies: seq<(Node, ChunkId)>, m: Node)
    requires u !in Run(cfg, before).uploads && m in cfg.members && cfg.grace >= 0
    ensures var s := Run(cfg, before);
            var t := Run(cfg, before + [BeginUpload(u, key, record)] + Puts(u, copies) + [Land(u, m)]);
            && u in t.uploads && t.uploads[u].landing == Landed(m, s.now) && t.uploads[u].record == record
            && (forall copy :: copy in copies ==>
                  copy in t.uploads[u].puts && copy in t.files && t.files[copy] == s.now)
            && t.meta == (if (m, key) in s.meta && Leq(record.version, s.meta[(m, key)].version) then s.meta
                          else s.meta[(m, key) := record])
  {
    PutsStore(cfg, before, u, key, record, copies);
    var steps := before + [BeginUpload(u, key, record)] + Puts(u, copies);
    RunMore(cfg, steps, Land(u, m));
    hide Run, Puts;
  }

  /** Time, other writes of chunks and other metadata go on whatever else happens. */
  lemma OthersGoOn(cfg: Config, s: State, n: Node, id: ChunkId, key: Key, record: Record)
    ensures Enabled(cfg, s, Tick) && Do(cfg, s, Tick) == s.(now := s.now + 1)
    ensures Enabled(cfg, s, PutOther(n, id)) && Do(cfg, s, PutOther(n, id)) == s.(files := s.files[(n, id) := s.now])
    ensures Enabled(cfg, s, SetMeta(n, key, record)) &&
            var t := Do(cfg, s, SetMeta(n, key, record));
            && t == s.(meta := t.meta) && (n, key) in t.meta && Leq(record.version, t.meta[(n, key)].version)
            && (t.meta[(n, key)] == record || ((n, key) in s.meta && t.meta == s.meta))
            && forall mk :: mk != (n, key) ==>
                 (mk in t.meta <==> mk in s.meta) && (mk in s.meta ==> t.meta[mk] == s.meta[mk])
  {
    VersionsTotallyOrdered();
    hide Leq;
  }

  /** What a member contributes to a mark: exactly the chunks of its own live records. */
  lemma LiveAtIff(meta: map<(Node, Key), Record>, m: Node, id: ChunkId)
    ensures id in LiveAt(meta, m) <==> exists k :: (m, k) in meta && meta[(m, k)].live && id in meta[(m, k)].chunks
  {
    if id in LiveAt(meta, m) {
      var mk :| mk in meta && mk.0 == m && meta[mk].live && id in meta[mk].chunks;
      assert mk == (m, mk.1);
    }
  }

  /** A sweep deletes the doomed copies of its node, except those it did not reach, and touches nothing else. */
  lemma SweepMeans(cfg: Config, s: State, g: nat, n: Node, spared: set<ChunkId>)
    requires Enabled(cfg, s, Sweep(g, n, spared))
    ensures var c, t := s.collections[g], Do(cfg, s, Sweep(g, n, spared));
            && t == s.(files := t.files)
            && (forall copy :: copy in t.files <==>
                  copy in s.files &&
                  !(copy.0 == n && copy.1 !in c.live && copy.1 !in spared && s.files[copy] < c.cutoff))
            && (forall copy :: copy in t.files ==> t.files[copy] == s.files[copy])
  {
  }
}
