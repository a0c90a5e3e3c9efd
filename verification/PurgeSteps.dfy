/** The purge of old bolt snapshots and of unused files, and backups. */
module PurgeSteps {
  import opened Snapshots
  import opened IndexSpec
  import opened Store
  import opened Protocol
  import opened ProtocolInvariant
  import opened RootSteps
  import opened MergeSteps

  // ---- old bolt snapshots ----

  /** The newest snapshot is protected however few are to be kept. */
  lemma {:induction false} NewestProtected(bolt: map<nat, Record>, keep: nat)
    requires bolt != map[] && keep >= 1
    ensures Max(bolt.Keys) in Protected(bolt.Keys, keep)
  {
    assert Newer(bolt.Keys, Max(bolt.Keys)) == {};
  }

  lemma {:induction false} MaxOfFewer(all: set<nat>, some: set<nat>)
    requires some <= all && all != {} && Max(all) in some
    ensures Max(some) == Max(all)
  {
  }

  lemma {:induction false} PurgeKeepsNewest(s: State, keep: nat)
    requires keep >= 1 && s.bolt != map[]
    ensures
      var t := DoPurgeBolt(s, keep);
      && t.bolt.Keys <= s.bolt.Keys && (forall e <- t.bolt :: t.bolt[e] == s.bolt[e])
      && t.bolt != map[] && Max(t.bolt.Keys) == Max(s.bolt.Keys)
      && NewestFiles(t.bolt) == NewestFiles(s.bolt)
  {
    NewestProtected(s.bolt, keep);
    var t := DoPurgeBolt(s, keep);
    assert Max(s.bolt.Keys) in t.bolt;
    MaxOfFewer(s.bolt.Keys, t.bolt.Keys);
  }

  /** An epoch is left if there are at most `keep`, or if it was not eligible, or if fewer than `keep` are
      newer, each with its record; eligible ones are left so as well, unless they were not in bolt at all. */
  ghost predicate Purges(bolt: map<nat, Record>, eligible: set<nat>, keep: nat, boltAfter: map<nat, Record>, eligibleAfter: set<nat>) {
    && (forall e: nat :: e in boltAfter <==>
          e in bolt && (|bolt| <= keep || e !in eligible || |set f: nat | f in bolt && f > e| < keep))
    && (forall e: nat | e in bolt && e in boltAfter :: boltAfter[e] == bolt[e])
    && (forall e: nat :: e in eligibleAfter <==>
          e in eligible && (|bolt| <= keep || (e in bolt && |set f: nat | f in bolt && f > e| < keep)))
  }

  lemma {:induction false} PurgeLeaves(bolt: map<nat, Record>, eligible: set<nat>, keep: nat)
    ensures Purges(bolt, eligible, keep, LeftInBolt(bolt, eligible, keep), LeftEligible(bolt, eligible, keep))
  {
    forall e: nat
      ensures e in Protected(bolt.Keys, keep) <==> e in bolt && |set f: nat | f in bolt && f > e| < keep
    {
      assert Newer(bolt.Keys, e) == set f: nat | f in bolt && f > e;
    }
    hide Protected;
  }

  /** The step removes exactly what is eligible and not among the newest. */
  lemma {:induction false} PurgeBoltLeaves(s: State, keep: nat)
    requires Enabled(s, PurgeBolt(keep))
    ensures var t := Do(s, PurgeBolt(keep)); Purges(s.bolt, s.eligible, keep, t.bolt, t.eligible)
  {
    PurgeLeaves(s.bolt, s.eligible, keep);
  }

  lemma {:induction false} PurgeBoltRecords(s: State, t: State)
    requires BoltInv(s) && t.bolt.Keys <= s.bolt.Keys && (forall e <- t.bolt :: t.bolt[e] == s.bolt[e])
    requires t == s.(bolt := t.bolt, eligible := t.eligible)
    requires if s.bolt == map[] then t.bolt == map[] else t.bolt != map[] && Max(t.bolt.Keys) == Max(s.bolt.Keys)
    ensures BoltInv(t)
  {
    hide RecordOk;
    forall e | e in t.bolt
      ensures RecordOk(t, t.bolt[e], t.upTo[e])
    {
      SameRecord(s, t, s.bolt[e], s.upTo[e]);
    }
  }

  lemma {:induction false} SameRecord(s: State, t: State, record: Record, n: nat)
    requires RecordOk(s, record, n) && t.files == s.files && t.log == s.log
    ensures RecordOk(t, record, n)
  {
    hide Loadable, Represents, SegmentsOk;
  }

  lemma {:induction false} PurgeBoltKeepsInv(s: State, keep: nat)
    requires Inv(s) && s.flush.Idle? && keep >= 1
    ensures Inv(DoPurgeBolt(s, keep))
  {
    hide RootInv, IdsInv, BatchesInv, MergerInv, BoltInv, AckInv, Protected, Extends, Reserved, Evolves;
    var t := DoPurgeBolt(s, keep);
    if s.bolt != map[] {
      PurgeKeepsNewest(s, keep);
      PurgeBoltRecords(s, t);
      EvolvesHere(s);
      SameDisk(s, t);
      KeepRoot(s, t);
      KeepIds(s, t);
      KeepMerger(s, t, {});
      KeepBatches(s, t);
      KeepAcks(s, t);
    }
  }

  lemma {:induction false} MarkEligibleKeepsInv(s: State, epoch: nat)
    requires Inv(s)
    ensures Inv(s.(eligible := s.eligible + {epoch}))
  {
    hide RootInv, IdsInv, BatchesInv, MergerInv, FlushInv, BoltInv, AckInv;
    BackgroundKeepsInv(s, s.(eligible := s.eligible + {epoch}));
  }

  // ---- files ----

  /** Every file that the root reads is listed by a bolt snapshot, marked ineligible for removal, or
      scheduled for a backup. */
  predicate PurgeIsSafe(s: State) {
    forall i | 0 <= i < |s.root.segments| && s.root.segments[i].file ::
      var id := s.root.segments[i].id;
      id in BoltFiles(s.bolt) || id in s.ineligible || id in Scheduled(s.readers)
  }

  lemma {:induction false} NewestFilesInBolt(bolt: map<nat, Record>)
    ensures NewestFiles(bolt) <= BoltFiles(bolt)
  {
  }

  lemma {:induction false} PurgeFilesRecords(s: State)
    requires BoltInv(s)
    ensures BoltInv(DoPurgeFiles(s))
  {
    hide RecordOk, AlreadyWritten, Needed;
    var t := DoPurgeFiles(s);
    forall e | e in t.bolt
      ensures RecordOk(t, t.bolt[e], t.upTo[e])
    {
      RecordStays(s, e);
    }
  }

  lemma {:induction false} RecordStays(s: State, e: nat)
    requires e in s.bolt && e in s.upTo && RecordOk(s, s.bolt[e], s.upTo[e])
    ensures RecordOk(DoPurgeFiles(s), s.bolt[e], s.upTo[e])
  {
    RecordFilesAre(s, s.bolt[e], s.upTo[e]);
    assert s.bolt[e].Files() <= BoltFiles(s.bolt);
    RecordFrame(s, DoPurgeFiles(s), s.bolt[e], s.upTo[e]);
  }

  lemma {:induction false} SafeIsNeeded(s: State)
    ensures PurgeIsSafe(s) <==> FileIds(s.root.segments) <= Needed(s)
  {
    hide BoltFiles, Scheduled;
    forall i | 0 <= i < |s.root.segments| && s.root.segments[i].file
      ensures s.root.segments[i].id in FileIds(s.root.segments)
    {
    }
  }

  /** Exactly then the purge keeps the invariant. */
  lemma {:induction false} PurgeFilesKeepsInvIff(s: State)
    requires Inv(s) && s.flush.Idle?
    ensures Inv(DoPurgeFiles(s)) <==> PurgeIsSafe(s)
  {
    hide RootInv, BoltInv, AckInv, Represents, EarlierStates, BatchOk, TaskFor, PurgeIsSafe;
    var t := DoPurgeFiles(s);
    PurgeFilesRecords(s);
    NewestFilesInBolt(s.bolt);
    SafeIsNeeded(s);
    if PurgeIsSafe(s) {
      assert RootInv(t) by { PurgeFrame(s); }
      assert MergerInv(t) by { PurgeFrame(s); }
      KeepAcks(s, t);
      assert FileIds(s.root.segments) <= t.files.Keys;
    }
  }

  lemma {:induction false} PurgeFrame(s: State)
    requires RootInv(s) && MergerInv(s)
    ensures RootInv(DoPurgeFiles(s)) && MergerInv(DoPurgeFiles(s))
  {
    hide Represents, TaskFor, EarlierStates;
  }

  /** Only a commit that failed after the swap can make a purge unsafe. */
  lemma {:induction false} PurgeSafeWithoutFailures(s: State)
    requires Inv(s) && s.flush.Idle? && s.orphans == {}
    ensures PurgeIsSafe(s)
  {
    hide RootInv, IdsInv, BatchesInv, MergerInv, FlushInv, BoltInv, AckInv;
    NewestFilesInBolt(s.bolt);
    SafeIsNeeded(s);
  }

  // ---- backups ----

  lemma {:induction false} OpenBackupFiles(s: State, t: State)
    requires FileInv(s) && t == s.(readers := s.readers + [Reader(Ids(s.root.segments), FileIds(s.root.segments))])
    ensures FileInv(t)
  {
    assert FileIds(s.root.segments) <= Ids(s.root.segments);
  }

  lemma {:induction false} OpenBackupKeepsInv(s: State)
    requires Inv(s)
    ensures Inv(s.(readers := s.readers + [Reader(Ids(s.root.segments), FileIds(s.root.segments))]))
  {
    hide RootInv, IdsInv, BatchesInv, MergerInv, FlushInv, BoltInv, FileInv, AckInv;
    var t := s.(readers := s.readers + [Reader(Ids(s.root.segments), FileIds(s.root.segments))]);
    OpenBackupFiles(s, t);
    BackgroundKeepsInv(s, t);
  }

  lemma {:induction false} CloseBackupKeepsInv(s: State, i: nat)
    requires Inv(s) && i < |s.readers|
    ensures Inv(s.(readers := s.readers[..i] + s.readers[i + 1..]))
  {
    hide RootInv, IdsInv, BatchesInv, MergerInv, FlushInv, BoltInv, AckInv;
    BackgroundKeepsInv(s, s.(readers := s.readers[..i] + s.readers[i + 1..]));
  }
}
