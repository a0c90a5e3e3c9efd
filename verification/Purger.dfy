/** Removing old bolt snapshots and unused files, and the counters that keep a backup's files. */
module Purger {
  import opened Segments
  import opened Snapshots
  import opened Store
  import opened Protocol
  import opened Uvarint
  import opened BoltCursor
  import opened Options
  import opened Recovery
  import PurgeSteps

  /** Persisted epochs as the metadata lists them: newest first. */
  predicate NewestFirst(epochs: seq<nat>) {
    forall i, j | 0 <= i < j < |epochs| :: epochs[i] > epochs[j]
  }

  function EpochSet(epochs: seq<nat>): set<nat> {
    set i | 0 <= i < |epochs| :: epochs[i]
  }

  lemma {:induction false} EpochSetSize(epochs: seq<nat>)
    requires NewestFirst(epochs)
    ensures |EpochSet(epochs)| == |epochs|
  {
    if epochs != [] {
      var n := |epochs| - 1;
      EpochSetSize(epochs[..n]);
      assert EpochSet(epochs) == EpochSet(epochs[..n]) + {epochs[n]};
      assert epochs[n] !in EpochSet(epochs[..n]);
    }
  }

  lemma {:induction false} NewerAt(epochs: seq<nat>, i: nat)
    requires NewestFirst(epochs) && i < |epochs|
    ensures |Newer(EpochSet(epochs), epochs[i])| == i
  {
    EpochSetSize(epochs[..i]);
    assert Newer(EpochSet(epochs), epochs[i]) == EpochSet(epochs[..i]) by {
      forall e | e in Newer(EpochSet(epochs), epochs[i])
        ensures e in EpochSet(epochs[..i])
      {
        var k :| 0 <= k < |epochs| && epochs[k] == e;
        assert k < i && epochs[..i][k] == e;
      }
    }
  }

  /** The first `n` epochs are protected, where `n` is `keep` or, when there are fewer, all. */
  lemma {:induction false} ProtectedPrefix(epochs: seq<nat>, keep: nat, n: nat)
    requires NewestFirst(epochs) && n <= |epochs| && (n == keep || (n == |epochs| && n <= keep))
    ensures Protected(EpochSet(epochs), keep) == EpochSet(epochs[..n])
  {
    forall e | e in EpochSet(epochs)
      ensures e in Protected(EpochSet(epochs), keep) <==> e in EpochSet(epochs[..n])
    {
      var i :| 0 <= i < |epochs| && epochs[i] == e;
      NewerAt(epochs, i);
      if e in EpochSet(epochs[..n]) {
        var k :| 0 <= k < n && epochs[..n][k] == e;
      }
      assert i < n ==> epochs[..n][i] == e;
    }
  }

  /** With a sampling interval of 0 no time series is kept and the newest snapshots are protected. */
  method GetProtectedSnapshots(keep: nat, persisted: seq<nat>) returns (protected: set<nat>)
    requires NewestFirst(persisted)
    ensures protected == Protected(EpochSet(persisted), keep)
  {
    protected := {};
    var lastPoint, i := |persisted|, 0;
    while i < keep && i < lastPoint
      invariant i <= keep && i <= lastPoint && protected == EpochSet(persisted[..i])
    {
      assert EpochSet(persisted[..i + 1]) == EpochSet(persisted[..i]) + {persisted[i]};
      protected := protected + {persisted[i]};
      i := i + 1;
    }
    ProtectedPrefix(persisted, keep, i);
  }

  /** The fields of the index that say which snapshots and files may be removed. */
  class Removal {
    var eligibleForRemoval: seq<nat>
    var ineligibleForRemoval: set<nat>
    /** How many open backups need each file; absent when none does. */
    var copyScheduled: map<nat, int>
    var bolt: map<nat, Record>
    var files: map<nat, seq<Entry>>

    constructor ()
      ensures eligibleForRemoval == [] && ineligibleForRemoval == {} && copyScheduled == map[]
      ensures bolt == map[] && files == map[]
    {
      eligibleForRemoval, ineligibleForRemoval, copyScheduled := [], {}, map[];
      bolt, files := map[], map[];
    }

    function Eligible(): set<nat>
      reads this
    {
      EpochSet(eligibleForRemoval)
    }

    /** `persisted` is what the metadata reports of bolt. */
    method RemoveOldBoltSnapshots(keep: nat, persisted: seq<nat>)
      requires NewestFirst(persisted) && EpochSet(persisted) == bolt.Keys
      modifies this`bolt, this`eligibleForRemoval
      ensures bolt == LeftInBolt(old(bolt), old(Eligible()), keep)
      ensures Eligible() == LeftEligible(old(bolt), old(Eligible()), keep)
      ensures PurgeSteps.Purges(old(bolt), old(Eligible()), keep, bolt, Eligible())
    {
      PurgeSteps.PurgeLeaves(bolt, Eligible(), keep);
      hide PurgeSteps.Purges;
      EpochSetSize(persisted);
      assert |bolt| == |bolt.Keys|;
      if |persisted| <= keep {
        return;
      }
      var protected := GetProtectedSnapshots(keep, persisted);
      var newEligible, epochsToRemove := Partition(eligibleForRemoval, protected);
      eligibleForRemoval := newEligible;
      bolt := DeleteBuckets(bolt, epochsToRemove);
    }

    /** Removes what neither bolt lists, nor is marked, nor a backup needs. */
    method RemoveOldZapFiles(names: seq<nat>, keys: seq<Bytes>, segmentKeys: map<nat, seq<Bytes>>)
      requires (forall id <- files :: id in names) && CursorOf(keys, bolt.Keys) && Cursors(segmentKeys, bolt)
      modifies this`files
      ensures files == Only(old(files), BoltFiles(bolt) + ineligibleForRemoval + (set id | id in copyScheduled && copyScheduled[id] > 0))
      ensures forall id: nat :: id in files <==>
                id in old(files) && (Listed(bolt, id) || id in ineligibleForRemoval || (id in copyScheduled && copyScheduled[id] > 0))
      ensures forall id <- files :: id in old(files) && files[id] == old(files)[id]
    {
      hide *;
      var live := LoadZapFileNames(keys, segmentKeys, bolt);
      ghost var before := files;
      ghost var needed := live + ineligibleForRemoval + (set id | id in copyScheduled && copyScheduled[id] > 0);
      NoneRemoved(before, needed, names);
      for i := 0 to |names|
        invariant files == Purged(before, needed, names[..i])
      {
        var id := names[i];
        assert id in needed <==> id in live || id in ineligibleForRemoval || (id in copyScheduled && copyScheduled[id] > 0);
        PurgedStep(before, needed, names, i);
        if id !in live && id !in ineligibleForRemoval && (id !in copyScheduled || copyScheduled[id] <= 0) {
          files := files - {id};
        }
      }
      AllPurged(before, needed, names);
      OnlyNeeded(before, needed);
      forall id: nat
        ensures id in live <==> Listed(bolt, id)
      {
        ListedIsLive(bolt, id);
      }
    }

    /** The counters say how many of the open backups list a name. */
    ghost predicate Counts(readers: seq<Reader>)
      reads this
    {
      forall id: nat :: if Listing(readers, id) > 0 then id in copyScheduled && copyScheduled[id] == Listing(readers, id)
                        else id !in copyScheduled
    }

    /** A backup schedules every segment of the root, also those that are not files yet. */
    method CopyReader(root: IndexSnapshot, ghost readers: seq<Reader>) returns (ghost now: seq<Reader>)
      requires DistinctIds(root.segments) && Counts(readers)
      modifies this`copyScheduled
      ensures now == readers + [Reader(Ids(root.segments), FileIds(root.segments))]
      ensures Counts(now)
    {
      hide CountsWith, Listing, Ids, FileIds, DistinctIds;
      var segments := root.segments;
      now := readers + [Reader(Ids(segments), FileIds(segments))];
      IdsUpTo(segments);
      NothingExtra(copyScheduled, readers);
      for i := 0 to |segments|
        invariant CountsWith(copyScheduled, readers, Ids(segments[..i]))
      {
        IdsStep(segments, i);
        copyScheduled := Schedule(copyScheduled, segments[i].id, readers, Ids(segments[..i]));
      }
      OneBackupMore(copyScheduled, readers, now[|readers|]);
    }

    /** Closing one undoes its own marks only. */
    method CloseCopyReader(snapshot: IndexSnapshot, ghost readers: seq<Reader>, ghost i: nat) returns (ghost now: seq<Reader>)
      requires DistinctIds(snapshot.segments) && Counts(readers) && i < |readers| && readers[i].names == Ids(snapshot.segments)
      modifies this`copyScheduled
      ensures now == readers[..i] + readers[i + 1..]
      ensures Counts(now)
    {
      hide CountsWith, Listing, Ids, DistinctIds;
      var segments := snapshot.segments;
      now := readers[..i] + readers[i + 1..];
      IdsUpTo(segments);
      OneBackupLess(copyScheduled, readers, i);
      assert Ids(segments) - Ids(segments[..0]) == Ids(segments);
      for k := 0 to |segments|
        invariant CountsWith(copyScheduled, now, Ids(segments) - Ids(segments[..k]))
      {
        IdsStep(segments, k);
        copyScheduled := Unschedule(copyScheduled, segments[k].id, now, Ids(segments) - Ids(segments[..k]));
        assert Ids(segments) - Ids(segments[..k]) - {segments[k].id} == Ids(segments) - Ids(segments[..k + 1]);
      }
      assert Ids(segments) - Ids(segments[..|segments|]) == {};
      NothingExtra(copyScheduled, now);
    }
  }

  /** Some segment bucket of some snapshot in bolt names the file. */
  ghost predicate Listed(bolt: map<nat, Record>, id: nat) {
    exists e, k :: e in bolt && k in bolt[e].segments && bolt[e].segments[k].path == Some(id)
  }

  lemma {:induction false} ListedIsLive(bolt: map<nat, Record>, id: nat)
    ensures id in BoltFiles(bolt) <==> Listed(bolt, id)
  {
    if id in BoltFiles(bolt) {
      var e :| e in bolt && id in bolt[e].Files();
      var k :| k in bolt[e].segments && bolt[e].segments[k].path == Some(id);
    }
    if e, k :| e in bolt && k in bolt[e].segments && bolt[e].segments[k].path == Some(id) {
      assert id in bolt[e].Files();
    }
  }

  lemma {:induction false} OnlyNeeded(files: map<nat, seq<Entry>>, needed: set<nat>)
    ensures forall id: nat :: id in Only(files, needed) <==> id in files && id in needed
    ensures forall id <- Only(files, needed) :: id in files && Only(files, needed)[id] == files[id]
  {
  }

  /** The counters count the open backups that list a name, and one more for the names in `extra`. */
  ghost predicate CountsWith(scheduled: map<nat, int>, readers: seq<Reader>, extra: set<nat>) {
    forall id: nat ::
      var expected := Listing(readers, id) + (if id in extra then 1 else 0);
      if expected > 0 then id in scheduled && scheduled[id] == expected else id !in scheduled
  }

  method Schedule(scheduled: map<nat, int>, id: nat, ghost readers: seq<Reader>, ghost extra: set<nat>)
    returns (now: map<nat, int>)
    requires CountsWith(scheduled, readers, extra) && id !in extra
    ensures CountsWith(now, readers, extra + {id})
  {
    hide Listing;
    now := scheduled[id := (if id in scheduled then scheduled[id] else 0) + 1];
  }

  method Unschedule(scheduled: map<nat, int>, id: nat, ghost readers: seq<Reader>, ghost extra: set<nat>)
    returns (now: map<nat, int>)
    requires CountsWith(scheduled, readers, extra) && id in extra
    ensures CountsWith(now, readers, extra - {id})
  {
    hide Listing;
    now := scheduled[id := (if id in scheduled then scheduled[id] else 0) - 1];
    if now[id] <= 0 {
      now := now - {id};
    }
  }

  lemma {:induction false} IdsUpTo(segments: seq<SegmentSnapshot>)
    ensures Ids(segments[..0]) == {} && segments[..|segments|] == segments
  {
  }

  lemma {:induction false} IdsStep(segments: seq<SegmentSnapshot>, i: nat)
    requires DistinctIds(segments) && i < |segments|
    ensures segments[i].id !in Ids(segments[..i]) && segments[i].id in Ids(segments)
    ensures Ids(segments[..i + 1]) == Ids(segments[..i]) + {segments[i].id}
  {
  }

  lemma {:induction false} NothingExtra(scheduled: map<nat, int>, readers: seq<Reader>)
    ensures CountsWith(scheduled, readers, {})
       <==> forall id: nat :: if Listing(readers, id) > 0 then id in scheduled && scheduled[id] == Listing(readers, id)
                              else id !in scheduled
  {
    hide Listing;
  }

  lemma {:induction false} OneBackupMore(scheduled: map<nat, int>, readers: seq<Reader>, r: Reader)
    requires CountsWith(scheduled, readers, r.names)
    ensures forall id: nat :: if Listing(readers + [r], id) > 0 then id in scheduled && scheduled[id] == Listing(readers + [r], id)
                              else id !in scheduled
  {
    hide Listing;
    ListingSnoc(readers, r);
  }

  lemma {:induction false} OneBackupLess(scheduled: map<nat, int>, readers: seq<Reader>, i: nat)
    requires i < |readers|
    requires forall id: nat :: if Listing(readers, id) > 0 then id in scheduled && scheduled[id] == Listing(readers, id)
                               else id !in scheduled
    ensures CountsWith(scheduled, readers[..i] + readers[i + 1..], readers[i].names)
  {
    hide Listing;
    ListingRemove(readers, i);
  }

  /** The files left once the given names were looked at. */
  ghost function Purged(files: map<nat, seq<Entry>>, needed: set<nat>, names: seq<nat>): map<nat, seq<Entry>> {
    map id | id in files && (id in needed || id !in names) :: files[id]
  }

  lemma {:induction false} NoneRemoved(files: map<nat, seq<Entry>>, needed: set<nat>, names: seq<nat>)
    ensures Purged(files, needed, names[..0]) == files
  {
  }

  lemma {:induction false} PurgedStep(files: map<nat, seq<Entry>>, needed: set<nat>, names: seq<nat>, i: nat)
    requires i < |names|
    ensures Purged(files, needed, names[..i + 1])
         == if names[i] in needed then Purged(files, needed, names[..i]) else Purged(files, needed, names[..i]) - {names[i]}
  {
    assert names[..i + 1] == names[..i] + [names[i]];
  }

  lemma {:induction false} AllPurged(files: map<nat, seq<Entry>>, needed: set<nat>, names: seq<nat>)
    requires forall id <- files :: id in names
    ensures Purged(files, needed, names[..|names|]) == Only(files, needed)
  {
    assert names[..|names|] == names;
  }

  method DeleteBuckets(bolt: map<nat, Record>, epochs: seq<nat>) returns (left: map<nat, Record>)
    ensures left == bolt - EpochSet(epochs)
  {
    left := bolt;
    for i := 0 to |epochs|
      invariant left == bolt - EpochSet(epochs[..i])
    {
      assert EpochSet(epochs[..i + 1]) == EpochSet(epochs[..i]) + {epochs[i]};
      left := left - {epochs[i]};
    }
    assert epochs[..|epochs|] == epochs;
  }

  method Partition(eligible: seq<nat>, protected: set<nat>) returns (kept: seq<nat>, gone: seq<nat>)
    ensures EpochSet(kept) == EpochSet(eligible) * protected
    ensures EpochSet(gone) == EpochSet(eligible) - protected
  {
    kept, gone := [], [];
    for i := 0 to |eligible|
      invariant EpochSet(kept) == EpochSet(eligible[..i]) * protected
      invariant EpochSet(gone) == EpochSet(eligible[..i]) - protected
    {
      assert EpochSet(eligible[..i + 1]) == EpochSet(eligible[..i]) + {eligible[i]};
      if eligible[i] in protected {
        EpochSetSnoc(kept, eligible[i]);
        kept := kept + [eligible[i]];
      } else {
        EpochSetSnoc(gone, eligible[i]);
        gone := gone + [eligible[i]];
      }
    }
    assert eligible[..|eligible|] == eligible;
  }

  lemma {:induction false} EpochSetSnoc(a: seq<nat>, e: nat)
    ensures EpochSet(a + [e]) == EpochSet(a) + {e}
  {
    assert forall i | 0 <= i < |a| :: (a + [e])[i] == a[i];
    assert (a + [e])[|a|] == e;
  }

  /** How many open backups list a name. */
  function Listing(readers: seq<Reader>, id: nat): nat {
    if readers == [] then 0 else
      Listing(readers[..|readers| - 1], id) + (if id in readers[|readers| - 1].names then 1 else 0)
  }

  lemma {:induction false} ListingSnoc(readers: seq<Reader>, r: Reader)
    ensures forall id: nat :: Listing(readers + [r], id) == Listing(readers, id) + (if id in r.names then 1 else 0)
  {
    assert (readers + [r])[..|readers|] == readers;
  }

  lemma {:induction false} ListingRemove(readers: seq<Reader>, i: nat)
    requires i < |readers|
    ensures forall id: nat :: Listing(readers, id) == Listing(readers[..i] + readers[i + 1..], id) + (if id in readers[i].names then 1 else 0)
  {
    var n := |readers| - 1;
    var now := readers[..i] + readers[i + 1..];
    if i < n {
      ListingRemove(readers[..n], i);
      assert now[..|now| - 1] == readers[..n][..i] + readers[..n][i + 1..];
    } else {
      assert now == readers[..n];
    }
  }

  /** A name is spared by the purge exactly while an open backup lists it. */
  lemma {:induction false} ListedIsScheduled(readers: seq<Reader>, id: nat)
    ensures Listing(readers, id) > 0 <==> id in Scheduled(readers)
  {
    if readers != [] {
      var n := |readers| - 1;
      ListedIsScheduled(readers[..n], id);
      if id in Scheduled(readers[..n]) {
        var i :| 0 <= i < n && id in readers[..n][i].names;
        assert id in readers[i].names;
      }
      if id in Scheduled(readers) {
        var i :| 0 <= i < |readers| && id in readers[i].names;
        assert i < n ==> id in readers[..n][i].names;
      }
    }
  }
}
