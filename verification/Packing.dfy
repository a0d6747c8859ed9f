// Lossless compaction of recorded segments: archive, verify, publish, and only then delete. The
// process may stop after any single effect, and what the archive holds is not trusted until verified.
module Packing {
  import opened Common

  // A file's bytes; a JSON text stands for the value it parses to.
  type Bytes = seq<int>

  // The three files of a segment.
  datatype Name = Raw(id: string) | Parquet(id: string) | Manifest(id: string)

  function AllFiles(ids: seq<string>): (r: seq<Name>)
    ensures |r| == 3 * |ids|
  {
    if ids == [] then []
    else
      var last := ids[|ids| - 1];
      AllFiles(ids[..|ids| - 1]) + [Raw(last), Parquet(last), Manifest(last)]
  }

  lemma {:induction false} AllFilesAre(ids: seq<string>, p: Name)
    ensures p in AllFiles(ids) <==> p.id in ids
  {
    if ids != [] {
      AllFilesAre(ids[..|ids| - 1], p);
      assert ids == ids[..|ids| - 1] + [ids[|ids| - 1]];
    }
  }

  // The files, the archives, the published mapping, and the manifests kept in the segments table.
  datatype Disk = Disk(files: map<Name, Bytes>, archives: map<string, map<Name, Bytes>>, packs: map<string, string>,
                       segments: map<string, Bytes>)
  {
    // Every published mapping points at an archive.
    predicate Sound() {
      forall id :: id in packs ==> packs[id] in archives
    }

    // The writer puts one manifest into the sidecar and into the table.
    predicate Consistent() {
      forall id :: id in segments && Manifest(id) in files ==> files[Manifest(id)] == segments[id]
    }

    // packed_record finds a mapping joined to its segment.
    predicate Packed(id: string) {
      id in packs && id in segments
    }

    // raw_bytes: the original when it is there, else the published archive's copy.
    function ReadRaw(id: string): Option<Bytes> {
      if Raw(id) in files then Some(files[Raw(id)])
      else if Packed(id) && packs[id] in archives && Raw(id) in archives[packs[id]] then Some(archives[packs[id]][Raw(id)]) else None
    }

    // manifest_for: the sidecar, or else the table's manifest of a published segment.
    function ManifestFor(id: string): Option<Bytes> {
      if Manifest(id) in files then Some(files[Manifest(id)])
      else if Packed(id) then Some(segments[id]) else None
    }
  }

  // Readers of every segment get from t exactly what they got from s.
  ghost predicate SameEvidence(s: Disk, t: Disk) {
    forall id :: t.ReadRaw(id) == s.ReadRaw(id) && t.ManifestFor(id) == s.ManifestFor(id)
  }

  // The archive holds the very bytes of every listed file.
  predicate Holds(files: map<Name, Bytes>, listed: seq<Name>, archive: map<Name, Bytes>) {
    forall p :: p in listed ==> p in files && p in archive && archive[p] == files[p]
  }

  // Every listed file was there and came out of the archive as it went in.
  predicate Faithful(files: map<Name, Bytes>, listed: seq<Name>, stored: seq<Bytes>)
    requires |stored| == |listed|
  {
    forall k :: 0 <= k < |listed| ==> listed[k] in files && files[listed[k]] == stored[k]
  }

  function Mapped(packs: map<string, string>, ids: seq<string>, target: string): (r: map<string, string>)
    ensures forall id :: id in r <==> id in packs || id in ids
    ensures forall id :: id in r ==> r[id] == if id in ids then target else packs[id]
  {
    map id | id in packs.Keys + (set i | i in ids) :: if id in ids then target else packs[id]
  }

  function Without(files: map<Name, Bytes>, listed: seq<Name>): (r: map<Name, Bytes>)
    ensures forall p :: p in r <==> p in files && p !in listed
    ensures forall p :: p in r ==> r[p] == files[p]
  {
    map p | p in files && p !in listed :: files[p]
  }

  lemma ArchivingIsInvisible(s: Disk, target: string, archive: map<Name, Bytes>)
    requires s.Sound() && target !in s.packs.Values
    ensures var t := s.(archives := s.archives[target := archive]); t.Sound() && SameEvidence(s, t)
  {
    assert forall id :: id in s.packs ==> s.packs[id] in s.packs.Values;
  }

  // What was verified, is not yet published, and has its manifest in the table.
  ghost predicate Publishable(s: Disk, ids: seq<string>, target: string) {
    && s.Sound() && s.Consistent() && target in s.archives && Holds(s.files, AllFiles(ids), s.archives[target])
    && forall id :: id in ids ==> id !in s.packs && id in s.segments
  }

  lemma OneMoreGone(files: map<Name, Bytes>, listed: seq<Name>, k: nat)
    requires k < |listed|
    ensures Without(files, listed[..k]) - {listed[k]} == Without(files, listed[..k + 1])
  {
    assert listed[..k + 1] == listed[..k] + [listed[k]];
  }

  /** Publishing and then deleting any part of what was verified changes nothing for any reader: the
      archived bytes are the original's, and the table's manifest is the sidecar's. */
  lemma PublishedDeletionIsInvisible(s: Disk, ids: seq<string>, target: string, gone: seq<Name>)
    requires Publishable(s, ids, target)
    requires forall p :: p in gone ==> p in AllFiles(ids)
    ensures var t := s.(files := Without(s.files, gone), packs := Mapped(s.packs, ids, target)); t.Sound() && SameEvidence(s, t)
  {
    var t := s.(files := Without(s.files, gone), packs := Mapped(s.packs, ids, target));
    forall id ensures t.ReadRaw(id) == s.ReadRaw(id) && t.ManifestFor(id) == s.ManifestFor(id) {
      AllFilesAre(ids, Raw(id));
      AllFilesAre(ids, Manifest(id));
    }
  }

  predicate Distinct<T(==)>(list: seq<T>) {
    forall i, j :: 0 <= i < j < |list| ==> list[i] != list[j]
  }

  lemma {:induction false} AllFilesAreDistinct(ids: seq<string>)
    requires Distinct(ids)
    ensures Distinct(AllFiles(ids))
  {
    if ids != [] {
      var front, last := ids[..|ids| - 1], ids[|ids| - 1];
      AllFilesAreDistinct(front);
      assert last !in front;
      forall p | p in AllFiles(front) ensures p.id != last {
        AllFilesAre(front, p);
      }
      assert forall i :: 0 <= i < |AllFiles(front)| ==> AllFiles(front)[i] in AllFiles(front);
    }
  }

  class Segments {
    var files: map<Name, Bytes>
    var archives: map<string, map<Name, Bytes>>
    var packs: map<string, string>
    var segments: map<string, Bytes>

    function Now(): Disk
      reads this
    {
      Disk(files, archives, packs, segments)
    }

    /** Write the listed files into a new archive, one at a time; the k-th comes out as stored[k]. */
    method Archive(listed: seq<Name>, target: string, stored: seq<Bytes>, steps: nat) returns (ok: bool, left: nat)
      requires Distinct(listed) && |stored| == |listed| && Now().Sound() && target !in packs.Values
      modifies this`archives
      ensures Now().Sound() && SameEvidence(old(Now()), Now())
      ensures ok <==> steps >= |listed| && forall p :: p in listed ==> p in files
      ensures ok ==> left == steps - |listed| && target in archives
      ensures ok ==> forall k :: 0 <= k < |listed| ==> listed[k] in archives[target] && archives[target][listed[k]] == stored[k]
    {
      ok, left := true, steps;
      ghost var s := Now();
      var archive: map<Name, Bytes> := map[];
      archives := archives[target := archive];
      for k := 0 to |listed|
        invariant left == steps - k && archives == s.archives[target := archive] && files == s.files && packs == s.packs
        invariant forall j :: 0 <= j < k ==> listed[j] in files
        invariant forall j :: 0 <= j < k ==> listed[j] in archive && archive[listed[j]] == stored[j]
      {
        if left == 0 || listed[k] !in files {
          ArchivingIsInvisible(s, target, archive);
          return false, left;
        }
        archive := archive[listed[k] := stored[k]];
        archives := archives[target := archive];
        left := left - 1;
      }
      ArchivingIsInvisible(s, target, archive);
    }

    /** Compare every archived file with its original. */
    method Verify(listed: seq<Name>, target: string) returns (same: bool)
      requires target in archives && forall p :: p in listed ==> p in files && p in archives[target]
      ensures same <==> Holds(files, listed, archives[target])
    {
      for k := 0 to |listed|
        invariant forall j :: 0 <= j < k ==> archives[target][listed[j]] == files[listed[j]]
      {
        if archives[target][listed[k]] != files[listed[k]] {
          return false;
        }
      }
      return true;
    }

    /** Delete published originals, one at a time. */
    method Delete(ids: seq<string>, target: string, steps: nat, ghost s: Disk) returns (ok: bool)
      requires Publishable(s, ids, target) && Now() == s.(packs := Mapped(s.packs, ids, target))
      modifies this`files
      ensures Now().Sound() && SameEvidence(s, Now())
      ensures ok <==> steps >= 3 * |ids|
      ensures ok ==> files == Without(s.files, AllFiles(ids))
    {
      var listed, left := AllFiles(ids), steps;
      assert listed[..0] == [];
      for k := 0 to |listed|
        invariant left == steps - k && files == Without(s.files, listed[..k])
        invariant archives == s.archives && packs == Mapped(s.packs, ids, target) && segments == s.segments
      {
        if left == 0 {
          PublishedDeletionIsInvisible(s, ids, target, listed[..k]);
          return false;
        }
        OneMoreGone(s.files, listed, k);
        files := files - {listed[k]};
        left := left - 1;
      }
      assert listed[..|listed|] == listed;
      PublishedDeletionIsInvisible(s, ids, target, listed);
      return true;
    }

    // Archive the listed files and compare them with the originals.
    method Store(listed: seq<Name>, target: string, stored: seq<Bytes>, steps: nat) returns (ok: bool, left: nat)
      requires Distinct(listed) && |stored| == |listed| && Now().Sound() && target !in packs.Values
      modifies this`archives
      ensures Now().Sound() && SameEvidence(old(Now()), Now())
      ensures ok <==> steps >= |listed| && Faithful(files, listed, stored)
      ensures ok ==> left == steps - |listed| && target in archives && Holds(files, listed, archives[target])
    {
      ok, left := Archive(listed, target, stored, steps);
      if !ok {
        if steps >= |listed| {
          ghost var p :| p in listed && p !in files;
          assert !Faithful(files, listed, stored);
        }
        return;
      }
      ok := Verify(listed, target);
      if !ok {
        ghost var p :| p in listed && archives[target][p] != files[p];
        ghost var k :| 0 <= k < |listed| && listed[k] == p;
        assert !Faithful(files, listed, stored);
      }
    }

    /** Pack the segments, given what the archive comes to hold and after how many effects the
        process stops. Wherever that is, every reader still gets the same evidence; and the
        originals are gone exactly when everything was stored faithfully and nothing stopped it. */
    method PackVerified(ids: seq<string>, target: string, stored: seq<Bytes>, steps: nat) returns (done: bool)
      requires Distinct(ids) && |stored| == 3 * |ids|
      requires Now().Sound() && Now().Consistent() && target !in packs.Values
      requires forall id :: id in ids ==> id !in packs && id in segments
      modifies this
      ensures Now().Sound() && SameEvidence(old(Now()), Now())
      ensures done <==> steps >= 6 * |ids| + 1 && Faithful(old(files), AllFiles(ids), stored)
      ensures done ==> files == Without(old(files), AllFiles(ids)) && packs == Mapped(old(packs), ids, target)
      ensures done ==> target in archives && Holds(old(files), AllFiles(ids), archives[target])
      ensures segments == old(segments)
    {
      var listed := AllFiles(ids);
      AllFilesAreDistinct(ids);
      var ok, left := Store(listed, target, stored, steps);
      if !ok || left == 0 {
        return false;
      }
      ghost var s := Now();
      packs := Mapped(packs, ids, target);
      assert files == Without(s.files, []);
      done := Delete(ids, target, left - 1, s);
    }
  }
}
