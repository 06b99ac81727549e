/** The maintenance script that deletes boarding photos older than the
    retention period from the storage bucket. */
module PhotoCleanup {
  import opened Common

  /** The folder the script sweeps; its own placeholder object is kept. */
  const Folder: string := "boarding_photos/"

  const RetentionDays: int := 7
  const DayMs: int := 1000 * 60 * 60 * 24

  /** `name` starts with `prefix`, as the listing's prefix filter tests. */
  predicate HasPrefix(prefix: string, name: string) {
    |prefix| <= |name| && name[..|prefix|] == prefix
  }

  /** An object's age test: its age in days, as a fraction, exceeds the
      retention period. A creation time that does not parse gives `NaN`,
      and `NaN > 7` is false, so such an object is never expired. */
  predicate Expired(created: Option<int>, now: int) {
    created.Some? && ((now - created.value) as real) / (DayMs as real) > RetentionDays as real
  }

  /** The fractional-day test is exactly "older than seven days to the
      millisecond". */
  lemma ExpiredIffOlderThanWeek(created: int, now: int)
    ensures Expired(Some(created), now) <==> now - created > 604800000
  {
  }

  /** The objects a sweep deletes: listed under the folder, not the folder
      object itself, and expired. */
  predicate Doomed(objects: map<string, Option<int>>, now: int, name: string) {
    name in objects && HasPrefix(Folder, name) && name != Folder && Expired(objects[name], now)
  }

  /** The bucket after a sweep at `now`. */
  function Survivors(objects: map<string, Option<int>>, now: int): (r: map<string, Option<int>>)
    ensures forall n :: n in r <==> n in objects && !Doomed(objects, now, n)
    ensures forall n :: n in r ==> r[n] == objects[n]
  {
    map n | n in objects && !Doomed(objects, now, n) :: objects[n]
  }

  /** How many objects of the listing a sweep deletes. */
  function ExpiredCount(files: seq<string>, objects: map<string, Option<int>>, now: int): nat {
    Count(files, n => Doomed(objects, now, n))
  }

  /** The storage bucket: object name to creation time. */
  class Bucket {
    var objects: map<string, Option<int>>

    constructor (initial: map<string, Option<int>>)
      ensures objects == initial
    {
      objects := initial;
    }

    /** `file.delete()`. */
    method Delete(name: string)
      modifies this
      ensures objects == old(objects) - {name}
    {
      objects := objects - {name};
    }
  }

  /** The bucket once the sweep has visited `visited`. */
  function AfterVisits(objects: map<string, Option<int>>, now: int, visited: seq<string>): map<string, Option<int>> {
    map n | n in objects && !(n in visited && Doomed(objects, now, n)) :: objects[n]
  }

  lemma VisitStep(objects: map<string, Option<int>>, now: int, visited: seq<string>, name: string)
    requires name !in visited
    ensures Doomed(objects, now, name) ==>
              AfterVisits(objects, now, visited + [name]) == AfterVisits(objects, now, visited) - {name}
    ensures !Doomed(objects, now, name) ==>
              AfterVisits(objects, now, visited + [name]) == AfterVisits(objects, now, visited)
  {
  }

  /** `cleanupOldPhotos`: visits each listed object once, skips the folder
      object, and deletes and counts every expired one. `files` is the
      bucket's listing under the folder. */
  method Cleanup(bucket: Bucket, files: seq<string>, now: int) returns (deletedCount: nat)
    requires forall i, j :: 0 <= i < j < |files| ==> files[i] != files[j]
    requires forall n :: n in files <==> n in bucket.objects && HasPrefix(Folder, n)
    modifies bucket
    ensures bucket.objects == Survivors(old(bucket.objects), now)
    ensures deletedCount == ExpiredCount(files, old(bucket.objects), now)
  {
    ghost var before := bucket.objects;
    deletedCount := 0;
    var i := 0;
    while i < |files|
      invariant 0 <= i <= |files|
      invariant bucket.objects == AfterVisits(before, now, files[..i])
      invariant deletedCount == Count(files[..i], n => Doomed(before, now, n))
    {
      var name := files[i];
      assert files[..i + 1] == files[..i] + [name];
      CountAppend(files[..i], [name], n => Doomed(before, now, n));
      assert name !in files[..i];
      VisitStep(before, now, files[..i], name);
      if name == Folder {
        i := i + 1;
        continue;
      }
      assert name in bucket.objects && bucket.objects[name] == before[name];
      var created := bucket.objects[name];
      if Expired(created, now) {
        bucket.Delete(name);
        deletedCount := deletedCount + 1;
      }
      i := i + 1;
    }
    assert files[..i] == files;
  }

  /** A second sweep at the same instant finds nothing more to delete. */
  lemma SweepIsIdempotent(objects: map<string, Option<int>>, now: int)
    ensures Survivors(Survivors(objects, now), now) == Survivors(objects, now)
    ensures forall n :: !Doomed(Survivors(objects, now), now, n)
  {
  }

  /** The sweep never deletes the folder object, anything outside the
      folder, or a photo within the retention period. */
  lemma SweepKeeps(objects: map<string, Option<int>>, now: int, name: string)
    requires name in objects
    requires name == Folder || !HasPrefix(Folder, name) || !Expired(objects[name], now)
    ensures name in Survivors(objects, now) && Survivors(objects, now)[name] == objects[name]
  {
  }

  /** The count the script reports is the number of objects it removed. */
  lemma {:induction false} CountIsRemovedObjects(files: seq<string>, objects: map<string, Option<int>>, now: int)
    requires forall i, j :: 0 <= i < j < |files| ==> files[i] != files[j]
    requires forall n :: n in files <==> n in objects && HasPrefix(Folder, n)
    ensures ExpiredCount(files, objects, now) == |objects.Keys - Survivors(objects, now).Keys|
  {
    var gone := objects.Keys - Survivors(objects, now).Keys;
    assert forall n :: n in gone <==> n in files && Doomed(objects, now, n);
    CountIsCardinality(files, objects, now, gone);
  }

  lemma {:induction false} CountIsCardinality(files: seq<string>, objects: map<string, Option<int>>, now: int,
                                              gone: set<string>)
    requires forall i, j :: 0 <= i < j < |files| ==> files[i] != files[j]
    requires forall n :: n in gone <==> n in files && Doomed(objects, now, n)
    ensures Count(files, n => Doomed(objects, now, n)) == |gone|
  {
    if files == [] {
      assert gone == {};
    } else {
      var rest := if Doomed(objects, now, files[0]) then gone - {files[0]} else gone;
      assert forall n :: n in rest <==> n in files[1..] && Doomed(objects, now, n) by {
        forall n ensures n in rest <==> n in files[1..] && Doomed(objects, now, n) {
          if n in files[1..] {
            var k :| 0 <= k < |files[1..]| && files[1..][k] == n;
            assert files[k + 1] == n;
          }
          assert n in files <==> n == files[0] || n in files[1..] by {
            assert files == [files[0]] + files[1..];
          }
        }
      }
      CountIsCardinality(files[1..], objects, now, rest);
    }
  }
}
