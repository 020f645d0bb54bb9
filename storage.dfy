/** The in-memory storage adapter of services/storageAdapter.ts: two keyed tables, images and
    logs, updated in place. Each table is a `map` field of class MemoryStorage. */
module Storage {

  import opened Types
  import opened Chronology

  /** What `getStats` reports. */
  datatype Stats = Stats(imageCount: nat, logCount: nat, totalImageSize: nat)

  /** `img.compressedSize || 0`. */
  function Size(img: AttachedImage): nat {
    match img.compressedSize
    case None => 0
    case Some(n) => n
  }

  /** The sum of the sizes of the images stored under `keys`. */
  ghost function SizeSum(m: map<string, AttachedImage>, keys: set<string>): nat
    requires keys <= m.Keys
    decreases keys
  {
    if keys == {} then 0
    else
      var k :| k in keys;
      Size(m[k]) + SizeSum(m, keys - {k})
  }

  /** The total size of every image of a table. */
  ghost function TotalSize(m: map<string, AttachedImage>): nat {
    SizeSum(m, m.Keys)
  }

  /** Any key may be taken out first: the sum does not depend on the order of the keys. */
  lemma {:induction false} SizeSumRemove(m: map<string, AttachedImage>, keys: set<string>, k: string)
    requires keys <= m.Keys && k in keys
    ensures SizeSum(m, keys) == Size(m[k]) + SizeSum(m, keys - {k})
    decreases keys
  {
    var j :| j in keys && SizeSum(m, keys) == Size(m[j]) + SizeSum(m, keys - {j});
    if j != k {
      SizeSumRemove(m, keys - {j}, k);
      SizeSumRemove(m, keys - {k}, j);
      assert keys - {j} - {k} == keys - {k} - {j};
    }
  }

  /** The sum over some keys depends only on the images stored under those keys. */
  lemma {:induction false} SizeSumAgree(m: map<string, AttachedImage>, n: map<string, AttachedImage>, keys: set<string>)
    requires keys <= m.Keys && keys <= n.Keys
    requires forall k :: k in keys ==> m[k] == n[k]
    ensures SizeSum(m, keys) == SizeSum(n, keys)
    decreases keys
  {
    if keys != {} {
      var j :| j in keys && SizeSum(m, keys) == Size(m[j]) + SizeSum(m, keys - {j});
      SizeSumRemove(n, keys, j);
      SizeSumAgree(m, n, keys - {j});
    }
  }

  /** Saving an image adds its size to the total and takes away the size of the image it
      replaces under the same id. */
  lemma SaveImageTotalSize(m: map<string, AttachedImage>, image: AttachedImage)
    ensures TotalSize(m[image.id := image]) + (if image.id in m then Size(m[image.id]) else 0)
         == TotalSize(m) + Size(image)
  {
    var m' := m[image.id := image];
    var rest := m.Keys - {image.id};
    assert m'.Keys - {image.id} == rest;
    SizeSumRemove(m', m'.Keys, image.id);
    SizeSumAgree(m, m', rest);
    if image.id in m {
      SizeSumRemove(m, m.Keys, image.id);
    } else {
      assert m.Keys == rest;
    }
  }

  /** Deleting an image takes its size away from the total. */
  lemma DeleteImageTotalSize(m: map<string, AttachedImage>, id: string)
    ensures TotalSize(m - {id}) + (if id in m then Size(m[id]) else 0) == TotalSize(m)
  {
    var rest := m.Keys - {id};
    assert (m - {id}).Keys == rest;
    SizeSumAgree(m, m - {id}, rest);
    if id in m {
      SizeSumRemove(m, m.Keys, id);
    } else {
      assert m.Keys == rest;
    }
  }

  /** The ids of a list of attachments. */
  function Ids(images: seq<AttachedImage>): (r: set<string>)
    ensures forall id :: id in r <==> exists k :: 0 <= k < |images| && images[k].id == id
  {
    if images == [] then {} else Ids(images[..|images| - 1]) + {images[|images| - 1].id}
  }

  /** The ids of the images attached to the log stored under `id`, if there is one. */
  function AttachedIds(logs: map<string, DailyLog>, id: string): set<string> {
    if id in logs && logs[id].attachments.Some? then Ids(logs[id].attachments.value) else {}
  }

  class MemoryStorage {
    var images: map<string, AttachedImage>
    var logs: map<string, DailyLog>

    /** Every entry is stored under its own id. */
    ghost predicate Valid()
      reads this
    {
      && (forall id :: id in images ==> images[id].id == id)
      && (forall id :: id in logs ==> logs[id].id == id)
    }

    constructor ()
      ensures Valid() && images == map[] && logs == map[]
    {
      images := map[];
      logs := map[];
    }

    /** saveImage: stores the image under its id, replacing what was there, and returns the id. */
    method SaveImage(image: AttachedImage) returns (id: string)
      requires Valid()
      modifies this`images
      ensures Valid()
      ensures id == image.id
      ensures images == old(images)[image.id := image]
    {
      images := images[image.id := image];
      id := image.id;
    }

    /** getImage: the image stored under `id`, or nothing. */
    method GetImage(id: string) returns (r: Option<AttachedImage>)
      requires Valid()
      ensures id in images ==> r == Some(images[id]) && r.value.id == id
      ensures id !in images ==> r == None
    {
      r := if id in images then Some(images[id]) else None;
    }

    /** deleteImage: removes that one key; the logs are untouched. */
    method DeleteImage(id: string)
      requires Valid()
      modifies this`images
      ensures Valid()
      ensures images == old(images) - {id}
    {
      images := images - {id};
    }

    /** saveLog: stores the log under its id, replacing what was there. */
    method SaveLog(log: DailyLog)
      requires Valid()
      modifies this`logs
      ensures Valid()
      ensures logs == old(logs)[log.id := log]
    {
      logs := logs[log.id := log];
    }

    /** getLogs: every stored log exactly once, newest first. */
    method GetLogs(instant: string -> int) returns (r: seq<DailyLog>)
      requires Valid()
      ensures Sorted(r, NewestFirst, instant)
      ensures multiset(r) == multiset(logs.Values)
    {
      var pending := logs.Values;
      r := [];
      while pending != {}
        invariant pending <= logs.Values
        invariant Sorted(r, NewestFirst, instant)
        invariant multiset(r) == multiset(logs.Values - pending)
        decreases pending
      {
        var l :| l in pending;
        assert logs.Values - (pending - {l}) == (logs.Values - pending) + {l};
        r := Insert(l, r, NewestFirst, instant);
        pending := pending - {l};
      }
      assert logs.Values - {} == logs.Values;
    }

    /** getLog: the log stored under `id`, or nothing. */
    method GetLog(id: string) returns (r: Option<DailyLog>)
      requires Valid()
      ensures id in logs ==> r == Some(logs[id]) && r.value.id == id
      ensures id !in logs ==> r == None
    {
      r := if id in logs then Some(logs[id]) else None;
    }

    /** deleteLog: deletes the images the log lists as attachments, one by one, then the log;
        for an unknown id neither table changes. */
    method DeleteLog(id: string)
      requires Valid()
      modifies this`images, this`logs
      ensures Valid()
      ensures logs == old(logs) - {id}
      ensures images == old(images) - AttachedIds(old(logs), id)
      ensures id !in old(logs) ==> logs == old(logs) && images == old(images)
    {
      var log := GetLog(id);
      if log.Some? && log.value.attachments.Some? {
        var attachments := log.value.attachments.value;
        var i := 0;
        while i < |attachments|
          invariant 0 <= i <= |attachments|
          invariant Valid()
          invariant logs == old(logs)
          invariant images == old(images) - Ids(attachments[..i])
        {
          assert attachments[..i + 1] == attachments[..i] + [attachments[i]];
          DeleteImage(attachments[i].id);
          i := i + 1;
        }
        assert attachments[..i] == attachments;
      }
      logs := logs - {id};
    }

    /** getStats: the number of images, the number of logs and the total image size. */
    method GetStats() returns (s: Stats)
      requires Valid()
      ensures s.imageCount == |images| && s.logCount == |logs|
      ensures s.totalImageSize == TotalSize(images)
    {
      var pending := images.Keys;
      var total := 0;
      while pending != {}
        invariant pending <= images.Keys
        invariant total + SizeSum(images, pending) == TotalSize(images)
        decreases pending
      {
        var k :| k in pending;
        SizeSumRemove(images, pending, k);
        total := total + Size(images[k]);
        pending := pending - {k};
      }
      s := Stats(|images|, |logs|, total);
    }
  }

  /** The round trip for images: the id returned by saving an image finds that image again. */
  method SaveThenGetImage(store: MemoryStorage, image: AttachedImage) returns (id: string, found: Option<AttachedImage>)
    requires store.Valid()
    modifies store
    ensures id == image.id && found == Some(image)
  {
    id := store.SaveImage(image);
    found := store.GetImage(id);
  }

  /** The round trip the adapter promises: a saved log is found again under its id. */
  method SaveThenGetLog(store: MemoryStorage, log: DailyLog) returns (found: Option<DailyLog>)
    requires store.Valid()
    modifies store
    ensures found == Some(log)
  {
    store.SaveLog(log);
    found := store.GetLog(log.id);
  }
}
