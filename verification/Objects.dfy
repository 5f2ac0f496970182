/** Object storage, the `object_records` index, and the copy-then-delete operations over both. Every storage or
    database call may fail, with or without having taken effect. */
module Objects {
  import opened Text
  import opened Keys

  datatype Loc = Loc(bucket: string, key: string)
  datatype Stored = Stored(body: string, etag: Option<string>, contentType: Option<string>)
  datatype RowKey = RowKey(bucketId: int, key: string)
  datatype Row = Row(size: nat, etag: Option<string>, contentType: Option<string>, createdBy: Option<int>,
                     updatedBy: Option<int>, seenAt: int)
  datatype Bucket = Bucket(id: int, name: string)

  type Blobs = map<Loc, Stored>
  type Records = map<RowKey, Row>
  datatype Tables = Tables(blobs: Blobs, records: Records)

  /** How a call ends: as asked, with an error and no effect, or with an error after its effect. */
  datatype Fault = Fine | Before | After
  datatype Error = NoError | NotFound | StorageError | DatabaseError | DestExists | LiveExists

  // ---------------------------------------------------------------------------
  // Index statements

  /** The transaction of `MoveKey`: drop the destination row, then rename the source row or insert a new one. */
  function MoveRow(records: Records, b: int, from: string, to: string, size: nat, etag: Option<string>,
                   contentType: Option<string>, user: int, at: int): Records
  {
    var dropped := records - {RowKey(b, to)};
    if RowKey(b, from) in dropped then
      var row := dropped[RowKey(b, from)].(size := size, etag := etag, contentType := contentType,
                                           updatedBy := Some(user), seenAt := at);
      (dropped - {RowKey(b, from)})[RowKey(b, to) := row]
    else dropped[RowKey(b, to) := Row(size, etag, contentType, Some(user), Some(user), at)]
  }

  function UpsertRow(records: Records, b: int, key: string, size: nat, etag: Option<string>,
                     contentType: Option<string>, user: int, at: int): Records
  {
    var k := RowKey(b, key);
    if k in records then
      records[k := records[k].(size := size, etag := etag, contentType := contentType, updatedBy := Some(user),
                               seenAt := at)]
    else records[k := Row(size, etag, contentType, Some(user), Some(user), at)]
  }

  // ---------------------------------------------------------------------------
  // What the operations leave when they succeed

  /** Trash-delete, move and restore: one object and its row change key. */
  function Relocate(t: Tables, b: Bucket, from: string, to: string, user: int, at: int): Tables
    requires Loc(b.name, from) in t.blobs
  {
    var obj := t.blobs[Loc(b.name, from)];
    Tables(t.blobs[Loc(b.name, to) := obj] - {Loc(b.name, from)},
           MoveRow(t.records, b.id, from, to, |obj.body|, obj.etag, obj.contentType, user, at))
  }

  /** Permanent delete and purge. */
  function Remove(t: Tables, b: Bucket, key: string): Tables
  {
    Tables(t.blobs - {Loc(b.name, key)}, t.records - {RowKey(b.id, key)})
  }

  function Duplicate(t: Tables, src: Bucket, from: string, dest: Bucket, to: string, user: int, at: int): Tables
    requires Loc(src.name, from) in t.blobs
  {
    var obj := t.blobs[Loc(src.name, from)];
    Tables(t.blobs[Loc(dest.name, to) := obj],
           UpsertRow(t.records, dest.id, to, |obj.body|, obj.etag, obj.contentType, user, at))
  }

  // ---------------------------------------------------------------------------
  // Operations

  /** The source content is still readable, at the source or the destination, and no third key changed. */
  ghost predicate Kept(before: Blobs, now: Blobs, src: Loc, dst: Loc)
  {
    && (src in before ==> (src in now && now[src] == before[src]) || (dst in now && now[dst] == before[src]))
    && (forall loc :: loc != src && loc != dst ==> (loc in before <==> loc in now) &&
                                                   (loc in before ==> now[loc] == before[loc]))
  }

  /** No row but those with the given keys differs. */
  ghost predicate OnlyRows(before: Records, now: Records, keys: set<RowKey>)
  {
    forall k :: k !in keys ==> (k in before <==> k in now) && (k in before ==> now[k] == before[k])
  }

  ghost predicate OnlyObject(before: Blobs, now: Blobs, loc: Loc)
  {
    forall l :: l != loc ==> (l in before <==> l in now) && (l in before ==> now[l] == before[l])
  }

  /** The row describes the object as stored by `user` at that time; an earlier row keeps its creator. */
  ghost predicate Indexes(now: Records, k: RowKey, obj: Stored, earlier: Option<Row>, user: int, at: int)
  {
    && k in now && now[k].size == |obj.body| && now[k].etag == obj.etag && now[k].contentType == obj.contentType
    && now[k].createdBy == (if earlier.Some? then earlier.value.createdBy else Some(user))
    && now[k].updatedBy == Some(user) && now[k].seenAt == at
  }

  function RowAt(records: Records, k: RowKey): Option<Row>
  {
    if k in records then Some(records[k]) else None
  }

  /** The object is now at the other key only, and its row too. */
  ghost predicate Moved(before: Tables, now: Tables, b: Bucket, from: string, to: string, user: int, at: int)
  {
    var src, dst := Loc(b.name, from), Loc(b.name, to);
    && src in before.blobs && src !in now.blobs && dst in now.blobs && now.blobs[dst] == before.blobs[src]
    && RowKey(b.id, from) !in now.records
    && Indexes(now.records, RowKey(b.id, to), before.blobs[src], RowAt(before.records, RowKey(b.id, from)), user, at)
  }

  lemma RelocateMoves(t: Tables, b: Bucket, from: string, to: string, user: int, at: int)
    requires Loc(b.name, from) in t.blobs && from != to
    ensures Moved(t, Relocate(t, b, from, to, user, at), b, from, to, user, at)
  {
  }

  /** A copy has the content of its source and its own row, and leaves the source and its row. */
  lemma DuplicateCopies(t: Tables, src: Bucket, from: string, dest: Bucket, to: string, user: int, at: int)
    requires Loc(src.name, from) in t.blobs && Loc(dest.name, to) !in t.blobs
    ensures var obj, t' := t.blobs[Loc(src.name, from)], Duplicate(t, src, from, dest, to, user, at);
            && t'.blobs == t.blobs[Loc(dest.name, to) := obj]
            && Indexes(t'.records, RowKey(dest.id, to), obj, RowAt(t.records, RowKey(dest.id, to)), user, at)
            && OnlyRows(t.records, t'.records, {RowKey(dest.id, to)})
  {
  }

  /** Each index statement works on the rows it names. */
  lemma StatementFrames(records: Records, b: int, from: string, to: string, user: int, at: int)
    ensures forall keys :: OnlyRows(records, records, keys)
    ensures forall size, etag, contentType ::
              OnlyRows(records, MoveRow(records, b, from, to, size, etag, contentType, user, at),
                       {RowKey(b, from), RowKey(b, to)})
    ensures forall size, etag, contentType ::
              OnlyRows(records, UpsertRow(records, b, to, size, etag, contentType, user, at), {RowKey(b, to)})
    ensures OnlyRows(records, records - {RowKey(b, from)}, {RowKey(b, from)})
  {
  }

  /** Copying the source and then deleting it keeps the content at every step. */
  lemma KeptSteps(before: Blobs, src: Loc, dst: Loc)
    ensures Kept(before, before, src, dst)
    ensures src in before ==> Kept(before, before[dst := before[src]], src, dst)
    ensures src in before && src != dst ==> Kept(before, before[dst := before[src]] - {src}, src, dst)
  {
  }

  class World {
    var blobs: Blobs
    var records: Records
    /** The storage contents after each storage call. */
    ghost var trace: seq<Blobs>

    constructor (blobs: Blobs, records: Records)
      ensures this.blobs == blobs && this.records == records && trace == []
    {
      this.blobs, this.records, trace := blobs, records, [];
    }

    function Now(): Tables
      reads this
    {
      Tables(blobs, records)
    }

    /** All states since `start` calls ago keep what `src` held in `before`. */
    ghost predicate KeptSince(before: Blobs, start: nat, src: Loc, dst: Loc)
      reads this
    {
      && start <= |trace|
      && Kept(before, blobs, src, dst)
      && forall i :: start <= i < |trace| ==> Kept(before, trace[i], src, dst)
    }

    method Head(loc: Loc, fault: Fault) returns (err: Error, meta: Stored)
      modifies this`trace
      ensures trace == old(trace) + [blobs]
      ensures err == if fault != Fine then StorageError else if loc in blobs then NoError else NotFound
      ensures err == NoError ==> loc in blobs && meta == blobs[loc]
    {
      trace := trace + [blobs];
      meta := Stored("", None, None);
      if fault != Fine {
        return StorageError, meta;
      }
      if loc !in blobs {
        return NotFound, meta;
      }
      return NoError, blobs[loc];
    }

    method CopyObject(dst: Loc, src: Loc, fault: Fault) returns (err: Error, etag: Option<string>)
      modifies this`blobs, this`trace
      ensures trace == old(trace) + [blobs]
      ensures blobs == if fault == Before || src !in old(blobs) then old(blobs) else old(blobs)[dst := old(blobs)[src]]
      ensures err == if fault != Fine then StorageError else if src in old(blobs) then NoError else NotFound
      ensures err == NoError ==> etag == old(blobs)[src].etag
    {
      etag := None;
      if fault != Before && src in blobs {
        etag := blobs[src].etag;
        blobs := blobs[dst := blobs[src]];
        err := NoError;
      } else {
        err := NotFound;
      }
      if fault != Fine {
        err := StorageError;
      }
      trace := trace + [blobs];
    }

    method DeleteObject(loc: Loc, fault: Fault) returns (err: Error)
      modifies this`blobs, this`trace
      ensures trace == old(trace) + [blobs]
      ensures blobs == if fault == Before then old(blobs) else old(blobs) - {loc}
      ensures err == if fault != Fine then StorageError else NoError
    {
      if fault != Before {
        blobs := blobs - {loc};
      }
      err := if fault != Fine then StorageError else NoError;
      trace := trace + [blobs];
    }

    method StoreRecords(records': Records, fault: Fault) returns (err: Error)
      modifies this`records
      ensures records == if fault == Before then old(records) else records'
      ensures err == if fault != Fine then DatabaseError else NoError
    {
      if fault != Before {
        records := records';
      }
      err := if fault != Fine then DatabaseError else NoError;
    }

    method ApplyDelete(b: Bucket, user: int, key: string, permanent: bool, now: int,
                       head: Fault, copy: Fault, del: Fault, db: Fault)
      returns (err: Error)
      modifies this
      ensures err == NoError ==> Loc(b.name, key) in old(blobs)
      ensures err == NoError ==>
                Now() == if permanent then Remove(old(Now()), b, key)
                         else Relocate(old(Now()), b, key, ToTrashKey(key), user, now)
      ensures err == NoError && permanent ==> Loc(b.name, key) !in blobs && RowKey(b.id, key) !in records
      ensures !permanent ==> KeptSince(old(blobs), |old(trace)|, Loc(b.name, key), Loc(b.name, ToTrashKey(key)))
      ensures permanent ==> OnlyObject(old(blobs), blobs, Loc(b.name, key))
      ensures OnlyRows(old(records), records,
                       if permanent then {RowKey(b.id, key)} else {RowKey(b.id, key), RowKey(b.id, ToTrashKey(key))})
      ensures err == NotFound ==> Now() == old(Now()) && Loc(b.name, key) !in old(blobs)
      ensures head == copy == del == db == Fine ==>
                err == if Loc(b.name, key) in old(blobs) then NoError else NotFound
      ensures records != old(records) ==> err == NoError || err == DatabaseError
    {
      TrashKeyRoundTrip(key, "");
      KeptSteps(blobs, Loc(b.name, key), Loc(b.name, ToTrashKey(key)));
      hide Kept, OnlyRows;
      StatementFrames(records, b.id, key, ToTrashKey(key), user, now);
      var src := Loc(b.name, key);
      var meta;
      err, meta := Head(src, head);
      if err != NoError {
        return;
      }
      if permanent {
        err := DeleteObject(src, del);
        if err != NoError {
          return;
        }
        err := StoreRecords(records - {RowKey(b.id, key)}, db);
        return;
      }
      var trashKey := ToTrashKey(key);
      var etag;
      err, etag := CopyObject(Loc(b.name, trashKey), src, copy);
      if err != NoError {
        return;
      }
      err := DeleteObject(src, del);
      if err != NoError {
        return;
      }
      err := StoreRecords(MoveRow(records, b.id, key, trashKey, |meta.body|, meta.etag, meta.contentType, user, now),
                          db);
    }

    method RejectIfExists(loc: Loc, fault: Fault) returns (err: Error)
      modifies this`trace
      ensures trace == old(trace) + [blobs]
      ensures err == if fault != Fine then StorageError else if loc in blobs then DestExists else NoError
    {
      var meta;
      err, meta := Head(loc, fault);
      if err == NoError {
        return DestExists;
      }
      if err == NotFound {
        return NoError;
      }
    }

    method ApplyCopy(src: Bucket, dest: Bucket, user: int, srcKey: string, destKey: string, now: int,
                     headDest: Fault, head: Fault, copy: Fault, db: Fault)
      returns (err: Error)
      modifies this
      ensures err == NotFound ==> Now() == old(Now())
      ensures err == NoError ==> Loc(src.name, srcKey) in old(blobs)
      ensures err == NoError ==>
                Now() == Duplicate(old(Now()), src, srcKey, dest, destKey, user, now)
      ensures Loc(dest.name, destKey) in old(blobs) ==> err != NoError && Now() == old(Now())
      ensures headDest == Fine ==> (err == DestExists <==> Loc(dest.name, destKey) in old(blobs))
      ensures OnlyRows(old(records), records, {RowKey(dest.id, destKey)})
      ensures KeptSince(old(blobs), |old(trace)|, Loc(src.name, srcKey), Loc(dest.name, destKey))
      ensures Loc(src.name, srcKey) in old(blobs) ==>
                Loc(src.name, srcKey) in blobs && blobs[Loc(src.name, srcKey)] == old(blobs)[Loc(src.name, srcKey)]
      ensures headDest == head == copy == db == Fine ==>
                err == if Loc(dest.name, destKey) in old(blobs) then DestExists
                       else if Loc(src.name, srcKey) in old(blobs) then NoError else NotFound
    {
      KeptSteps(blobs, Loc(src.name, srcKey), Loc(dest.name, destKey));
      hide Kept, OnlyRows;
      StatementFrames(records, dest.id, "", destKey, user, now);
      err := RejectIfExists(Loc(dest.name, destKey), headDest);
      if err != NoError {
        return;
      }
      var meta, etag;
      err, meta := Head(Loc(src.name, srcKey), head);
      if err != NoError {
        return;
      }
      err, etag := CopyObject(Loc(dest.name, destKey), Loc(src.name, srcKey), copy);
      if err != NoError {
        return;
      }
      err := StoreRecords(UpsertRow(records, dest.id, destKey, |meta.body|, etag, meta.contentType, user, now), db);
    }

    method ApplyMove(b: Bucket, user: int, src: string, dest: string, now: int,
                     headDest: Fault, head: Fault, copy: Fault, del: Fault, db: Fault)
      returns (err: Error)
      modifies this
      ensures err == NoError ==> Loc(b.name, src) in old(blobs)
      ensures err == NoError ==>
                Now() == Relocate(old(Now()), b, src, dest, user, now)
      ensures src != dest && Loc(b.name, dest) in old(blobs) ==> err != NoError && Now() == old(Now())
      ensures src != dest && headDest == Fine ==> (err == DestExists <==> Loc(b.name, dest) in old(blobs))
      // a move keeps the content exactly when it is not a move onto itself, which is not refused
      ensures src != dest ==> KeptSince(old(blobs), |old(trace)|, Loc(b.name, src), Loc(b.name, dest))
      ensures err == NoError ==> (src != dest <==> Loc(b.name, dest) in blobs)
      ensures err == NoError && src != dest ==> blobs[Loc(b.name, dest)] == old(blobs)[Loc(b.name, src)]
      ensures headDest == head == copy == del == db == Fine ==>
                err == if src != dest && Loc(b.name, dest) in old(blobs) then DestExists
                       else if Loc(b.name, src) in old(blobs) then NoError else NotFound
      ensures err == NotFound ==> Now() == old(Now())
      ensures OnlyRows(old(records), records, {RowKey(b.id, src), RowKey(b.id, dest)})
      ensures records != old(records) ==> err == NoError || err == DatabaseError
    {
      KeptSteps(blobs, Loc(b.name, src), Loc(b.name, dest));
      hide Kept, OnlyRows;
      StatementFrames(records, b.id, src, dest, user, now);
      if src != dest {
        err := RejectIfExists(Loc(b.name, dest), headDest);
        if err != NoError {
          return;
        }
      }
      var meta, etag;
      err, meta := Head(Loc(b.name, src), head);
      if err != NoError {
        return;
      }
      err, etag := CopyObject(Loc(b.name, dest), Loc(b.name, src), copy);
      if err != NoError {
        return;
      }
      err := DeleteObject(Loc(b.name, src), del);
      if err != NoError {
        return;
      }
      err := StoreRecords(MoveRow(records, b.id, src, dest, |meta.body|, etag, meta.contentType, user, now), db);
    }

    method RestoreOne(b: Bucket, user: int, key: string, now: int,
                      headTrash: Fault, headLive: Fault, copy: Fault, del: Fault, db: Fault)
      returns (err: Error)
      modifies this
      ensures err == NoError ==> Loc(b.name, ToTrashKey(key)) in old(blobs) && Loc(b.name, key) !in old(blobs)
      ensures err == NoError ==>
                Now() == Relocate(old(Now()), b, ToTrashKey(key), key, user, now)
      ensures Loc(b.name, key) in old(blobs) ==> err != NoError && Now() == old(Now())
      ensures KeptSince(old(blobs), |old(trace)|, Loc(b.name, ToTrashKey(key)), Loc(b.name, key))
      ensures headTrash == headLive == copy == del == db == Fine ==>
                err == if Loc(b.name, ToTrashKey(key)) !in old(blobs) then NotFound
                       else if Loc(b.name, key) in old(blobs) then LiveExists else NoError
      ensures err == NotFound ==> Now() == old(Now())
      ensures OnlyRows(old(records), records, {RowKey(b.id, ToTrashKey(key)), RowKey(b.id, key)})
      ensures records != old(records) ==> err == NoError || err == DatabaseError
    {
      TrashKeyRoundTrip(key, "");
      KeptSteps(blobs, Loc(b.name, ToTrashKey(key)), Loc(b.name, key));
      hide Kept, OnlyRows;
      StatementFrames(records, b.id, ToTrashKey(key), key, user, now);
      var trashKey := ToTrashKey(key);
      var meta, live, etag, headErr;
      err, meta := Head(Loc(b.name, trashKey), headTrash);
      if err != NoError {
        return;
      }
      headErr, live := Head(Loc(b.name, key), headLive);
      if headErr == NoError {
        return LiveExists;
      } else if headErr != NotFound {
        return headErr;
      }
      err, etag := CopyObject(Loc(b.name, key), Loc(b.name, trashKey), copy);
      if err != NoError {
        return;
      }
      err := DeleteObject(Loc(b.name, trashKey), del);
      if err != NoError {
        return;
      }
      err := StoreRecords(MoveRow(records, b.id, trashKey, key, |meta.body|, meta.etag, meta.contentType, user, now),
                          db);
    }

    method PurgeOne(b: Bucket, key: string, head: Fault, del: Fault, db: Fault) returns (err: Error)
      modifies this
      ensures err == NotFound ==> Now() == old(Now())
      ensures err == NoError ==> Loc(b.name, ToTrashKey(key)) in old(blobs)
      ensures err == NoError ==>
                Now() == Remove(old(Now()), b, ToTrashKey(key))
      ensures err == NoError ==> Loc(b.name, ToTrashKey(key)) !in blobs && RowKey(b.id, ToTrashKey(key)) !in records
      ensures OnlyObject(old(blobs), blobs, Loc(b.name, ToTrashKey(key)))
      ensures OnlyRows(old(records), records, {RowKey(b.id, ToTrashKey(key))})
      ensures head == del == db == Fine ==>
                err == if Loc(b.name, ToTrashKey(key)) in old(blobs) then NoError else NotFound
    {
      StatementFrames(records, b.id, ToTrashKey(key), key, 0, 0);
      hide OnlyRows;
      var trashKey := ToTrashKey(key);
      var meta;
      err, meta := Head(Loc(b.name, trashKey), head);
      if err != NoError {
        return;
      }
      err := DeleteObject(Loc(b.name, trashKey), del);
      if err != NoError {
        return;
      }
      err := StoreRecords(records - {RowKey(b.id, trashKey)}, db);
    }
  }
}
