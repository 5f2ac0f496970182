/** The version handlers as they run: one storage or table call after the other, each against `Versions`. */
module VersionStore {
  import opened Text
  import opened Keys
  import opened VersionKeys
  import opened Objects
  import opened Versions

  class Store {
    var blobs: Blobs
    var rows: seq<Version>
    var nextId: nat
    ghost var archived: map<nat, Stored>
    ghost var touched: set<nat>

    constructor ()
      ensures Now() == State(map[], [], 0, map[], {}) && Inv(Now())
    {
      blobs, rows, nextId, archived, touched := map[], [], 0, map[], {};
    }

    ghost function Now(): State
      reads this
    {
      State(blobs, rows, nextId, archived, touched)
    }

    method HeadObject(loc: Loc, fault: Fault) returns (r: Option<Stored>, failed: bool)
      ensures failed <==> fault != Fine
      ensures r == if fault == Fine && loc in blobs then Some(blobs[loc]) else None
    {
      failed := fault != Fine;
      r := if !failed && loc in blobs then Some(blobs[loc]) else None;
    }

    method CopyObject(dst: Loc, src: Loc, fault: Fault) returns (ok: bool)
      modifies this`blobs
      ensures ok <==> fault == Fine && src in old(blobs)
      ensures Now() == if src in old(blobs) then CopyCall(old(Now()), dst, src, fault) else old(Now())
    {
      if fault != Before && src in blobs {
        blobs := blobs[dst := blobs[src]];
      }
      ok := fault == Fine && src in blobs;
    }

    /** The table maximum, and one. */
    method NextNo(bucket: string, key: string) returns (no: nat)
      ensures no == Versions.NextNo(rows, bucket, key)
      ensures forall row :: row in rows && row.bucket == bucket && row.key == key ==> row.no < no
      ensures no == 1 || exists row :: row in rows && row.bucket == bucket && row.key == key && row.no == no - 1
    {
      var max: nat := 0;
      for i := 0 to |rows|
        invariant max == MaxNo(rows[..i], bucket, key)
      {
        assert rows[..i + 1][..i] == rows[..i];
        if rows[i].bucket == bucket && rows[i].key == key && rows[i].no > max {
          max := rows[i].no;
        }
      }
      assert rows[..|rows|] == rows;
      forall row | row in rows && row.bucket == bucket && row.key == key ensures row.no <= max {
        MaxNoIsMax(rows, bucket, key, row);
      }
      MaxNoIsUsed(rows, bucket, key);
      no := max + 1;
    }

    method Insert(bucket: string, key: string, no: nat, content: Stored, fault: Fault) returns (ok: bool)
      requires Bytes(key)
      modifies this`rows, this`nextId, this`archived
      ensures Now() == InsertCall(old(Now()), bucket, key, no, content, fault)
      ensures ok <==> fault == Fine
    {
      if fault != Before {
        rows := rows + [Version(nextId, bucket, key, no, StorageKey(bucket, key, no), |content.body|, content.etag)];
        archived := archived[nextId := content];
        nextId := nextId + 1;
      }
      ok := fault == Fine;
    }

    method Delete(id: nat, fault: Fault) returns (ok: bool)
      modifies this`rows
      ensures rows == if fault == Before then old(rows) else WithoutRow(old(rows), id)
      ensures ok <==> fault == Fine
    {
      if fault != Before {
        rows := WithoutRow(rows, id);
      }
      ok := fault == Fine;
    }

    method Archive(bucket: string, key: string, f: Faults) returns (ok: bool)
      requires Bytes(key)
      modifies this
      ensures Outcome(Now(), ok) == Versions.Archive(old(Now()), bucket, key, f)
      ensures ok ==> Loc(bucket, key) in old(blobs) && |rows| == |old(rows)| + 1 && rows[..|old(rows)|] == old(rows)
      ensures ok ==>
                var row, content := rows[|old(rows)|], old(blobs)[Loc(bucket, key)];
                && row.id == old(nextId) && row.bucket == bucket && row.key == key
                && row.size == |content.body| && row.etag == content.etag
                && blobs == old(blobs)[Loc(bucket, row.storageKey) := content]
      ensures f == ALL_FINE ==> (ok <==> Loc(bucket, key) in old(blobs))
    {
      var live := Loc(bucket, key);
      var meta, failed := HeadObject(live, f.head);
      if failed || meta.None? || f.next != Fine { return false; }
      var no := NextNo(bucket, key);
      ok := CopyObject(Loc(bucket, StorageKey(bucket, key, no)), live, f.copy);
      if !ok { return; }
      ok := Insert(bucket, key, no, meta.value, f.insert);
    }

    method TextSave(bucket: string, key: string, content: Stored, f: Faults) returns (ok: bool)
      requires Inv(Now()) && Admissible(bucket, key)
      modifies this
      ensures Outcome(Now(), ok) == Versions.TextSave(old(Now()), bucket, key, content, f)
      ensures ok ==> Loc(bucket, key) in old(blobs) && Loc(bucket, key) in blobs && blobs[Loc(bucket, key)] == content
      ensures forall loc: Loc :: loc != Loc(bucket, key) && !(VERSION_PREFIX <= loc.key) ==>
                (loc in blobs <==> loc in old(blobs)) && (loc in blobs ==> blobs[loc] == old(blobs)[loc])
      ensures f == ALL_FINE ==> (ok <==> Loc(bucket, key) in old(blobs))
      ensures Inv(Now()) && Later(old(Now()), Now()) && NothingLost(old(Now()), Now())
    {
      ghost var before := Now();
      ok := Archive(bucket, key, f);
      if ok {
        if f.write != Before {
          blobs := blobs[Loc(bucket, key) := content];
        }
        ok := f.write == Fine;
      }
      SaveKeeps(before, bucket, key, content, f);
      SaveWrites(before, bucket, key, content, f);
    }

    method GetById(id: nat) returns (r: Option<Version>)
      ensures r == if HasId(rows, id) then Some(ById(rows, id)) else None
    {
      for i := 0 to |rows|
        invariant !HasId(rows[..i], id)
        invariant HasId(rows, id) ==> HasId(rows[i..], id) && ById(rows[i..], id) == ById(rows, id)
      {
        if rows[i].id == id { return Some(rows[i]); }
        assert rows[i..] == [rows[i]] + rows[i + 1..];
      }
      return None;
    }

    method Restore(id: nat, locked: bool, f: Faults) returns (ok: bool)
      requires Inv(Now())
      modifies this
      ensures Outcome(Now(), ok) == Versions.Restore(old(Now()), id, locked, f)
      ensures locked ==> !ok && Now() == old(Now())
      ensures (forall row :: row in old(rows) ==> row.id != id) ==> !ok && Now() == old(Now())
      ensures ok ==> exists row ::
                && row in old(rows) && row.id == id && Loc(row.bucket, row.storageKey) in old(blobs)
                && Loc(row.bucket, row.key) in blobs
                && blobs[Loc(row.bucket, row.key)] == old(blobs)[Loc(row.bucket, row.storageKey)]
      ensures Inv(Now()) && Later(old(Now()), Now()) && NothingLost(old(Now()), Now())
    {
      ghost var before := Now();
      RestoreKeeps(before, id, locked, f);
      RestoreWrites(before, id, locked, f);
      var found := GetById(id);
      if found.None? || locked { return false; }
      var v := found.value;
      var live, stored := Loc(v.bucket, v.key), Loc(v.bucket, v.storageKey);
      var version, failed := HeadObject(stored, f.headVersion);
      if failed || version.None? { return false; }
      var current: Option<Stored>;
      current, failed := HeadObject(live, f.headLive);
      if failed { return false; }
      if current.Some? {
        ok := Archive(v.bucket, v.key, f);
        if !ok { return; }
      }
      ok := CopyObject(live, stored, f.write);
    }

    method Remove(id: nat, f: Faults) returns (ok: bool)
      requires Inv(Now())
      modifies this
      ensures Outcome(Now(), ok) == Versions.Remove(old(Now()), id, f)
      ensures ok ==> forall row :: row in rows <==> row in old(rows) && row.id != id
      ensures forall row :: ok && row in old(rows) && row.id == id ==> Loc(row.bucket, row.storageKey) !in blobs
      ensures f == ALL_FINE ==> (ok <==> exists row :: row in old(rows) && row.id == id)
      ensures Inv(Now()) && Later(old(Now()), Now()) && NothingLost(old(Now()), Now())
    {
      ghost var before := Now();
      RemoveKeeps(before, id, f);
      RemoveRemoves(before, id, f);
      var found := GetById(id);
      if found.None? { return false; }
      touched := touched + {id};
      if f.del != Before {
        blobs := blobs - {Loc(found.value.bucket, found.value.storageKey)};
      }
      if f.del != Fine { return false; }
      ok := Delete(id, f.delRow);
    }
  }
}
