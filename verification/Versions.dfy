/** Archiving versions before content is replaced, restoring and removing them, with every storage and database
    call free to fail before or after its effect. Runs are sequential. */
module Versions {
  import opened Text
  import opened Keys
  import opened VersionKeys
  import opened Objects

  datatype Version = Version(id: nat, bucket: string, key: string, no: nat, storageKey: string, size: nat,
                             etag: Option<string>)

  /** The storage and the `file_versions` table. Two history variables record, for each row ever inserted, the
      content that was current at that moment, and the rows that some remove has worked on. */
  datatype State = State(blobs: Blobs, rows: seq<Version>, nextId: nat, archived: map<nat, Stored>,
                         touched: set<nat>)

  /** How each call of one request ends. */
  datatype Faults = Faults(headVersion: Fault, headLive: Fault, head: Fault, next: Fault, copy: Fault, insert: Fault,
                           write: Fault, del: Fault, delRow: Fault)

  const ALL_FINE := Faults(Fine, Fine, Fine, Fine, Fine, Fine, Fine, Fine, Fine)

  /** Bucket names hold no slash, and the handlers refuse other than user keys. */
  predicate Admissible(bucket: string, key: string)
  {
    '/' !in bucket && ValidUserKey(key) && Bytes(key)
  }

  function MaxNo(rows: seq<Version>, bucket: string, key: string): nat
  {
    if rows == [] then 0
    else
      var row, rest := rows[|rows| - 1], MaxNo(rows[..|rows| - 1], bucket, key);
      if row.bucket == bucket && row.key == key && row.no > rest then row.no else rest
  }

  /** SELECT COALESCE(MAX(version_no), 0) + 1 */
  function NextNo(rows: seq<Version>, bucket: string, key: string): nat
  {
    MaxNo(rows, bucket, key) + 1
  }

  // ---------------------------------------------------------------------------
  // Calls

  function CopyCall(s: State, dst: Loc, src: Loc, fault: Fault): State
    requires src in s.blobs
  {
    if fault == Before then s else s.(blobs := s.blobs[dst := s.blobs[src]])
  }

  function PutCall(s: State, dst: Loc, content: Stored, fault: Fault): State
  {
    if fault == Before then s else s.(blobs := s.blobs[dst := content])
  }

  function InsertCall(s: State, bucket: string, key: string, no: nat, content: Stored, fault: Fault): State
    requires Bytes(key)
  {
    if fault == Before then s
    else
      var row := Version(s.nextId, bucket, key, no, StorageKey(bucket, key, no), |content.body|, content.etag);
      s.(rows := s.rows + [row], nextId := s.nextId + 1, archived := s.archived[s.nextId := content])
  }

  function WithoutRow(rows: seq<Version>, id: nat): seq<Version>
  {
    Filter((row: Version) => row.id != id, rows)
  }

  // ---------------------------------------------------------------------------
  // Operations: the state they leave, and whether they succeed

  datatype Outcome = Outcome(state: State, ok: bool)

  function Archive(s: State, bucket: string, key: string, f: Faults): Outcome
    requires Bytes(key)
  {
    var live := Loc(bucket, key);
    if f.head != Fine || live !in s.blobs || f.next != Fine then Outcome(s, false)
    else
      var no := NextNo(s.rows, bucket, key);
      var s1 := CopyCall(s, Loc(bucket, StorageKey(bucket, key, no)), live, f.copy);
      if f.copy != Fine then Outcome(s1, false)
      else Outcome(InsertCall(s1, bucket, key, no, s.blobs[live], f.insert), f.insert == Fine)
  }

  function TextSave(s: State, bucket: string, key: string, content: Stored, f: Faults): Outcome
    requires Bytes(key)
  {
    var archived := Archive(s, bucket, key, f);
    if !archived.ok then archived
    else Outcome(PutCall(archived.state, Loc(bucket, key), content, f.write), f.write == Fine)
  }

  predicate HasId(rows: seq<Version>, id: nat)
  {
    exists row :: row in rows && row.id == id
  }

  function ById(rows: seq<Version>, id: nat): (row: Version)
    requires HasId(rows, id)
    ensures row in rows && row.id == id
  {
    if rows[0].id == id then rows[0]
    else
      assert HasId(rows[1..], id);
      ById(rows[1..], id)
  }

  function Restore(s: State, id: nat, locked: bool, f: Faults): Outcome
    requires HasId(s.rows, id) ==> Bytes(ById(s.rows, id).key)
  {
    if !HasId(s.rows, id) then Outcome(s, false)
    else
      var v := ById(s.rows, id);
      var live, stored := Loc(v.bucket, v.key), Loc(v.bucket, v.storageKey);
      if locked || f.headVersion != Fine || stored !in s.blobs || f.headLive != Fine then Outcome(s, false)
      else
        var archived := if live in s.blobs then Archive(s, v.bucket, v.key, f) else Outcome(s, true);
        if !archived.ok || stored !in archived.state.blobs then Outcome(archived.state, false)
        else Outcome(CopyCall(archived.state, live, stored, f.write), f.write == Fine)
  }

  function Remove(s: State, id: nat, f: Faults): Outcome
  {
    if !HasId(s.rows, id) then Outcome(s, false)
    else
      var v := ById(s.rows, id);
      var s1 := s.(touched := s.touched + {id},
                   blobs := if f.del == Before then s.blobs else s.blobs - {Loc(v.bucket, v.storageKey)});
      if f.del != Fine then Outcome(s1, false)
      else Outcome(if f.delRow == Before then s1 else s1.(rows := WithoutRow(s1.rows, id)), f.delRow == Fine)
  }

  datatype Op =
    | DoArchive(bucket: string, key: string)
    | DoSave(bucket: string, key: string, content: Stored)
    | DoRestore(id: nat, locked: bool)
    | DoRemove(id: nat)

  datatype Event = Event(op: Op, faults: Faults)

  /** Requests the handlers refuse leave no trace. */
  function Step(s: State, e: Event): State
    requires RowsOK(s.rows)
  {
    match e.op
    case DoArchive(b, k) => if Admissible(b, k) then Archive(s, b, k, e.faults).state else s
    case DoSave(b, k, content) => if Admissible(b, k) then TextSave(s, b, k, content, e.faults).state else s
    case DoRestore(id, locked) => Restore(s, id, locked, e.faults).state
    case DoRemove(id) => Remove(s, id, e.faults).state
  }

  // ---------------------------------------------------------------------------
  // Invariant

  predicate RowOK(row: Version)
  {
    Admissible(row.bucket, row.key) && row.no >= 1 && row.storageKey == StorageKey(row.bucket, row.key, row.no)
  }

  predicate RowsOK(rows: seq<Version>)
  {
    forall row :: row in rows ==> RowOK(row)
  }

  ghost predicate Distinct(s: State)
  {
    && (forall row :: row in s.rows ==> row.id < s.nextId && row.id in s.archived)
    && (forall id :: id in s.archived || id in s.touched ==> id < s.nextId)
    && (forall i, j :: 0 <= i < j < |s.rows| ==>
          && s.rows[i].id != s.rows[j].id
          && (s.rows[i].bucket != s.rows[j].bucket || s.rows[i].key != s.rows[j].key || s.rows[i].no != s.rows[j].no))
  }

  /** Every row that no remove has worked on names an object with the content archived in it. */
  ghost predicate Intact(s: State)
  {
    forall row :: row in s.rows && row.id !in s.touched ==> Holds(s, row)
  }

  ghost predicate Holds(s: State, row: Version)
  {
    && row.id in s.archived && Loc(row.bucket, row.storageKey) in s.blobs
    && s.blobs[Loc(row.bucket, row.storageKey)] == s.archived[row.id]
  }

  ghost predicate Inv(s: State)
  {
    RowsOK(s.rows) && Distinct(s) && Intact(s)
  }

  /** The content is in some row that no remove has worked on. */
  ghost predicate Safe(s: State, bucket: string, key: string, content: Stored)
  {
    exists row :: row in s.rows && row.id !in s.touched && row.bucket == bucket && row.key == key &&
                  row.id in s.archived && s.archived[row.id] == content
  }

  /** History is kept, and a row disappears only after a remove has worked on it. */
  ghost predicate Later(s: State, s': State)
  {
    && s.nextId <= s'.nextId && s.touched <= s'.touched
    && (forall id :: id in s.archived ==> id in s'.archived && s'.archived[id] == s.archived[id])
    && (forall row :: row in s.rows && row.id !in s'.touched ==> row in s'.rows)
  }

  /** Every live object either keeps its content or had it archived before it was replaced. */
  ghost predicate NothingLost(s: State, s': State)
  {
    forall b, k :: Admissible(b, k) && Loc(b, k) in s.blobs ==>
      (Loc(b, k) in s'.blobs && s'.blobs[Loc(b, k)] == s.blobs[Loc(b, k)]) || Safe(s', b, k, s.blobs[Loc(b, k)])
  }

  lemma {:induction false} MaxNoIsMax(rows: seq<Version>, bucket: string, key: string, row: Version)
    requires row in rows && row.bucket == bucket && row.key == key
    ensures row.no <= MaxNo(rows, bucket, key)
  {
    var front, last := rows[..|rows| - 1], rows[|rows| - 1];
    assert rows == front + [last];
    if row != last {
      MaxNoIsMax(front, bucket, key, row);
    }
  }

  /** Numbering leaves no gap above the rows there are. */
  lemma {:induction false} MaxNoIsUsed(rows: seq<Version>, bucket: string, key: string)
    ensures MaxNo(rows, bucket, key) > 0 ==>
              exists row :: row in rows && row.bucket == bucket && row.key == key && row.no == MaxNo(rows, bucket, key)
  {
    if rows == [] {
    } else {
      var front, last := rows[..|rows| - 1], rows[|rows| - 1];
      assert rows == front + [last];
      MaxNoIsUsed(front, bucket, key);
      assert last in rows;
    }
  }

  /** The next number is unused, so its storage key belongs to no row and is no user key. */
  lemma NextIsFree(s: State, bucket: string, key: string)
    requires RowsOK(s.rows) && Admissible(bucket, key)
    ensures var no := NextNo(s.rows, bucket, key);
            && (forall row :: row in s.rows ==>
                  && !(row.bucket == bucket && row.key == key && row.no == no)
                  && Loc(row.bucket, row.storageKey) != Loc(bucket, StorageKey(bucket, key, no)))
            && !ValidUserKey(StorageKey(bucket, key, no))
  {
    var no := NextNo(s.rows, bucket, key);
    StorageKeyIsReserved(bucket, key, no);
    forall row | row in s.rows
      ensures !(row.bucket == bucket && row.key == key && row.no == no)
      ensures Loc(row.bucket, row.storageKey) != Loc(bucket, StorageKey(bucket, key, no))
    {
      if row.bucket == bucket && row.key == key {
        MaxNoIsMax(s.rows, bucket, key, row);
      }
      assert RowOK(row);
      StorageKeyInjective(bucket, key, no, row.bucket, row.key, row.no);
    }
  }

  /** Writing anything but the storage key of a row keeps the rows intact. */
  lemma WriteKeepsInv(s: State, s': State, loc: Loc)
    requires Inv(s) && s' == s.(blobs := s'.blobs)
    requires forall l :: l != loc ==> (l in s.blobs <==> l in s'.blobs) && (l in s.blobs ==> s'.blobs[l] == s.blobs[l])
    requires forall row :: row in s.rows ==> Loc(row.bucket, row.storageKey) != loc
    ensures Inv(s')
  {
    forall row | row in s'.rows && row.id !in s'.touched ensures Holds(s', row) {
      assert Holds(s, row);
    }
  }

  lemma InsertKeepsIntact(s: State, bucket: string, key: string, content: Stored, fault: Fault)
    requires Inv(s) && Admissible(bucket, key)
    requires var loc := Loc(bucket, StorageKey(bucket, key, NextNo(s.rows, bucket, key)));
             loc in s.blobs && s.blobs[loc] == content
    ensures var s' := InsertCall(s, bucket, key, NextNo(s.rows, bucket, key), content, fault);
            RowsOK(s'.rows) && Intact(s')
  {
    var s' := InsertCall(s, bucket, key, NextNo(s.rows, bucket, key), content, fault);
    hide StorageKey, Admissible;
    forall row | row in s'.rows && row.id !in s'.touched ensures Holds(s', row) {
      assert row in s.rows ==> Holds(s, row);
    }
  }

  lemma InsertKeepsDistinct(s: State, bucket: string, key: string, content: Stored, fault: Fault)
    requires Inv(s) && Admissible(bucket, key)
    ensures Distinct(InsertCall(s, bucket, key, NextNo(s.rows, bucket, key), content, fault))
  {
    NextIsFree(s, bucket, key);
    var s' := InsertCall(s, bucket, key, NextNo(s.rows, bucket, key), content, fault);
    hide StorageKey, Admissible, RowsOK, Intact, NextNo;
    forall i, j | 0 <= i < j < |s'.rows| ensures !Clash(s'.rows[i], s'.rows[j]) {
      assert s.rows[i] in s.rows;
    }
  }

  lemma InsertKeepsInv(s: State, bucket: string, key: string, content: Stored, fault: Fault)
    requires Inv(s) && Admissible(bucket, key)
    requires var loc := Loc(bucket, StorageKey(bucket, key, NextNo(s.rows, bucket, key)));
             loc in s.blobs && s.blobs[loc] == content
    ensures Inv(InsertCall(s, bucket, key, NextNo(s.rows, bucket, key), content, fault))
  {
    hide Distinct, Intact, RowsOK, InsertCall;
    InsertKeepsIntact(s, bucket, key, content, fault);
    InsertKeepsDistinct(s, bucket, key, content, fault);
  }

  // ---------------------------------------------------------------------------
  // Each operation

  /** What archiving an object leaves: the live objects untouched and, when it succeeds, a row with the
      content. */
  ghost predicate ArchiveOK(s: State, bucket: string, key: string, out: Outcome)
  {
    && Inv(out.state) && Later(s, out.state)
    && out.state.touched == s.touched
    && s.rows <= out.state.rows
    && (forall loc: Loc :: !(VERSION_PREFIX <= loc.key) ==>
          (loc in out.state.blobs <==> loc in s.blobs) && (loc in s.blobs ==> out.state.blobs[loc] == s.blobs[loc]))
    && (out.ok ==> Loc(bucket, key) in s.blobs && Safe(out.state, bucket, key, s.blobs[Loc(bucket, key)]))
    && (out.ok ==> |out.state.rows| == |s.rows| + 1)
  }

  lemma ArchiveKeeps(s: State, bucket: string, key: string, f: Faults)
    requires Inv(s) && Admissible(bucket, key)
    ensures ArchiveOK(s, bucket, key, Archive(s, bucket, key, f))
  {
    var out, live := Archive(s, bucket, key, f), Loc(bucket, key);
    if f.head == Fine && live in s.blobs && f.next == Fine {
      var no := NextNo(s.rows, bucket, key);
      var dst := Loc(bucket, StorageKey(bucket, key, no));
      var s1 := CopyCall(s, dst, live, f.copy);
      NextIsFree(s, bucket, key);
      StorageKeyIsReserved(bucket, key, no);
      WriteKeepsInv(s, s1, dst);
      if f.copy == Fine {
        InsertKeepsInv(s1, bucket, key, s.blobs[live], f.insert);
        if f.insert != Before {
          InsertIsSafe(s1, bucket, key, no, s.blobs[live], f.insert);
        }
      }
    }
  }

  lemma InsertIsSafe(s: State, bucket: string, key: string, no: nat, content: Stored, fault: Fault)
    requires Inv(s) && Bytes(key) && fault != Before
    ensures var s' := InsertCall(s, bucket, key, no, content, fault);
            Safe(s', bucket, key, content) && Later(s, s') && |s'.rows| == |s.rows| + 1
  {
    var s' := InsertCall(s, bucket, key, no, content, fault);
    var row := s'.rows[|s.rows|];
    assert row in s'.rows && row.id == s.nextId && s.nextId !in s.touched;
  }

  /** Writing one live object keeps the rows. */
  lemma LiveWriteKeeps(s: State, bucket: string, key: string, content: Stored)
    requires Inv(s) && Admissible(bucket, key)
    ensures Inv(s.(blobs := s.blobs[Loc(bucket, key) := content]))
  {
    forall row | row in s.rows ensures Loc(row.bucket, row.storageKey) != Loc(bucket, key) {
      assert RowOK(row);
      StorageKeyIsReserved(row.bucket, row.key, row.no);
    }
    WriteKeepsInv(s, s.(blobs := s.blobs[Loc(bucket, key) := content]), Loc(bucket, key));
  }

  /** Replacing a live object after its content was archived loses nothing. */
  lemma ReplaceLosesNothing(s: State, mid: Outcome, s': State, bucket: string, key: string)
    requires Inv(s) && ArchiveOK(s, bucket, key, mid) && mid.ok
    requires s' == mid.state.(blobs := s'.blobs)
    requires forall loc: Loc :: loc != Loc(bucket, key) ==>
               (loc in s'.blobs <==> loc in mid.state.blobs) &&
               (loc in mid.state.blobs ==> s'.blobs[loc] == mid.state.blobs[loc])
    ensures NothingLost(s, s') && Later(s, s')
  {
    var content := s.blobs[Loc(bucket, key)];
    assert Safe(s', bucket, key, content) by {
      var row :| row in mid.state.rows && row.id !in mid.state.touched && row.bucket == bucket && row.key == key &&
                 row.id in mid.state.archived && mid.state.archived[row.id] == content;
      assert row in s'.rows;
    }
    forall b, k | Admissible(b, k) && Loc(b, k) in s.blobs && Loc(b, k) != Loc(bucket, key)
      ensures Loc(b, k) in s'.blobs && s'.blobs[Loc(b, k)] == s.blobs[Loc(b, k)]
    {
      assert !(VERSION_PREFIX <= k);
    }
  }

  lemma SaveKeeps(s: State, bucket: string, key: string, content: Stored, f: Faults)
    requires Inv(s) && Admissible(bucket, key)
    ensures var s' := TextSave(s, bucket, key, content, f).state; Inv(s') && Later(s, s') && NothingLost(s, s')
  {
    hide Archive, Inv;
    var mid := Archive(s, bucket, key, f);
    ArchiveKeeps(s, bucket, key, f);
    if mid.ok {
      var s' := TextSave(s, bucket, key, content, f).state;
      LiveWriteKeeps(mid.state, bucket, key, content);
      ReplaceLosesNothing(s, mid, s', bucket, key);
    } else {
      UserKeysUnchanged(s, mid.state);
    }
  }

  lemma UserKeysUnchanged(s: State, s': State)
    requires forall loc: Loc :: !(VERSION_PREFIX <= loc.key) ==>
               (loc in s'.blobs <==> loc in s.blobs) && (loc in s.blobs ==> s'.blobs[loc] == s.blobs[loc])
    ensures NothingLost(s, s')
  {
  }

  lemma ArchiveLosesNothing(s: State, bucket: string, key: string, out: Outcome)
    requires ArchiveOK(s, bucket, key, out)
    ensures Inv(out.state) && Later(s, out.state) && NothingLost(s, out.state)
  {
    UserKeysUnchanged(s, out.state);
  }

  lemma NewObjectLosesNothing(s: State, loc: Loc, content: Stored)
    requires loc !in s.blobs
    ensures var s' := s.(blobs := s.blobs[loc := content]); Later(s, s') && NothingLost(s, s')
  {
  }

  lemma RestoreKeeps(s: State, id: nat, locked: bool, f: Faults)
    requires Inv(s)
    ensures var s' := Restore(s, id, locked, f).state; Inv(s') && Later(s, s') && NothingLost(s, s')
  {
    hide Archive, Inv, Later, NothingLost, ArchiveOK, Safe;
    LaterReflexive(s);
    UserKeysUnchanged(s, s);
    if HasId(s.rows, id) {
      var v := ById(s.rows, id);
      assert RowOK(v) by { InvRow(s, v); }
      var live, stored := Loc(v.bucket, v.key), Loc(v.bucket, v.storageKey);
      if !locked && f.headVersion == Fine && stored in s.blobs && f.headLive == Fine {
        var s' := Restore(s, id, locked, f).state;
        if live in s.blobs {
          var mid := Archive(s, v.bucket, v.key, f);
          ArchiveKeeps(s, v.bucket, v.key, f);
          if mid.ok && stored in mid.state.blobs {
            ArchiveLosesNothing(s, v.bucket, v.key, mid);
            LiveWriteKeeps(mid.state, v.bucket, v.key, mid.state.blobs[stored]);
            ReplaceLosesNothing(s, mid, s', v.bucket, v.key);
          } else {
            ArchiveLosesNothing(s, v.bucket, v.key, mid);
          }
        } else {
          LiveWriteKeeps(s, v.bucket, v.key, s.blobs[stored]);
          NewObjectLosesNothing(s, live, s.blobs[stored]);
        }
      }
    }
  }

  lemma InvRow(s: State, v: Version)
    requires Inv(s) && v in s.rows
    ensures RowOK(v)
  {
  }

  /** What a remove that found its row may leave: it worked on the row, and both its steps are optional. */
  ghost predicate Removing(s: State, s': State, v: Version)
  {
    && v in s.rows && s' == s.(touched := s.touched + {v.id}, blobs := s'.blobs, rows := s'.rows)
    && (s'.blobs == s.blobs || s'.blobs == s.blobs - {Loc(v.bucket, v.storageKey)})
    && (s'.rows == s.rows || s'.rows == WithoutRow(s.rows, v.id))
  }

  lemma RemovingKeepsIntact(s: State, s': State, v: Version)
    requires Inv(s) && Removing(s, s', v)
    ensures RowsOK(s'.rows) && Intact(s')
  {
    WithoutRowMeaning(s.rows, v.id);
    forall row | row in s'.rows && row.id !in s'.touched ensures Holds(s', row) {
      assert Holds(s, row);
      RowsDiffer(s, row, v);
    }
  }

  lemma RemovingKeepsDistinct(s: State, s': State, v: Version)
    requires Inv(s) && Removing(s, s', v)
    ensures Distinct(s')
  {
    WithoutRowMeaning(s.rows, v.id);
    FilterDistinct(s, v.id);
  }

  lemma RemovingLosesNothing(s: State, s': State, v: Version)
    requires Inv(s) && Removing(s, s', v)
    ensures Later(s, s') && NothingLost(s, s')
  {
    WithoutRowMeaning(s.rows, v.id);
    InvRow(s, v);
    StorageKeyIsReserved(v.bucket, v.key, v.no);
  }

  lemma RemoveKeeps(s: State, id: nat, f: Faults)
    requires Inv(s)
    ensures var s' := Remove(s, id, f).state; Inv(s') && Later(s, s') && NothingLost(s, s')
  {
    hide Inv, Later, NothingLost, Distinct, Intact, RowsOK, WithoutRow;
    if HasId(s.rows, id) {
      var v, s' := ById(s.rows, id), Remove(s, id, f).state;
      RemovingKeepsIntact(s, s', v);
      RemovingKeepsDistinct(s, s', v);
      RemovingLosesNothing(s, s', v);
      assert Inv(s') by { InvOf(s'); }
    } else {
      LaterReflexive(s);
      UserKeysUnchanged(s, s);
    }
  }

  lemma InvOf(s: State)
    requires RowsOK(s.rows) && Distinct(s) && Intact(s)
    ensures Inv(s)
  {
  }

  lemma WithoutRowMeaning(rows: seq<Version>, id: nat)
    ensures forall row :: row in WithoutRow(rows, id) <==> row in rows && row.id != id
  {
  }

  lemma RowsDiffer(s: State, a: Version, b: Version)
    requires Inv(s) && a in s.rows && b in s.rows && a.id != b.id
    ensures Loc(a.bucket, a.storageKey) != Loc(b.bucket, b.storageKey)
  {
    var i :| 0 <= i < |s.rows| && s.rows[i] == a;
    var j :| 0 <= j < |s.rows| && s.rows[j] == b;
    StorageKeyInjective(a.bucket, a.key, a.no, b.bucket, b.key, b.no);
  }

  predicate Clash(a: Version, b: Version)
  {
    a.id == b.id || (a.bucket == b.bucket && a.key == b.key && a.no == b.no)
  }

  lemma FilterDistinct(s: State, id: nat)
    requires Inv(s)
    ensures forall i, j :: 0 <= i < j < |WithoutRow(s.rows, id)| ==>
              !Clash(WithoutRow(s.rows, id)[i], WithoutRow(s.rows, id)[j])
  {
    assert forall i, j :: 0 <= i < j < |s.rows| ==> !Clash(s.rows[i], s.rows[j]);
    NoClash(s.rows, id);
  }

  lemma {:induction false} NoClash(rows: seq<Version>, id: nat)
    requires forall i, j :: 0 <= i < j < |rows| ==> !Clash(rows[i], rows[j])
    ensures forall i, j :: 0 <= i < j < |WithoutRow(rows, id)| ==>
              !Clash(WithoutRow(rows, id)[i], WithoutRow(rows, id)[j])
  {
    if rows == [] {
    } else {
      NoClash(rows[1..], id);
      var rest := WithoutRow(rows[1..], id);
      forall j | 0 <= j < |rest| ensures !Clash(rows[0], rest[j]) {
        assert rest[j] in rest && rest[j] in rows[1..];
        var k :| 0 <= k < |rows[1..]| && rows[1..][k] == rest[j];
        assert !Clash(rows[0], rows[k + 1]);
      }
    }
  }

  // ---------------------------------------------------------------------------
  // What each operation achieves

  /** A save that succeeds leaves the new content live, and no save touches another live object. Without faults it
      succeeds exactly when there is an object to save. */
  lemma SaveWrites(s: State, bucket: string, key: string, content: Stored, f: Faults)
    requires Inv(s) && Admissible(bucket, key)
    ensures var out, live := TextSave(s, bucket, key, content, f), Loc(bucket, key);
            && (out.ok ==> live in s.blobs && live in out.state.blobs && out.state.blobs[live] == content)
            && (forall loc: Loc :: loc != live && !(VERSION_PREFIX <= loc.key) ==>
                  (loc in out.state.blobs <==> loc in s.blobs) &&
                  (loc in s.blobs ==> out.state.blobs[loc] == s.blobs[loc]))
            && (f == ALL_FINE ==> (out.ok <==> live in s.blobs))
  {
    hide Inv, Admissible;
    ArchiveKeeps(s, bucket, key, f);
  }

  /** A call that fails after its effect has had it, and one that fails before has not. */
  lemma SaveUnderFaults(s: State, bucket: string, key: string, content: Stored)
    requires Inv(s) && Admissible(bucket, key) && Loc(bucket, key) in s.blobs
    ensures var out := TextSave(s, bucket, key, content, ALL_FINE.(write := After));
            !out.ok && Loc(bucket, key) in out.state.blobs && out.state.blobs[Loc(bucket, key)] == content
    ensures var out := TextSave(s, bucket, key, content, ALL_FINE.(write := Before));
            && !out.ok && Loc(bucket, key) in out.state.blobs
            && out.state.blobs[Loc(bucket, key)] == s.blobs[Loc(bucket, key)]
    ensures var out := TextSave(s, bucket, key, content, ALL_FINE.(insert := After));
            !out.ok && |out.state.rows| == |s.rows| + 1
    ensures var out := TextSave(s, bucket, key, content, ALL_FINE.(insert := Before));
            !out.ok && out.state.rows == s.rows
    ensures forall f: Faults :: f.head != Fine || f.next != Fine || f.copy == Before ==>
              TextSave(s, bucket, key, content, f) == Outcome(s, false)
  {
    NextIsFree(s, bucket, key);
    StorageKeyIsReserved(bucket, key, NextNo(s.rows, bucket, key));
  }

  /** A restore that succeeds makes the archived object live; a locked file and a missing row refuse it. */
  lemma RestoreWrites(s: State, id: nat, locked: bool, f: Faults)
    requires Inv(s)
    ensures var out := Restore(s, id, locked, f);
            && (locked || (forall row :: row in s.rows ==> row.id != id) ==> !out.ok && out.state == s)
            && (out.ok ==> exists row ::
                  && row in s.rows && row.id == id && Loc(row.bucket, row.storageKey) in s.blobs
                  && Loc(row.bucket, row.key) in out.state.blobs
                  && out.state.blobs[Loc(row.bucket, row.key)] == s.blobs[Loc(row.bucket, row.storageKey)])
  {
    hide Inv;
    if HasId(s.rows, id) {
      var v := ById(s.rows, id);
      assert RowOK(v) by { InvRow(s, v); }
      StoredSurvives(s, v, f);
    }
  }

  /** Without faults a restore succeeds exactly for an unlocked file whose archived object is there. */
  lemma RestoreWhen(s: State, id: nat, locked: bool)
    requires Inv(s)
    ensures Restore(s, id, locked, ALL_FINE).ok <==>
            !locked && exists row :: row in s.rows && row.id == id && Loc(row.bucket, row.storageKey) in s.blobs
  {
    hide Inv, ValidUserKey;
    TheRow(s, id);
    if HasId(s.rows, id) {
      StoredSurvives(s, ById(s.rows, id), ALL_FINE);
    }
  }

  /** Whatever fails, a restore changes no live object but its row's own. */
  lemma RestoreTouches(s: State, id: nat, locked: bool, f: Faults)
    requires Inv(s)
    ensures var s' := Restore(s, id, locked, f).state;
            forall row, loc: Loc ::
              row in s.rows && row.id == id && loc != Loc(row.bucket, row.key) && !(VERSION_PREFIX <= loc.key) ==>
                (loc in s'.blobs <==> loc in s.blobs) && (loc in s.blobs ==> s'.blobs[loc] == s.blobs[loc])
  {
    hide Inv, ValidUserKey, Archive, Safe, Later;
    TheRow(s, id);
    if HasId(s.rows, id) {
      ArchiveKeeps(s, ById(s.rows, id).bucket, ById(s.rows, id).key, f);
    }
  }

  lemma TheRow(s: State, id: nat)
    requires Inv(s)
    ensures forall row :: row in s.rows && row.id == id ==> HasId(s.rows, id) && row == ById(s.rows, id)
    ensures HasId(s.rows, id) ==> RowOK(ById(s.rows, id))
  {
    forall row | row in s.rows && row.id == id ensures HasId(s.rows, id) && row == ById(s.rows, id) {
      FindNew(s, row);
    }
  }

  /** Archiving the live object of a row does not touch the row's own archived object. */
  lemma StoredSurvives(s: State, v: Version, f: Faults)
    requires Inv(s) && v in s.rows && Bytes(v.key)
    ensures var stored, out := Loc(v.bucket, v.storageKey), Archive(s, v.bucket, v.key, f);
            stored in s.blobs ==> stored in out.state.blobs && out.state.blobs[stored] == s.blobs[stored]
  {
    InvRow(s, v);
    NextIsFree(s, v.bucket, v.key);
  }

  /** A remove touches no object but the one of its row. */
  lemma RemoveTouches(s: State, id: nat, f: Faults)
    requires Inv(s)
    ensures var s' := Remove(s, id, f).state;
            forall row, loc :: row in s.rows && row.id == id && loc != Loc(row.bucket, row.storageKey) ==>
              (loc in s'.blobs <==> loc in s.blobs) && (loc in s.blobs ==> s'.blobs[loc] == s.blobs[loc])
  {
    hide Inv;
    TheRow(s, id);
  }

  /** A remove that succeeds leaves neither the row nor its object, and no other row goes. */
  lemma RemoveRemoves(s: State, id: nat, f: Faults)
    requires Inv(s)
    ensures var out := Remove(s, id, f);
            && (out.ok ==> forall row :: row in out.state.rows <==> row in s.rows && row.id != id)
            && (forall row :: out.ok && row in s.rows && row.id == id ==>
                  Loc(row.bucket, row.storageKey) !in out.state.blobs)
            && (f == ALL_FINE ==> (out.ok <==> exists row :: row in s.rows && row.id == id))
  {
    hide Inv, WithoutRow;
    WithoutRowMeaning(s.rows, id);
    TheRow(s, id);
  }

  // ---------------------------------------------------------------------------
  // Runs

  /** No single request, whatever fails in it, breaks the archive or loses live content. */
  lemma StepKeeps(s: State, e: Event)
    requires Inv(s)
    ensures Inv(Step(s, e)) && Later(s, Step(s, e)) && NothingLost(s, Step(s, e))
  {
    match e.op
    case DoArchive(b, k) =>
      if Admissible(b, k) {
        ArchiveKeeps(s, b, k, e.faults);
        UserKeysUnchanged(s, Archive(s, b, k, e.faults).state);
      }
    case DoSave(b, k, content) => if Admissible(b, k) { SaveKeeps(s, b, k, content, e.faults); }
    case DoRestore(id, locked) => RestoreKeeps(s, id, locked, e.faults);
    case DoRemove(id) => RemoveKeeps(s, id, e.faults);
  }

  ghost function Run(s: State, events: seq<Event>): State
    requires Inv(s)
    decreases |events|
  {
    if events == [] then s
    else
      StepKeeps(s, events[0]);
      Run(Step(s, events[0]), events[1..])
  }

  lemma LaterTransitive(a: State, b: State, c: State)
    requires Later(a, b) && Later(b, c)
    ensures Later(a, c)
  {
  }

  lemma {:induction false} RunKeeps(s: State, events: seq<Event>)
    requires Inv(s)
    ensures Inv(Run(s, events)) && Later(s, Run(s, events))
    decreases |events|
  {
    hide Distinct, Intact, Step, Later;
    if events != [] {
      StepKeeps(s, events[0]);
      RunKeeps(Step(s, events[0]), events[1..]);
      LaterTransitive(s, Step(s, events[0]), Run(s, events));
    } else {
      assert Later(s, s) by { LaterReflexive(s); }
    }
  }

  lemma LaterReflexive(s: State)
    ensures Later(s, s)
  {
  }

  /** Over any run, a version row that no remove has worked on stays, and names an object with exactly the
      content that was current when the row was archived. */
  lemma VersionsAreImmutable(s: State, events: seq<Event>, row: Version)
    requires Inv(s) && row in s.rows && row.id !in Run(s, events).touched
    ensures var s' := Run(s, events);
            && row in s'.rows && row.id in s.archived
            && Loc(row.bucket, row.storageKey) in s'.blobs
            && s'.blobs[Loc(row.bucket, row.storageKey)] == s.archived[row.id]
  {
    RunKeeps(s, events);
    assert Holds(Run(s, events), row);
  }

  lemma {:induction false} RunSplit(s: State, events: seq<Event>, n: nat)
    requires Inv(s) && n <= |events|
    ensures Inv(Run(s, events[..n])) && Run(s, events) == Run(Run(s, events[..n]), events[n..])
    decreases n
  {
    hide Distinct, Intact, Step;
    if n == 0 {
      assert events[0..] == events;
    } else {
      StepKeeps(s, events[0]);
      RunSplit(Step(s, events[0]), events[1..], n - 1);
      assert events[..n][1..] == events[1..][..n - 1] && events[1..][n - 1..] == events[n..];
    }
  }

  /** At some point of the run, the row held this content of the object. */
  ghost predicate Held(s: State, events: seq<Event>, row: Version, bucket: string, key: string, content: Stored)
    requires Inv(s)
  {
    exists n :: 0 <= n <= |events| && HeldAt(Run(s, events[..n]), row, bucket, key, content)
  }

  ghost predicate HeldAt(s: State, row: Version, bucket: string, key: string, content: Stored)
  {
    row in s.rows && row.bucket == bucket && row.key == key && row.id in s.archived && s.archived[row.id] == content
  }

  /** Content once live is, after any run, still live, or some row held it; and each row that held it, but for
      those a remove has worked on, still names an object with it. */
  lemma LiveContentSurvives(s: State, events: seq<Event>, bucket: string, key: string)
    requires Inv(s) && Admissible(bucket, key) && Loc(bucket, key) in s.blobs
    ensures var s', content := Run(s, events), s.blobs[Loc(bucket, key)];
            || (Loc(bucket, key) in s'.blobs && s'.blobs[Loc(bucket, key)] == content)
            || (exists row :: Held(s, events, row, bucket, key, content))
    ensures var s', content := Run(s, events), s.blobs[Loc(bucket, key)];
            forall row :: Held(s, events, row, bucket, key, content) && row.id !in s'.touched ==>
              && row in s'.rows && Loc(bucket, row.storageKey) in s'.blobs
              && s'.blobs[Loc(bucket, row.storageKey)] == content
  {
    hide Inv, Admissible;
    var content := s.blobs[Loc(bucket, key)];
    LiveOrHeld(s, events, bucket, key);
    forall row | Held(s, events, row, bucket, key, content) && row.id !in Run(s, events).touched
      ensures var s' := Run(s, events);
              && row in s'.rows && Loc(bucket, row.storageKey) in s'.blobs
              && s'.blobs[Loc(bucket, row.storageKey)] == content
    {
      var n :| 0 <= n <= |events| && HeldAt(Run(s, events[..n]), row, bucket, key, content);
      RunSplit(s, events, n);
      VersionsAreImmutable(Run(s, events[..n]), events[n..], row);
    }
  }

  lemma {:induction false} LiveOrHeld(s: State, events: seq<Event>, bucket: string, key: string)
    requires Inv(s) && Admissible(bucket, key) && Loc(bucket, key) in s.blobs
    ensures var s', content := Run(s, events), s.blobs[Loc(bucket, key)];
            || (Loc(bucket, key) in s'.blobs && s'.blobs[Loc(bucket, key)] == content)
            || (exists row :: Held(s, events, row, bucket, key, content))
    decreases |events|
  {
    hide Distinct, Intact, Step, Admissible;
    if events == [] {
    } else {
      var s1, content, loc := Step(s, events[0]), s.blobs[Loc(bucket, key)], Loc(bucket, key);
      StepKeeps(s, events[0]);
      if loc in s1.blobs && s1.blobs[loc] == content {
        LiveOrHeld(s1, events[1..], bucket, key);
        forall row | Held(s1, events[1..], row, bucket, key, content)
          ensures Held(s, events, row, bucket, key, content)
        {
          var n :| 0 <= n <= |events[1..]| && HeldAt(Run(s1, events[1..][..n]), row, bucket, key, content);
          assert events[..n + 1][1..] == events[1..][..n];
        }
      } else {
        assert Safe(s1, bucket, key, content);
        var row :| row in s1.rows && row.id !in s1.touched && row.bucket == bucket && row.key == key &&
                   row.id in s1.archived && s1.archived[row.id] == content;
        assert events[..1][1..] == [] && Run(s, events[..1]) == s1;
        assert HeldAt(Run(s, events[..1]), row, bucket, key, content);
        assert Held(s, events, row, bucket, key, content);
      }
    }
  }

  /** Without faults, archiving inserts one row, found by its id, whose object has the live content. */
  lemma ArchiveFine(s: State, bucket: string, key: string)
    requires Inv(s) && Admissible(bucket, key) && Loc(bucket, key) in s.blobs
    ensures var out := Archive(s, bucket, key, ALL_FINE);
            && out.ok && HasId(out.state.rows, s.nextId)
            && var row := ById(out.state.rows, s.nextId);
               && row.bucket == bucket && row.key == key && ValidUserKey(key) && VERSION_PREFIX <= row.storageKey
               && Loc(bucket, row.storageKey) in out.state.blobs
               && out.state.blobs[Loc(bucket, row.storageKey)] == s.blobs[Loc(bucket, key)]
  {
    var out := Archive(s, bucket, key, ALL_FINE);
    ArchiveKeeps(s, bucket, key, ALL_FINE);
    var row := out.state.rows[|s.rows|];
    assert row in out.state.rows && row.id == s.nextId;
    FindNew(out.state, row);
    assert Holds(out.state, row);
    StorageKeyIsReserved(bucket, key, row.no);
  }

  /** A restore that finds both objects, with no fault: what it leaves. */
  lemma RestoreFine(s: State, id: nat)
    requires Inv(s) && HasId(s.rows, id)
    requires var v := ById(s.rows, id); Loc(v.bucket, v.key) in s.blobs && Loc(v.bucket, v.storageKey) in s.blobs
    ensures var v := ById(s.rows, id); var out := Restore(s, id, false, ALL_FINE);
            && out.ok && Admissible(v.bucket, v.key)
            && out.state == Archive(s, v.bucket, v.key, ALL_FINE).state.(blobs := out.state.blobs)
            && out.state.blobs == Archive(s, v.bucket, v.key, ALL_FINE).state.blobs[
                                    Loc(v.bucket, v.key) := s.blobs[Loc(v.bucket, v.storageKey)]]
  {
    var v := ById(s.rows, id);
    var stored := Loc(v.bucket, v.storageKey);
    assert RowOK(v);
    ArchiveFine(s, v.bucket, v.key);
    NextIsFree(s, v.bucket, v.key);
    assert stored in Archive(s, v.bucket, v.key, ALL_FINE).state.blobs;
  }

  /** Restoring the row that a restore archived automatically undoes the restore. */
  lemma RestoreUndoesRestore(s: State, id: nat)
    requires Inv(s) && HasId(s.rows, id)
    requires var v := ById(s.rows, id); Loc(v.bucket, v.key) in s.blobs && Loc(v.bucket, v.storageKey) in s.blobs
    ensures var v := ById(s.rows, id); var first := Restore(s, id, false, ALL_FINE);
            && first.ok && HasId(first.state.rows, s.nextId) && Inv(first.state)
            && Loc(v.bucket, v.key) in first.state.blobs
            && first.state.blobs[Loc(v.bucket, v.key)] == s.blobs[Loc(v.bucket, v.storageKey)]
    ensures var v := ById(s.rows, id); var first := Restore(s, id, false, ALL_FINE);
            var second := Restore(first.state, s.nextId, false, ALL_FINE);
            && second.ok && Loc(v.bucket, v.key) in second.state.blobs
            && second.state.blobs[Loc(v.bucket, v.key)] == s.blobs[Loc(v.bucket, v.key)]
  {
    hide Restore, Archive, Inv, Admissible;
    var v := ById(s.rows, id);
    RestoreFine(s, id);
    RestoreKeeps(s, id, false, ALL_FINE);
    ArchiveFine(s, v.bucket, v.key);
    var first := Restore(s, id, false, ALL_FINE);
    RestoreFine(first.state, s.nextId);
  }

  lemma FindNew(s: State, row: Version)
    requires Inv(s) && row in s.rows
    ensures HasId(s.rows, row.id) && ById(s.rows, row.id) == row
  {
    hide Intact, RowsOK, ById;
    var found := ById(s.rows, row.id);
    var i :| 0 <= i < |s.rows| && s.rows[i] == row;
    var j :| 0 <= j < |s.rows| && s.rows[j] == found;
  }
}
