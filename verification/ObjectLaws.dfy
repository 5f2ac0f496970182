/** Laws of the object operations: the index agrees with the storage, trash and restore undo each other, and
    bucket usage moves between its three classes without loss. */
module ObjectLaws {
  import opened Text
  import opened Keys
  import opened Sums
  import opened Objects

  // ---------------------------------------------------------------------------
  // Index agreement

  /** Outside `.versions/`, a bucket's rows are its objects, with their sizes. */
  ghost predicate Agrees(t: Tables, b: Bucket)
  {
    forall key :: !(VERSION_PREFIX <= key) ==>
      && (Loc(b.name, key) in t.blobs <==> RowKey(b.id, key) in t.records)
      && (Loc(b.name, key) in t.blobs ==> t.records[RowKey(b.id, key)].size == |t.blobs[Loc(b.name, key)].body|)
  }

  /** Bucket ids and names identify each other. */
  predicate Coherent(b: Bucket, c: Bucket)
  {
    b.id == c.id <==> b.name == c.name
  }

  /** Trash-delete, move and restore keep the agreement of every bucket. */
  lemma RelocateAgrees(t: Tables, b: Bucket, c: Bucket, from: string, to: string, user: int, at: int)
    requires Coherent(b, c) && Agrees(t, b) && Agrees(t, c)
    requires from != to && Loc(b.name, from) in t.blobs
    ensures Agrees(Relocate(t, b, from, to, user, at), c)
  {
  }

  /** So do permanent delete and purge. */
  lemma RemoveAgrees(t: Tables, b: Bucket, c: Bucket, key: string)
    requires Coherent(b, c) && Agrees(t, c)
    ensures Agrees(Remove(t, b, key), c)
  {
  }

  /** So does copy, within a bucket or across. */
  lemma DuplicateAgrees(t: Tables, src: Bucket, from: string, dest: Bucket, to: string, user: int, at: int, c: Bucket)
    requires Coherent(dest, c) && Agrees(t, c) && Loc(src.name, from) in t.blobs
    ensures Agrees(Duplicate(t, src, from, dest, to, user, at), c)
  {
  }

  /** One successful operation. */
  datatype Op =
    | Trash(b: Bucket, key: string)
    | Purge(b: Bucket, key: string)
    | Move(b: Bucket, key: string, to: string)
    | Copy(b: Bucket, key: string, dest: Bucket, to: string)
    | Restore(b: Bucket, key: string)
    | Destroy(b: Bucket, key: string)

  /** When the operation succeeds. */
  predicate Accepts(t: Tables, op: Op)
  {
    match op
    case Trash(b, key) => Loc(b.name, key) in t.blobs
    case Purge(b, key) => Loc(b.name, ToTrashKey(key)) in t.blobs
    case Move(b, key, to) => key != to && Loc(b.name, key) in t.blobs && Loc(b.name, to) !in t.blobs
    case Copy(b, key, dest, to) => Loc(b.name, key) in t.blobs && Loc(dest.name, to) !in t.blobs
    case Restore(b, key) => Loc(b.name, ToTrashKey(key)) in t.blobs && Loc(b.name, key) !in t.blobs
    case Destroy(b, key) => Loc(b.name, key) in t.blobs
  }

  function Perform(t: Tables, op: Op, user: int, at: int): Tables
  {
    if !Accepts(t, op) then t
    else
      match op
      case Trash(b, key) => Relocate(t, b, key, ToTrashKey(key), user, at)
      case Purge(b, key) => Remove(t, b, ToTrashKey(key))
      case Move(b, key, to) => Relocate(t, b, key, to, user, at)
      case Copy(b, key, dest, to) => Duplicate(t, b, key, dest, to, user, at)
      case Restore(b, key) => Relocate(t, b, ToTrashKey(key), key, user, at)
      case Destroy(b, key) => Remove(t, b, key)
  }

  /** The code: without failing calls it succeeds exactly when the operation is accepted, and then performs it. */
  method Run(w: World, op: Op, user: int, at: int) returns (ok: bool)
    requires op.Move? ==> op.key != op.to
    modifies w
    ensures ok <==> Accepts(old(w.Now()), op)
    ensures w.Now() == Perform(old(w.Now()), op, user, at)
  {
    var err;
    match op {
      case Trash(b, key) => err := w.ApplyDelete(b, user, key, false, at, Fine, Fine, Fine, Fine);
      case Purge(b, key) => err := w.PurgeOne(b, key, Fine, Fine, Fine);
      case Move(b, key, to) => err := w.ApplyMove(b, user, key, to, at, Fine, Fine, Fine, Fine, Fine);
      case Copy(b, key, dest, to) => err := w.ApplyCopy(b, dest, user, key, to, at, Fine, Fine, Fine, Fine);
      case Restore(b, key) => err := w.RestoreOne(b, user, key, at, Fine, Fine, Fine, Fine, Fine);
      case Destroy(b, key) => err := w.ApplyDelete(b, user, key, true, at, Fine, Fine, Fine, Fine);
    }
    ok := err == NoError;
  }

  /** A move onto itself drops the object and leaves, or even makes, a row for it. */
  lemma SelfMoveBreaksAgreement(t: Tables, b: Bucket, key: string, user: int, at: int)
    requires Loc(b.name, key) in t.blobs
    ensures var t' := Relocate(t, b, key, key, user, at);
            && t'.blobs == t.blobs - {Loc(b.name, key)}
            && RowKey(b.id, key) in t'.records
            && (!(VERSION_PREFIX <= key) ==> !Agrees(t', b))
  {
  }

  /** It happens: the object is gone, its row is not, and the caller is told of success. */
  method SelfMoveExample() returns (ok: bool, left: Tables)
    ensures ok && left.blobs == map[] && RowKey(1, "a") in left.records
    ensures !Agrees(left, Bucket(1, "b"))
  {
    var b, obj := Bucket(1, "b"), Stored("text", None, None);
    var w := new World(map[Loc("b", "a") := obj], map[RowKey(1, "a") := Row(4, None, None, None, None, 0)]);
    SelfMoveBreaksAgreement(w.Now(), b, "a", 7, 0);
    var err := w.ApplyMove(b, 7, "a", "a", 0, Fine, Fine, Fine, Fine, Fine);
    assert VERSION_PREFIX[0] == '.';
    return err == NoError, w.Now();
  }

  predicate CoherentWith(op: Op, c: Bucket)
  {
    Coherent(op.b, c) && (op.Copy? ==> Coherent(op.dest, c))
  }

  function PerformAll(t: Tables, ops: seq<Op>, user: int, at: int): Tables
    decreases |ops|
  {
    if ops == [] then t else PerformAll(Perform(t, ops[0], user, at), ops[1..], user, at + 1)
  }

  /** Over any sequential run on any buckets, every bucket's index keeps agreeing with its storage. */
  lemma {:induction false} RunAgrees(t: Tables, ops: seq<Op>, user: int, at: int, bs: set<Bucket>)
    requires forall b, c :: b in bs && c in bs ==> Coherent(b, c)
    requires forall i :: 0 <= i < |ops| ==> ops[i].b in bs && (ops[i].Copy? ==> ops[i].dest in bs)
    requires forall c :: c in bs ==> Agrees(t, c)
    ensures forall c :: c in bs ==> Agrees(PerformAll(t, ops, user, at), c)
    decreases |ops|
  {
    hide Agrees;
    if ops == [] {
    } else {
      var op := ops[0];
      forall c | c in bs ensures Agrees(Perform(t, op, user, at), c) {
        PerformAgrees(t, op, user, at, c);
      }
      assert forall i :: 0 <= i < |ops[1..]| ==> ops[1..][i] == ops[i + 1];
      RunAgrees(Perform(t, op, user, at), ops[1..], user, at + 1, bs);
    }
  }

  lemma PerformAgrees(t: Tables, op: Op, user: int, at: int, c: Bucket)
    requires CoherentWith(op, c) && Agrees(t, op.b) && Agrees(t, c)
    ensures Agrees(Perform(t, op, user, at), c)
  {
    hide Agrees, Relocate, Remove, Duplicate;
    if Accepts(t, op) {
      match op
      case Trash(b, key) =>
        TrashKeyRoundTrip(key, "");
        RelocateAgrees(t, b, c, key, ToTrashKey(key), user, at);
      case Purge(b, key) => RemoveAgrees(t, b, c, ToTrashKey(key));
      case Move(b, key, to) => RelocateAgrees(t, b, c, key, to, user, at);
      case Copy(b, key, dest, to) => DuplicateAgrees(t, b, key, dest, to, user, at, c);
      case Restore(b, key) =>
        TrashKeyRoundTrip(key, "");
        RelocateAgrees(t, b, c, ToTrashKey(key), key, user, at);
      case Destroy(b, key) => RemoveAgrees(t, b, c, key);
    }
  }

  /** The operations that may drop stored content: the two deletions, and a trash-delete over an earlier copy. */
  predicate MayDrop(t: Tables, op: Op)
  {
    match op
    case Purge(_, _) => true
    case Destroy(_, _) => true
    case Trash(b, key) => Loc(b.name, ToTrashKey(key)) in t.blobs
    case _ => false
  }

  ghost predicate Readable(t: Tables, obj: Stored)
  {
    exists loc :: loc in t.blobs && t.blobs[loc] == obj
  }

  predicate NeverDrops(t: Tables, ops: seq<Op>, user: int, at: int)
    decreases |ops|
  {
    ops == [] || (!MayDrop(t, ops[0]) && NeverDrops(Perform(t, ops[0], user, at), ops[1..], user, at + 1))
  }

  /** Whatever is stored stays readable somewhere along any run without those operations. */
  lemma {:induction false} RunKeepsContent(t: Tables, ops: seq<Op>, user: int, at: int, obj: Stored)
    requires Readable(t, obj) && NeverDrops(t, ops, user, at)
    ensures Readable(PerformAll(t, ops, user, at), obj)
    decreases |ops|
  {
    if ops == [] {
    } else {
      var loc :| loc in t.blobs && t.blobs[loc] == obj;
      var t' := Perform(t, ops[0], user, at);
      var landed := match ops[0]
        case Trash(b, key) => if loc == Loc(b.name, key) then Loc(b.name, ToTrashKey(key)) else loc
        case Move(b, key, to) => if loc == Loc(b.name, key) && Accepts(t, ops[0]) then Loc(b.name, to) else loc
        case Restore(b, key) =>
          if loc == Loc(b.name, ToTrashKey(key)) && Accepts(t, ops[0]) then Loc(b.name, key) else loc
        case _ => loc;
      assert ops[0].Trash? ==> ToTrashKey(ops[0].key) != ops[0].key by {
        if ops[0].Trash? { TrashKeyRoundTrip(ops[0].key, ""); }
      }
      assert landed in t'.blobs && t'.blobs[landed] == obj;
      RunKeepsContent(t', ops[1..], user, at + 1, obj);
    }
  }

  /** A trash-delete over an earlier trash copy drops that copy, unless its content is stored elsewhere too. */
  lemma SecondTrashDrops(t: Tables, b: Bucket, key: string, user: int, at: int)
    requires Accepts(t, Trash(b, key)) && Loc(b.name, ToTrashKey(key)) in t.blobs
    ensures var old', t' := t.blobs[Loc(b.name, ToTrashKey(key))], Perform(t, Trash(b, key), user, at);
            Readable(t', old') <==>
            exists loc :: loc in t.blobs && loc != Loc(b.name, ToTrashKey(key)) && t.blobs[loc] == old'
  {
    TrashKeyRoundTrip(key, "");
    var src, trash := Loc(b.name, key), Loc(b.name, ToTrashKey(key));
    var old', t' := t.blobs[trash], Perform(t, Trash(b, key), user, at);
    if loc :| loc in t.blobs && loc != trash && t.blobs[loc] == old' {
      assert t'.blobs[if loc == src then trash else loc] == old';
    }
    if Readable(t', old') {
      var loc :| loc in t'.blobs && t'.blobs[loc] == old';
      assert t.blobs[if loc == trash then src else loc] == old' && src != trash;
    }
  }

  /** It happens: delete "a", upload it anew, delete it again, and the first content is stored nowhere. */
  method TrashTwiceExample() returns (ok: bool, left: Tables)
    ensures ok && left.blobs.Keys == {Loc("b", ToTrashKey("a"))} && !Readable(left, Stored("first", None, None))
  {
    var b, first, second := Bucket(1, "b"), Stored("first", None, None), Stored("second", None, None);
    var trash := Loc("b", ToTrashKey("a"));
    TrashKeyRoundTrip("a", "");
    var w := new World(map[Loc("b", "a") := first], map[RowKey(1, "a") := Row(5, None, None, None, None, 0)]);
    var deleted := Run(w, Trash(b, "a"), 7, 1);
    assert w.blobs == map[trash := first];
    w.blobs := w.blobs[Loc("b", "a") := second];
    w.records := UpsertRow(w.records, 1, "a", 6, None, None, 7, 2);
    var again := Run(w, Trash(b, "a"), 7, 3);
    assert w.blobs == map[trash := second];
    assert |first.body| == 5 && |second.body| == 6;
    return deleted && again, w.Now();
  }

  // ---------------------------------------------------------------------------
  // Trash and restore

  /** The row describes the stored object. */
  predicate Describes(row: Row, obj: Stored)
  {
    row.size == |obj.body| && row.etag == obj.etag && row.contentType == obj.contentType
  }

  /** Restoring a trash-deleted key gives back the storage, up to an earlier trash copy of the same key, which
      is gone; the row comes back with its size, etag, content type and creator. */
  lemma TrashThenRestore(t: Tables, b: Bucket, key: string, user: int, at: int, user': int, at': int)
    requires Loc(b.name, key) in t.blobs
    ensures var mid := Perform(t, Trash(b, key), user, at);
            var back := Perform(mid, Restore(b, key), user', at');
            var trashLoc, rowKey := Loc(b.name, ToTrashKey(key)), RowKey(b.id, key);
            var trashRow := RowKey(b.id, ToTrashKey(key));
            && Accepts(mid, Restore(b, key))
            && back.blobs == t.blobs - {trashLoc}
            && (back.blobs == t.blobs <==> trashLoc !in t.blobs)
            && (rowKey in t.records && Describes(t.records[rowKey], t.blobs[Loc(b.name, key)]) ==>
                  back.records ==
                  (t.records - {trashRow})[rowKey := t.records[rowKey].(updatedBy := Some(user'), seenAt := at')])
  {
    TrashKeyRoundTrip(key, "");
    var mid := Perform(t, Trash(b, key), user, at);
    var back := Perform(mid, Restore(b, key), user', at');
    var src, trashLoc := Loc(b.name, key), Loc(b.name, ToTrashKey(key));
    assert trashLoc != src;
    assert back.blobs == t.blobs - {trashLoc};
    assert trashLoc !in back.blobs;
    if trashLoc !in t.blobs {
      assert t.blobs - {trashLoc} == t.blobs;
    }
  }

  // ---------------------------------------------------------------------------
  // Usage

  predicate SqlTrash(key: string)
  {
    Like(".trash/%", key) || key == ".trash/"
  }

  predicate SqlVersion(key: string)
  {
    Like(".versions/%", key) || key == ".versions/"
  }

  /** Every key is in exactly one of the three classes the usage query counts. */
  lemma ClassesPartition(key: string)
    ensures SqlTrash(key) <==> TRASH_PREFIX <= key
    ensures SqlVersion(key) <==> VERSION_PREFIX <= key
    ensures SqlVisible(key) <==> !SqlTrash(key) && !SqlVersion(key)
    ensures !(SqlTrash(key) && SqlVersion(key))
  {
    assert TRASH_PREFIX + "%" == ".trash/%" && VERSION_PREFIX + "%" == ".versions/%";
    PlainPattern(TRASH_PREFIX, key);
    PlainPattern(VERSION_PREFIX, key);
    assert TRASH_PREFIX[1] == 't' && VERSION_PREFIX[1] == 'v';
  }

  function KeysOf(records: Records, id: int): set<string>
  {
    set k | k in records && k.bucketId == id :: k.key
  }

  function SizeIn(records: Records, id: int): string -> int
  {
    (key: string) => if RowKey(id, key) in records then records[RowKey(id, key)].size else 0
  }

  function LiveKeys(records: Records, id: int): set<string>
  {
    set key | key in KeysOf(records, id) && SqlVisible(key)
  }

  function TrashKeys(records: Records, id: int): set<string>
  {
    set key | key in KeysOf(records, id) && SqlTrash(key)
  }

  function VersionKeys(records: Records, id: int): set<string>
  {
    set key | key in KeysOf(records, id) && SqlVersion(key)
  }

  datatype Usage = Usage(usedBytes: int, objectCount: int, trashBytes: int, trashCount: int,
                         versionBytes: int, versionCount: int)

  ghost function UsageByID(records: Records, id: int): Usage
  {
    var live, trash, versions := LiveKeys(records, id), TrashKeys(records, id), VersionKeys(records, id);
    var size := SizeIn(records, id);
    Usage(Sum(live, size), |live|, Sum(trash, size), |trash|, Sum(versions, size), |versions|)
  }

  /** The three classes add up to all rows of the bucket. */
  lemma UsagePartition(records: Records, id: int)
    ensures var u, keys := UsageByID(records, id), KeysOf(records, id);
            && u.usedBytes + u.trashBytes + u.versionBytes == Sum(keys, SizeIn(records, id))
            && u.objectCount + u.trashCount + u.versionCount == |keys|
  {
    var live, trash, versions := LiveKeys(records, id), TrashKeys(records, id), VersionKeys(records, id);
    var keys, size := KeysOf(records, id), SizeIn(records, id);
    forall key ensures (key in live + trash + versions <==> key in keys) &&
      !(key in live && key in trash) && !(key in live + trash && key in versions)
    {
      ClassesPartition(key);
    }
    assert keys == live + trash + versions;
    SumDisjoint(live, trash, size);
    SumDisjoint(live + trash, versions, size);
  }

  /** A trash-delete moves exactly the object's bytes, and one object, from live to trash. */
  lemma TrashMovesUsage(t: Tables, b: Bucket, key: string, user: int, at: int)
    requires ValidUserKey(key) && Accepts(t, Trash(b, key)) && RowKey(b.id, key) in t.records
    requires RowKey(b.id, ToTrashKey(key)) !in t.records
    requires t.records[RowKey(b.id, key)].size == |t.blobs[Loc(b.name, key)].body|
    ensures var u, u' := UsageByID(t.records, b.id), UsageByID(Perform(t, Trash(b, key), user, at).records, b.id);
            var n := |t.blobs[Loc(b.name, key)].body|;
            u' == u.(usedBytes := u.usedBytes - n, objectCount := u.objectCount - 1,
                     trashBytes := u.trashBytes + n, trashCount := u.trashCount + 1)
  {
    hide LiveKeys, TrashKeys, VersionKeys, SizeIn, Sum;
    var r, r' := t.records, Perform(t, Trash(b, key), user, at).records;
    assert key != ToTrashKey(key) by { TrashKeyRoundTrip(key, ""); }
    RowMovesUsage(r, r', b.id, key);
  }

  lemma RowMovesUsage(r: Records, r': Records, id: int, key: string)
    requires ValidUserKey(key)
    requires RowKey(id, key) in r && RowKey(id, ToTrashKey(key)) !in r && RowKey(id, ToTrashKey(key)) in r'
    requires r'[RowKey(id, ToTrashKey(key))].size == r[RowKey(id, key)].size
    requires r' == (r - {RowKey(id, key)})[RowKey(id, ToTrashKey(key)) := r'[RowKey(id, ToTrashKey(key))]]
    ensures var u, u', n := UsageByID(r, id), UsageByID(r', id), r[RowKey(id, key)].size;
            u' == u.(usedBytes := u.usedBytes - n, objectCount := u.objectCount - 1,
                     trashBytes := u.trashBytes + n, trashCount := u.trashCount + 1)
  {
    hide Sum, LiveKeys, TrashKeys, VersionKeys;
    var trash, size, size' := ToTrashKey(key), SizeIn(r, id), SizeIn(r', id);
    assert key != trash by { TrashKeyRoundTrip(key, ""); }
    hide ValidUserKey, ToTrashKey;
    MovedClasses(r, r', id, key, trash);
    MovedSizes(r, r', id, key, trash);
    AddedSum(LiveKeys(r', id), LiveKeys(r, id), size', size, key);
    AddedSum(TrashKeys(r, id), TrashKeys(r', id), size, size', trash);
    SumSame(VersionKeys(r, id), size, size');
  }

  lemma MovedSizes(r: Records, r': Records, id: int, key: string, to: string)
    requires RowKey(id, key) in r && RowKey(id, to) in r' && r'[RowKey(id, to)].size == r[RowKey(id, key)].size
    requires r' == (r - {RowKey(id, key)})[RowKey(id, to) := r'[RowKey(id, to)]]
    ensures SizeIn(r', id)(to) == SizeIn(r, id)(key)
    ensures forall k :: k != key && k != to ==> SizeIn(r', id)(k) == SizeIn(r, id)(k)
  {
  }

  lemma AddedSum(s: set<string>, s': set<string>, size: string -> int, size': string -> int, key: string)
    requires key !in s && s' == s + {key}
    requires forall k :: k in s ==> size'(k) == size(k)
    ensures Sum(s', size') == Sum(s, size) + size'(key) && |s'| == |s| + 1
  {
    SumAdd(s, size', key);
    SumSame(s, size, size');
  }

  lemma MovedClasses(r: Records, r': Records, id: int, key: string, to: string)
    requires ValidUserKey(key) && to == ToTrashKey(key) && RowKey(id, key) in r && RowKey(id, to) !in r
    requires r'.Keys == r.Keys - {RowKey(id, key)} + {RowKey(id, to)}
    ensures LiveKeys(r, id) == LiveKeys(r', id) + {key} && key !in LiveKeys(r', id) && to !in LiveKeys(r', id)
    ensures TrashKeys(r', id) == TrashKeys(r, id) + {to} && to !in TrashKeys(r, id) && key !in TrashKeys(r, id)
    ensures VersionKeys(r', id) == VersionKeys(r, id) && key !in VersionKeys(r, id) && to !in VersionKeys(r, id)
  {
    ClassesPartition(key);
    ClassesPartition(to);
    TrashKeyRoundTrip(key, "");
    MovedKeys(r, r', id, key, to);
  }

  lemma MovedKeys(r: Records, r': Records, id: int, key: string, to: string)
    requires key != to && RowKey(id, key) in r && RowKey(id, to) !in r
    requires r'.Keys == r.Keys - {RowKey(id, key)} + {RowKey(id, to)}
    ensures KeysOf(r', id) == KeysOf(r, id) - {key} + {to}
    ensures key in KeysOf(r, id) && to !in KeysOf(r, id) && key !in KeysOf(r', id)
  {
    forall k ensures k in KeysOf(r', id) <==> k in KeysOf(r, id) - {key} + {to} {
      assert k in KeysOf(r, id) <==> RowKey(id, k) in r;
      assert k in KeysOf(r', id) <==> RowKey(id, k) in r';
    }
    assert RowKey(id, key) in r;
  }

  function Prefixes(records: Records, id: int): set<string>
  {
    set key | key in LiveKeys(records, id) :: FirstLevel(key)
  }

  function KeysUnder(records: Records, id: int, prefix: string): set<string>
  {
    set key | key in LiveKeys(records, id) && FirstLevel(key) == prefix
  }

  /** Usage by prefix: under "" go the live keys without a slash, and under `name/` those that begin with it. */
  lemma KeysUnderExactly(records: Records, id: int, prefix: string, key: string)
    ensures key in KeysUnder(records, id, prefix) <==>
            && RowKey(id, key) in records && !(".trash/" <= key) && !(".versions/" <= key)
            && (if prefix == "" then '/' !in key
                else exists name, rest :: '/' !in name && prefix == name + "/" && key == name + "/" + rest)
    ensures prefix in Prefixes(records, id) <==> KeysUnder(records, id, prefix) != {}
  {
    SqlVisibleIsNotHidden(key);
    FirstLevelExactly(key, prefix);
    assert key in KeysOf(records, id) <==> RowKey(id, key) in records;
    if prefix in Prefixes(records, id) {
      var k :| k in LiveKeys(records, id) && FirstLevel(k) == prefix;
      assert k in KeysUnder(records, id, prefix);
    }
    if KeysUnder(records, id, prefix) != {} {
      var k :| k in KeysUnder(records, id, prefix);
      assert k in LiveKeys(records, id);
    }
  }

  /** The usage by first-level prefix adds up to the live usage of the bucket. */
  lemma PrefixUsageSums(records: Records, id: int)
    ensures var size, u := SizeIn(records, id), UsageByID(records, id);
            && Sum(Prefixes(records, id), (p: string) => Sum(KeysUnder(records, id, p), size)) == u.usedBytes
            && Sum(Prefixes(records, id), (p: string) => |KeysUnder(records, id, p)|) == u.objectCount
  {
    var live, prefixes, size := LiveKeys(records, id), Prefixes(records, id), SizeIn(records, id);
    var one := (key: string) => 1;
    forall p ensures Group(live, FirstLevel, p) == KeysUnder(records, id, p) {
    }
    SumGroups(live, FirstLevel, prefixes, size);
    SumGroups(live, FirstLevel, prefixes, one);
    SumSame(prefixes, (p: string) => Sum(Group(live, FirstLevel, p), size),
            (p: string) => Sum(KeysUnder(records, id, p), size));
    forall p ensures Sum(Group(live, FirstLevel, p), one) == |KeysUnder(records, id, p)| {
      SumOfOnes(Group(live, FirstLevel, p));
      SumSame(Group(live, FirstLevel, p), one, (key: string) => 1);
    }
    SumSame(prefixes, (p: string) => Sum(Group(live, FirstLevel, p), one),
            (p: string) => |KeysUnder(records, id, p)|);
    SumOfOnes(live);
    SumSame(live, one, (key: string) => 1);
  }
}
