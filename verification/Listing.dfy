/** Delimiter listing with paging over the object index: one page is a fold over at most SCAN_CAP sorted rows,
    cut short after `maxKeys` entries; the token is the last row the page used up. */
module Listing {
  import opened Text
  import opened Keys

  const MAX_LIST_KEYS := 1000
  const SCAN_CAP := 2000

  datatype Record = Record(key: string, size: nat, contentType: Option<string>, etag: Option<string>)

  predicate Sorted(recs: seq<Record>)
  {
    forall i, j :: 0 <= i < j < |recs| ==> Less(recs[i].key, recs[j].key)
  }

  // ---------------------------------------------------------------------------
  // What one key contributes to the listing of a prefix

  datatype Entry = Nothing | Item | Folder(path: string)

  function Classify(prefix: string, key: string): Entry
  {
    if HiddenKey(key) || !(prefix <= key) || key == prefix then Nothing
    else
      var rest := key[|prefix|..];
      var i := IndexOf(rest, '/');
      if i < |rest| then Folder(prefix + rest[..i + 1]) else Item
  }

  /** A live key directly below the prefix. */
  predicate DirectChild(prefix: string, key: string)
  {
    !HiddenKey(key) && prefix < key && '/' !in key[|prefix|..]
  }

  /** `path` is one level below the prefix and `key` is a live key inside it. */
  ghost predicate FoldsInto(prefix: string, path: string, key: string)
  {
    !HiddenKey(key) && path <= key &&
    exists name :: '/' !in name && path == prefix + name + "/"
  }

  /** The classification means what a delimiter listing promises. */
  lemma ClassifyMeaning(prefix: string, key: string, path: string)
    ensures Classify(prefix, key) == Item <==> DirectChild(prefix, key)
    ensures Classify(prefix, key) == Folder(path) <==> FoldsInto(prefix, path, key)
  {
    hide HiddenKey, IndexOf;
    if prefix <= key && key != prefix {
      var rest := key[|prefix|..];
      var i := IndexOf(rest, '/');
      assert key == prefix + rest;
      if i < |rest| && path == prefix + rest[..i + 1] {
        assert rest[..i + 1] == rest[..i] + "/";
        assert path == prefix + rest[..i] + "/";
      }
    }
    if FoldsInto(prefix, path, key) {
      var name :| '/' !in name && path == prefix + name + "/";
      SlashPosition(prefix, name, key);
    }
  }

  lemma SlashPosition(prefix: string, name: string, key: string)
    requires '/' !in name && prefix + name + "/" <= key
    ensures prefix < key && key[|prefix|..][..|name| + 1] == name + "/"
    ensures IndexOf(key[|prefix|..], '/') == |name|
  {
    var rest := key[|prefix|..];
    assert key[..|prefix| + |name| + 1] == prefix + (name + "/");
    assert rest[..|name| + 1] == name + "/";
    assert rest[|name|] == '/';
    forall k | 0 <= k < |name| ensures rest[k] != '/' {
      assert rest[k] == (name + "/")[k] == name[k];
    }
  }

  // ---------------------------------------------------------------------------
  // The fold

  datatype Page = Page(items: seq<Record>, prefixes: seq<string>, token: Option<string>, truncated: bool)

  /** Loop state: the entries so far, the folder of the previous row ("" after an item), the last used key. */
  datatype Acc = Acc(items: seq<Record>, prefixes: seq<string>, last: string, token: string)
  {
    function Count(): nat { |items| + |prefixes| }
  }

  const START := Acc([], [], "", "")

  /** The row opens a new entry and the page is full. */
  predicate Refused(prefix: string, max: nat, acc: Acc, rec: Record)
  {
    match Classify(prefix, rec.key)
    case Nothing => false
    case Item => acc.Count() >= max
    case Folder(p) => p != acc.last && acc.Count() >= max
  }

  function Take(prefix: string, acc: Acc, rec: Record): Acc
  {
    match Classify(prefix, rec.key)
    case Nothing => acc.(token := rec.key)
    case Item => Acc(acc.items + [rec], acc.prefixes, "", rec.key)
    case Folder(p) =>
      if p == acc.last then acc.(token := rec.key)
      else Acc(acc.items, acc.prefixes + [p], p, rec.key)
  }

  /** The loop from a given state: the final state, and whether some row was refused. */
  function Run(prefix: string, max: nat, recs: seq<Record>, acc: Acc): (Acc, bool)
  {
    if recs == [] then (acc, false)
    else if Refused(prefix, max, acc, recs[0]) then (acc, true)
    else Run(prefix, max, recs[1..], Take(prefix, acc, recs[0]))
  }

  function AtLeastOne(maxKeys: int): nat
  {
    if maxKeys < 1 then 1 else maxKeys
  }

  /** The page `FoldList` builds, on any rows. */
  function Fold(prefix: string, maxKeys: int, recs: seq<Record>, more: bool): Page
  {
    var (acc, refused) := Run(prefix, AtLeastOne(maxKeys), recs, START);
    var truncated := refused || more;
    Page(acc.items, acc.prefixes, if truncated && acc.token != "" then Some(acc.token) else None, truncated)
  }

  method FoldList(prefix: string, maxKeys: int, recs: seq<Record>, more: bool)
    returns (items: seq<Record>, prefixes: seq<string>, token: Option<string>, truncated: bool)
    ensures Page(items, prefixes, token, truncated) == Fold(prefix, maxKeys, recs, more)
  {
    hide HiddenKey, IndexOf;
    var max := if maxKeys < 1 then 1 else maxKeys;
    items, prefixes, token, truncated := [], [], None, false;
    var lastPrefix, tokenKey, n, i := "", "", 0, 0;
    while i < |recs|
      invariant 0 <= i <= |recs| && !truncated && token == None
      invariant n == |items| + |prefixes|
      invariant Run(prefix, max, recs, START) ==
                Run(prefix, max, recs[i..], Acc(items, prefixes, lastPrefix, tokenKey))
    {
      var rec := recs[i];
      assert recs[i..][0] == rec && recs[i..][1..] == recs[i + 1..];
      if HiddenKey(rec.key) || !(prefix <= rec.key) || rec.key == prefix {
        tokenKey, i := rec.key, i + 1;
        continue;
      }
      var rest := rec.key[|prefix|..];
      var slash := IndexOf(rest, '/');
      if slash < |rest| {
        var p := prefix + rest[..slash + 1];
        if p == lastPrefix {
          tokenKey, i := rec.key, i + 1;
          continue;
        }
        if n >= max {
          truncated := true;
          break;
        }
        prefixes, lastPrefix, n, tokenKey, i := prefixes + [p], p, n + 1, rec.key, i + 1;
        continue;
      }
      if n >= max {
        truncated := true;
        break;
      }
      lastPrefix := "";
      items, n, tokenKey, i := items + [rec], n + 1, rec.key, i + 1;
    }
    if more {
      truncated := true;
    }
    if truncated && tokenKey != "" {
      token := Some(tokenKey);
    }
  }

  // ---------------------------------------------------------------------------
  // What a page over sorted rows contains

  function Items(prefix: string, recs: seq<Record>): seq<Record>
  {
    Filter((r: Record) => DirectChild(prefix, r.key), recs)
  }

  /** The first-level common prefixes of a set of rows. */
  function Folders(prefix: string, recs: seq<Record>): set<string>
  {
    set r | r in recs && Classify(prefix, r.key).Folder? :: Classify(prefix, r.key).path
  }

  predicate Ascending(paths: seq<string>)
  {
    forall i, j :: 0 <= i < j < |paths| ==> Less(paths[i], paths[j])
  }

  /** How many rows the fold uses up before it refuses one. */
  function Used(prefix: string, max: nat, recs: seq<Record>, acc: Acc): (n: nat)
    ensures n <= |recs|
  {
    if recs == [] || Refused(prefix, max, acc, recs[0]) then 0
    else 1 + Used(prefix, max, recs[1..], Take(prefix, acc, recs[0]))
  }

  /** The folder the fold compares the next row with, after the rows `done`. */
  function LastFolder(prefix: string, done: seq<Record>): string
  {
    if done == [] then ""
    else
      match Classify(prefix, done[|done| - 1].key)
      case Nothing => LastFolder(prefix, done[..|done| - 1])
      case Item => ""
      case Folder(p) => p
  }

  ghost predicate AccOK(prefix: string, max: nat, done: seq<Record>, acc: Acc)
  {
    && acc.items == Items(prefix, done)
    && (forall p :: p in acc.prefixes <==> p in Folders(prefix, done))
    && Ascending(acc.prefixes)
    && acc.Count() <= max
    && acc.last == LastFolder(prefix, done)
    && acc.token == (if done == [] then "" else done[|done| - 1].key)
  }

  lemma SortedPrefix(recs: seq<Record>, rest: seq<Record>)
    requires Sorted(recs + rest)
    ensures Sorted(recs) && Sorted(rest)
    ensures forall a, b :: a in recs && b in rest ==> Less(a.key, b.key)
  {
    var all := recs + rest;
    forall i, j | 0 <= i < j < |recs| ensures Less(recs[i].key, recs[j].key) {
      assert recs[i] == all[i] && recs[j] == all[j];
    }
    forall i, j | 0 <= i < j < |rest| ensures Less(rest[i].key, rest[j].key) {
      assert rest[i] == all[|recs| + i] && rest[j] == all[|recs| + j];
    }
    forall a, b | a in recs && b in rest ensures Less(a.key, b.key) {
      var i :| 0 <= i < |recs| && recs[i] == a;
      var j :| 0 <= j < |rest| && rest[j] == b;
      assert all[i] == a && all[|recs| + j] == b;
    }
  }

  /** Any live key inside a folder is classified into that folder. */
  lemma InsideFolder(prefix: string, key: string, other: string)
    requires Classify(prefix, key).Folder? && Classify(prefix, key).path <= other
    ensures Classify(prefix, other) == Classify(prefix, key)
    ensures !HiddenKey(other)
  {
    var p := Classify(prefix, key).path;
    ClassifyMeaning(prefix, key, p);
    var name :| '/' !in name && p == prefix + name + "/";
    assert p[|p| - 1] == '/';
    assert p <= key;
    ShortPrefix(TRASH_PREFIX, p, other);
    ShortPrefix(VERSION_PREFIX, p, other);
    ClassifyMeaning(prefix, other, p);
  }

  /** Rows of one folder are contiguous. */
  lemma BetweenFolder(prefix: string, a: string, b: string, c: string)
    requires Less(a, b) && Less(b, c)
    requires Classify(prefix, a).Folder? && Classify(prefix, a) == Classify(prefix, c)
    ensures Classify(prefix, b) == Classify(prefix, a)
  {
    var p := Classify(prefix, a).path;
    ClassifyMeaning(prefix, a, p);
    ClassifyMeaning(prefix, c, p);
    PrefixContiguous(p, a, b, c);
    InsideFolder(prefix, a, b);
  }

  /** Different folders are ordered like their rows. */
  lemma FolderOrder(prefix: string, a: string, b: string)
    requires Classify(prefix, a).Folder? && Classify(prefix, b).Folder?
    requires Less(a, b) && Classify(prefix, a) != Classify(prefix, b)
    ensures Less(Classify(prefix, a).path, Classify(prefix, b).path)
  {
    var p, q := Classify(prefix, a).path, Classify(prefix, b).path;
    ClassifyMeaning(prefix, a, p);
    ClassifyMeaning(prefix, b, q);
    if p <= q {
      InsideFolder(prefix, a, b);
    }
    if q <= p {
      InsideFolder(prefix, b, a);
    }
    LessByDivergence(p, q, a, b);
  }

  /** A folder already listed is the one the fold remembers, so it is recognised again. */
  lemma {:induction false} RemembersFolder(prefix: string, done: seq<Record>, rec: Record)
    requires Sorted(done + [rec])
    requires Classify(prefix, rec.key).Folder? && Classify(prefix, rec.key).path in Folders(prefix, done)
    ensures LastFolder(prefix, done) == Classify(prefix, rec.key).path
  {
    var p := Classify(prefix, rec.key).path;
    var a :| a in done && Classify(prefix, a.key) == Folder(p);
    var front, b := done[..|done| - 1], done[|done| - 1];
    assert done == front + [b];
    SortedPrefix(done, [rec]);
    assert Less(b.key, rec.key);
    if a != b {
      assert a in front;
      SortedPrefix(front, [b]);
      assert Less(a.key, b.key);
      BetweenFolder(prefix, a.key, b.key, rec.key);
    }
  }

  lemma FoldersSnoc(prefix: string, done: seq<Record>, rec: Record)
    ensures Folders(prefix, done + [rec]) == Folders(prefix, done) +
              (if Classify(prefix, rec.key).Folder? then {Classify(prefix, rec.key).path} else {})
  {
    var all := done + [rec];
    assert forall r :: r in all <==> r in done || r == rec;
  }

  lemma ItemsSnoc(prefix: string, done: seq<Record>, rec: Record)
    ensures Items(prefix, done + [rec]) ==
              Items(prefix, done) + (if Classify(prefix, rec.key).Item? then [rec] else [])
  {
    FilterConcat((r: Record) => DirectChild(prefix, r.key), done, [rec]);
    ClassifyMeaning(prefix, rec.key, "");
    assert Items(prefix, [rec]) == if DirectChild(prefix, rec.key) then [rec] else [] by {
      assert [rec][1..] == [];
    }
  }

  lemma TakeOK(prefix: string, max: nat, done: seq<Record>, rec: Record, acc: Acc)
    requires Sorted(done + [rec])
    requires AccOK(prefix, max, done, acc) && !Refused(prefix, max, acc, rec)
    ensures AccOK(prefix, max, done + [rec], Take(prefix, acc, rec))
  {
    FoldersSnoc(prefix, done, rec);
    ItemsSnoc(prefix, done, rec);
    hide Items, Less;
    assert (done + [rec])[..|done|] == done;
    var next := Classify(prefix, rec.key);
    if next.Folder? && next.path != acc.last {
      forall q | q in acc.prefixes ensures Less(q, next.path) {
        var a :| a in done && Classify(prefix, a.key) == Folder(q);
        SortedPrefix(done, [rec]);
        assert Less(a.key, rec.key);
        if q == next.path {
          RemembersFolder(prefix, done, rec);
        }
        FolderOrder(prefix, a.key, rec.key);
      }
    } else if next.Folder? {
      FolderIsListed(prefix, done, next.path);
    }
  }

  lemma {:induction false} FolderIsListed(prefix: string, done: seq<Record>, path: string)
    requires LastFolder(prefix, done) == path && path != ""
    ensures path in Folders(prefix, done)
  {
    var front, b := done[..|done| - 1], done[|done| - 1];
    assert done == front + [b];
    FoldersSnoc(prefix, front, b);
    if Classify(prefix, b.key).Nothing? {
      FolderIsListed(prefix, front, path);
    }
  }

  lemma {:induction false} RunFacts(prefix: string, max: nat, done: seq<Record>, recs: seq<Record>, acc: Acc)
    requires Sorted(done + recs) && AccOK(prefix, max, done, acc)
    ensures var used := Used(prefix, max, recs, acc);
            var (out, refused) := Run(prefix, max, recs, acc);
            && AccOK(prefix, max, done + recs[..used], out)
            && (refused <==> used < |recs|)
            && (refused ==> Refused(prefix, max, out, recs[used]))
    decreases |recs|
  {
    hide AccOK, Sorted, Refused, Take;
    if recs == [] || Refused(prefix, max, acc, recs[0]) {
      assert done + recs[..0] == done;
    } else {
      var done' := done + [recs[0]];
      assert done + recs == done' + recs[1..];
      SortedPrefix(done', recs[1..]);
      TakeOK(prefix, max, done, recs[0], acc);
      RunFacts(prefix, max, done', recs[1..], Take(prefix, acc, recs[0]));
      var used := Used(prefix, max, recs, acc);
      assert done + recs[..used] == done' + recs[1..][..used - 1];
    }
  }

  function UsedRows(prefix: string, maxKeys: int, recs: seq<Record>): (n: nat)
    ensures n <= |recs|
  {
    Used(prefix, AtLeastOne(maxKeys), recs, START)
  }

  /** What a page must be, given how many of its rows it used. */
  ghost predicate PageOK(prefix: string, maxKeys: int, recs: seq<Record>, more: bool, page: Page, used: nat)
    requires used <= |recs|
  {
    && page.items == Items(prefix, recs[..used])
    && (forall p :: p in page.prefixes <==> p in Folders(prefix, recs[..used]))
    && Ascending(page.prefixes)
    && |page.items| + |page.prefixes| <= AtLeastOne(maxKeys)
    && (page.truncated <==> used < |recs| || more)
    && (recs != [] ==> used > 0)
    && page.token == (if page.truncated && used > 0 then Some(recs[used - 1].key) else None)
    && (used < |recs| ==> NeedsNewEntry(prefix, maxKeys, page, recs[used]))
  }

  /** The page is full and the row would open one more entry. */
  ghost predicate NeedsNewEntry(prefix: string, maxKeys: int, page: Page, rec: Record)
  {
    && |page.items| + |page.prefixes| == AtLeastOne(maxKeys)
    && match Classify(prefix, rec.key)
       case Nothing => false
       case Item => true
       case Folder(p) => p !in page.prefixes
  }

  lemma RefusedNeedsNewEntry(prefix: string, maxKeys: int, done: seq<Record>, rec: Record, acc: Acc, page: Page)
    requires Sorted(done + [rec]) && AccOK(prefix, AtLeastOne(maxKeys), done, acc)
    requires Refused(prefix, AtLeastOne(maxKeys), acc, rec)
    requires page.items == acc.items && page.prefixes == acc.prefixes
    ensures NeedsNewEntry(prefix, maxKeys, page, rec)
  {
    var next := Classify(prefix, rec.key);
    if next.Folder? && next.path in acc.prefixes {
      RemembersFolder(prefix, done, rec);
    }
  }

  lemma PageOfAcc(prefix: string, maxKeys: int, recs: seq<Record>, more: bool, out: Acc, used: nat, page: Page)
    requires Sorted(recs) && used <= |recs| && (recs != [] ==> used > 0 && recs[used - 1].key != "")
    requires AccOK(prefix, AtLeastOne(maxKeys), recs[..used], out)
    requires used < |recs| ==> Refused(prefix, AtLeastOne(maxKeys), out, recs[used])
    requires page.items == out.items && page.prefixes == out.prefixes
    requires page.truncated == (used < |recs| || more)
    requires page.token == (if page.truncated && out.token != "" then Some(out.token) else None)
    ensures PageOK(prefix, maxKeys, recs, more, page, used)
  {
    hide Classify, Refused, Items, Folders, LastFolder;
    if used < |recs| {
      assert recs == recs[..used + 1] + recs[used + 1..];
      SortedPrefix(recs[..used + 1], recs[used + 1..]);
      assert recs[..used] + [recs[used]] == recs[..used + 1];
      RefusedNeedsNewEntry(prefix, maxKeys, recs[..used], recs[used], out, page);
    }
  }

  /** A page over sorted rows lists exactly the rows it used, and stops only at a row that needs one more
      entry than the page may hold. */
  lemma PageFacts(prefix: string, maxKeys: int, recs: seq<Record>, more: bool)
    requires Sorted(recs) && (forall r :: r in recs ==> r.key != "")
    ensures PageOK(prefix, maxKeys, recs, more, Fold(prefix, maxKeys, recs, more), UsedRows(prefix, maxKeys, recs))
  {
    hide AccOK, PageOK, Run, Used, Refused;
    UsesFirstRow(prefix, maxKeys, recs);
    var max, used := AtLeastOne(maxKeys), UsedRows(prefix, maxKeys, recs);
    EmptyAccOK(prefix, max);
    assert [] + recs == recs && [] + recs[..used] == recs[..used];
    RunFacts(prefix, max, [], recs, START);
    assert used > 0 ==> recs[used - 1] in recs;
    PageOfAcc(prefix, maxKeys, recs, more, Run(prefix, max, recs, START).0, used, Fold(prefix, maxKeys, recs, more));
  }

  lemma UsesFirstRow(prefix: string, maxKeys: int, recs: seq<Record>)
    ensures recs != [] ==> UsedRows(prefix, maxKeys, recs) > 0
  {
  }

  lemma EmptyAccOK(prefix: string, max: nat)
    ensures AccOK(prefix, max, [], START)
  {
  }
}
