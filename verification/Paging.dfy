/** Following the tokens of the delimiter listing over an unchanged table, from the first page to the last. */
module Paging {
  import opened Text
  import opened Keys
  import opened Listing

  // ---------------------------------------------------------------------------
  // The query and one page

  /** The rows of a bucket that match the prefix pattern and lie outside the reserved areas. */
  function Live(rows: seq<Record>, prefix: string): seq<Record>
  {
    Filter((r: Record) => Like(LikePrefix(prefix), r.key) && SqlVisible(r.key), rows)
  }

  function After(recs: seq<Record>, after: string): seq<Record>
  {
    Filter((r: Record) => Less(after, r.key), recs)
  }

  /** SELECT ... AND object_key > after ORDER BY object_key LIMIT limit, over rows given in key order. */
  function ListPrefix(rows: seq<Record>, prefix: string, after: string, limit: nat): seq<Record>
  {
    var found := After(Live(rows, prefix), after);
    if |found| <= limit then found else found[..limit]
  }

  /** The size from 1 to 1000 nearest to the one asked for. */
  function Clamp(maxKeys: int): (size: int)
    ensures 1 <= size <= 1000
    ensures maxKeys < size ==> size == 1
    ensures maxKeys > size ==> size == 1000
  {
    if maxKeys < 1 then 1 else if maxKeys > MAX_LIST_KEYS then MAX_LIST_KEYS else maxKeys
  }

  /** The page that the store returns for one call. */
  function FoldedPage(rows: seq<Record>, prefix: string, after: string, maxKeys: int): Page
  {
    var recs := ListPrefix(rows, prefix, after, SCAN_CAP);
    Fold(prefix, Clamp(maxKeys), recs, |recs| == SCAN_CAP)
  }

  method Folded(rows: seq<Record>, prefix: string, after: string, maxKeys: int)
    returns (items: seq<Record>, prefixes: seq<string>, token: Option<string>, truncated: bool)
    ensures Page(items, prefixes, token, truncated) == FoldedPage(rows, prefix, after, maxKeys)
  {
    var max := maxKeys;
    if max < 1 {
      max := 1;
    }
    if max > MAX_LIST_KEYS {
      max := MAX_LIST_KEYS;
    }
    var recs := ListPrefix(rows, prefix, after, SCAN_CAP);
    items, prefixes, token, truncated := FoldList(prefix, max, recs, |recs| == SCAN_CAP);
  }

  // ---------------------------------------------------------------------------
  // One page uses up a prefix of what is left

  lemma {:induction false} SortedFilter(keep: Record -> bool, recs: seq<Record>)
    requires Sorted(recs)
    ensures Sorted(Filter(keep, recs))
  {
    if recs == [] {
    } else {
      assert recs == [recs[0]] + recs[1..];
      SortedPrefix([recs[0]], recs[1..]);
      SortedFilter(keep, recs[1..]);
      var rest := Filter(keep, recs[1..]);
      forall i | 0 <= i < |rest| ensures Less(recs[0].key, rest[i].key) {
        assert rest[i] in rest && rest[i] in recs[1..] && recs[0] in [recs[0]];
      }
    }
  }

  lemma AfterSorted(left: seq<Record>, c: nat)
    requires Sorted(left) && 0 < c <= |left|
    ensures After(left, left[c - 1].key) == left[c..]
  {
    hide Less, Filter;
    var later := (r: Record) => Less(left[c - 1].key, r.key);
    assert left == left[..c] + left[c..];
    FilterConcat(later, left[..c], left[c..]);
    forall r | r in left[..c] ensures !later(r) {
      var i :| 0 <= i < c && left[i] == r;
      NotBefore(left, i, c - 1);
    }
    FilterNone(later, left[..c]);
    FilterAll(later, left[c..]);
  }

  /** Resuming after the c-th remaining row leaves exactly the later ones. */
  lemma AfterResumes(recs: seq<Record>, after: string, c: nat)
    requires Sorted(recs) && 0 < c <= |After(recs, after)|
    ensures var left := After(recs, after); After(recs, left[c - 1].key) == left[c..]
    ensures Less(after, After(recs, after)[c - 1].key)
  {
    var left := After(recs, after);
    var token := left[c - 1].key;
    assert left[c - 1] in left;
    forall r | r in recs && Less(token, r.key) ensures Less(after, r.key) {
      LessTransitive(after, token, r.key);
    }
    FilterFilter((r: Record) => Less(after, r.key), (r: Record) => Less(token, r.key), recs);
    SortedFilter((r: Record) => Less(after, r.key), recs);
    AfterSorted(left, c);
  }

  lemma NotBefore(recs: seq<Record>, i: nat, j: nat)
    requires Sorted(recs) && i <= j < |recs|
    ensures !Less(recs[j].key, recs[i].key)
  {
    LessIrreflexive(recs[i].key);
    if i < j && Less(recs[j].key, recs[i].key) {
      LessTransitive(recs[i].key, recs[j].key, recs[i].key);
    }
  }

  /** What is left to list from a token on. */
  function Left(rows: seq<Record>, prefix: string, after: string): seq<Record>
  {
    After(Live(rows, prefix), after)
  }

  function PageUsed(rows: seq<Record>, prefix: string, after: string, maxKeys: int): nat
  {
    UsedRows(prefix, Clamp(maxKeys), ListPrefix(rows, prefix, after, SCAN_CAP))
  }

  lemma LeftFacts(rows: seq<Record>, prefix: string, after: string)
    requires Sorted(rows)
    ensures Sorted(Left(rows, prefix, after)) && Sorted(ListPrefix(rows, prefix, after, SCAN_CAP))
    ensures forall r :: r in Left(rows, prefix, after) ==> r.key != ""
    ensures forall r :: r in ListPrefix(rows, prefix, after, SCAN_CAP) ==> r.key != ""
  {
    SortedFilter((r: Record) => Like(LikePrefix(prefix), r.key) && SqlVisible(r.key), rows);
    SortedFilter((r: Record) => Less(after, r.key), Live(rows, prefix));
  }

  /** A page is truncated exactly when it gives a token, and exactly when rows remain or the scan was full;
      the token is strictly beyond the previous one and resumes behind the rows the page used. */
  lemma TokenAdvances(rows: seq<Record>, prefix: string, after: string, maxKeys: int)
    requires Sorted(rows)
    ensures var page, left, used := FoldedPage(rows, prefix, after, maxKeys), Left(rows, prefix, after),
              PageUsed(rows, prefix, after, maxKeys);
            && (page.truncated <==> page.token.Some?)
            && (page.token == None ==> used == |left|)
            && (page.token.Some? ==>
                  && 0 < used <= |left|
                  && page.token.value == left[used - 1].key
                  && Less(after, page.token.value)
                  && Left(rows, prefix, page.token.value) == left[used..])
  {
    var recs, left := ListPrefix(rows, prefix, after, SCAN_CAP), Left(rows, prefix, after);
    var used := PageUsed(rows, prefix, after, maxKeys);
    LeftFacts(rows, prefix, after);
    PageFacts(prefix, Clamp(maxKeys), recs, |recs| == SCAN_CAP);
    if used > 0 {
      SortedFilter((r: Record) => Like(LikePrefix(prefix), r.key) && SqlVisible(r.key), rows);
      AfterResumes(Live(rows, prefix), after, used);
    }
  }

  // ---------------------------------------------------------------------------
  // The whole walk

  datatype Step = Step(after: string, page: Page)

  /** The pages a client sees that keeps passing the last token until none is returned, and may ask for another
      page size each time: `sizes` gives the one asked for with a token. */
  function Walk(rows: seq<Record>, prefix: string, after: string, sizes: string -> int): (steps: seq<Step>)
    requires Sorted(rows)
    ensures steps != [] && steps[0] == Step(after, FoldedPage(rows, prefix, after, sizes(after)))
    decreases |Left(rows, prefix, after)|
  {
    TokenAdvances(rows, prefix, after, sizes(after));
    var page := FoldedPage(rows, prefix, after, sizes(after));
    if page.token == None then [Step(after, page)]
    else [Step(after, page)] + Walk(rows, prefix, page.token.value, sizes)
  }

  function AllItems(steps: seq<Step>): seq<Record>
  {
    if steps == [] then [] else steps[0].page.items + AllItems(steps[1..])
  }

  ghost predicate Lists(steps: seq<Step>, path: string)
  {
    exists i :: 0 <= i < |steps| && path in steps[i].page.prefixes
  }

  /** The page ended because the scan was full, with every scanned row used up. */
  predicate CutByScan(rows: seq<Record>, prefix: string, step: Step)
  {
    var recs := ListPrefix(rows, prefix, step.after, 2_000);
    |recs| == 2_000 && step.page.token == Some(recs[1_999].key)
  }

  lemma FoldersConcat(prefix: string, a: seq<Record>, b: seq<Record>)
    ensures Folders(prefix, a + b) == Folders(prefix, a) + Folders(prefix, b)
  {
    assert forall r :: r in a + b <==> r in a || r in b;
  }

  /** A page lists the rows it used, and leaves the others. */
  lemma PageLists(rows: seq<Record>, prefix: string, after: string, maxKeys: int)
    requires Sorted(rows)
    ensures var page, left, used := FoldedPage(rows, prefix, after, maxKeys), Left(rows, prefix, after),
              PageUsed(rows, prefix, after, maxKeys);
            && used <= |left|
            && Items(prefix, left) == page.items + Items(prefix, left[used..])
            && (forall path :: path in Folders(prefix, left) <==>
                  path in page.prefixes || path in Folders(prefix, left[used..]))
  {
    hide Classify, Fold, Sorted, Less;
    var left, used := Left(rows, prefix, after), PageUsed(rows, prefix, after, maxKeys);
    var recs := ListPrefix(rows, prefix, after, SCAN_CAP);
    LeftFacts(rows, prefix, after);
    PageFacts(prefix, Clamp(maxKeys), recs, |recs| == SCAN_CAP);
    assert recs[..used] == left[..used];
    assert left == left[..used] + left[used..];
    FilterConcat((r: Record) => DirectChild(prefix, r.key), left[..used], left[used..]);
    FoldersConcat(prefix, left[..used], left[used..]);
  }

  lemma ListsFirst(first: Step, rest: seq<Step>, path: string)
    ensures Lists([first] + rest, path) <==> path in first.page.prefixes || Lists(rest, path)
    ensures AllItems([first] + rest) == first.page.items + AllItems(rest)
  {
    var steps := [first] + rest;
    assert steps[1..] == rest && steps[0] == first;
    if i :| 0 <= i < |rest| && path in rest[i].page.prefixes {
      assert steps[i + 1] == rest[i];
    }
  }

  lemma {:induction false} WalkLists(rows: seq<Record>, prefix: string, after: string, sizes: string -> int,
                                     path: string)
    requires Sorted(rows)
    ensures var steps, left := Walk(rows, prefix, after, sizes), Left(rows, prefix, after);
            && AllItems(steps) == Items(prefix, left)
            && (Lists(steps, path) <==> path in Folders(prefix, left))
    decreases |Left(rows, prefix, after)|
  {
    hide Left, FoldedPage, Sorted, Less, PageUsed, Lists, AllItems;
    var page := FoldedPage(rows, prefix, after, sizes(after));
    PageLists(rows, prefix, after, sizes(after));
    TokenAdvances(rows, prefix, after, sizes(after));
    if page.token == None {
      assert Items(prefix, []) == [] && Folders(prefix, []) == {};
      ListsFirst(Step(after, page), [], path);
      assert !Lists([], path) && AllItems([]) == [] by { NoSteps(path); }
      assert [Step(after, page)] + [] == [Step(after, page)];
    } else {
      WalkLists(rows, prefix, page.token.value, sizes, path);
      ListsFirst(Step(after, page), Walk(rows, prefix, page.token.value, sizes), path);
    }
  }

  lemma NoSteps(path: string)
    ensures !Lists([], path) && AllItems([]) == []
  {
  }

  /** If a folder spans the cut after `used` rows, the next row is in that folder too. */
  lemma FolderSpansCut(prefix: string, left: seq<Record>, used: nat, path: string)
    requires Sorted(left) && 0 < used < |left|
    requires path in Folders(prefix, left[..used]) && path in Folders(prefix, left[used..])
    ensures Classify(prefix, left[used].key) == Folder(path)
  {
    var i :| 0 <= i < used && Classify(prefix, left[..used][i].key) == Folder(path);
    var j :| 0 <= j < |left| - used && Classify(prefix, left[used..][j].key) == Folder(path);
    var a, b, c := left[i], left[used], left[used + j];
    assert left[..used][i] == a && left[used..][j] == c;
    if j > 0 {
      BetweenFolder(prefix, a.key, b.key, c.key);
    }
  }

  /** A folder listed on a page and still to come: the scan limit, never `maxKeys`, cut the page, and the
      next page lists it again, whatever size is asked for then. */
  lemma RepeatNeedsFullScan(rows: seq<Record>, prefix: string, after: string, maxKeys: int, next: int,
                            path: string)
    requires Sorted(rows)
    requires var page := FoldedPage(rows, prefix, after, maxKeys);
             page.token.Some? && path in page.prefixes && path in Folders(prefix, Left(rows, prefix, page.token.value))
    ensures CutByScan(rows, prefix, Step(after, FoldedPage(rows, prefix, after, maxKeys)))
    ensures var page := FoldedPage(rows, prefix, after, maxKeys);
            path in FoldedPage(rows, prefix, page.token.value, next).prefixes
  {
    hide Classify, Fold, Items, Left, Sorted, Less;
    var page, left := FoldedPage(rows, prefix, after, maxKeys), Left(rows, prefix, after);
    var recs, used := ListPrefix(rows, prefix, after, SCAN_CAP), PageUsed(rows, prefix, after, maxKeys);
    LeftFacts(rows, prefix, after);
    PageFacts(prefix, Clamp(maxKeys), recs, |recs| == SCAN_CAP);
    TokenAdvances(rows, prefix, after, maxKeys);
    FirstRows(rows, prefix, after);
    assert recs[..used] == left[..used];
    FolderSpansCut(prefix, left, used, path);
    FirstFolderListed(rows, prefix, page.token.value, next, path);
  }

  lemma FirstRows(rows: seq<Record>, prefix: string, after: string)
    ensures var recs, left := ListPrefix(rows, prefix, after, SCAN_CAP), Left(rows, prefix, after);
            recs <= left && (|recs| == SCAN_CAP || recs == left)
  {
  }

  /** A page uses at least its first row, so it lists the folder that row is in. */
  lemma FirstFolderListed(rows: seq<Record>, prefix: string, after: string, maxKeys: int, path: string)
    requires Sorted(rows) && Left(rows, prefix, after) != []
    requires Classify(prefix, Left(rows, prefix, after)[0].key) == Folder(path)
    ensures path in FoldedPage(rows, prefix, after, maxKeys).prefixes
  {
    hide Fold;
    var recs, used := ListPrefix(rows, prefix, after, SCAN_CAP), PageUsed(rows, prefix, after, maxKeys);
    LeftFacts(rows, prefix, after);
    PageFacts(prefix, Clamp(maxKeys), recs, |recs| == SCAN_CAP);
    assert recs[..used][0] == Left(rows, prefix, after)[0];
  }

  // ---------------------------------------------------------------------------
  // Main results

  /** Every live direct child of the prefix is listed exactly once, in key order, and the prefixes listed are
      exactly the first-level common prefixes: paging loses, repeats and invents nothing. */
  lemma PagingComplete(rows: seq<Record>, prefix: string, sizes: string -> int, path: string)
    requires Sorted(rows)
    ensures AllItems(Walk(rows, prefix, "", sizes)) == Filter((r: Record) => DirectChild(prefix, r.key), rows)
    ensures Lists(Walk(rows, prefix, "", sizes), path) <==>
            exists r :: r in rows && FoldsInto(prefix, path, r.key)
  {
    var live := Live(rows, prefix);
    WalkLists(rows, prefix, "", sizes, path);
    forall r | r in rows ensures r in Left(rows, prefix, "") <==> prefix <= r.key && !HiddenKey(r.key) && r.key != "" {
      LikePrefixIsPrefix(prefix, r.key);
      SqlVisibleIsNotHidden(r.key);
    }
    forall r | r in rows && DirectChild(prefix, r.key)
      ensures Less("", r.key) && Like(LikePrefix(prefix), r.key) && SqlVisible(r.key)
    {
      LikePrefixIsPrefix(prefix, r.key);
      SqlVisibleIsNotHidden(r.key);
    }
    var child := (r: Record) => DirectChild(prefix, r.key);
    FilterFilter((r: Record) => Less("", r.key), child, live);
    FilterFilter((r: Record) => Like(LikePrefix(prefix), r.key) && SqlVisible(r.key), child, rows);
    forall r | r in rows ensures Classify(prefix, r.key) == Folder(path) <==> FoldsInto(prefix, path, r.key) {
      ClassifyMeaning(prefix, r.key, path);
    }
    assert forall r :: r in Left(rows, prefix, "") ==> r in live && r in rows;
  }

  /** Each page but the last gives a token strictly beyond the one it was asked for, the next page is asked
      with that token, and no page holds more entries than the clamped size asked for, or one prefix twice. */
  lemma {:induction false} PagingProgress(rows: seq<Record>, prefix: string, after: string, sizes: string -> int,
                                          i: nat)
    requires Sorted(rows) && i < |Walk(rows, prefix, after, sizes)|
    ensures var steps := Walk(rows, prefix, after, sizes); var page := steps[i].page;
            && page == FoldedPage(rows, prefix, steps[i].after, sizes(steps[i].after))
            && (page.truncated <==> i + 1 < |steps|)
            && (i + 1 < |steps| ==> page.token == Some(steps[i + 1].after) && Less(steps[i].after, steps[i + 1].after))
            && |page.items| + |page.prefixes| <= Clamp(sizes(steps[i].after))
            && (i + 1 < |steps| ==> || |page.items| + |page.prefixes| == Clamp(sizes(steps[i].after))
                                    || CutByScan(rows, prefix, steps[i]))
            && Ascending(page.prefixes)
    decreases i
  {
    hide Fold;
    var steps := Walk(rows, prefix, after, sizes);
    var page := steps[0].page;
    TokenAdvances(rows, prefix, after, sizes(after));
    var recs := ListPrefix(rows, prefix, after, SCAN_CAP);
    LeftFacts(rows, prefix, after);
    PageFacts(prefix, Clamp(sizes(after)), recs, |recs| == SCAN_CAP);
    if i > 0 {
      assert steps[1..] == Walk(rows, prefix, page.token.value, sizes);
      PagingProgress(rows, prefix, page.token.value, sizes, i - 1);
    }
  }

  /** A prefix is listed on two pages only if the earlier page was cut by the scan limit; it is then listed on
      the very next page as well, so every page boundary in between is a scan-limit boundary. */
  lemma {:induction false} PrefixRepeatsOnlyAtScanCap(rows: seq<Record>, prefix: string, after: string,
                                                      sizes: string -> int, i: nat, j: nat, path: string)
    requires Sorted(rows) && i < j < |Walk(rows, prefix, after, sizes)|
    requires var steps := Walk(rows, prefix, after, sizes);
             path in steps[i].page.prefixes && path in steps[j].page.prefixes
    ensures var steps := Walk(rows, prefix, after, sizes);
            CutByScan(rows, prefix, steps[i]) && path in steps[i + 1].page.prefixes
    decreases i
  {
    hide Fold, Left, Folders, Items, ListPrefix, Live, Sorted, CutByScan, Less;
    var steps := Walk(rows, prefix, after, sizes);
    var page := steps[0].page;
    assert page.token.Some?;
    TokenAdvances(rows, prefix, after, sizes(after));
    var rest := Walk(rows, prefix, page.token.value, sizes);
    assert steps[1..] == rest;
    if i > 0 {
      PrefixRepeatsOnlyAtScanCap(rows, prefix, page.token.value, sizes, i - 1, j - 1, path);
    } else {
      WalkLists(rows, prefix, page.token.value, sizes, path);
      assert Lists(rest, path) by { assert path in rest[j - 1].page.prefixes; }
      RepeatNeedsFullScan(rows, prefix, after, sizes(after), sizes(page.token.value), path);
    }
  }
}
