/** Expanding the keys of a delete request: directory keys become the keys stored under them, read page by page
    from the storage; everything else is passed on or reported. */
module DeleteKeys {
  import opened Text
  import opened Keys

  const PAGE_SIZE := 1000

  datatype Reason = InvalidKey | ListingFailed | EmptyDirectory
  datatype Failure = Failure(key: string, reason: Reason)

  /** The keys the storage holds under a prefix, in its order. */
  function Under(stored: seq<string>, prefix: string): seq<string>
  {
    Filter((k: string) => prefix <= k, stored)
  }

  /** How many pages a listing of `n` keys has: at least one, and all full but the last. */
  function Pages(n: nat): (pages: nat)
    ensures pages >= 1
    ensures n <= pages * PAGE_SIZE && (pages > 1 ==> (pages - 1) * PAGE_SIZE < n)
  {
    if n <= PAGE_SIZE then 1 else 1 + Pages(n - PAGE_SIZE)
  }

  /** One page of a flat listing; the token is the position to go on from, 0 for "no token". */
  method ListPrefixFlat(stored: seq<string>, prefix: string, token: nat, fails: bool)
    returns (ok: bool, page: seq<string>, truncated: bool, next: nat)
    requires token <= |Under(stored, prefix)|
    ensures ok == !fails
    ensures token <= next <= |Under(stored, prefix)| && page == Under(stored, prefix)[token..next]
    ensures truncated <==> next < |Under(stored, prefix)|
    ensures truncated ==> next == token + PAGE_SIZE
    ensures next <= token + PAGE_SIZE
  {
    var found := Under(stored, prefix);
    var end := if token + PAGE_SIZE <= |found| then token + PAGE_SIZE else |found|;
    return !fails, found[token..end], end < |found|, end;
  }

  function NonEmpty(keys: seq<string>): seq<string>
  {
    Filter((k: string) => k != "", keys)
  }

  /** All keys under the prefix; or an error, exactly when one of its pages, number `failAt` from 0, cannot be
      read. */
  method ListPrefixKeys(stored: seq<string>, prefix: string, failAt: Option<nat>)
    returns (ok: bool, keys: seq<string>)
    ensures ok <==> failAt == None || failAt.value >= Pages(|Under(stored, prefix)|)
    ensures keys == if ok then NonEmpty(Under(stored, prefix)) else []
    ensures ok ==> forall k :: k in keys <==> k != "" && k in stored && prefix <= k
  {
    ListedExactly(stored, prefix);
    hide Under, Filter, Pages;
    keys := [];
    var found := Under(stored, prefix);
    var token, pages := 0, 0;
    assert NonEmpty(found[..0]) == [] by { NothingIn(); }
    while true
      invariant token <= |found| && token == pages * PAGE_SIZE && pages < Pages(|found|)
      invariant keys == NonEmpty(found[..token])
      invariant failAt.Some? ==> failAt.value >= pages
      decreases |found| - token
    {
      var read, page, truncated, next := ListPrefixFlat(stored, prefix, token, failAt == Some(pages));
      if !read {
        return false, [];
      }
      NonEmptyConcat(found, token, next);
      keys := keys + NonEmpty(page);
      if !truncated || next == 0 {
        assert found[..next] == found;
        return true, keys;
      }
      token, pages := next, pages + 1;
    }
  }

  lemma ListedExactly(stored: seq<string>, prefix: string)
    ensures forall k :: k in NonEmpty(Under(stored, prefix)) <==> k != "" && k in stored && prefix <= k
  {
  }

  lemma NothingIn()
    ensures NonEmpty([]) == []
  {
  }

  lemma NonEmptyConcat(found: seq<string>, token: nat, next: nat)
    requires token <= next <= |found|
    ensures NonEmpty(found[..next]) == NonEmpty(found[..token]) + NonEmpty(found[token..next])
  {
    assert found[..next] == found[..token] + found[token..next];
    FilterConcat((k: string) => k != "", found[..token], found[token..next]);
  }

  // ---------------------------------------------------------------------------
  // What the expansion returns

  /** What one requested key stands for, given whether its listing can be read. */
  function Expansion(stored: seq<string>, key: string, listed: bool): seq<string>
  {
    if !ValidUserKey(key) then []
    else if !IsDirectoryKey(key) then [key]
    else if !listed then []
    else NonEmpty(Under(stored, key))
  }

  function Refusal(stored: seq<string>, key: string, listed: bool): seq<Failure>
  {
    if !ValidUserKey(key) then [Failure(key, InvalidKey)]
    else if !IsDirectoryKey(key) then []
    else if !listed then [Failure(key, ListingFailed)]
    else if Expansion(stored, key, listed) == [] then [Failure(key, EmptyDirectory)]
    else []
  }

  function Expansions(stored: seq<string>, keys: seq<string>, listed: seq<bool>): seq<string>
    requires |keys| == |listed|
  {
    if keys == [] then []
    else Expansions(stored, keys[..|keys| - 1], listed[..|keys| - 1]) +
         Expansion(stored, keys[|keys| - 1], listed[|keys| - 1])
  }

  function Refusals(stored: seq<string>, keys: seq<string>, listed: seq<bool>): seq<Failure>
    requires |keys| == |listed|
  {
    if keys == [] then []
    else Refusals(stored, keys[..|keys| - 1], listed[..|keys| - 1]) +
         Refusal(stored, keys[|keys| - 1], listed[|keys| - 1])
  }

  /** Keeps the first occurrence of each key. */
  function FirstOnly(keys: seq<string>): (r: seq<string>)
    ensures forall k :: k in r <==> k in keys
    ensures forall i, j :: 0 <= i < j < |r| ==> r[i] != r[j]
  {
    if keys == [] then []
    else
      var front, k := FirstOnly(keys[..|keys| - 1]), keys[|keys| - 1];
      if k in keys[..|keys| - 1] then front else front + [k]
  }

  /** The keys kept stand in the order in which they first occur. */
  lemma {:induction false} FirstOnlyInOrder(keys: seq<string>, i: nat, j: nat)
    requires i < j < |FirstOnly(keys)|
    ensures exists p :: 0 <= p < |keys| && keys[p] == FirstOnly(keys)[i] && FirstOnly(keys)[j] !in keys[..p]
    decreases |keys|
  {
    var front, k := keys[..|keys| - 1], keys[|keys| - 1];
    assert keys == front + [k];
    var r, r' := FirstOnly(front), FirstOnly(keys);
    if j < |r| {
      FirstOnlyInOrder(front, i, j);
      var p :| 0 <= p < |front| && front[p] == r[i] && r[j] !in front[..p];
      assert keys[p] == r'[i] && keys[..p] == front[..p];
    } else {
      assert r'[i] in front;
      var p :| 0 <= p < |front| && front[p] == r'[i];
      assert keys[p] == r'[i] && forall q :: q in keys[..p] ==> q in front;
    }
  }

  lemma FirstOnlySnoc(keys: seq<string>, k: string)
    ensures FirstOnly(keys + [k]) == if k in FirstOnly(keys) then FirstOnly(keys) else FirstOnly(keys) + [k]
  {
    assert (keys + [k])[..|keys|] == keys;
  }

  lemma ExpansionsSnoc(stored: seq<string>, keys: seq<string>, listed: seq<bool>, n: nat, ok: bool)
    requires |listed| == n < |keys|
    ensures Expansions(stored, keys[..n + 1], listed + [ok]) ==
            Expansions(stored, keys[..n], listed) + Expansion(stored, keys[n], ok)
    ensures Refusals(stored, keys[..n + 1], listed + [ok]) ==
            Refusals(stored, keys[..n], listed) + Refusal(stored, keys[n], ok)
  {
    assert keys[..n + 1][..n] == keys[..n] && (listed + [ok])[..n] == listed;
  }

  /** Whether all pages asked for can be read; only a valid directory key asks for any. */
  predicate Listed(stored: seq<string>, key: string, failAt: Option<nat>)
  {
    ValidUserKey(key) && IsDirectoryKey(key) && failAt.Some? ==> failAt.value >= Pages(|Under(stored, key)|)
  }

  lemma ExpansionCases(stored: seq<string>, key: string, listed: bool)
    ensures var children := NonEmpty(Under(stored, key));
            var r, f := Expansion(stored, key, listed), Refusal(stored, key, listed);
            if !ValidUserKey(key) then r == [] && f == [Failure(key, InvalidKey)]
            else if !IsDirectoryKey(key) then r == [key] && f == []
            else if !listed then r == [] && f == [Failure(key, ListingFailed)]
            else r == children && f == if children == [] then [Failure(key, EmptyDirectory)] else []
  {
  }

  method ExpandDeleteKeys(stored: seq<string>, keys: seq<string>, failAt: seq<Option<nat>>)
    returns (resolved: seq<string>, failed: seq<Failure>, listed: seq<bool>)
    requires |failAt| == |keys|
    ensures |listed| == |keys| && forall i :: 0 <= i < |keys| ==> listed[i] == Listed(stored, keys[i], failAt[i])
    ensures resolved == FirstOnly(Expansions(stored, keys, listed))
    ensures failed == Refusals(stored, keys, listed)
  {
    hide Expansion, Refusal, Expansions, Refusals, FirstOnly, ValidUserKey, IsDirectoryKey, NonEmpty, Under, Pages;
    var seen: set<string> := {};
    resolved, failed, listed := [], [], [];
    assert FirstOnly(Expansions(stored, keys[..0], [])) == [] && Refusals(stored, keys[..0], []) == [] by {
      NothingToExpand(stored, keys[..0]);
    }
    for n := 0 to |keys|
      invariant |listed| == n && forall i :: 0 <= i < n ==> listed[i] == Listed(stored, keys[i], failAt[i])
      invariant resolved == FirstOnly(Expansions(stored, keys[..n], listed))
      invariant failed == Refusals(stored, keys[..n], listed)
      invariant forall k :: k in seen <==> k in resolved
    {
      var key := keys[n];
      ghost var before := Expansions(stored, keys[..n], listed);
      assert before + [] == before;
      var ok := true;
      if !ValidUserKey(key) {
        failed := failed + [Failure(key, InvalidKey)];
      } else if !IsDirectoryKey(key) {
        FirstOnlySnoc(before, key);
        if key !in seen {
          seen, resolved := seen + {key}, resolved + [key];
        }
      } else {
        var children;
        ok, children := ListPrefixKeys(stored, key, failAt[n]);
        if !ok {
          failed := failed + [Failure(key, ListingFailed)];
        } else if |children| == 0 {
          failed := failed + [Failure(key, EmptyDirectory)];
        } else {
          resolved, seen := AddChildren(resolved, seen, children, before);
        }
      }
      ExpansionCases(stored, key, ok);
      ExpansionsSnoc(stored, keys, listed, n, ok);
      listed := listed + [ok];
    }
    assert keys[..|keys|] == keys;
  }

  lemma NothingToExpand(stored: seq<string>, keys: seq<string>)
    requires keys == []
    ensures FirstOnly(Expansions(stored, keys, [])) == [] && Refusals(stored, keys, []) == []
  {
  }

  method AddChildren(resolved: seq<string>, seen: set<string>, children: seq<string>, ghost before: seq<string>)
    returns (resolved': seq<string>, seen': set<string>)
    requires resolved == FirstOnly(before) && forall k :: k in seen <==> k in resolved
    ensures resolved' == FirstOnly(before + children) && forall k :: k in seen' <==> k in resolved'
  {
    hide FirstOnly;
    resolved', seen' := resolved, seen;
    assert before + children[..0] == before;
    for i := 0 to |children|
      invariant resolved' == FirstOnly(before + children[..i])
      invariant forall k :: k in seen' <==> k in resolved'
    {
      var child := children[i];
      assert before + children[..i + 1] == before + children[..i] + [child];
      FirstOnlySnoc(before + children[..i], child);
      if child !in seen' {
        seen', resolved' := seen' + {child}, resolved' + [child];
      }
    }
    assert children[..|children|] == children;
  }

  // ---------------------------------------------------------------------------
  // The keys of a restore or purge request

  datatype KeyError = InvalidOriginal | TrashPath
  datatype Originals = Accepted(keys: seq<string>) | Rejected(error: KeyError)

  predicate Original(key: string)
  {
    key != "" && !(TRASH_PREFIX <= key)
  }

  lemma OriginalCases(key: string)
    ensures !Original(key) <==> key == "" || TRASH_PREFIX <= key
  {
  }

  lemma FirstOnlyNone(keys: seq<string>)
    requires keys == []
    ensures FirstOnly(keys) == []
  {
  }

  /** Each key once, in order of first appearance; the first key that is no original key decides the error. */
  method UniqueOriginalKeys(keys: seq<string>) returns (r: Originals)
    ensures r.Accepted? <==> forall i :: 0 <= i < |keys| ==> Original(keys[i])
    ensures r.Accepted? ==> r.keys == FirstOnly(keys)
    ensures r.Rejected? ==> exists i :: 0 <= i < |keys| && !Original(keys[i])
                                     && (forall j :: 0 <= j < i ==> Original(keys[j]))
                                     && r.error == if keys[i] == "" then InvalidOriginal else TrashPath
  {
    hide Original, FirstOnly;
    var seen: set<string>, out: seq<string> := {}, [];
    assert FirstOnly(keys[..0]) == [] by { FirstOnlyNone(keys[..0]); }
    for i := 0 to |keys|
      invariant forall j :: 0 <= j < i ==> Original(keys[j])
      invariant out == FirstOnly(keys[..i]) && forall k :: k in seen <==> k in out
    {
      var key := keys[i];
      OriginalCases(key);
      if key == "" { return Rejected(InvalidOriginal); }
      if TRASH_PREFIX <= key { return Rejected(TrashPath); }
      assert keys[..i + 1] == keys[..i] + [key];
      FirstOnlySnoc(keys[..i], key);
      if key !in seen {
        seen, out := seen + {key}, out + [key];
      }
    }
    assert keys[..|keys|] == keys;
    r := Accepted(out);
  }

  // ---------------------------------------------------------------------------
  // Main results

  predicate Requested(stored: seq<string>, keys: seq<string>, listed: seq<bool>, k: string)
    requires |keys| == |listed|
  {
    exists i :: 0 <= i < |keys| && k in Expansion(stored, keys[i], listed[i])
  }

  lemma {:induction false} ExpansionsMeaning(stored: seq<string>, keys: seq<string>, listed: seq<bool>, k: string)
    requires |keys| == |listed|
    ensures k in Expansions(stored, keys, listed) <==> Requested(stored, keys, listed, k)
  {
    if keys == [] {
    } else {
      var n := |keys| - 1;
      ExpansionsMeaning(stored, keys[..n], listed[..n], k);
      assert Requested(stored, keys, listed, k) <==>
             Requested(stored, keys[..n], listed[..n], k) || k in Expansion(stored, keys[n], listed[n]) by {
        assert forall i :: 0 <= i < n ==> keys[..n][i] == keys[i] && listed[..n][i] == listed[i];
      }
    }
  }

  /** The keys to delete are exactly the valid plain keys and the stored keys under the valid directory keys
      that could be listed; none of them lies in a reserved area. */
  lemma ExpandedExactly(stored: seq<string>, keys: seq<string>, listed: seq<bool>, k: string)
    requires |keys| == |listed|
    ensures k in FirstOnly(Expansions(stored, keys, listed)) <==>
            exists i :: 0 <= i < |keys| && ValidUserKey(keys[i]) &&
                        (if IsDirectoryKey(keys[i]) then listed[i] && k in stored && keys[i] <= k else k == keys[i])
    ensures k in FirstOnly(Expansions(stored, keys, listed)) ==> ValidUserKey(k)
  {
    ExpansionsMeaning(stored, keys, listed, k);
    forall i | 0 <= i < |keys|
      ensures k in Expansion(stored, keys[i], listed[i]) <==>
              ValidUserKey(keys[i]) &&
              (if IsDirectoryKey(keys[i]) then listed[i] && k in stored && keys[i] <= k else k == keys[i])
      ensures k in Expansion(stored, keys[i], listed[i]) ==> ValidUserKey(k)
    {
      if ValidUserKey(keys[i]) && IsDirectoryKey(keys[i]) && keys[i] <= k {
        DirectoryChildIsValid(keys[i], k);
      }
    }
  }

  /** What is reported of a key: that it is no user key, that it is a directory that could not be listed, or that it
      is one with nothing stored inside. */
  lemma RefusedExactly(stored: seq<string>, key: string, listed: bool, f: Failure)
    ensures f in Refusal(stored, key, listed) <==>
              f.key == key &&
              match f.reason
              case InvalidKey => !ValidUserKey(key)
              case ListingFailed => ValidUserKey(key) && IsDirectoryKey(key) && !listed
              case EmptyDirectory =>
                && ValidUserKey(key) && IsDirectoryKey(key) && listed
                && (forall k :: k in stored ==> !(key <= k))
  {
    hide ValidUserKey;
    ExpansionCases(stored, key, listed);
    var under := Under(stored, key);
    if IsDirectoryKey(key) && NonEmpty(under) == [] {
      forall k | k in stored ensures !(key <= k) {
        assert key <= k ==> k in under && k in NonEmpty(under);
      }
    } else if NonEmpty(under) != [] {
      assert NonEmpty(under)[0] in under;
    }
  }

  /** Every requested key is either covered or reported, never both. */
  lemma {:induction false} EveryKeyAnswered(stored: seq<string>, keys: seq<string>, listed: seq<bool>, i: nat)
    requires |keys| == |listed| && i < |keys|
    ensures Expansion(stored, keys[i], listed[i]) != [] <==> Refusal(stored, keys[i], listed[i]) == []
    ensures forall k :: k in Expansion(stored, keys[i], listed[i]) ==> k in FirstOnly(Expansions(stored, keys, listed))
    ensures forall f :: f in Refusal(stored, keys[i], listed[i]) ==>
              f.key == keys[i] && f in Refusals(stored, keys, listed)
    decreases |keys|
  {
    var n := |keys| - 1;
    if i < n {
      EveryKeyAnswered(stored, keys[..n], listed[..n], i);
    }
  }
}
