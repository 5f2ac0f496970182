/** Object keys: the reserved `.trash/` and `.versions/` areas, and SQL LIKE patterns over keys. */
module Keys {
  import opened Text

  const TRASH_PREFIX := ".trash/"
  const VERSION_PREFIX := ".versions/"

  predicate HiddenKey(key: string)
  {
    TRASH_PREFIX <= key || VERSION_PREFIX <= key
  }

  predicate ValidUserKey(key: string)
  {
    key != "" && key != ".trash" && key != ".versions" && !HiddenKey(key)
  }

  function ToTrashKey(key: string): string
  {
    TRASH_PREFIX + key
  }

  function FromTrashKey(key: string): Option<string>
  {
    if !(TRASH_PREFIX <= key) then None
    else
      var orig := key[|TRASH_PREFIX|..];
      if orig == "" then None else Some(orig)
  }

  /** A key that ends in '/' and is more than slashes. */
  predicate IsDirectoryKey(key: string)
  {
    key != "" && key[|key| - 1] == '/' && exists i :: 0 <= i < |key| && key[i] != '/'
  }

  /** What a user key must not be: empty, one of the reserved names, or inside a reserved area. */
  lemma ValidUserKeyExactly(key: string)
    ensures ValidUserKey(key) <==>
            && key != "" && key != ".trash" && key != ".versions"
            && (forall rest :: key != ".trash/" + rest) && (forall rest :: key != ".versions/" + rest)
  {
    if TRASH_PREFIX <= key {
      assert key == ".trash/" + key[|TRASH_PREFIX|..];
    }
    if VERSION_PREFIX <= key {
      assert key == ".versions/" + key[|VERSION_PREFIX|..];
    }
  }

  /** A directory key ends in a slash, and holds something else too. */
  lemma IsDirectoryKeyExactly(key: string)
    ensures IsDirectoryKey(key) <==> exists a, c, b :: key == a + [c] + b + "/" && c != '/'
  {
    if IsDirectoryKey(key) {
      var i :| 0 <= i < |key| && key[i] != '/';
      var a, b := key[..i], key[i + 1..|key| - 1];
      assert key == a + [key[i]] + b + "/";
    }
    if a, c, b :| key == a + [c] + b + "/" && c != '/' {
      assert key[|a|] == c;
    }
  }

  /** `ToTrashKey` and `FromTrashKey` are inverse, and a trash key is never a user key. */
  lemma TrashKeyRoundTrip(key: string, trash: string)
    ensures ToTrashKey(key) == ".trash/" + key
    ensures FromTrashKey(trash) == Some(key) <==> key != "" && trash == ".trash/" + key
    ensures FromTrashKey(trash).Some? ==> ToTrashKey(FromTrashKey(trash).value) == trash
    ensures !ValidUserKey(ToTrashKey(key)) && ToTrashKey(key) != key
    ensures !(VERSION_PREFIX <= ToTrashKey(key))
  {
    assert ToTrashKey(key)[|TRASH_PREFIX|..] == key;
    assert ToTrashKey(key)[1] == 't' && VERSION_PREFIX[1] == 'v';
    assert |ToTrashKey(key)| > |key|;
  }

  /** Everything stored under a valid directory key is again a valid user key. */
  lemma DirectoryChildIsValid(dir: string, child: string)
    requires ValidUserKey(dir) && IsDirectoryKey(dir)
    requires dir <= child
    ensures ValidUserKey(child)
  {
    ShortPrefix(TRASH_PREFIX, dir, child);
    ShortPrefix(VERSION_PREFIX, dir, child);
    assert child[|dir| - 1] == '/';
  }

  /** A reserved area has one slash, at its end, so no shorter directory key reaches into it. */
  lemma ShortPrefix(area: string, dir: string, child: string)
    requires area == TRASH_PREFIX || area == VERSION_PREFIX
    requires dir != "" && dir[|dir| - 1] == '/'
    requires dir <= child && !(area <= dir)
    ensures !(area <= child)
  {
  }

  // ---------------------------------------------------------------------------
  // LIKE patterns (section 9.7.1 of the PostgreSQL manual)

  /** `s LIKE pattern ESCAPE '\'`. A pattern that ends in the escape character is an error there; here it
      matches nothing. */
  predicate Like(pattern: string, s: string)
    decreases |pattern| + |s|
  {
    if pattern == "" then s == ""
    else if pattern[0] == '%' then Like(pattern[1..], s) || (s != "" && Like(pattern, s[1..]))
    else if pattern[0] == '_' then s != "" && Like(pattern[1..], s[1..])
    else if pattern[0] == '\\' then
      |pattern| >= 2 && s != "" && s[0] == pattern[1] && Like(pattern[2..], s[1..])
    else s != "" && s[0] == pattern[0] && Like(pattern[1..], s[1..])
  }

  /** '%' stands for any text. */
  lemma {:induction false} PercentExactly(pattern: string, s: string)
    ensures Like("%" + pattern, s) <==> exists i :: 0 <= i <= |s| && Like(pattern, s[i..])
    decreases |s|
  {
    assert ("%" + pattern)[1..] == pattern && s[0..] == s;
    if s == "" {
    } else {
      PercentExactly(pattern, s[1..]);
      if i :| 0 <= i <= |s[1..]| && Like(pattern, s[1..][i..]) {
        assert s[1..][i..] == s[i + 1..];
      }
      if i :| 1 <= i <= |s| && Like(pattern, s[i..]) {
        assert s[1..][i - 1..] == s[i..];
      }
    }
  }

  /** '_' stands for any one character, the escape character takes the next one literally, and any other character
      stands for itself. */
  lemma CharacterExactly(c: char, pattern: string, s: string)
    ensures Like("_" + pattern, s) <==> s != "" && Like(pattern, s[1..])
    ensures Like(['\\', c] + pattern, s) <==> s != "" && s[0] == c && Like(pattern, s[1..])
    ensures c !in "%_\\" ==> (Like([c] + pattern, s) <==> s != "" && s[0] == c && Like(pattern, s[1..]))
    ensures Like("", s) <==> s == ""
  {
    assert ("_" + pattern)[1..] == pattern && ([c] + pattern)[1..] == pattern;
    assert (['\\', c] + pattern)[2..] == pattern;
  }

  function EscapeChar(c: char): string
  {
    if c == '\\' || c == '%' || c == '_' then ['\\', c] else [c]
  }

  function Escape(s: string): string
  {
    if s == "" then "" else EscapeChar(s[0]) + Escape(s[1..])
  }

  function LikePrefix(prefix: string): string
  {
    Escape(prefix) + "%"
  }

  lemma {:induction false} PercentMatchesAll(s: string)
    ensures Like("%", s)
  {
    if s != "" {
      PercentMatchesAll(s[1..]);
    } else {
      assert Like("%"[1..], s);
    }
  }

  /** An escaped character matches itself and nothing else. */
  lemma EscapedMatchesItself(c: char, rest: string, s: string)
    ensures Like(EscapeChar(c) + rest, s) <==> s != "" && s[0] == c && Like(rest, s[1..])
  {
    var pattern := EscapeChar(c) + rest;
    assert pattern[|EscapeChar(c)|..] == rest;
  }

  /** The pattern selects exactly the strings with that prefix, whatever metacharacters it holds. */
  lemma {:induction false} LikePrefixIsPrefix(prefix: string, s: string)
    ensures Like(LikePrefix(prefix), s) <==> prefix <= s
  {
    if prefix == "" {
      assert LikePrefix(prefix) == "%";
      PercentMatchesAll(s);
    } else {
      hide Like, EscapeChar;
      assert LikePrefix(prefix) == EscapeChar(prefix[0]) + LikePrefix(prefix[1..]);
      hide LikePrefix;
      EscapedMatchesItself(prefix[0], LikePrefix(prefix[1..]), s);
      if s != "" {
        LikePrefixIsPrefix(prefix[1..], s[1..]);
        PrefixStep(prefix, s);
      }
    }
  }

  lemma PrefixStep(prefix: string, s: string)
    requires prefix != "" && s != ""
    ensures prefix <= s <==> prefix[0] == s[0] && prefix[1..] <= s[1..]
  {
    assert prefix == [prefix[0]] + prefix[1..] && s == [s[0]] + s[1..];
  }

  /** The WHERE clause of the live listing: the four conditions on the reserved areas. */
  predicate SqlVisible(key: string)
  {
    !Like(".trash/%", key) && key != ".trash/" && !Like(".versions/%", key) && key != ".versions/"
  }

  lemma SqlVisibleIsNotHidden(key: string)
    ensures SqlVisible(key) <==> !HiddenKey(key)
  {
    assert TRASH_PREFIX + "%" == ".trash/%" && VERSION_PREFIX + "%" == ".versions/%";
    PlainPattern(TRASH_PREFIX, key);
    PlainPattern(VERSION_PREFIX, key);
  }

  /** A literal without metacharacters followed by '%' selects the strings it starts. */
  lemma PlainPattern(area: string, s: string)
    requires forall i :: 0 <= i < |area| ==> EscapeChar(area[i]) == [area[i]]
    ensures Like(area + "%", s) <==> area <= s
  {
    EscapePlain(area);
    LikePrefixIsPrefix(area, s);
  }

  lemma {:induction false} EscapePlain(s: string)
    requires forall i :: 0 <= i < |s| ==> EscapeChar(s[i]) == [s[i]]
    ensures Escape(s) == s
  {
    if s == "" {
    } else {
      EscapePlain(s[1..]);
    }
  }

  /** The first path level of a key, "" for keys at the root. */
  function FirstLevel(key: string): string
  {
    var i := IndexOf(key, '/');
    if i == |key| then "" else key[..i + 1]
  }

  /** A key with a slash lies under what comes before its first one; a key without lies at the root. */
  lemma FirstLevelExactly(key: string, prefix: string)
    ensures FirstLevel(key) == prefix <==>
            if prefix == "" then '/' !in key
            else exists name, rest :: '/' !in name && prefix == name + "/" && key == name + "/" + rest
  {
    var i := IndexOf(key, '/');
    if i < |key| {
      assert key == key[..i] + "/" + key[i + 1..] && key[..i + 1] == key[..i] + "/";
      assert '/' in key;
    }
    if name, rest :| '/' !in name && prefix == name + "/" && key == name + "/" + rest {
      assert key[|name|] == '/' && forall k :: 0 <= k < |name| ==> key[k] == name[k];
      assert i == |name| && key[..i + 1] == prefix;
    }
  }
}
