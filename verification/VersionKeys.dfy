/** Storage keys of archived versions: `.versions/<bucket>/<escaped key>/v<number>`. */
module VersionKeys {
  import opened Keys

  /** One char for each byte. */
  predicate Bytes(s: string)
  {
    forall i :: 0 <= i < |s| ==> s[i] as int < 256
  }

  // ---------------------------------------------------------------------------
  // Percent-encoding of a path segment (section 2.1 of RFC 3986)

  predicate Plain(c: char)
  {
    'a' <= c <= 'z' || 'A' <= c <= 'Z' || '0' <= c <= '9' || c in "-_.~$&+=:@"
  }

  function HexDigit(n: nat): char
    requires n < 16
  {
    if n < 10 then '0' + n as char else 'A' + (n - 10) as char
  }

  function HexValue(c: char): nat
  {
    if '0' <= c <= '9' then (c - '0') as nat else if 'A' <= c <= 'F' then 10 + (c - 'A') as nat else 0
  }

  function EscapeByte(c: char): string
    requires c as int < 256
  {
    if Plain(c) then [c] else ['%', HexDigit(c as int / 16), HexDigit(c as int % 16)]
  }

  function PathEscape(s: string): string
    requires Bytes(s)
  {
    if s == "" then "" else EscapeByte(s[0]) + PathEscape(s[1..])
  }

  function PathUnescape(s: string): string
  {
    if s == "" then ""
    else if s[0] == '%' && |s| >= 3 && 16 * HexValue(s[1]) + HexValue(s[2]) < 256 then
      [(16 * HexValue(s[1]) + HexValue(s[2])) as char] + PathUnescape(s[3..])
    else [s[0]] + PathUnescape(s[1..])
  }

  lemma HexRoundTrip(n: nat)
    requires n < 16
    ensures HexValue(HexDigit(n)) == n && HexDigit(n) == "0123456789ABCDEF"[n]
  {
  }

  /** An escaped byte is read back, whatever follows, and holds no slash. */
  lemma ByteRoundTrip(c: char, rest: string)
    requires c as int < 256
    ensures PathUnescape(EscapeByte(c) + rest) == [c] + PathUnescape(rest)
    ensures '/' !in EscapeByte(c)
  {
    var esc := EscapeByte(c) + rest;
    HexRoundTrip(c as int / 16);
    HexRoundTrip(c as int % 16);
    hide HexDigit, HexValue;
    if Plain(c) {
      assert esc[1..] == rest;
    } else {
      assert esc[3..] == rest;
      assert 16 * (c as int / 16) + c as int % 16 == c as int;
    }
  }

  /** Escaping works byte by byte: letters, digits and ten marks stand for themselves, and each other byte
      becomes '%' and its two hexadecimal digits. It can be undone, and leaves no slash. */
  lemma {:induction false} EscapeRoundTrip(s: string)
    requires Bytes(s)
    ensures PathUnescape(PathEscape(s)) == s
    ensures '/' !in PathEscape(s)
    ensures s != "" ==>
              var c := s[0];
              PathEscape(s) ==
              (if 'a' <= c <= 'z' || 'A' <= c <= 'Z' || '0' <= c <= '9' || c in "-_.~$&+=:@" then [c]
               else ['%', "0123456789ABCDEF"[c as int / 16], "0123456789ABCDEF"[c as int % 16]])
              + PathEscape(s[1..])
  {
    if s == "" {
    } else {
      EscapeRoundTrip(s[1..]);
      ByteRoundTrip(s[0], PathEscape(s[1..]));
      HexRoundTrip(s[0] as int / 16);
      HexRoundTrip(s[0] as int % 16);
      hide HexDigit, PathUnescape;
      assert s == [s[0]] + s[1..];
    }
  }

  // ---------------------------------------------------------------------------
  // Decimal numbers

  function Decimal(n: nat): string
  {
    if n < 10 then ['0' + n as char] else Decimal(n / 10) + ['0' + (n % 10) as char]
  }

  function ParseDecimal(s: string): nat
  {
    if s == "" then 0 else 10 * ParseDecimal(s[..|s| - 1]) + HexValue(s[|s| - 1])
  }

  /** The digits of a number, without a leading zero, determine it. */
  lemma {:induction false} DecimalRoundTrip(n: nat)
    ensures ParseDecimal(Decimal(n)) == n
    ensures Decimal(n) != "" && forall i :: 0 <= i < |Decimal(n)| ==> Decimal(n)[i] in "0123456789"
    ensures Decimal(n)[0] == '0' ==> n == 0 && Decimal(n) == "0"
  {
    if n < 10 {
      assert Decimal(n)[..0] == "";
      HexRoundTrip(n);
    } else {
      DecimalRoundTrip(n / 10);
      HexRoundTrip(n % 10);
      assert Decimal(n)[..|Decimal(n)| - 1] == Decimal(n / 10);
    }
  }

  // ---------------------------------------------------------------------------
  // Storage keys

  function StorageKey(bucket: string, key: string, no: nat): string
    requires Bytes(key)
  {
    ".versions" + "/" + bucket + "/" + PathEscape(key) + "/v" + Decimal(no)
  }

  /** The text before the first separator and the text after it are determined. */
  lemma SplitAt(a: string, x: string, b: string, y: string)
    requires '/' !in a && '/' !in b && a + "/" + x == b + "/" + y
    ensures a == b && x == y
  {
    var s := a + "/" + x;
    assert s[|a|] == '/' && s[|b|] == '/';
    assert a == s[..|a|] && b == s[..|b|];
    assert x == s[|a| + 1..] && y == s[|b| + 1..];
  }

  lemma StorageKeyParts(b: string, k: string, n: nat)
    requires Bytes(k)
    ensures StorageKey(b, k, n) == VERSION_PREFIX + (b + "/" + (PathEscape(k) + "/" + ("v" + Decimal(n))))
  {
    assert ".versions" + "/" == VERSION_PREFIX;
    assert "/v" == "/" + "v";
  }

  lemma TailsEqual(p: string, x: string, y: string)
    requires p + x == p + y
    ensures x == y
  {
    assert (p + x)[|p|..] == x && (p + y)[|p|..] == y;
  }

  /** Different versions never share a storage key. */
  lemma StorageKeyInjective(b: string, k: string, n: nat, b': string, k': string, n': nat)
    requires '/' !in b && '/' !in b' && Bytes(k) && Bytes(k')
    ensures StorageKey(b, k, n) == StorageKey(b', k', n') <==> b == b' && k == k' && n == n'
  {
    hide PathEscape, Decimal;
    if StorageKey(b, k, n) == StorageKey(b', k', n') {
      var v, v' := "v" + Decimal(n), "v" + Decimal(n');
      var x, x' := PathEscape(k) + "/" + v, PathEscape(k') + "/" + v';
      StorageKeyParts(b, k, n);
      StorageKeyParts(b', k', n');
      TailsEqual(VERSION_PREFIX, b + "/" + x, b' + "/" + x');
      SplitAt(b, x, b', x');
      EscapeRoundTrip(k);
      EscapeRoundTrip(k');
      SplitAt(PathEscape(k), v, PathEscape(k'), v');
      TailsEqual("v", Decimal(n), Decimal(n'));
      DecimalRoundTrip(n);
      DecimalRoundTrip(n');
    }
  }

  /** Version objects lie in their reserved area: they are neither user keys nor trash keys. */
  lemma StorageKeyIsReserved(bucket: string, key: string, no: nat)
    requires Bytes(key)
    ensures VERSION_PREFIX <= StorageKey(bucket, key, no)
    ensures !ValidUserKey(StorageKey(bucket, key, no))
    ensures forall k :: ToTrashKey(k) != StorageKey(bucket, key, no)
  {
    var s := StorageKey(bucket, key, no);
    assert s[..10] == VERSION_PREFIX;
    forall k ensures ToTrashKey(k) != s {
      assert ToTrashKey(k)[1] == 't' && s[1] == VERSION_PREFIX[1];
    }
  }
}
