/**
  Cache key derivation: `make_cache_key` and the choice of the timestamp
  (`modifiedTime`, else `createdTime`) made by both the request handler and
  the conversion worker.
 */
module CacheKeys {
  import opened Common

  type Key = string

  /** `s.replace(":", "-")`: every colon becomes a dash, nothing else moves. */
  function ReplaceColons(s: string): (r: string)
    ensures |r| == |s|
    ensures forall i :: 0 <= i < |s| ==> r[i] == (if s[i] == ':' then '-' else s[i])
    ensures ':' !in r
  {
    if s == [] then [] else [if s[0] == ':' then '-' else s[0]] + ReplaceColons(s[1..])
  }

  /** Two characters that `ReplaceColons` sends to the same character. */
  predicate SameAfterReplace(c: char, d: char)
  {
    c == d || ((c == ':' || c == '-') && (d == ':' || d == '-'))
  }

  /**
    `ReplaceColons` identifies exactly the strings that differ only by
    swapping colons and dashes; it is not injective.
   */
  lemma {:induction false} ReplaceColonsCollideIff(a: string, b: string)
    ensures ReplaceColons(a) == ReplaceColons(b) <==>
            |a| == |b| && forall i :: 0 <= i < |a| ==> SameAfterReplace(a[i], b[i])
  {
    var ra, rb := ReplaceColons(a), ReplaceColons(b);
    if |a| == |b| {
      if forall i :: 0 <= i < |a| ==> SameAfterReplace(a[i], b[i]) {
        forall i | 0 <= i < |a| ensures ra[i] == rb[i] {
          assert SameAfterReplace(a[i], b[i]);
        }
      } else {
        var i :| 0 <= i < |a| && !SameAfterReplace(a[i], b[i]);
        assert ra[i] != rb[i];
      }
    }
  }

  predicate IsDigit(c: char)
  {
    '0' as int <= c as int <= '9' as int
  }

  function DigitValue(c: char): (d: nat)
    requires IsDigit(c)
    ensures d < 10
  {
    c as int - '0' as int
  }

  predicate IsDecimal(s: string)
  {
    |s| >= 1 && forall i :: 0 <= i < |s| ==> IsDigit(s[i])
  }

  function DigitChar(d: nat): (c: char)
    requires d < 10
    ensures IsDigit(c) && DigitValue(c) == d
  {
    ('0' as int + d) as char
  }

  /** `str(n)` for a non-negative integer: decimal digits, no leading zero. */
  function NatToDecimal(n: nat): (r: string)
    ensures IsDecimal(r)
    ensures r[0] == '0' ==> n == 0 && r == "0"
  {
    if n < 10 then [DigitChar(n)] else NatToDecimal(n / 10) + [DigitChar(n % 10)]
  }

  /** The number a string of decimal digits denotes. */
  function DecimalValue(s: string): nat
    requires forall i :: 0 <= i < |s| ==> IsDigit(s[i])
  {
    if s == [] then 0 else DecimalValue(s[..|s| - 1]) * 10 + DigitValue(s[|s| - 1])
  }

  /** Rendering a number in decimal loses nothing: reading it back gives the number. */
  lemma {:induction false} DecimalRoundTrip(n: nat)
    ensures DecimalValue(NatToDecimal(n)) == n
  {
    if n >= 10 {
      var r := NatToDecimal(n);
      assert r[..|r| - 1] == NatToDecimal(n / 10);
      DecimalRoundTrip(n / 10);
    }
  }

  /**
    `meta.get("modifiedTime") or meta.get("createdTime")`: the modification
    time when it is present and non-empty, otherwise whatever the creation
    time field holds.
   */
  function ChooseTimestamp(meta: DriveFile): (t: Option<string>)
    ensures t == meta.modifiedTime || t == meta.createdTime
    ensures Truthy(meta.modifiedTime) ==> t == meta.modifiedTime
    ensures Truthy(t) <==> Truthy(meta.modifiedTime) || Truthy(meta.createdTime)
  {
    if Truthy(meta.modifiedTime) then meta.modifiedTime else meta.createdTime
  }

  /**
    `make_cache_key(file_id, modified_time)`. `nowSeconds` is `int(time.time())`,
    the clock read at the moment of the call, which is used only when the
    timestamp is missing or empty.
   */
  function MakeCacheKey(fileId: string, modifiedTime: Option<string>, nowSeconds: nat): (key: Key)
    ensures |key| > |fileId| + 1 && key[..|fileId|] == fileId && key[|fileId|] == '_'
    ensures Truthy(modifiedTime) ==>
              |key| == |fileId| + 1 + |modifiedTime.value| &&
              ':' !in key[|fileId| + 1..] &&
              forall i :: 0 <= i < |modifiedTime.value| ==>
                key[|fileId| + 1 + i] == (if modifiedTime.value[i] == ':' then '-' else modifiedTime.value[i])
    ensures !Truthy(modifiedTime) ==> IsDecimal(key[|fileId| + 1..])
  {
    var safe := if Truthy(modifiedTime) then ReplaceColons(modifiedTime.value) else NatToDecimal(nowSeconds);
    var key := fileId + "_" + safe;
    assert key[|fileId| + 1..] == safe;
    key
  }

  /** The part of a key after the file id and its `_` separator. */
  function KeySuffix(fileId: string, key: Key): string
    requires |key| > |fileId|
  {
    key[|fileId| + 1..]
  }

  /** Without a usable timestamp the key ends in the clock's seconds, in decimal. */
  lemma KeyFromClock(fileId: string, modifiedTime: Option<string>, nowSeconds: nat)
    requires !Truthy(modifiedTime)
    ensures var suffix := KeySuffix(fileId, MakeCacheKey(fileId, modifiedTime, nowSeconds));
            IsDecimal(suffix) && DecimalValue(suffix) == nowSeconds && suffix == NatToDecimal(nowSeconds)
  {
    var key := MakeCacheKey(fileId, modifiedTime, nowSeconds);
    assert KeySuffix(fileId, key) == NatToDecimal(nowSeconds);
    DecimalRoundTrip(nowSeconds);
  }

  /**
    For one file, two usable timestamps give the same key exactly when they
    differ only by colons and dashes; the clock is then irrelevant.
   */
  lemma SameFileKeysIff(fileId: string, t1: string, t2: string, now1: nat, now2: nat)
    requires t1 != "" && t2 != ""
    ensures MakeCacheKey(fileId, Some(t1), now1) == MakeCacheKey(fileId, Some(t2), now2) <==>
            |t1| == |t2| && forall i :: 0 <= i < |t1| ==> SameAfterReplace(t1[i], t2[i])
  {
    var k1 := MakeCacheKey(fileId, Some(t1), now1);
    var k2 := MakeCacheKey(fileId, Some(t2), now2);
    assert k1 == fileId + "_" + ReplaceColons(t1);
    assert k2 == fileId + "_" + ReplaceColons(t2);
    assert KeySuffix(fileId, k1) == ReplaceColons(t1);
    assert KeySuffix(fileId, k2) == ReplaceColons(t2);
    ReplaceColonsCollideIff(t1, t2);
  }

  /** Two timestamps that are different but map to one key, so one artifact. */
  lemma KeyNotInjective()
    ensures MakeCacheKey("abc123", Some("12:30"), 0) == MakeCacheKey("abc123", Some("12-30"), 0)
  {
    SameFileKeysIff("abc123", "12:30", "12-30", 0, 0);
  }

  /** A timestamp that leaves no `_` in the key suffix: absent, empty, or free of `_`. */
  predicate UnderscoreFree(t: Option<string>)
  {
    !Truthy(t) || '_' !in t.value
  }

  /** In `a + "_" + s` with no `_` in `s`, every `_` lies at or before position `|a|`. */
  lemma UnderscoreAtOrBeforeSeparator(a: string, s: string, j: int)
    requires '_' !in s && 0 <= j < |a| + 1 + |s| && (a + "_" + s)[j] == '_'
    ensures j <= |a|
  {
  }

  /** A string `a + "_" + s` with no `_` in `s` splits in one way only. */
  lemma SplitAtLastUnderscore(a: string, s: string, b: string, t: string)
    requires '_' !in s && '_' !in t && a + "_" + s == b + "_" + t
    ensures a == b && s == t
  {
    var k := a + "_" + s;
    UnderscoreAtOrBeforeSeparator(a, s, |b|);
    UnderscoreAtOrBeforeSeparator(b, t, |a|);
    assert a == k[..|a|] && b == k[..|b|];
    assert s == k[|a| + 1..] && t == k[|b| + 1..];
  }

  /** The key is the file id, `_`, and a suffix that has no `_` when the timestamp has none. */
  lemma KeySplits(fileId: string, modifiedTime: Option<string>, nowSeconds: nat)
    requires UnderscoreFree(modifiedTime)
    ensures var key := MakeCacheKey(fileId, modifiedTime, nowSeconds);
            key == fileId + "_" + KeySuffix(fileId, key) && '_' !in KeySuffix(fileId, key)
  {
    var key := MakeCacheKey(fileId, modifiedTime, nowSeconds);
    var suffix := KeySuffix(fileId, key);
    assert key == key[..|fileId|] + [key[|fileId|]] + suffix;
    forall i | 0 <= i < |suffix| ensures suffix[i] != '_' {
      if Truthy(modifiedTime) {
        assert suffix[i] == key[|fileId| + 1 + i];
        assert modifiedTime.value[i] != '_';
      }
    }
  }

  /**
    Keys of two files are different when neither timestamp holds a `_`: the
    key then determines the file id, so distinct files never share an artifact.
   */
  lemma KeyDeterminesFile(id1: string, t1: Option<string>, now1: nat, id2: string, t2: Option<string>, now2: nat)
    requires UnderscoreFree(t1) && UnderscoreFree(t2)
    ensures MakeCacheKey(id1, t1, now1) == MakeCacheKey(id2, t2, now2) ==> id1 == id2
  {
    var k1, k2 := MakeCacheKey(id1, t1, now1), MakeCacheKey(id2, t2, now2);
    KeySplits(id1, t1, now1);
    KeySplits(id2, t2, now2);
    if k1 == k2 {
      SplitAtLastUnderscore(id1, KeySuffix(id1, k1), id2, KeySuffix(id2, k2));
    }
  }

  /** A `_` inside a timestamp lets two different files share one key. */
  lemma KeyCollisionAcrossFiles()
    ensures MakeCacheKey("a_b", Some("c"), 0) == MakeCacheKey("a", Some("b_c"), 0)
  {
    var k1, k2 := MakeCacheKey("a_b", Some("c"), 0), MakeCacheKey("a", Some("b_c"), 0);
    assert k1 == k1[..3] + [k1[3]] + k1[4..];
    assert k2 == k2[..1] + [k2[1]] + k2[2..];
  }

  /** Name of the artifact file in the cache directory: `f"{key}.mp3"`. */
  function CachedName(key: Key): (name: string)
    ensures |name| == |key| + 4 && name[..|key|] == key && name[|key|..] == ".mp3"
  {
    key + ".mp3"
  }

  /** The artifact name determines the key: distinct keys never share a file name. */
  lemma CachedNameInjective(k1: Key, k2: Key)
    ensures CachedName(k1) == CachedName(k2) <==> k1 == k2
  {
    if CachedName(k1) == CachedName(k2) {
      assert |k1| == |k2|;
      assert CachedName(k1)[..|k1|] == k1;
    }
  }
}
