/**
 * The candidate list of price-source identifiers, built from the raw
 * comma-separated configuration value by splitting on commas, stripping
 * each piece of surrounding whitespace and dropping the pieces that are
 * then empty (the `COIN_IDS` comprehension of xrpbot.py).
 */
module CoinIds {

  /** The raw value used when the configuration variable is not set. */
  const DefaultRaw: string := "ripple,xrp"

  /** The separator the raw value is split on. */
  const Comma: char := ','

  /**
   * The characters Python's argument-less `str.strip()` removes: exactly
   * those for which `str.isspace()` holds.
   */
  predicate IsSpace(c: char) {
    ('\t' <= c <= '\r') || ('\U{1C}' <= c <= ' ') || c == '\U{85}' || c == '\U{A0}' ||
    c == '\U{1680}' || ('\U{2000}' <= c <= '\U{200A}') || c == '\U{2028}' || c == '\U{2029}' ||
    c == '\U{202F}' || c == '\U{205F}' || c == '\U{3000}'
  }

  /** No whitespace at either end. */
  predicate Trimmed(s: string) {
    s == [] || (!IsSpace(s[0]) && !IsSpace(s[|s| - 1]))
  }

  /** A well-formed candidate identifier: non-empty, trimmed and comma-free. */
  predicate CleanId(s: string) {
    s != [] && Trimmed(s) && Comma !in s
  }

  // ---------------------------------------------------------------------------
  // str.split(sep) and its inverse, sep.join(parts)
  // ---------------------------------------------------------------------------

  /** `sep.join(parts)`; the empty list joins to the empty string. */
  function Join(parts: seq<string>, sep: char): string {
    if |parts| == 0 then ""
    else if |parts| == 1 then parts[0]
    else parts[0] + [sep] + Join(parts[1..], sep)
  }

  /**
   * `s.split(sep)` for a one-character separator: the separator-free pieces
   * between consecutive separators, one more piece than there are separators
   * (so "" splits to [""] and "a,,b" to ["a", "", "b"]).
   */
  function Split(s: string, sep: char): (parts: seq<string>)
    ensures |parts| >= 1
    ensures forall p :: p in parts ==> sep !in p
    decreases |s|
  {
    if |s| == 0 then [""]
    else
      var rest := Split(s[1..], sep);
      assert s == [s[0]] + s[1..];
      if s[0] == sep then [""] + rest
      else [[s[0]] + rest[0]] + rest[1..]
  }

  /** There is one piece more than there are separators. */
  lemma {:induction false} SplitCount(s: string, sep: char)
    ensures |Split(s, sep)| == multiset(s)[sep] + 1
    decreases |s|
  {
    if |s| > 0 {
      SplitCount(s[1..], sep);
      assert s == [s[0]] + s[1..];
      assert multiset(s) == multiset{s[0]} + multiset(s[1..]);
    }
  }

  /** Joining the pieces of a split gives back the string. */
  lemma {:induction false} JoinSplit(s: string, sep: char)
    ensures Join(Split(s, sep), sep) == s
    decreases |s|
  {
    if |s| > 0 {
      var rest := Split(s[1..], sep);
      JoinSplit(s[1..], sep);
      assert Join(rest, sep) == s[1..];
      if s[0] == sep {
        var parts := [""] + rest;
        assert Split(s, sep) == parts;
        assert parts[1..] == rest;
        assert Join(parts, sep) == "" + [sep] + Join(rest, sep);
      } else if |rest| == 1 {
        assert Split(s, sep) == [[s[0]] + rest[0]];
      } else {
        var parts := [[s[0]] + rest[0]] + rest[1..];
        assert Split(s, sep) == parts;
        assert parts[1..] == rest[1..];
        assert Join(parts, sep) == [s[0]] + rest[0] + [sep] + Join(rest[1..], sep);
        assert Join(rest, sep) == rest[0] + [sep] + Join(rest[1..], sep);
      }
    }
  }

  /** Splitting distributes over a separator: the pieces keep their order. */
  lemma {:induction false} SplitAround(a: string, b: string, sep: char)
    ensures Split(a + [sep] + b, sep) == Split(a, sep) + Split(b, sep)
    decreases |a|
  {
    if |a| == 0 {
      assert a + [sep] + b == [sep] + b;
      assert ([sep] + b)[1..] == b;
    } else {
      assert (a + [sep] + b)[1..] == a[1..] + [sep] + b;
      SplitAround(a[1..], b, sep);
    }
  }

  /** A separator-free string is a single piece. */
  lemma {:induction false} SplitNoSep(p: string, sep: char)
    requires sep !in p
    ensures Split(p, sep) == [p]
    decreases |p|
  {
    if |p| > 0 {
      assert p[1..] == p[1..] && sep !in p[1..] by {
        forall c | c in p[1..] ensures c in p { }
      }
      SplitNoSep(p[1..], sep);
      assert p == [p[0]] + p[1..];
    }
  }

  /** Splitting a join of separator-free pieces gives back the pieces. */
  lemma {:induction false} SplitJoin(parts: seq<string>, sep: char)
    requires |parts| >= 1
    requires forall p :: p in parts ==> sep !in p
    ensures Split(Join(parts, sep), sep) == parts
    decreases |parts|
  {
    SplitNoSep(parts[0], sep);
    if |parts| > 1 {
      SplitJoin(parts[1..], sep);
      SplitAround(parts[0], Join(parts[1..], sep), sep);
      assert [parts[0]] + parts[1..] == parts;
    }
  }

  // ---------------------------------------------------------------------------
  // str.strip()
  // ---------------------------------------------------------------------------

  /** `s.lstrip()`: drops the maximal whitespace prefix. */
  function TrimStart(s: string): (r: string)
    ensures |r| <= |s| && r == s[|s| - |r|..]
    ensures forall k :: 0 <= k < |s| - |r| ==> IsSpace(s[k])
    ensures r == [] || !IsSpace(r[0])
    decreases |s|
  {
    if |s| > 0 && IsSpace(s[0]) then TrimStart(s[1..]) else s
  }

  /** `s.rstrip()`: drops the maximal whitespace suffix. */
  function TrimEnd(s: string): (r: string)
    ensures |r| <= |s| && r == s[..|r|]
    ensures forall k :: |r| <= k < |s| ==> IsSpace(s[k])
    ensures r == [] || !IsSpace(r[|r| - 1])
    decreases |s|
  {
    if |s| > 0 && IsSpace(s[|s| - 1]) then TrimEnd(s[..|s| - 1]) else s
  }

  /** Where the slice kept by `s.strip()` starts. */
  function StripFrom(s: string): nat {
    |s| - |TrimStart(s)|
  }

  /**
   * `s.strip()`: the slice of `s` left once the whitespace before
   * `StripFrom(s)` and after the slice is removed; no whitespace is left at
   * either end.
   */
  function Strip(s: string): (r: string)
    ensures Trimmed(r)
    ensures StripFrom(s) + |r| <= |s| && r == s[StripFrom(s)..StripFrom(s) + |r|]
    ensures forall k :: 0 <= k < StripFrom(s) ==> IsSpace(s[k])
    ensures forall k :: StripFrom(s) + |r| <= k < |s| ==> IsSpace(s[k])
  {
    TrimEnd(TrimStart(s))
  }

  /** Stripping keeps only characters of the input. */
  lemma StripSubset(s: string, c: char)
    requires c in Strip(s)
    ensures c in s
  {
    var r, i := Strip(s), StripFrom(s);
    InSlice(s, i, i + |r|, c);
  }

  /** A character of a slice is a character of the whole. */
  lemma InSlice(s: string, i: nat, j: nat, c: char)
    requires i <= j <= |s| && c in s[i..j]
    ensures c in s
  {
    var k :| 0 <= k < j - i && s[i..j][k] == c;
    assert s[i + k] == c;
  }

  /** A trimmed string is left as it is. */
  lemma StripTrimmed(s: string)
    requires Trimmed(s)
    ensures Strip(s) == s
  {
    var r, i := Strip(s), StripFrom(s);
    if |s| > 0 {
      assert !IsSpace(s[0]);
      assert i == 0;
      assert !IsSpace(s[|s| - 1]);
      assert i + |r| == |s|;
    }
  }

  // ---------------------------------------------------------------------------
  // The candidate list
  // ---------------------------------------------------------------------------

  /** `[p.strip() for p in parts if p.strip()]`. */
  function Clean(parts: seq<string>): (ids: seq<string>)
    ensures |ids| <= |parts|
    ensures forall id :: id in ids ==> id != [] && Trimmed(id)
  {
    if parts == [] then []
    else
      var t := Strip(parts[0]);
      (if t == [] then [] else [t]) + Clean(parts[1..])
  }

  /** Stripping cannot bring in a comma that no piece had. */
  lemma {:induction false} CleanCommaFree(parts: seq<string>)
    requires forall p :: p in parts ==> Comma !in p
    ensures forall id :: id in Clean(parts) ==> CleanId(id)
    decreases |parts|
  {
    if parts != [] {
      assert parts[0] in parts;
      if Comma in Strip(parts[0]) {
        StripSubset(parts[0], Comma);
      }
      assert forall p :: p in parts[1..] ==> p in parts;
      CleanCommaFree(parts[1..]);
    }
  }

  /** Cleaning is applied piece by piece, in order. */
  lemma {:induction false} CleanConcat(p: seq<string>, q: seq<string>)
    ensures Clean(p + q) == Clean(p) + Clean(q)
    decreases |p|
  {
    if p != [] {
      var head := if Strip(p[0]) == [] then [] else [Strip(p[0])];
      assert (p + q)[0] == p[0];
      assert (p + q)[1..] == p[1..] + q;
      assert Clean(p + q) == head + Clean(p[1..] + q);
      CleanConcat(p[1..], q);
      assert Clean(p) == head + Clean(p[1..]);
      assert Clean(p + q) == head + (Clean(p[1..]) + Clean(q));
    } else {
      assert p + q == q;
    }
  }

  /** Pieces that are already clean are kept unchanged. */
  lemma {:induction false} CleanOfClean(ids: seq<string>)
    requires forall id :: id in ids ==> CleanId(id)
    ensures Clean(ids) == ids
    decreases |ids|
  {
    if ids != [] {
      assert ids[0] in ids;
      StripTrimmed(ids[0]);
      CleanOfClean(ids[1..]);
      assert ids == [ids[0]] + ids[1..];
    }
  }

  /** `COIN_IDS` as built from the raw configuration value. */
  function ParseCoinIds(raw: string): (ids: seq<string>)
    ensures forall id :: id in ids ==> CleanId(id)
  {
    CleanCommaFree(Split(raw, Comma));
    Clean(Split(raw, Comma))
  }

  /** There are never more identifiers than comma-separated pieces. */
  lemma ParseCount(raw: string)
    ensures |ParseCoinIds(raw)| <= multiset(raw)[Comma] + 1
  {
    SplitCount(raw, Comma);
  }

  /**
   * Order is kept: the identifiers of a value with a comma in the middle are
   * those of the part before it followed by those of the part after it.
   */
  lemma ParseAround(a: string, b: string)
    ensures ParseCoinIds(a + [Comma] + b) == ParseCoinIds(a) + ParseCoinIds(b)
  {
    SplitAround(a, b, Comma);
    CleanConcat(Split(a, Comma), Split(b, Comma));
  }

  /** Writing clean identifiers comma-separated and parsing gives them back. */
  lemma ParseJoin(ids: seq<string>)
    requires forall id :: id in ids ==> CleanId(id)
    ensures ParseCoinIds(Join(ids, Comma)) == ids
  {
    if ids != [] {
      SplitJoin(ids, Comma);
      CleanOfClean(ids);
      assert ParseCoinIds(Join(ids, Comma)) == Clean(ids);
    } else {
      assert Split("", Comma) == [""];
      assert Strip("") == "";
      assert Clean([""]) == [];
    }
  }

  /** Parsing is idempotent: re-parsing the joined result changes nothing. */
  lemma ParseIdempotent(raw: string)
    ensures ParseCoinIds(Join(ParseCoinIds(raw), Comma)) == ParseCoinIds(raw)
  {
    ParseJoin(ParseCoinIds(raw));
  }

  /** The default configuration yields the two synonyms, primary first. */
  lemma DefaultIds()
    ensures ParseCoinIds(DefaultRaw) == ["ripple", "xrp"]
  {
    assert Join(["ripple", "xrp"], Comma) == DefaultRaw;
    ParseJoin(["ripple", "xrp"]);
  }
}
