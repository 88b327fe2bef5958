/**
 * The string operations the three core files use: lower-casing, substring
 * search (`includes`, `startswith`, `split`), and trimming of white space
 * (JavaScript `trim`, Python `strip`).
 */
module Text {
  import opened Wrappers

  /** Maps 'A'..'Z' to 'a'..'z' and leaves every other character alone. */
  function LowerChar(c: char): (d: char)
    ensures !('A' <= d <= 'Z')
    ensures 'a' <= c <= 'z' ==> d == c
  {
    if 'A' <= c <= 'Z' then (c as int + 32) as char else c
  }

  /** `toLowerCase()` / `lower()`, on the ASCII letters. */
  function Lower(s: string): (r: string)
    ensures |r| == |s|
    ensures forall i :: 0 <= i < |s| ==> r[i] == LowerChar(s[i])
    decreases |s|
  {
    if |s| == 0 then [] else [LowerChar(s[0])] + Lower(s[1..])
  }

  /** `needle` occurs in `hay` starting at position `i`. */
  predicate OccursAt(hay: string, needle: string, i: int) {
    0 <= i && i + |needle| <= |hay| && hay[i..i + |needle|] == needle
  }

  /** An occurrence at or after `k` is an occurrence in the tail `s[k..]`. */
  lemma OccursInTail(s: string, k: int, needle: string, p: int)
    requires 0 <= k <= p && OccursAt(s, needle, p)
    ensures OccursAt(s[k..], needle, p - k)
  {
    assert s[k..][p - k..p - k + |needle|] == s[p..p + |needle|];
  }

  /** `hay.includes(needle)`: scans the start positions of `hay` from the left. */
  predicate Contains(hay: string, needle: string)
    decreases |hay|
  {
    needle <= hay || (|hay| > 0 && Contains(hay[1..], needle))
  }

  /** An occurrence at position 0 is a prefix. */
  lemma OccursAtStart(hay: string, needle: string)
    ensures OccursAt(hay, needle, 0) <==> needle <= hay
  {
    if |needle| <= |hay| {
      assert hay[0..|needle|] == hay[..|needle|];
    }
  }

  /** Past the first character, occurrences in `hay` are those in its tail, one position further. */
  lemma OccursShift(hay: string, needle: string)
    requires |hay| > 0
    ensures forall j :: j > 0 ==> (OccursAt(hay, needle, j) <==> OccursAt(hay[1..], needle, j - 1))
  {
    forall j | j > 0 ensures OccursAt(hay, needle, j) <==> OccursAt(hay[1..], needle, j - 1) {
      if j + |needle| <= |hay| {
        assert hay[1..][j - 1..j - 1 + |needle|] == hay[j..j + |needle|];
      }
    }
  }

  /** `Contains` holds exactly when there is a position where `needle` occurs. */
  lemma {:induction false} ContainsIff(hay: string, needle: string)
    ensures Contains(hay, needle) <==> exists i :: OccursAt(hay, needle, i)
    decreases |hay|
  {
    OccursAtStart(hay, needle);
    if !(needle <= hay) && |hay| > 0 {
      ContainsIff(hay[1..], needle);
      OccursShift(hay, needle);
      if Contains(hay[1..], needle) {
        var i :| OccursAt(hay[1..], needle, i);
        assert OccursAt(hay, needle, i + 1);
      }
      if i :| OccursAt(hay, needle, i) {
        assert OccursAt(hay[1..], needle, i - 1);
      }
    }
  }

  /** The empty string occurs in every string. */
  lemma ContainsEmpty(hay: string)
    ensures Contains(hay, "")
  {
  }

  /** The first position at which `needle` occurs in `hay`, if any. */
  function FirstIndexOf(hay: string, needle: string): (r: Option<nat>)
    ensures r.Some? ==> OccursAt(hay, needle, r.value)
    ensures r.Some? ==> forall j :: 0 <= j < r.value ==> !OccursAt(hay, needle, j)
    ensures r.None? ==> forall j :: !OccursAt(hay, needle, j)
    decreases |hay|
  {
    OccursAtStart(hay, needle);
    if needle <= hay then Some(0)
    else if |hay| == 0 then None
    else
      OccursShift(hay, needle);
      match FirstIndexOf(hay[1..], needle)
      case None => None
      case Some(k) => Some(k + 1)
  }

  /** Drops leading characters that satisfy `ws`. */
  function TrimStart(s: string, ws: char -> bool): (r: string)
    ensures |r| <= |s| && r == s[|s| - |r|..]
    decreases |s|
  {
    if |s| > 0 && ws(s[0]) then TrimStart(s[1..], ws) else s
  }

  /** Only characters satisfying `ws` are dropped from the front. */
  lemma {:induction false} TrimStartDrops(s: string, ws: char -> bool)
    ensures forall k :: 0 <= k < |s| - |TrimStart(s, ws)| ==> ws(s[k])
    decreases |s|
  {
    if |s| > 0 && ws(s[0]) {
      var rest := s[1..];
      assert TrimStart(s, ws) == TrimStart(rest, ws);
      TrimStartDrops(rest, ws);
      forall k | 1 <= k < |s| - |TrimStart(rest, ws)| ensures ws(s[k]) {
        assert rest[k - 1] == s[k];
      }
    }
  }

  /** What `TrimStart` leaves does not start with a character satisfying `ws`. */
  lemma {:induction false} TrimStartFirst(s: string, ws: char -> bool)
    ensures |TrimStart(s, ws)| > 0 ==> !ws(TrimStart(s, ws)[0])
    decreases |s|
  {
    if |s| > 0 && ws(s[0]) {
      assert TrimStart(s, ws) == TrimStart(s[1..], ws);
      TrimStartFirst(s[1..], ws);
    }
  }

  /** Drops trailing characters that satisfy `ws`. */
  function TrimEnd(s: string, ws: char -> bool): (r: string)
    ensures |r| <= |s| && r == s[..|r|]
    decreases |s|
  {
    if |s| > 0 && ws(s[|s| - 1]) then TrimEnd(s[..|s| - 1], ws) else s
  }

  /** Only characters satisfying `ws` are dropped from the back. */
  lemma {:induction false} TrimEndDrops(s: string, ws: char -> bool)
    ensures forall k :: |TrimEnd(s, ws)| <= k < |s| ==> ws(s[k])
    decreases |s|
  {
    if |s| > 0 && ws(s[|s| - 1]) {
      var front := s[..|s| - 1];
      assert TrimEnd(s, ws) == TrimEnd(front, ws);
      TrimEndDrops(front, ws);
      forall k | |TrimEnd(front, ws)| <= k < |s| - 1 ensures ws(s[k]) {
        assert front[k] == s[k];
      }
    }
  }

  /** What `TrimEnd` leaves does not end with a character satisfying `ws`. */
  lemma {:induction false} TrimEndLast(s: string, ws: char -> bool)
    ensures |TrimEnd(s, ws)| > 0 ==> !ws(TrimEnd(s, ws)[|TrimEnd(s, ws)| - 1])
    decreases |s|
  {
    if |s| > 0 && ws(s[|s| - 1]) {
      assert TrimEnd(s, ws) == TrimEnd(s[..|s| - 1], ws);
      TrimEndLast(s[..|s| - 1], ws);
    }
  }

  /**
   * `r` is the block of `s` that starts at `i`, and everything in `s` before
   * and after that block satisfies `ws`.
   */
  ghost predicate FramedBy(s: string, r: string, i: int, ws: char -> bool) {
    OccursAt(s, r, i)
    && (forall k :: 0 <= k < i ==> ws(s[k]))
    && (forall k :: i + |r| <= k < |s| ==> ws(s[k]))
  }

  /**
   * Removes white space (as `ws` defines it) from both ends: the result is the
   * block of `s` between its leading and its trailing white space.
   */
  function Trim(s: string, ws: char -> bool): string {
    TrimEnd(TrimStart(s, ws), ws)
  }

  /** What `Trim` leaves: no white space at either end, and only white space cut off. */
  lemma TrimSpec(s: string, ws: char -> bool)
    ensures var r := Trim(s, ws);
      && (|r| > 0 ==> !ws(r[0]) && !ws(r[|r| - 1]))
      && (exists i :: FramedBy(s, r, i, ws))
      && (r == [] <==> forall k :: 0 <= k < |s| ==> ws(s[k]))
  {
    var t := TrimStart(s, ws);
    TrimEnds(s, ws);
    TrimFramed(s, ws);
    EmptyIffAllWhitespace(s, Trim(s, ws), |s| - |t|, ws);
  }

  /** What `Trim` leaves neither starts nor ends with white space. */
  lemma TrimEnds(s: string, ws: char -> bool)
    ensures var r := Trim(s, ws); |r| > 0 ==> !ws(r[0]) && !ws(r[|r| - 1])
  {
    var t := TrimStart(s, ws);
    var r := TrimEnd(t, ws);
    assert Trim(s, ws) == r;
    TrimStartFirst(s, ws);
    TrimEndLast(t, ws);
    if |r| > 0 {
      assert r[0] == t[0];
    }
  }

  /** No white space at either end. */
  predicate Unpadded(s: string, ws: char -> bool) {
    |s| > 0 ==> !ws(s[0]) && !ws(s[|s| - 1])
  }

  /** A string has no white space at either end exactly when trimming leaves it unchanged. */
  lemma UnpaddedIffTrimFixed(s: string, ws: char -> bool)
    ensures Unpadded(s, ws) <==> Trim(s, ws) == s
  {
    if |s| > 0 && Unpadded(s, ws) {
      assert TrimStart(s, ws) == s;
      assert TrimEnd(s, ws) == s;
    }
    TrimEnds(s, ws);
  }

  /** `Trim` cuts only white space: what it leaves is framed by white space in `s`. */
  lemma TrimFramed(s: string, ws: char -> bool)
    ensures FramedBy(s, Trim(s, ws), |s| - |TrimStart(s, ws)|, ws)
  {
    var t := TrimStart(s, ws);
    TrimStartDrops(s, ws);
    TrimEndDrops(t, ws);
    FramedByParts(s, t, TrimEnd(t, ws), ws);
  }

  /** A block framed by white space that does not start with white space is empty exactly when `s` is all white space. */
  lemma EmptyIffAllWhitespace(s: string, r: string, i: int, ws: char -> bool)
    requires FramedBy(s, r, i, ws)
    requires |r| > 0 ==> !ws(r[0])
    ensures r == [] <==> forall k :: 0 <= k < |s| ==> ws(s[k])
  {
    if |r| > 0 {
      assert s[i..i + |r|][0] == s[i];
    }
  }

  /** A prefix `r` of a suffix `t` of `s`, with only white space cut at either end, is framed by white space. */
  lemma FramedByParts(s: string, t: string, r: string, ws: char -> bool)
    requires |t| <= |s| && t == s[|s| - |t|..] && |r| <= |t| && r == t[..|r|]
    requires forall k :: 0 <= k < |s| - |t| ==> ws(s[k])
    requires forall k :: |r| <= k < |t| ==> ws(t[k])
    ensures FramedBy(s, r, |s| - |t|, ws)
  {
    var i := |s| - |t|;
    PrefixOfTail(s, i, |r|);
    TailWhitespace(s, i, r, ws);
  }

  /** White space after the prefix `r` of `s[i..]` is white space after the block `r` at `i` in `s`. */
  lemma TailWhitespace(s: string, i: nat, r: string, ws: char -> bool)
    requires i <= |s| && |r| <= |s| - i && r == s[i..][..|r|]
    requires forall k :: |r| <= k < |s[i..]| ==> ws(s[i..][k])
    ensures forall k :: i + |r| <= k < |s| ==> ws(s[k])
  {
    forall k | i + |r| <= k < |s| ensures ws(s[k]) {
      assert s[i..][k - i] == s[k];
    }
  }

  /** The first `n` characters from `i` on are the block of `n` characters at `i`. */
  lemma PrefixOfTail(s: string, i: nat, n: nat)
    requires i + n <= |s|
    ensures s[i..][..n] == s[i..i + n]
  {
    forall k | 0 <= k < n ensures s[i..][..n][k] == s[i..i + n][k] {
      assert s[i..][k] == s[i + k];
    }
  }

  /** Trimming cannot make a string contain what it did not contain. */
  lemma TrimKeepsAbsence(s: string, ws: char -> bool, needle: string)
    requires forall j :: !OccursAt(s, needle, j)
    ensures forall j :: !OccursAt(Trim(s, ws), needle, j)
  {
    var r := Trim(s, ws);
    TrimSpec(s, ws);
    var i :| FramedBy(s, r, i, ws);
    forall j | OccursAt(r, needle, j) ensures false {
      OccursInInfix(s, i, r, needle, j);
    }
  }

  /** An occurrence inside a block of `s` is an occurrence in `s`. */
  lemma OccursInInfix(s: string, i: int, r: string, needle: string, j: int)
    requires OccursAt(s, r, i) && OccursAt(r, needle, j)
    ensures OccursAt(s, needle, i + j)
  {
    forall t | 0 <= t < |needle| ensures s[i + j + t] == needle[t] {
      assert s[i..i + |r|][j + t] == s[i + j + t];
      assert r[j..j + |needle|][t] == r[j + t];
    }
  }

  /** Trimming a trimmed string changes nothing. */
  lemma TrimIdempotent(s: string, ws: char -> bool)
    ensures Trim(Trim(s, ws), ws) == Trim(s, ws)
  {
    TrimEnds(s, ws);
    UnpaddedIffTrimFixed(Trim(s, ws), ws);
  }

  /**
   * ECMAScript white space and line terminators, the characters
   * `String.prototype.trim` removes.
   */
  predicate IsJsWhitespace(c: char) {
    var n := c as int;
    n == 0x09 || n == 0x0B || n == 0x0C || n == 0x20 || n == 0xA0 || n == 0xFEFF
    || n == 0x0A || n == 0x0D || n == 0x2028 || n == 0x2029
    || n == 0x1680 || (0x2000 <= n <= 0x200A) || n == 0x202F || n == 0x205F || n == 0x3000
  }

  /** The characters for which Python's `str.isspace()` holds, the ones `str.strip()` removes. */
  predicate IsPyWhitespace(c: char) {
    var n := c as int;
    (0x09 <= n <= 0x0D) || (0x1C <= n <= 0x20) || n == 0x85 || n == 0xA0
    || n == 0x1680 || (0x2000 <= n <= 0x200A) || n == 0x2028 || n == 0x2029
    || n == 0x202F || n == 0x205F || n == 0x3000
  }

  /** JavaScript `s.trim()`. */
  function JsTrim(s: string): string {
    Trim(s, IsJsWhitespace)
  }

  /** Python `s.strip()` with no argument. */
  function PyStrip(s: string): string {
    Trim(s, IsPyWhitespace)
  }
}
