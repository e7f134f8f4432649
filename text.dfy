/**
 * The Python `str` operations the converter relies on: `isspace`, `strip`,
 * `startswith`/`endswith`, `split(sep)` and `count`, as pure functions over
 * `seq<char>`.
 */
module Text {

  /**
   * `c.isspace()`: the code points CPython treats as whitespace, as closed
   * ranges in increasing order.
   */
  predicate IsSpace(c: char) {
    InRanges(c as int, SpaceRanges)
  }

  const SpaceRanges: seq<(int, int)> := [
    (0x09, 0x0D), (0x1C, 0x20), (0x85, 0x85), (0xA0, 0xA0), (0x1680, 0x1680),
    (0x2000, 0x200A), (0x2028, 0x2029), (0x202F, 0x202F), (0x205F, 0x205F), (0x3000, 0x3000)
  ]

  predicate InRanges(n: int, ranges: seq<(int, int)>) {
    ranges != [] && (ranges[0].0 <= n <= ranges[0].1 || InRanges(n, ranges[1..]))
  }

  /** No code point below the first lower bound of a list of ranges lies in them. */
  lemma {:induction false} BelowRanges(n: int, ranges: seq<(int, int)>)
    requires forall k :: 0 <= k < |ranges| ==> n < ranges[k].0
    ensures !InRanges(n, ranges)
  {
    if ranges != [] {
      BelowRanges(n, ranges[1..]);
    }
  }

  /** The printable ASCII characters (`'!'` to `'~'`) are not whitespace. */
  lemma PrintableNotSpace(c: char)
    requires '!' <= c <= '~'
    ensures !IsSpace(c)
  {
    var n := c as int;
    var rest := SpaceRanges[1..];
    var tail := rest[1..];
    assert tail == [(0x85, 0x85), (0xA0, 0xA0), (0x1680, 0x1680), (0x2000, 0x200A),
                    (0x2028, 0x2029), (0x202F, 0x202F), (0x205F, 0x205F), (0x3000, 0x3000)];
    BelowRanges(n, tail);
    assert !InRanges(n, rest);
  }

  /** An ASCII decimal digit. */
  predicate IsDigit(c: char) {
    '0' <= c <= '9'
  }

  predicate StartsWith(s: string, prefix: string) {
    |prefix| <= |s| && s[..|prefix|] == prefix
  }

  predicate EndsWith(s: string, suffix: string) {
    |suffix| <= |s| && s[|s| - |suffix|..] == suffix
  }

  /** The number of whitespace characters `s` starts with. */
  function LeadingSpace(s: string): (n: nat)
    ensures n <= |s|
    ensures forall k :: 0 <= k < n ==> IsSpace(s[k])
    ensures n < |s| ==> !IsSpace(s[n])
  {
    if s != [] && IsSpace(s[0]) then 1 + LeadingSpace(s[1..]) else 0
  }

  /** The number of whitespace characters `s` ends with. */
  function TrailingSpace(s: string): (n: nat)
    ensures n <= |s|
    ensures forall k :: |s| - n <= k < |s| ==> IsSpace(s[k])
    ensures n < |s| ==> !IsSpace(s[|s| - n - 1])
  {
    if s != [] && IsSpace(s[|s| - 1]) then 1 + TrailingSpace(s[..|s| - 1]) else 0
  }

  /**
   * `s.strip()`: `s` without its leading and trailing whitespace; what is left
   * is a slice of `s` cut only at whitespace, and neither starts nor ends with
   * whitespace.
   */
  function Strip(s: string): (r: string)
    ensures |r| <= |s|
    ensures exists i, j ::
              0 <= i <= j <= |s| && r == s[i..j] &&
              (forall k :: 0 <= k < i ==> IsSpace(s[k])) &&
              (forall k :: j <= k < |s| ==> IsSpace(s[k]))
    ensures r != [] ==> !IsSpace(r[0]) && !IsSpace(r[|r| - 1])
    ensures r == [] <==> forall k :: 0 <= k < |s| ==> IsSpace(s[k])
  {
    var lead := LeadingSpace(s);
    if lead == |s| then
      assert s[|s|..|s|] == "";
      ""
    else
      var trail := TrailingSpace(s);
      assert lead < |s| - trail by {
        assert !IsSpace(s[lead]);
      }
      s[lead..|s| - trail]
  }

  /** Stripping text whose two ends are not whitespace changes nothing. */
  lemma StripClean(s: string)
    requires s != [] ==> !IsSpace(s[0]) && !IsSpace(s[|s| - 1])
    ensures Strip(s) == s
  {
  }

  /** Stripping twice is stripping once. */
  lemma StripIdempotent(s: string)
    ensures Strip(Strip(s)) == Strip(s)
  {
    StripClean(Strip(s));
  }

  /** The number of occurrences of `c` in `s` (`s.count(c)`). */
  function Count(s: string, c: char): nat {
    if s == [] then 0 else (if s[0] == c then 1 else 0) + Count(s[1..], c)
  }

  /** The index of the first character of `s` that lies in `cs`, or `|s|` if none does. */
  function IndexOfAny(s: string, cs: set<char>): (r: nat)
    ensures r <= |s|
    ensures r < |s| ==> s[r] in cs
    ensures forall k :: 0 <= k < r ==> s[k] !in cs
  {
    if s == [] || s[0] in cs then 0 else 1 + IndexOfAny(s[1..], cs)
  }

  /**
   * `s.split(sep)` for a non-empty separator: the pieces between the
   * non-overlapping occurrences of `sep`, found from left to right.
   */
  function Split(s: string, sep: string): (r: seq<string>)
    requires sep != []
    ensures r != []
    decreases |s|
  {
    if |s| < |sep| then [s]
    else if s[..|sep|] == sep then [""] + Split(s[|sep|..], sep)
    else
      var rest := Split(s[1..], sep);
      [[s[0]] + rest[0]] + rest[1..]
  }

  /** `sep.join(parts)`. */
  function Join(parts: seq<string>, sep: string): string {
    if |parts| == 0 then ""
    else if |parts| == 1 then parts[0]
    else parts[0] + sep + Join(parts[1..], sep)
  }

  lemma JoinCons(a: string, t: seq<string>, sep: string)
    requires t != []
    ensures Join([a] + t, sep) == a + sep + Join(t, sep)
  {
    assert ([a] + t)[1..] == t;
  }

  /** Splitting and joining back with the same separator restores the text. */
  lemma {:induction false} SplitJoin(s: string, sep: string)
    requires sep != []
    ensures Join(Split(s, sep), sep) == s
    decreases |s|
  {
    if |s| < |sep| {
      assert Join(Split(s, sep), sep) == s;
    } else if s[..|sep|] == sep {
      var tail := s[|sep|..];
      SplitJoin(tail, sep);
      JoinCons("", Split(tail, sep), sep);
      assert Split(s, sep) == [""] + Split(tail, sep);
      assert s == sep + tail;
      assert Join(Split(s, sep), sep) == s;
    } else {
      var rest := Split(s[1..], sep);
      SplitJoin(s[1..], sep);
      var head := [s[0]] + rest[0];
      assert Split(s, sep) == [head] + rest[1..];
      if |rest| == 1 {
        assert Join(rest, sep) == rest[0];
      } else {
        assert rest == [rest[0]] + rest[1..];
        JoinCons(rest[0], rest[1..], sep);
        JoinCons(head, rest[1..], sep);
      }
      assert Join(Split(s, sep), sep) == [s[0]] + Join(rest, sep);
      assert s == [s[0]] + s[1..];
      assert Join(Split(s, sep), sep) == s;
    }
  }

  /** A text split on a single character has one piece more than it has occurrences of it. */
  lemma {:induction false} SplitCount(s: string, c: char)
    ensures |Split(s, [c])| == Count(s, c) + 1
    decreases |s|
  {
    if s != [] {
      SplitCount(s[1..], c);
      assert s[..1] == [c] <==> s[0] == c;
    }
  }

  /** No piece of a split on a single character contains that character. */
  lemma {:induction false} SplitPiecesFree(s: string, c: char)
    ensures forall t :: 0 <= t < |Split(s, [c])| ==> c !in Split(s, [c])[t]
    decreases |s|
  {
    if s != [] {
      SplitPiecesFree(s[1..], c);
      assert s[..1] == [c] <==> s[0] == c;
      if s[0] != c {
        var rest := Split(s[1..], [c]);
        var r := Split(s, [c]);
        assert r == [[s[0]] + rest[0]] + rest[1..];
        forall t | 0 <= t < |r| ensures c !in r[t] {
          if t > 0 { assert r[t] == rest[t]; }
        }
      }
    }
  }

  /** The text of `s` before the first occurrence of `c` (all of `s` without one). */
  function Before(s: string, c: char): (r: string)
    ensures c !in r && StartsWith(s, r)
    ensures |r| < |s| ==> s[|r|] == c
  {
    s[..IndexOfAny(s, {c})]
  }

  /** The first piece of `s.split(c)` is the text before the first `c`. */
  lemma {:induction false} SplitHead(s: string, c: char)
    ensures Split(s, [c])[0] == Before(s, c)
    decreases |s|
  {
    if s != [] {
      assert s[..1] == [c] <==> s[0] == c;
      if s[0] != c {
        SplitHead(s[1..], c);
        assert IndexOfAny(s, {c}) == 1 + IndexOfAny(s[1..], {c});
        assert [s[0]] + s[1..][..IndexOfAny(s[1..], {c})] == s[..IndexOfAny(s, {c})];
      }
    }
  }

  /**
   * When `c` occurs in `s`, the first piece of `s.split(c)` is the text before
   * its first occurrence and the other pieces are the split of what follows.
   */
  lemma {:induction false} SplitAtFirst(s: string, c: char)
    requires IndexOfAny(s, {c}) < |s|
    ensures var p := IndexOfAny(s, {c});
            Split(s, [c]) == [s[..p]] + Split(s[p + 1..], [c])
    decreases |s|
  {
    var p := IndexOfAny(s, {c});
    if p == 0 {
      assert s[..1] == [c];
    } else {
      assert s[0] != c && s[..1] != [c];
      assert IndexOfAny(s[1..], {c}) == p - 1;
      SplitAtFirst(s[1..], c);
      assert s[1..][p..] == s[p + 1..];
      assert [s[0]] + s[1..][..p - 1] == s[..p];
    }
  }

  /** Without `c` in `s`, `s.split(c)` is `[s]`. */
  lemma {:induction false} SplitAbsent(s: string, c: char)
    requires c !in s
    ensures Split(s, [c]) == [s]
    decreases |s|
  {
    if s != [] {
      assert s[..1] != [c] by { assert s[0] != c; }
      assert c !in s[1..];
      SplitAbsent(s[1..], c);
      assert [s[0]] + s[1..] == s;
    }
  }
}
