/**
 * The Rust `str` and `char` operations the archiver relies on, stated on `seq<char>`.
 * Each one carries the contract that says what the Rust library promises of it.
 */
module Strings {
  import opened Wrappers

  type String = seq<char>

  // ---------------------------------------------------------------------------
  // Whitespace and trimming
  // ---------------------------------------------------------------------------

  /** `char::is_whitespace`: the characters with the Unicode White_Space property. */
  predicate IsWhitespace(c: char) {
    ('\t' <= c <= '\r') || c == ' ' || c == '\U{85}' || c == '\U{A0}' || c == '\U{1680}'
    || ('\U{2000}' <= c <= '\U{200A}') || c == '\U{2028}' || c == '\U{2029}'
    || c == '\U{202F}' || c == '\U{205F}' || c == '\U{3000}'
  }

  /** `str::trim_start`: drops the longest all-whitespace prefix. */
  function TrimStart(s: String): (r: String)
    ensures |r| <= |s| && r == s[|s| - |r|..]
    ensures forall i :: 0 <= i < |s| - |r| ==> IsWhitespace(s[i])
    ensures r != [] ==> !IsWhitespace(r[0])
  {
    if s != [] && IsWhitespace(s[0]) then TrimStart(s[1..]) else s
  }

  /** `str::trim_end`: drops the longest all-whitespace suffix. */
  function TrimEnd(s: String): (r: String)
    ensures |r| <= |s| && r == s[..|r|]
    ensures forall i :: |r| <= i < |s| ==> IsWhitespace(s[i])
    ensures r != [] ==> !IsWhitespace(r[|r| - 1])
  {
    if s != [] && IsWhitespace(s[|s| - 1]) then TrimEnd(s[..|s| - 1]) else s
  }

  /** `str::trim`: whitespace removed at both ends. */
  function Trim(s: String): (r: String)
    ensures r != [] ==> !IsWhitespace(r[0]) && !IsWhitespace(r[|r| - 1])
    ensures (forall i :: 0 <= i < |s| ==> !IsWhitespace(s[i])) ==> r == s
  {
    TrimEnd(TrimStart(s))
  }

  /** Trimming twice changes nothing more than trimming once. */
  lemma TrimIdempotent(s: String)
    ensures Trim(Trim(s)) == Trim(s)
  {
    var t := Trim(s);
    if t != [] {
      assert TrimStart(t) == t;
      assert TrimEnd(t) == t;
    }
  }

  /** A character missing from a string is missing from every slice of it. */
  lemma SliceKeepsAbsent(s: String, i: nat, j: nat, c: char)
    requires c !in s && i <= j <= |s|
    ensures c !in s[i..j]
  {
    assert forall k :: 0 <= k < j - i ==> s[i..j][k] == s[i + k];
  }

  /** `str::trim_start_matches(p)` for a non-empty literal `p`: every leading copy of `p` is removed. */
  function TrimStartMatches(s: String, p: String): (r: String)
    requires p != []
    ensures |r| <= |s| && r == s[|s| - |r|..]
    ensures !(p <= r)
    ensures !(p <= s) ==> r == s
    decreases |s|
  {
    if p <= s then TrimStartMatches(s[|p|..], p) else s
  }

  /** `str::trim_end_matches(c)`: every trailing `c` is removed. */
  function TrimEndMatches(s: String, c: char): (r: String)
    ensures |r| <= |s| && r == s[..|r|]
    ensures r != [] ==> r[|r| - 1] != c
    ensures forall i :: |r| <= i < |s| ==> s[i] == c
  {
    if s != [] && s[|s| - 1] == c then TrimEndMatches(s[..|s| - 1], c) else s
  }

  // ---------------------------------------------------------------------------
  // Searching
  // ---------------------------------------------------------------------------

  /** `p` occurs in `s` starting at index `i`. */
  predicate OccursAt(s: String, p: String, i: nat) {
    i + |p| <= |s| && s[i..i + |p|] == p
  }

  function FindFrom(s: String, p: String, i: nat): (r: Option<nat>)
    requires i <= |s|
    ensures r.Some? ==> i <= r.value && OccursAt(s, p, r.value)
    ensures r.Some? ==> forall j :: i <= j < r.value ==> !OccursAt(s, p, j)
    ensures r.None? ==> forall j :: i <= j ==> !OccursAt(s, p, j)
    decreases |s| - i
  {
    if OccursAt(s, p, i) then Some(i)
    else if i == |s| then None
    else FindFrom(s, p, i + 1)
  }

  /** `str::find`: the index of the first occurrence of `p` in `s`. */
  function Find(s: String, p: String): (r: Option<nat>)
    ensures r.Some? ==> OccursAt(s, p, r.value) && forall j :: 0 <= j < r.value ==> !OccursAt(s, p, j)
    ensures r.None? ==> forall j :: !OccursAt(s, p, j)
  {
    FindFrom(s, p, 0)
  }

  /** `str::split_once(c)`: the text before and after the first `c`. */
  function SplitOnce(s: String, c: char): (r: Option<(String, String)>)
    ensures r.Some? ==> s == r.value.0 + [c] + r.value.1 && c !in r.value.0
    ensures r.None? <==> c !in s
  {
    match Find(s, [c])
    case None =>
      assert forall j :: 0 <= j < |s| ==> s[j] != c by {
        forall j | 0 <= j < |s| ensures s[j] != c { assert !OccursAt(s, [c], j); }
      }
      None
    case Some(i) =>
      assert s[i] == c by { assert OccursAt(s, [c], i); }
      assert c !in s[..i] by {
        forall j | 0 <= j < i ensures s[j] != c { assert !OccursAt(s, [c], j); }
      }
      assert s == s[..i] + [c] + s[i + 1..];
      Some((s[..i], s[i + 1..]))
  }

  // ---------------------------------------------------------------------------
  // Splitting and joining on one character
  // ---------------------------------------------------------------------------

  /** `str::split(c)` collected into a vector: always at least one part, no part holds `c`. */
  function Split(s: String, c: char): (r: seq<String>)
    ensures |r| >= 1
    ensures forall k :: 0 <= k < |r| ==> c !in r[k]
    ensures |r| == 1 ==> r[0] == s
    ensures c !in s ==> r == [s]
  {
    if s == [] then [[]]
    else
      var rest := Split(s[1..], c);
      if s[0] == c then [[]] + rest else [[s[0]] + rest[0]] + rest[1..]
  }

  /** `[String]::join(c)` */
  function Join(parts: seq<String>, c: char): String {
    if |parts| <= 1 then (if parts == [] then [] else parts[0])
    else parts[0] + [c] + Join(parts[1..], c)
  }

  /** Splitting and re-joining gives back the original text. */
  lemma {:induction false} JoinSplit(s: String, c: char)
    ensures Join(Split(s, c), c) == s
  {
    if s != [] {
      JoinSplit(s[1..], c);
      var rest := Split(s[1..], c);
      if s[0] == c {
        assert Split(s, c) == [[]] + rest;
        assert s == [] + [c] + s[1..];
      } else {
        var r := Split(s, c);
        assert r == [[s[0]] + rest[0]] + rest[1..];
        if |rest| == 1 {
          assert Join(r, c) == [s[0]] + rest[0];
        } else {
          assert Join(r, c) == [s[0]] + rest[0] + [c] + Join(rest[1..], c);
          assert Join(rest, c) == rest[0] + [c] + Join(rest[1..], c);
        }
      }
    }
  }

  lemma HeadConcat(x: String, y: String)
    requires x != []
    ensures x + y == [x[0]] + (x[1..] + y)
  {
  }

  lemma SplitCons(x: char, s: String, c: char)
    requires x != c
    ensures Split([x] + s, c) == [[x] + Split(s, c)[0]] + Split(s, c)[1..]
  {
    assert ([x] + s)[0] == x && ([x] + s)[1..] == s;
  }

  lemma {:induction false} SplitPrefix(p: String, t: String, c: char)
    requires c !in p
    ensures Split(p + t, c) == [p + Split(t, c)[0]] + Split(t, c)[1..]
  {
    if p != [] {
      SplitPrefix(p[1..], t, c);
      var parts := Split(t, c);
      var tail := Split(p[1..] + t, c);
      HeadConcat(p, t);
      SplitCons(p[0], p[1..] + t, c);
      assert tail[0] == p[1..] + parts[0] && tail[1..] == parts[1..];
      HeadConcat(p, parts[0]);
    } else {
      var parts := Split(t, c);
      assert p + t == t;
      assert p + parts[0] == parts[0];
      assert parts == [parts[0]] + parts[1..];
    }
  }

  /** Joining parts free of `c` and splitting again gives back the parts. */
  lemma {:induction false} SplitJoin(parts: seq<String>, c: char)
    requires |parts| >= 1
    requires forall k :: 0 <= k < |parts| ==> c !in parts[k]
    ensures Split(Join(parts, c), c) == parts
  {
    if |parts| == 1 {
      SplitPrefix(parts[0], [], c);
      assert parts[0] + [] == parts[0];
    } else {
      SplitJoin(parts[1..], c);
      var t := [c] + Join(parts[1..], c);
      assert Join(parts, c) == parts[0] + t;
      SplitPrefix(parts[0], t, c);
      assert Split(t, c) == [[]] + Split(Join(parts[1..], c), c);
      assert parts[0] + [] == parts[0];
      assert parts == [parts[0]] + parts[1..];
    }
  }

  /** `s.split(c).next_back().unwrap()`: the text after the last `c`, or all of `s`. */
  function LastSegment(s: String, c: char): (r: String)
    ensures c !in r
    ensures |r| <= |s| && r == s[|s| - |r|..]
    ensures |r| < |s| ==> s[|s| - |r| - 1] == c
    ensures c !in s ==> r == s
  {
    LastOfSplit(s, c);
    var parts := Split(s, c);
    parts[|parts| - 1]
  }

  lemma {:induction false} LastOfSplit(s: String, c: char)
    ensures var parts := Split(s, c); var r := parts[|parts| - 1];
      |r| <= |s| && r == s[|s| - |r|..] && (|r| < |s| ==> s[|s| - |r| - 1] == c)
      && (c !in s ==> r == s)
  {
    if s == [] {
      assert Split(s, c) == [[]];
    } else {
      LastOfSplit(s[1..], c);
      var rest := Split(s[1..], c);
      var r := rest[|rest| - 1];
      TailSuffix(s, |r|);
      SplitUnfold(s, c);
      var parts := Split(s, c);
      if s[0] == c {
        assert parts[|parts| - 1] == r;
        assert r == s[|s| - |r|..];
        assert c in s;
        if |r| < |s| - 1 {
          assert s[1..][|s| - 1 - |r| - 1] == c;
        }
        assert |r| < |s| ==> s[|s| - |r| - 1] == c;
      } else if |rest| == 1 {
        assert rest[0] == s[1..];
        HeadConcat(s, []);
        assert s[1..] + [] == s[1..];
        assert parts[|parts| - 1] == s;
        assert s[|s| - |s|..] == s;
      } else {
        assert parts[|parts| - 1] == r;
        assert r == s[|s| - |r|..];
        assert c in s[1..];
        assert |r| < |s| - 1;
        assert s[1..][|s| - 1 - |r| - 1] == c;
        assert s[|s| - |r| - 1] == c;
      }
    }
  }

  lemma SplitUnfold(s: String, c: char)
    requires s != []
    ensures var rest := Split(s[1..], c);
      Split(s, c) == if s[0] == c then [[]] + rest else [[s[0]] + rest[0]] + rest[1..]
  {
  }

  lemma TailSuffix(s: String, n: nat)
    requires s != [] && n <= |s| - 1
    ensures s[1..][|s| - 1 - n..] == s[|s| - n..]
  {
  }

  // ---------------------------------------------------------------------------
  // Replacing one character
  // ---------------------------------------------------------------------------

  /** The number of `c` in `s`. */
  function CountChar(s: String, c: char): nat {
    if s == [] then 0 else (if s[0] == c then 1 else 0) + CountChar(s[1..], c)
  }

  /** `str::replace(pat, rep)` for a one-character pattern `pat == [c]`. */
  function ReplaceChar(s: String, c: char, rep: String): (r: String)
    ensures |r| == |s| + (|rep| - 1) * CountChar(s, c)
    ensures c !in rep ==> c !in r
    ensures c !in s ==> r == s
  {
    if s == [] then []
    else
      var rest := ReplaceChar(s[1..], c, rep);
      var k := CountChar(s[1..], c);
      assert (|rep| - 1) * (k + 1) == (|rep| - 1) * k + (|rep| - 1);
      (if s[0] == c then rep else [s[0]]) + rest
  }

  /** `str::repeat` */
  function Repeat(p: String, n: nat): (r: String)
    ensures |r| == n * |p|
  {
    if n == 0 then [] else p + Repeat(p, n - 1)
  }

  lemma {:induction false} CountCharConcat(a: String, b: String, c: char)
    ensures CountChar(a + b, c) == CountChar(a, c) + CountChar(b, c)
  {
    if a == [] {
      assert a + b == b;
    } else {
      CountCharConcat(a[1..], b, c);
      assert (a + b)[1..] == a[1..] + b;
    }
  }

  /** One more copy may go on either end. */
  lemma {:induction false} RepeatSucc(p: String, n: nat)
    ensures Repeat(p, n) + p == Repeat(p, n + 1)
  {
    if n > 0 {
      RepeatSucc(p, n - 1);
      assert Repeat(p, n) + p == p + (Repeat(p, n - 1) + p);
    }
  }

  lemma {:induction false} CountCharRepeat(p: String, n: nat, c: char)
    ensures CountChar(Repeat(p, n), c) == n * CountChar(p, c)
  {
    if n > 0 {
      CountCharRepeat(p, n - 1, c);
      CountCharConcat(p, Repeat(p, n - 1), c);
      assert Repeat(p, n) == p + Repeat(p, n - 1);
      assert n * CountChar(p, c) == CountChar(p, c) + (n - 1) * CountChar(p, c);
    }
  }

  // ---------------------------------------------------------------------------
  // Decimal numbers
  // ---------------------------------------------------------------------------

  predicate IsDigit(c: char) { '0' <= c <= '9' }

  predicate AllDigits(s: String) { forall i :: 0 <= i < |s| ==> IsDigit(s[i]) }

  function DigitChar(d: nat): (c: char)
    requires d < 10
    ensures IsDigit(c) && (c as int) - ('0' as int) == d
  {
    (('0' as int) + d) as char
  }

  /** `u32`/`u64` `Display`: decimal digits, no leading zero. */
  function NatToString(n: nat): (r: String)
    ensures |r| >= 1 && AllDigits(r)
    ensures |r| > 1 ==> r[0] != '0'
    ensures n < 10 <==> |r| == 1
  {
    if n < 10 then [DigitChar(n)] else NatToString(n / 10) + [DigitChar(n % 10)]
  }

  /** The value of a string of decimal digits. */
  function DigitsValue(s: String): nat
    requires AllDigits(s)
  {
    if s == [] then 0 else 10 * DigitsValue(s[..|s| - 1]) + ((s[|s| - 1] as int) - ('0' as int))
  }

  /** Reading back a formatted number gives the number. */
  lemma {:induction false} DigitsValueOfNatToString(n: nat)
    ensures DigitsValue(NatToString(n)) == n
  {
    if n >= 10 {
      DigitsValueOfNatToString(n / 10);
      var s := NatToString(n);
      assert s[..|s| - 1] == NatToString(n / 10);
    }
  }

  /** `i32`/`i64` `Display`. */
  function IntToString(i: int): (r: String)
    ensures r != [] && (r[0] == '-' <==> i < 0)
  {
    if i < 0 then "-" + NatToString(-i) else NatToString(i)
  }

  const I32_MIN: int := -0x8000_0000
  const I32_MAX: int := 0x7FFF_FFFF

  /** `str::parse::<i32>()`: an optional sign, then one or more digits, within range. */
  function ParseI32(s: String): (r: Option<int>)
    ensures r.Some? ==> I32_MIN <= r.value <= I32_MAX
  {
    if s == [] then None
    else
      var negative := s[0] == '-';
      var digits := if s[0] == '+' || s[0] == '-' then s[1..] else s;
      if digits == [] || !AllDigits(digits) then None
      else
        var v: int := if negative then 0 - (DigitsValue(digits) as int) else DigitsValue(digits);
        if I32_MIN <= v <= I32_MAX then Some(v) else None
  }

  /** Formatting an `i32` and parsing it back is the identity. */
  lemma ParseI32OfIntToString(i: int)
    requires I32_MIN <= i <= I32_MAX
    ensures ParseI32(IntToString(i)) == Some(i)
  {
    var s := IntToString(i);
    if i < 0 {
      var n := NatToString(-i);
      DigitsValueOfNatToString(-i);
      assert s == "-" + n;
      assert s[0] == '-' && s[1..] == n;
    } else {
      var n := NatToString(i);
      DigitsValueOfNatToString(i);
      assert s == n && IsDigit(s[0]);
      assert s[0] != '+' && s[0] != '-';
    }
  }

  // ---------------------------------------------------------------------------
  // Ordering (`Ord for str`: lexicographic on code points, which is byte order in UTF-8)
  // ---------------------------------------------------------------------------

  predicate StrLt(a: String, b: String) {
    if a == [] then b != []
    else if b == [] then false
    else if a[0] != b[0] then a[0] < b[0]
    else StrLt(a[1..], b[1..])
  }

  predicate StrLe(a: String, b: String) { a == b || StrLt(a, b) }

  lemma {:induction false} StrLtIrreflexive(a: String)
    ensures !StrLt(a, a)
  {
    if a != [] { StrLtIrreflexive(a[1..]); }
  }

  lemma {:induction false} StrLtTransitive(a: String, b: String, c: String)
    requires StrLt(a, b) && StrLt(b, c)
    ensures StrLt(a, c)
  {
    if a != [] && b != [] && c != [] && a[0] == b[0] && b[0] == c[0] {
      StrLtTransitive(a[1..], b[1..], c[1..]);
    }
  }

  lemma {:induction false} StrLtTotal(a: String, b: String)
    ensures a == b || StrLt(a, b) || StrLt(b, a)
  {
    if a != [] && b != [] && a[0] == b[0] {
      StrLtTotal(a[1..], b[1..]);
      if a[1..] == b[1..] { assert a == [a[0]] + a[1..] && b == [b[0]] + b[1..]; }
    }
  }

  lemma StrLeTransitive(a: String, b: String, c: String)
    requires StrLe(a, b) && StrLe(b, c)
    ensures StrLe(a, c)
  {
    if StrLt(a, b) && StrLt(b, c) { StrLtTransitive(a, b, c); }
  }

  lemma StrLeTotal(a: String, b: String)
    ensures StrLe(a, b) || StrLe(b, a)
  {
    StrLtTotal(a, b);
  }
}
