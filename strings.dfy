/** String operations the tracker relies on: SQLite's BINARY text order and
    LIKE, and JavaScript's replace, trim, split, join and number rendering. */
module Strings {
  import opened Wrappers

  // ---------------------------------------------------------------------------
  // Text order (SQLite BINARY collation)
  // ---------------------------------------------------------------------------

  /** Lexicographic order by code point. UTF-8 preserves code-point order, so this
      is the byte-wise memcmp order SQLite uses to compare TEXT values. */
  predicate TextLe(a: string, b: string)
  {
    if a == [] then true
    else if b == [] then false
    else if a[0] != b[0] then a[0] < b[0]
    else TextLe(a[1..], b[1..])
  }

  lemma {:induction false} TextLeTotal(a: string, b: string)
    ensures TextLe(a, b) || TextLe(b, a)
  {
    if a != [] && b != [] && a[0] == b[0] {
      TextLeTotal(a[1..], b[1..]);
    }
  }

  lemma {:induction false} TextLeTransitive(a: string, b: string, c: string)
    requires TextLe(a, b) && TextLe(b, c)
    ensures TextLe(a, c)
  {
    if a != [] && b != [] && c != [] && a[0] == b[0] && b[0] == c[0] {
      TextLeTransitive(a[1..], b[1..], c[1..]);
    }
  }

  lemma {:induction false} TextLeAntisymmetric(a: string, b: string)
    requires TextLe(a, b) && TextLe(b, a)
    ensures a == b
  {
    if a != [] && b != [] {
      TextLeAntisymmetric(a[1..], b[1..]);
      assert a == [a[0]] + a[1..] && b == [b[0]] + b[1..];
    }
  }

  /** The first position where a and b differ decides their order. */
  lemma {:induction false} TextLeFirstDifference(a: string, b: string, k: nat)
    requires k < |a| && k < |b|
    requires a[..k] == b[..k] && a[k] < b[k]
    ensures TextLe(a, b) && !TextLe(b, a)
  {
    if k > 0 {
      assert a[0] == a[..k][0] == b[..k][0] == b[0];
      assert a[1..][..k - 1] == a[1..k] == a[..k][1..];
      assert b[1..][..k - 1] == b[1..k] == b[..k][1..];
      TextLeFirstDifference(a[1..], b[1..], k - 1);
    }
  }

  // ---------------------------------------------------------------------------
  // LIKE '%s%' (ASCII case-insensitive substring)
  // ---------------------------------------------------------------------------

  function LowerChar(c: char): (d: char)
    ensures 'A' <= c <= 'Z' ==> d as int == c as int + 32
    ensures !('A' <= c <= 'Z') ==> d == c
  {
    if 'A' <= c <= 'Z' then (c as int + 32) as char else c
  }

  /** SQLite folds only the 26 ASCII letters for LIKE. */
  function Lower(s: string): (r: string)
    ensures |r| == |s|
    ensures forall k :: 0 <= k < |s| ==> r[k] == LowerChar(s[k])
  {
    if s == [] then [] else [LowerChar(s[0])] + Lower(s[1..])
  }

  /** sub occurs in s at some position. */
  predicate Contains(s: string, sub: string)
    decreases |s|
  {
    sub <= s || (s != [] && Contains(s[1..], sub))
  }

  predicate OccursAt(s: string, sub: string, i: int)
  {
    0 <= i && i + |sub| <= |s| && s[i..i + |sub|] == sub
  }

  lemma {:induction false} ContainsIffOccurs(s: string, sub: string)
    ensures Contains(s, sub) <==> exists i :: OccursAt(s, sub, i)
    decreases |s|
  {
    if sub <= s {
      assert OccursAt(s, sub, 0);
    } else if s == [] {
    } else {
      ContainsIffOccurs(s[1..], sub);
      if Contains(s[1..], sub) {
        var i :| OccursAt(s[1..], sub, i);
        assert s[i + 1..i + 1 + |sub|] == s[1..][i..i + |sub|];
        assert OccursAt(s, sub, i + 1);
      }
      if i :| OccursAt(s, sub, i) {
        assert i != 0;
        assert s[1..][i - 1..i - 1 + |sub|] == s[i..i + |sub|];
        assert OccursAt(s[1..], sub, i - 1);
      }
    }
  }

  /** `column LIKE '%' || pattern || '%'`: NULL never matches, letters compare
      without case. */
  predicate Like(value: Option<string>, pattern: string)
  {
    value.Some? && Contains(Lower(value.value), Lower(pattern))
  }

  /** LIKE holds exactly when the value is not NULL and the lowered pattern
      occurs at some position of the lowered value. */
  lemma LikeIffOccurs(value: string, pattern: string)
    ensures Like(Some(value), pattern) <==> exists i :: OccursAt(Lower(value), Lower(pattern), i)
    ensures !Like(None, pattern)
  {
    var v, q := Lower(value), Lower(pattern);
    ContainsIffOccurs(v, q);
    assert Like(Some(value), pattern) == Contains(v, q);
    assert Contains(v, q) <==> exists i :: OccursAt(v, q, i);
  }

  /** LIKE ignores the ASCII case of the pattern. */
  lemma LikeIgnoresPatternCase(value: Option<string>, pattern: string)
    ensures Like(value, Lower(pattern)) == Like(value, pattern)
  {
    assert Lower(Lower(pattern)) == Lower(pattern);
  }

  lemma LikeEmptyPattern(value: string)
    ensures Like(Some(value), "")
  {
  }

  // ---------------------------------------------------------------------------
  // String.prototype.replace(char, char) and slice
  // ---------------------------------------------------------------------------

  /** Index of the first c in s, or |s| when there is none. */
  function FirstIndex(s: string, c: char): (k: nat)
    ensures k <= |s|
    ensures k < |s| ==> s[k] == c
    ensures forall j :: 0 <= j < k ==> s[j] != c
  {
    if s == [] then 0 else if s[0] == c then 0 else 1 + FirstIndex(s[1..], c)
  }

  /** `s.replace(from, to)` with a one-character string pattern: only the
      first occurrence is replaced. */
  function ReplaceFirst(s: string, from: char, to: char): (r: string)
    ensures |r| == |s|
    ensures forall k :: 0 <= k < |s| ==> r[k] == if k == FirstIndex(s, from) then to else s[k]
  {
    var k := FirstIndex(s, from);
    if k == |s| then s else s[..k] + [to] + s[k + 1..]
  }

  /** A second from-character survives the replacement. */
  lemma ReplaceFirstKeepsLater(s: string, from: char, to: char, j: nat)
    requires j < |s| && s[j] == from && FirstIndex(s, from) < j
    ensures ReplaceFirst(s, from, to)[j] == from
  {
  }

  /** `s.slice(0, n)`. */
  function Prefix(s: string, n: nat): (r: string)
    ensures |r| == if |s| < n then |s| else n
    ensures r <= s
  {
    if |s| <= n then s else s[..n]
  }

  // ---------------------------------------------------------------------------
  // String.prototype.trim
  // ---------------------------------------------------------------------------

  /** ECMAScript WhiteSpace and LineTerminator code points. */
  predicate IsSpace(c: char)
  {
    var n := c as int;
    n == 0x09 || n == 0x0A || n == 0x0B || n == 0x0C || n == 0x0D || n == 0x20
    || n == 0xA0 || n == 0x1680 || (0x2000 <= n <= 0x200A) || n == 0x2028 || n == 0x2029
    || n == 0x202F || n == 0x205F || n == 0x3000 || n == 0xFEFF
  }

  predicate AllSpace(s: string)
  {
    forall k :: 0 <= k < |s| ==> IsSpace(s[k])
  }

  lemma AllSpaceConcat(a: string, b: string)
    requires AllSpace(a) && AllSpace(b)
    ensures AllSpace(a + b)
  {
    forall k | 0 <= k < |a + b| ensures IsSpace((a + b)[k]) {
      if k < |a| { assert (a + b)[k] == a[k]; } else { assert (a + b)[k] == b[k - |a|]; }
    }
  }

  function LeadingSpaces(s: string): (n: nat)
    ensures n <= |s|
    ensures AllSpace(s[..n])
    ensures n < |s| ==> !IsSpace(s[n])
  {
    if s == [] || !IsSpace(s[0]) then 0
    else
      var m := LeadingSpaces(s[1..]);
      assert s[..m + 1] == [s[0]] + s[1..][..m];
      1 + m
  }

  function TrailingSpaces(s: string): (n: nat)
    ensures n <= |s|
    ensures AllSpace(s[|s| - n..])
    ensures n < |s| ==> !IsSpace(s[|s| - n - 1])
  {
    if s == [] || !IsSpace(s[|s| - 1]) then 0
    else
      var init := s[..|s| - 1];
      var m := TrailingSpaces(init);
      assert s[|s| - (m + 1)..] == init[|init| - m..] + [s[|s| - 1]];
      1 + m
  }

  /** `s.trim()`: drops white space at both ends and keeps the middle untouched. */
  function Trim(s: string): (r: string)
    ensures r == [] <==> AllSpace(s)
    ensures r != [] ==> !IsSpace(r[0]) && !IsSpace(r[|r| - 1])
    ensures LeadingSpaces(s) + |r| <= |s| && r == s[LeadingSpaces(s)..LeadingSpaces(s) + |r|]
    ensures AllSpace(s[LeadingSpaces(s) + |r|..])
  {
    var lead := LeadingSpaces(s);
    var rest := s[lead..];
    var trail := TrailingSpaces(rest);
    TrimFacts(s, lead, trail);
    rest[..|rest| - trail]
  }

  lemma TrimFacts(s: string, lead: nat, trail: nat)
    requires lead <= |s| && AllSpace(s[..lead]) && (lead < |s| ==> !IsSpace(s[lead]))
    requires trail <= |s| - lead
    requires AllSpace(s[lead..][|s| - lead - trail..])
    requires trail < |s| - lead ==> !IsSpace(s[lead..][|s| - lead - trail - 1])
    ensures var rest := s[lead..]; var r := rest[..|rest| - trail];
      && (r == [] <==> AllSpace(s))
      && (r != [] ==> !IsSpace(r[0]) && !IsSpace(r[|r| - 1]))
      && r == s[lead..lead + |r|] && AllSpace(s[..lead]) && AllSpace(s[lead + |r|..])
  {
    var rest := s[lead..];
    var n := |rest| - trail;
    SliceOfSuffix(s, lead, n);
    if n == 0 {
      AllSpaceConcat(s[..lead], rest);
    } else {
      assert rest[..n][n - 1] == rest[n - 1];
    }
  }

  lemma SliceOfSuffix(s: string, lead: nat, n: nat)
    requires lead + n <= |s|
    ensures s[lead..][..n] == s[lead..lead + n]
    ensures s[lead..][n..] == s[lead + n..]
    ensures s == s[..lead] + s[lead..]
    ensures n > 0 ==> s[lead..][..n][0] == s[lead]
  {
  }

  // ---------------------------------------------------------------------------
  // String.prototype.split(separator) and Array.prototype.join(separator)
  // ---------------------------------------------------------------------------

  /** First position at or after k where sep occurs in s. */
  function IndexFrom(s: string, sep: string, k: nat): (r: Option<nat>)
    requires |sep| > 0
    ensures r.Some? ==> k <= r.value && OccursAt(s, sep, r.value)
    ensures r.Some? ==> forall j :: k <= j < r.value ==> !OccursAt(s, sep, j)
    ensures r.None? ==> forall j :: k <= j ==> !OccursAt(s, sep, j)
    decreases |s| - k
  {
    if k + |sep| > |s| then None
    else if OccursAt(s, sep, k) then Some(k)
    else IndexFrom(s, sep, k + 1)
  }

  /** `s.indexOf(sep)`: the first occurrence, None for -1. */
  function IndexOf(s: string, sep: string): (r: Option<nat>)
    requires |sep| > 0
    ensures r.Some? ==> OccursAt(s, sep, r.value)
    ensures r.Some? ==> forall j :: 0 <= j < r.value ==> !OccursAt(s, sep, j)
    ensures r.None? <==> forall j :: !OccursAt(s, sep, j)
  {
    IndexFrom(s, sep, 0)
  }

  /** `s.split(sep)` for a non-empty separator (no limit): the pieces
      between the occurrences, none of which holds the separator. */
  function Split(s: string, sep: string): (parts: seq<string>)
    requires |sep| > 0
    ensures |parts| >= 1
    ensures forall p, j :: p in parts ==> !OccursAt(p, sep, j)
    decreases |s|
  {
    match IndexOf(s, sep)
    case None => [s]
    case Some(i) =>
      var head := s[..i];
      forall j | OccursAt(head, sep, j) ensures OccursAt(s, sep, j) && j < i {
        assert head[j..j + |sep|] == s[j..j + |sep|];
      }
      [head] + Split(s[i + |sep|..], sep)
  }

  /** `parts.join(sep)`; the empty array joins to "". */
  function Join(parts: seq<string>, sep: string): string
  {
    if parts == [] then ""
    else if |parts| == 1 then parts[0]
    else parts[0] + sep + Join(parts[1..], sep)
  }

  /** Splitting and joining back on the same separator gives the original text. */
  lemma {:induction false} JoinSplit(s: string, sep: string)
    requires |sep| > 0
    ensures Join(Split(s, sep), sep) == s
    decreases |s|
  {
    var idx := IndexOf(s, sep);
    if idx.Some? {
      var i := idx.value;
      var rest := s[i + |sep|..];
      var tail := Split(rest, sep);
      assert Split(s, sep) == [s[..i]] + tail;
      JoinSplit(rest, sep);
      assert Join([s[..i]] + tail, sep) == s[..i] + sep + Join(tail, sep) by {
        assert ([s[..i]] + tail)[1..] == tail;
      }
      assert OccursAt(s, sep, i);
      assert s == s[..i] + s[i..i + |sep|] + rest;
    }
  }

  /** Splitting "a<c>b" on the one-character separator c gives back a and b
      when neither contains c. */
  lemma {:induction false} SplitAtOnlySeparator(a: string, b: string, c: char)
    requires c !in a && c !in b
    ensures Split(a + [c] + b, [c]) == [a, b]
  {
    var s := a + [c] + b;
    forall j | 0 <= j < |a| ensures !OccursAt(s, [c], j) {
      assert s[j..j + 1][0] == s[j] == a[j];
      assert a[j] in a;
    }
    assert OccursAt(s, [c], |a|);
    assert IndexOf(s, [c]) == Some(|a|);
    assert s[..|a|] == a;
    assert s[|a| + 1..] == b;
    SplitWithoutSeparator(b, c);
  }

  /** A text in which [c] occurs nowhere holds no c. */
  lemma NoOccurrenceNoChar(p: string, c: char)
    requires forall j :: !OccursAt(p, [c], j)
    ensures c !in p
  {
    forall j | 0 <= j < |p| ensures p[j] != c {
      assert p[j..j + 1] == [p[j]];
      assert !OccursAt(p, [c], j);
    }
  }

  /** `s.split(c)[0]`: the text before the first c, or all of it. */
  lemma SplitFirstPiece(s: string, c: char)
    ensures Split(s, [c])[0] == s[..FirstIndex(s, c)]
  {
    var k := FirstIndex(s, c);
    forall j | 0 <= j < k ensures !OccursAt(s, [c], j) {
      assert s[j..j + 1][0] == s[j];
    }
    if k < |s| {
      assert s[k..k + 1] == [c];
      assert OccursAt(s, [c], k);
      var m := IndexOf(s, [c]).value;
      assert s[m..m + 1][0] == s[m];
      assert m == k;
    } else {
      forall j | 0 <= j ensures !OccursAt(s, [c], j) {
        if j + 1 <= |s| {
          assert s[j..j + 1][0] == s[j];
        }
      }
      assert s[..k] == s;
    }
  }

  /** A text without the separator splits into itself alone. */
  lemma SplitWithoutSeparator(b: string, c: char)
    requires c !in b
    ensures Split(b, [c]) == [b]
  {
    forall j | 0 <= j ensures !OccursAt(b, [c], j) {
      if j + 1 <= |b| {
        assert b[j..j + 1][0] == b[j];
        assert b[j] in b;
      }
    }
  }

  // ---------------------------------------------------------------------------
  // Number-to-string conversion of integers
  // ---------------------------------------------------------------------------

  predicate IsDigit(c: char)
  {
    '0' <= c <= '9'
  }

  function DigitChar(d: nat): (c: char)
    requires d < 10
    ensures IsDigit(c)
  {
    ('0' as int + d) as char
  }

  function DigitValue(c: char): nat
    requires IsDigit(c)
  {
    c as int - '0' as int
  }

  /** Decimal digits of n without leading zeros (`String(n)` for n >= 0). */
  function NatToString(n: nat): (s: string)
    ensures |s| >= 1
    ensures forall k :: 0 <= k < |s| ==> IsDigit(s[k])
    ensures |s| > 1 ==> s[0] != '0'
  {
    if n < 10 then [DigitChar(n)]
    else
      var p := NatToString(n / 10);
      p + [DigitChar(n % 10)]
  }

  /** `String(n)` for any integer: a minus sign, then the digits. */
  function IntToString(n: int): (s: string)
    ensures |s| >= 1
    ensures n < 0 <==> s[0] == '-'
  {
    if n < 0 then "-" + NatToString(-n) else NatToString(n)
  }

  /** Reads a run of decimal digits back (`parseInt` on digits only). */
  function ParseDigits(s: string): nat
    requires forall k :: 0 <= k < |s| ==> IsDigit(s[k])
  {
    if s == [] then 0 else 10 * ParseDigits(s[..|s| - 1]) + DigitValue(s[|s| - 1])
  }

  function ParseInt(s: string): (n: int)
    requires |s| >= 1
    requires forall k :: 0 < k < |s| ==> IsDigit(s[k])
    requires s[0] == '-' || IsDigit(s[0])
  {
    var magnitude: int := if s[0] == '-' then ParseDigits(s[1..]) else ParseDigits(s);
    if s[0] == '-' then -magnitude else magnitude
  }

  lemma {:induction false} ParseNatToString(n: nat)
    ensures ParseDigits(NatToString(n)) == n
  {
    if n >= 10 {
      ParseNatToString(n / 10);
      var s := NatToString(n);
      assert s[..|s| - 1] == NatToString(n / 10);
    }
  }

  /** The rendering of an integer is read back as the same integer. */
  lemma ParseIntToString(n: int)
    ensures var s := IntToString(n);
      (forall k :: 0 < k < |s| ==> IsDigit(s[k])) && (s[0] == '-' || IsDigit(s[0])) && ParseInt(s) == n
  {
    var s := IntToString(n);
    if n < 0 {
      var digits := NatToString(-n);
      assert s == "-" + digits;
      assert s[1..] == digits;
      ParseNatToString(-n);
    } else {
      ParseNatToString(n);
    }
  }
}
