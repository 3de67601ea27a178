/** String operations of JavaScript that the components use, restricted to
    ASCII where the JavaScript operation is Unicode-aware: `trim`, the
    regular-expression class `\s`, `toUpperCase`/`toLowerCase`,
    `indexOf`, `split` on a non-empty separator, `join`, `substring(0, n)`
    and the decimal rendering of a number. */
module Text {
  import opened Wrappers

  /** Whitespace as `trim` and `\s` see it, restricted to ASCII:
      space, and tab, line feed, vertical tab, form feed, carriage return
      (the range from tab to carriage return). */
  predicate IsSpace(c: char) {
    c == ' ' || '\t' <= c <= '\r'
  }

  /** The characters a regular-expression `.` does not match. */
  predicate IsLineTerminator(c: char) {
    c == '\n' || c == '\r' || c == '\U{2028}' || c == '\U{2029}'
  }

  predicate IsLowerLetter(c: char) { 'a' <= c <= 'z' }

  predicate IsUpperLetter(c: char) { 'A' <= c <= 'Z' }

  /** `toUpperCase` on one ASCII character; every other character is kept. */
  function Upper(c: char): (u: char)
    ensures !IsLowerLetter(u)
    ensures IsSpace(u) == IsSpace(c)
    ensures IsLowerLetter(c) || u == c
  {
    if IsLowerLetter(c) then (c as int - 32) as char else c
  }

  /** `toLowerCase` on one ASCII character; every other character is kept. */
  function Lower(c: char): (l: char)
    ensures !IsUpperLetter(l)
    ensures IsSpace(l) == IsSpace(c)
    ensures IsUpperLetter(c) || l == c
  {
    if IsUpperLetter(c) then (c as int + 32) as char else c
  }

  /** `s.toUpperCase()`, character by character. */
  function UpperStr(s: string): (r: string)
    ensures |r| == |s|
    ensures forall i :: 0 <= i < |s| ==> r[i] == Upper(s[i])
  {
    if s == [] then [] else [Upper(s[0])] + UpperStr(s[1..])
  }

  /** `s.toLowerCase()`, character by character. */
  function LowerStr(s: string): (r: string)
    ensures |r| == |s|
    ensures forall i :: 0 <= i < |s| ==> r[i] == Lower(s[i])
  {
    if s == [] then [] else [Lower(s[0])] + LowerStr(s[1..])
  }

  lemma UpperIdempotent(c: char)
    ensures Upper(Upper(c)) == Upper(c)
  {
  }

  lemma LowerStrIdempotent(s: string)
    ensures LowerStr(LowerStr(s)) == LowerStr(s)
  {
  }

  /** `s.substring(0, n)`: the first `n` characters, or all of `s` when shorter. */
  function Prefix(s: string, n: nat): (r: string)
    ensures |r| == if |s| < n then |s| else n
    ensures forall i :: 0 <= i < |r| ==> r[i] == s[i]
  {
    if |s| < n then s else s[..n]
  }

  /** Leading whitespace removed. */
  function TrimStart(s: string): (r: string)
    ensures |r| <= |s|
    ensures r == [] || !IsSpace(r[0])
  {
    if |s| > 0 && IsSpace(s[0]) then TrimStart(s[1..]) else s
  }

  /** Only whitespace is removed from the front. */
  lemma {:induction false} TrimStartRemovesSpace(s: string)
    ensures forall i :: 0 <= i < |s| - |TrimStart(s)| ==> IsSpace(s[i])
    decreases |s|
  {
    if |s| > 0 && IsSpace(s[0]) {
      TrimStartRemovesSpace(s[1..]);
      assert forall i :: 1 <= i < |s| ==> s[i] == s[1..][i - 1];
    }
  }

  /** Trailing whitespace removed. */
  function TrimEnd(s: string): (r: string)
    ensures |r| <= |s|
    ensures forall i :: 0 <= i < |r| ==> r[i] == s[i]
    ensures r == [] || !IsSpace(r[|r| - 1])
  {
    if |s| > 0 && IsSpace(s[|s| - 1]) then TrimEnd(s[..|s| - 1]) else s
  }

  /** Only whitespace is removed from the back. */
  lemma {:induction false} TrimEndRemovesSpace(s: string)
    ensures forall i :: |TrimEnd(s)| <= i < |s| ==> IsSpace(s[i])
    decreases |s|
  {
    if |s| > 0 && IsSpace(s[|s| - 1]) {
      TrimEndRemovesSpace(s[..|s| - 1]);
    }
  }

  /** Neither end of the string is whitespace. */
  predicate Trimmed(s: string) {
    s == [] || (!IsSpace(s[0]) && !IsSpace(s[|s| - 1]))
  }

  /** `s.trim()`. */
  function Trim(s: string): (r: string)
    ensures Trimmed(r)
    ensures |r| <= |s|
  {
    TrimEnd(TrimStart(s))
  }

  /** Only trailing whitespace is cut: the rest is a prefix of the string. */
  lemma TrimEndSlice(s: string)
    ensures var r := TrimEnd(s);
      && r == s[..|r|]
      && (forall k :: |r| <= k < |s| ==> IsSpace(s[k]))
  {
    TrimEndRemovesSpace(s);
  }

  /** `s.trim()` is the slice of `s` between its leading and its trailing
      whitespace: only whitespace is cut, and only at the two ends. */
  lemma {:induction false} TrimSlice(s: string)
    ensures var i := |s| - |TrimStart(s)|;
      var j := i + |Trim(s)|;
      && 0 <= i <= j <= |s|
      && Trim(s) == s[i..j]
      && (forall k :: 0 <= k < i || j <= k < |s| ==> IsSpace(s[k]))
    decreases |s|
  {
    if |s| > 0 && IsSpace(s[0]) {
      var u := s[1..];
      TrimSlice(u);
      assert TrimStart(s) == TrimStart(u);
      var i := |s| - |TrimStart(s)|;
      var j := i + |Trim(s)|;
      assert u[i - 1..j - 1] == s[i..j];
      forall k | 0 <= k < i || j <= k < |s| ensures IsSpace(s[k]) {
        if k > 0 {
          assert s[k] == u[k - 1];
        }
      }
    } else {
      assert TrimStart(s) == s;
      TrimEndSlice(s);
    }
  }

  lemma TrimOfTrimmed(s: string)
    requires Trimmed(s)
    ensures Trim(s) == s
  {
  }

  /** What is left after the leading whitespace is a part of the string. */
  lemma {:induction false} TrimStartKeepsOut(s: string, c: char)
    requires c !in s
    ensures c !in TrimStart(s)
    decreases |s|
  {
    if |s| > 0 && IsSpace(s[0]) {
      assert c !in s[1..];
      TrimStartKeepsOut(s[1..], c);
    }
  }

  lemma TrimKeepsOut(s: string, c: char)
    requires c !in s
    ensures c !in Trim(s)
  {
    TrimStartKeepsOut(s, c);
  }

  lemma TrimLeadingSpace(t: string)
    ensures Trim(" " + t) == Trim(t)
  {
    assert (" " + t)[1..] == t;
  }

  // ----- searching -----

  /** `pat` occurs in `s` starting at index `k`. */
  predicate OccursAt(s: string, pat: string, k: int) {
    0 <= k && k + |pat| <= |s| && s[k..k + |pat|] == pat
  }

  /** `s.indexOf(pat, from)`: the first occurrence at or after `from`. */
  function IndexOf(s: string, pat: string, from: nat): (r: Option<nat>)
    ensures r.Some? ==> from <= r.value && OccursAt(s, pat, r.value)
    ensures r.Some? ==> forall j :: from <= j < r.value ==> !OccursAt(s, pat, j)
    ensures r.None? ==> forall j :: from <= j ==> !OccursAt(s, pat, j)
    decreases |s| - from
  {
    if from + |pat| > |s| then None
    else if s[from..from + |pat|] == pat then Some(from)
    else IndexOf(s, pat, from + 1)
  }

  lemma IndexOfIs(s: string, pat: string, from: nat, k: nat)
    requires from <= k && OccursAt(s, pat, k)
    requires forall j :: from <= j < k ==> !OccursAt(s, pat, j)
    ensures IndexOf(s, pat, from) == Some(k)
  {
  }

  /** A pattern cannot occur where its first character does not. */
  lemma NotAtOtherFirstChar(s: string, pat: string, k: nat)
    requires pat != [] && k < |s| && s[k] != pat[0]
    ensures !OccursAt(s, pat, k)
  {
  }

  lemma OccursSingle(s: string, c: char, k: int)
    ensures OccursAt(s, [c], k) <==> 0 <= k < |s| && s[k] == c
  {
    if 0 <= k < |s| {
      assert s[k..k + 1] == [s[k]];
    }
  }

  lemma NoCharNoOccurrence(s: string, c: char, from: nat)
    requires c !in s
    ensures IndexOf(s, [c], from) == None
  {
    var r := IndexOf(s, [c], from);
    if r.Some? {
      OccursSingle(s, c, r.value);
    }
  }

  // ----- split and join -----

  /** `s.split(sep)` for a non-empty separator: the pieces between the
      non-overlapping occurrences of `sep`, scanning from the left. */
  function Split(s: string, sep: string): (parts: seq<string>)
    requires sep != []
    ensures |parts| >= 1
    decreases |s|
  {
    match IndexOf(s, sep, 0)
    case None => [s]
    case Some(k) => [s[..k]] + Split(s[k + |sep|..], sep)
  }

  /** `parts.join(sep)`. */
  function Join(parts: seq<string>, sep: string): string
    decreases |parts|
  {
    if |parts| == 0 then ""
    else if |parts| == 1 then parts[0]
    else parts[0] + sep + Join(parts[1..], sep)
  }

  lemma JoinCons(p: string, ps: seq<string>, sep: string)
    requires |ps| >= 1
    ensures Join([p] + ps, sep) == p + sep + Join(ps, sep)
  {
    assert ([p] + ps)[1..] == ps;
  }

  /** Splitting and joining again with the same separator gives the input back. */
  lemma {:induction false} JoinSplit(s: string, sep: string)
    requires sep != []
    ensures Join(Split(s, sep), sep) == s
    decreases |s|
  {
    match IndexOf(s, sep, 0)
    case None =>
    case Some(k) =>
      var rest := s[k + |sep|..];
      var pieces := Split(rest, sep);
      JoinSplit(rest, sep);
      assert Split(s, sep) == [s[..k]] + pieces;
      JoinCons(s[..k], pieces, sep);
      assert s[k..k + |sep|] == sep;
      assert s == s[..k] + sep + rest;
  }

  /** Joining with a one-character separator that no part contains and
      splitting again gives the parts back. */
  lemma {:induction false} SplitJoin(parts: seq<string>, c: char)
    requires |parts| >= 1
    requires forall i :: 0 <= i < |parts| ==> c !in parts[i]
    ensures Split(Join(parts, [c]), [c]) == parts
    decreases |parts|
  {
    if |parts| == 1 {
      NoCharNoOccurrence(parts[0], c, 0);
    } else {
      var p := parts[0];
      var rest := Join(parts[1..], [c]);
      var s := Join(parts, [c]);
      assert s == p + [c] + rest;
      OccursSingle(s, c, |p|);
      forall j | 0 <= j < |p|
        ensures !OccursAt(s, [c], j)
      {
        OccursSingle(s, c, j);
        assert s[j] == p[j];
      }
      IndexOfIs(s, [c], 0, |p|);
      assert s[..|p|] == p;
      assert s[|p| + 1..] == rest;
      SplitJoin(parts[1..], c);
      assert [p] + parts[1..] == parts;
    }
  }

  /** Number of occurrences of the character `c` in `s`. */
  function Count(s: string, c: char): nat
    decreases |s|
  {
    if s == [] then 0 else (if s[0] == c then 1 else 0) + Count(s[1..], c)
  }

  lemma {:induction false} CountAppend(a: string, b: string, c: char)
    ensures Count(a + b, c) == Count(a, c) + Count(b, c)
    decreases |a|
  {
    if a == [] {
      assert a + b == b;
    } else {
      assert (a + b)[1..] == a[1..] + b;
      CountAppend(a[1..], b, c);
    }
  }

  lemma {:induction false} CountAbsent(s: string, c: char)
    requires c !in s
    ensures Count(s, c) == 0
    decreases |s|
  {
    if s != [] {
      CountAbsent(s[1..], c);
    }
  }

  /** Splitting on a character yields one more piece than the character has occurrences. */
  lemma {:induction false} SplitCount(s: string, c: char)
    ensures |Split(s, [c])| == Count(s, c) + 1
    decreases |s|
  {
    match IndexOf(s, [c], 0)
    case None =>
      if c in s {
        var k :| 0 <= k < |s| && s[k] == c;
        OccursSingle(s, c, k);
      }
      CountAbsent(s, c);
    case Some(k) =>
      OccursSingle(s, c, k);
      var head := s[..k];
      var rest := s[k + 1..];
      if c in head {
        var j :| 0 <= j < |head| && head[j] == c;
        OccursSingle(s, c, j);
      }
      CountAbsent(head, c);
      assert s == head + [c] + rest;
      CountAppend(head + [c], rest, c);
      CountAppend(head, [c], c);
      assert [c][1..] == [];
      SplitCount(rest, c);
  }

  // ----- numbers -----

  function DigitChar(d: nat): (c: char)
    requires d < 10
    ensures '0' <= c <= '9'
  {
    "0123456789"[d]
  }

  /** The decimal rendering of a natural number, as `String(n)` gives it. */
  function NatToString(n: nat): (r: string)
    ensures 1 <= |r|
    ensures forall i :: 0 <= i < |r| ==> '0' <= r[i] <= '9'
    ensures n < 10 <==> |r| == 1
    decreases n
  {
    if n < 10 then [DigitChar(n)] else NatToString(n / 10) + [DigitChar(n % 10)]
  }

  /** The decimal rendering of an integer, with a leading minus when negative. */
  function IntToString(i: int): string {
    if i < 0 then "-" + NatToString(-i) else NatToString(i)
  }
}
