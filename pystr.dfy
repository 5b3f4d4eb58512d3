/**
 * The Python `str` operations the checker relies on, over `string`
 * (a sequence of Unicode scalar values, as a Python `str` is).
 */
module PyStr {
  import opened Wrappers

  /** Appending one element after a concatenation appends it to the second part. */
  lemma AppendOne<T>(a: seq<T>, b: seq<T>, x: T)
    ensures (a + b) + [x] == a + (b + [x])
  {
    assert |(a + b) + [x]| == |a + (b + [x])|;
  }

  /** Concatenation is associative. */
  lemma AppendAssoc<T>(a: seq<T>, b: seq<T>, c: seq<T>)
    ensures (a + b) + c == a + (b + c)
  {
    assert |(a + b) + c| == |a + (b + c)|;
  }

  /** Appending two elements one at a time appends the pair. */
  lemma AppendTwo<T>(a: seq<T>, x: T, y: T)
    ensures (a + [x]) + [y] == a + [x, y]
  {
    assert |(a + [x]) + [y]| == |a + [x, y]|;
  }

  /** `sub` occurs in `s` starting at index `p`. */
  predicate OccursAt(s: string, sub: string, p: nat) {
    p + |sub| <= |s| && s[p..p + |sub|] == sub
  }

  /** `s.startswith(prefix)` */
  predicate StartsWith(s: string, prefix: string) {
    OccursAt(s, prefix, 0)
  }

  /** The first occurrence of `sub` at or after `from`. */
  function FindFrom(s: string, sub: string, from: nat): (r: Option<nat>)
    requires from <= |s|
    ensures r.Some? ==> from <= r.value && OccursAt(s, sub, r.value)
    decreases |s| - from
  {
    if OccursAt(s, sub, from) then Some(from)
    else if from == |s| then None
    else FindFrom(s, sub, from + 1)
  }

  lemma {:induction false} FindFromLeftmost(s: string, sub: string, from: nat)
    requires from <= |s|
    ensures var r := FindFrom(s, sub, from);
      && (r.Some? ==> forall p :: from <= p < r.value ==> !OccursAt(s, sub, p))
      && (r.None? ==> forall p :: from <= p ==> !OccursAt(s, sub, p))
    decreases |s| - from
  {
    if !OccursAt(s, sub, from) && from < |s| {
      FindFromLeftmost(s, sub, from + 1);
    }
  }

  /** `s.find(sub)`, with None for -1. */
  function Find(s: string, sub: string): (r: Option<nat>)
    ensures r.Some? ==> OccursAt(s, sub, r.value)
  {
    FindFrom(s, sub, 0)
  }

  /** `Find` reports the leftmost occurrence, and None only when there is none. */
  lemma FindLeftmost(s: string, sub: string)
    ensures Find(s, sub).Some? ==> forall p :: 0 <= p < Find(s, sub).value ==> !OccursAt(s, sub, p)
    ensures Find(s, sub).None? <==> forall p :: !OccursAt(s, sub, p)
  {
    FindFromLeftmost(s, sub, 0);
  }

  /** `sub in s` */
  predicate Contains(s: string, sub: string) {
    Find(s, sub).Some?
  }

  /** An occurrence at `i` with none before it is what `Find` reports. */
  lemma FindIs(s: string, sub: string, i: nat)
    requires OccursAt(s, sub, i)
    requires forall p :: 0 <= p < i ==> !OccursAt(s, sub, p)
    ensures Find(s, sub) == Some(i)
  {
    FindLeftmost(s, sub);
  }

  /** An occurrence anywhere makes `sub in s` true. */
  lemma OccursContains(s: string, sub: string, i: nat)
    requires OccursAt(s, sub, i)
    ensures Contains(s, sub)
  {
    FindLeftmost(s, sub);
  }

  /** A string contains whatever either of its two halves contains. */
  lemma ContainsConcat(s: string, t: string, sub: string)
    requires Contains(s, sub) || Contains(t, sub)
    ensures Contains(s + t, sub)
  {
    var st := s + t;
    FindLeftmost(st, sub);
    if Contains(s, sub) {
      var i := Find(s, sub).value;
      assert st[i..i + |sub|] == s[i..i + |sub|];
      assert OccursAt(st, sub, i);
    } else {
      var i := Find(t, sub).value;
      assert st[|s| + i..|s| + i + |sub|] == t[i..i + |sub|];
      assert OccursAt(st, sub, |s| + i);
    }
  }

  /**
   * No occurrence of `sep` starts at `p` when the character it would put
   * at offset `k` is not there.
   */
  lemma MismatchAt(s: string, sep: string, p: nat, k: nat)
    requires k < |sep| && p + k < |s| && s[p + k] != sep[k]
    ensures !OccursAt(s, sep, p)
  {
  }

  /**
   * A separator found in neither part is not found in their concatenation
   * when the second part opens with a character the separator lacks.
   */
  lemma NotFoundAcross(a: string, sep: string, w: string)
    requires sep != "" && w != "" && w[0] !in sep
    requires !Contains(a, sep) && !Contains(w, sep)
    ensures !Contains(a + w, sep)
  {
    var s := a + w;
    FindLeftmost(a, sep);
    FindLeftmost(w, sep);
    forall p: nat ensures !OccursAt(s, sep, p) {
      if p + |sep| <= |s| {
        if p + |sep| <= |a| {
          assert s[p..p + |sep|] == a[p..p + |sep|];
          assert !OccursAt(a, sep, p);
        } else if p <= |a| {
          assert s[|a|] == w[0] && sep[|a| - p] in sep;
          MismatchAt(s, sep, p, |a| - p);
        } else {
          assert s[p..p + |sep|] == w[p - |a|..p - |a| + |sep|];
          assert !OccursAt(w, sep, p - |a|);
        }
      }
    }
    FindLeftmost(s, sep);
  }

  /** `s.split(sep)`: the pieces between the leftmost non-overlapping occurrences. */
  function Split(s: string, sep: string): (parts: seq<string>)
    requires sep != ""
    ensures |parts| >= 1
    decreases |s|
  {
    match Find(s, sep)
    case None => [s]
    case Some(i) => [s[..i]] + Split(s[i + |sep|..], sep)
  }

  /** `s.split(sep, maxsplit)`: as `Split`, stopping after `maxsplit` cuts. */
  function SplitMax(s: string, sep: string, maxsplit: nat): (parts: seq<string>)
    requires sep != ""
    ensures 1 <= |parts|
    decreases maxsplit
  {
    if maxsplit == 0 then [s]
    else
      match Find(s, sep)
      case None => [s]
      case Some(i) => [s[..i]] + SplitMax(s[i + |sep|..], sep, maxsplit - 1)
  }

  /** Whatever a tail of `s` contains, `s` contains. */
  lemma ContainsSuffix(s: string, i: nat, sub: string)
    requires i <= |s| && Contains(s[i..], sub)
    ensures Contains(s, sub)
  {
    ContainsConcat(s[..i], s[i..], sub);
    assert s[..i] + s[i..] == s;
  }

  /** The first piece of `split` is where `s` starts. */
  lemma SplitHead(s: string, sep: string)
    requires sep != ""
    ensures |Split(s, sep)[0]| <= |s| && s[..|Split(s, sep)[0]|] == Split(s, sep)[0]
  {
  }

  /** Whatever the second piece of `split` contains, `s` contains. */
  lemma SplitSecondInside(s: string, sep: string, sub: string)
    requires sep != "" && |Split(s, sep)| > 1 && Contains(Split(s, sep)[1], sub)
    ensures Contains(s, sub)
  {
    var i := Find(s, sep).value;
    var t := s[i + |sep|..];
    SplitAt(s, sep, i);
    var piece := Split(t, sep)[0];
    assert Contains(t, sub) by {
      SplitHead(t, sep);
      assert piece + t[|piece|..] == t;
      ContainsConcat(piece, t[|piece|..], sub);
    }
    ContainsSuffix(s, i + |sep|, sub);
  }

  /** `split` cuts at the occurrence `Find` reports. */
  lemma SplitAt(s: string, sep: string, i: nat)
    requires sep != "" && Find(s, sep) == Some(i)
    ensures Split(s, sep) == [s[..i]] + Split(s[i + |sep|..], sep)
  {
  }

  /** Where the first occurrence of `sep` follows `a`, `split` cuts `a` off first. */
  lemma SplitFirst(a: string, sep: string, b: string)
    requires sep != ""
    requires forall p :: 0 <= p < |a| ==> !OccursAt(a + sep + b, sep, p)
    ensures Split(a + sep + b, sep) == [a] + Split(b, sep)
    ensures SplitMax(a + sep + b, sep, 1) == [a, b]
  {
    var s := a + sep + b;
    assert s[|a|..|a| + |sep|] == sep;
    FindIs(s, sep, |a|);
    assert s[..|a|] == a && s[|a| + |sep|..] == b;
  }

  /** `sep.join(parts)` */
  function Join(parts: seq<string>, sep: string): string {
    if |parts| == 0 then ""
    else if |parts| == 1 then parts[0]
    else parts[0] + sep + Join(parts[1..], sep)
  }

  /** A string is the text around an occurrence, the occurrence and the text after it. */
  lemma AroundOccurrence(s: string, sub: string, i: nat)
    requires OccursAt(s, sub, i)
    ensures s == s[..i] + sub + s[i + |sub|..]
  {
  }

  lemma JoinCons(head: string, tail: seq<string>, sep: string)
    requires |tail| >= 1
    ensures Join([head] + tail, sep) == head + sep + Join(tail, sep)
  {
    assert ([head] + tail)[1..] == tail;
  }

  /** Joining the pieces of a split with its separator gives the string back. */
  lemma {:induction false} JoinSplit(s: string, sep: string)
    requires sep != ""
    ensures Join(Split(s, sep), sep) == s
    decreases |s|
  {
    match Find(s, sep)
    case None =>
    case Some(i) =>
      var rest := s[i + |sep|..];
      JoinCons(s[..i], Split(rest, sep), sep);
      JoinSplit(rest, sep);
      assert s == s[..i] + sep + rest;
  }

  /** The same round trip for a bounded split. */
  lemma {:induction false} JoinSplitMax(s: string, sep: string, maxsplit: nat)
    requires sep != ""
    ensures Join(SplitMax(s, sep, maxsplit), sep) == s
    decreases maxsplit
  {
    if maxsplit > 0 {
      match Find(s, sep)
      case None =>
      case Some(i) =>
        var rest := s[i + |sep|..];
        var m: nat := maxsplit - 1;
        var tail := SplitMax(rest, sep, m);
        calc {
          Join(SplitMax(s, sep, maxsplit), sep);
          Join([s[..i]] + tail, sep);
          { JoinCons(s[..i], tail, sep); }
          s[..i] + sep + Join(tail, sep);
          { JoinSplitMax(rest, sep, m); }
          s[..i] + sep + rest;
          { AroundOccurrence(s, sep, i); }
          s;
        }
    } else {
      assert SplitMax(s, sep, maxsplit) == [s];
    }
  }

  /** `s.replace(target, replacement)`: every leftmost non-overlapping occurrence of `target` replaced. */
  function Replace(s: string, target: string, replacement: string): string
    requires target != ""
    decreases |s|
  {
    match Find(s, target)
    case None => s
    case Some(i) => s[..i] + replacement + Replace(s[i + |target|..], target, replacement)
  }

  /** Where the first occurrence of `target` follows `a`, it is the first one replaced. */
  lemma ReplaceFirst(a: string, target: string, replacement: string, b: string)
    requires target != ""
    requires forall p :: 0 <= p < |a| ==> !OccursAt(a + target + b, target, p)
    ensures Replace(a + target + b, target, replacement) == a + replacement + Replace(b, target, replacement)
  {
    var s := a + target + b;
    assert s[|a|..|a| + |target|] == target;
    FindIs(s, target, |a|);
    assert s[..|a|] == a && s[|a| + |target|..] == b;
  }

  /** Replacing is splitting on `old` and joining with `new`. */
  lemma {:induction false} ReplaceIsJoinSplit(s: string, target: string, replacement: string)
    requires target != ""
    ensures Replace(s, target, replacement) == Join(Split(s, target), replacement)
    decreases |s|
  {
    match Find(s, target)
    case None =>
    case Some(i) =>
      ReplaceIsJoinSplit(s[i + |target|..], target, replacement);
  }

  /** The characters `str.isspace` accepts. */
  predicate IsSpace(c: char) {
    c == ' ' || c == '\t' || c == '\n' || c == '\r' || c == '\U{0B}' || c == '\U{0C}'
    || ('\U{1C}' <= c <= '\U{1F}') || c == '\U{85}' || c == '\U{A0}' || c == '\U{1680}'
    || ('\U{2000}' <= c <= '\U{200A}') || c == '\U{2028}' || c == '\U{2029}'
    || c == '\U{202F}' || c == '\U{205F}' || c == '\U{3000}'
  }

  /** `s.lstrip()` */
  function LStrip(s: string): (r: string)
    ensures |r| <= |s| && r == s[|s| - |r|..]
    ensures forall i :: 0 <= i < |s| - |r| ==> IsSpace(s[i])
    ensures r == [] || !IsSpace(r[0])
  {
    if |s| > 0 && IsSpace(s[0]) then LStrip(s[1..]) else s
  }

  /** `s.rstrip()` */
  function RStrip(s: string): (r: string)
    ensures |r| <= |s| && r == s[..|r|]
    ensures forall i :: |r| <= i < |s| ==> IsSpace(s[i])
    ensures r == [] || !IsSpace(r[|r| - 1])
  {
    if |s| > 0 && IsSpace(s[|s| - 1]) then RStrip(s[..|s| - 1]) else s
  }

  /** `s.strip()` */
  function Strip(s: string): string {
    RStrip(LStrip(s))
  }

  /** A string with no white space at either end is its own strip. */
  lemma StripNoEnds(s: string)
    requires s != [] && !IsSpace(s[0]) && !IsSpace(s[|s| - 1])
    ensures Strip(s) == s
  {
  }

  function DigitChar(d: nat): (c: char)
    requires d < 10
    ensures '0' <= c <= '9'
  {
    "0123456789"[d]
  }

  /** `str(n)` for a non-negative integer: its decimal digits. */
  function NatToString(n: nat): (r: string)
    ensures |r| >= 1
  {
    if n < 10 then [DigitChar(n)] else NatToString(n / 10) + [DigitChar(n % 10)]
  }

  /** Every character of `str(n)` is a decimal digit. */
  lemma {:induction false} NatToStringDigits(n: nat)
    ensures forall i :: 0 <= i < |NatToString(n)| ==> '0' <= NatToString(n)[i] <= '9'
  {
    if n >= 10 {
      NatToStringDigits(n / 10);
    }
  }

  /** `str(i)`: a minus sign for negative values, then the digits. */
  function IntToString(i: int): (r: string)
    ensures |r| >= 1
  {
    if i < 0 then "-" + NatToString(-i) else NatToString(i)
  }

  /** `str(i)` holds only a minus sign and digits: no space, no parenthesis. */
  lemma IntToStringChars(i: int)
    ensures forall k :: 0 <= k < |IntToString(i)| ==> IntToString(i)[k] == '-' || '0' <= IntToString(i)[k] <= '9'
    ensures ' ' !in IntToString(i) && '(' !in IntToString(i) && ')' !in IntToString(i)
  {
    NatToStringDigits(if i < 0 then -i else i);
  }

  /** `int(s)` for a string of decimal digits. */
  function ParseNat(s: string): nat {
    if s == [] then 0
    else ParseNat(s[..|s| - 1]) * 10 + (if '0' <= s[|s| - 1] <= '9' then (s[|s| - 1] - '0') as nat else 0)
  }

  /** `int(s)` for an optional minus sign followed by digits. */
  function ParseInt(s: string): int {
    if |s| > 0 && s[0] == '-' then -(ParseNat(s[1..]) as int) else ParseNat(s)
  }

  lemma {:induction false} ParseNatToString(n: nat)
    ensures ParseNat(NatToString(n)) == n
  {
    if n >= 10 {
      var s := NatToString(n);
      assert s[..|s| - 1] == NatToString(n / 10);
      ParseNatToString(n / 10);
    }
  }

  /** `int(str(i)) == i`: the rendering loses nothing. */
  lemma ParseIntToString(i: int)
    ensures ParseInt(IntToString(i)) == i
  {
    if i < 0 {
      ParseNatToString(-i);
      assert IntToString(i)[1..] == NatToString(-i);
    } else {
      ParseNatToString(i);
      NatToStringDigits(i);
    }
  }
}
