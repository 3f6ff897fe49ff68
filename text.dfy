/** Operations on strings (`seq<char>`) that the Rust code takes from `str`:
    prefix and substring tests, searching for a character, replacing a
    character, joining with a separator, and decimal rendering of integers. */
module Text {
  import opened Wrappers

  /** `s.starts_with(prefix)` */
  predicate StartsWith(s: string, prefix: string) {
    prefix <= s
  }

  /** `s.contains(sub)` for a string pattern. */
  predicate Contains(s: string, sub: string)
    decreases |s|
  {
    StartsWith(s, sub) || (|s| > 0 && Contains(s[1..], sub))
  }

  /** An occurrence at a known position is an occurrence. */
  lemma {:induction false} ContainsAt(s: string, sub: string, i: nat)
    requires i + |sub| <= |s| && s[i..i + |sub|] == sub
    ensures Contains(s, sub)
    decreases i
  {
    if i == 0 {
      assert StartsWith(s, sub);
    } else {
      assert s[1..][i - 1..i - 1 + |sub|] == sub;
      ContainsAt(s[1..], sub, i - 1);
    }
  }

  /** A string lacking one of the pattern's characters cannot contain it. */
  lemma {:induction false} NotContainsMissingChar(s: string, sub: string, c: char)
    requires c in sub && c !in s
    ensures !Contains(s, sub)
    decreases |s|
  {
    var k :| 0 <= k < |sub| && sub[k] == c;
    if |sub| <= |s| {
      assert s[k] in s;
      assert s[..|sub|][k] != sub[k];
    }
    if |s| > 0 {
      NotContainsMissingChar(s[1..], sub, c);
    }
  }

  /** `s.find(c)`: the index of the first occurrence of `c`, if any. */
  function FindChar(s: string, c: char): (r: Option<nat>)
    ensures r.Some? ==> r.value < |s| && s[r.value] == c && c !in s[..r.value]
    ensures r.None? <==> c !in s
  {
    if |s| == 0 then None
    else if s[0] == c then Some(0)
    else
      match FindChar(s[1..], c)
      case None => None
      case Some(i) =>
        assert s[..i + 1] == [s[0]] + s[1..][..i];
        Some(i + 1)
  }

  /** The first occurrence of `c` in `a + [c] + b`, when `a` lacks `c`, is at `|a|`. */
  lemma {:induction false} FindCharAfterPrefix(a: string, c: char, b: string)
    requires c !in a
    ensures FindChar(a + [c] + b, c) == Some(|a|)
  {
    var s := a + [c] + b;
    var r := FindChar(s, c);
    assert s[|a|] == c;
    assert r.Some?;
    assert forall j :: 0 <= j < |a| ==> s[j] == a[j];
    assert forall j :: |a| < j <= |s| ==> s[..j][|a|] == c;
  }

  /** `s.replace(from, to)` for one-character patterns. */
  function ReplaceChar(s: string, from: char, to: char): (r: string)
    ensures |r| == |s|
    ensures forall i :: 0 <= i < |s| ==> r[i] == (if s[i] == from then to else s[i])
  {
    if |s| == 0 then [] else [if s[0] == from then to else s[0]] + ReplaceChar(s[1..], from, to)
  }

  /** After replacing every `from` by a different `to`, no `from` remains. */
  lemma ReplaceCharRemoves(s: string, from: char, to: char)
    requires from != to
    ensures from !in ReplaceChar(s, from, to)
    ensures to in s ==> to in ReplaceChar(s, from, to)
  {
    var r := ReplaceChar(s, from, to);
    assert forall i | 0 <= i < |r| :: r[i] != from;
    if to in s {
      var i :| 0 <= i < |s| && s[i] == to;
      assert r[i] == to;
    }
  }

  /** `parts.join(sep)` */
  function Join(parts: seq<string>, sep: string): string {
    if |parts| == 0 then ""
    else if |parts| == 1 then parts[0]
    else parts[0] + sep + Join(parts[1..], sep)
  }

  /** Splits at every comma and drops one space after it: the inverse of
      `Join(_, ", ")` on comma-free parts (see JoinSplitRoundTrip). */
  function SplitList(s: string): (r: seq<string>)
    ensures |r| >= 1
    decreases |s|
  {
    match FindChar(s, ',')
    case None => [s]
    case Some(i) =>
      var tail := s[i + 1..];
      [s[..i]] + SplitList(if |tail| > 0 && tail[0] == ' ' then tail[1..] else tail)
  }

  /** Joining comma-free parts with ", " and splitting the result back gives the parts. */
  lemma {:induction false} JoinSplitRoundTrip(parts: seq<string>)
    requires |parts| >= 1
    requires forall k :: 0 <= k < |parts| ==> ',' !in parts[k]
    ensures SplitList(Join(parts, ", ")) == parts
  {
    if |parts| == 1 {
      assert FindChar(parts[0], ',') == None;
    } else {
      var rest := Join(parts[1..], ", ");
      var s := Join(parts, ", ");
      assert s == parts[0] + [','] + (" " + rest);
      FindCharAfterPrefix(parts[0], ',', " " + rest);
      var i := |parts[0]|;
      var tail := s[i + 1..];
      assert s[..i] == parts[0];
      assert tail == " " + rest;
      assert |tail| > 0 && tail[0] == ' ' && tail[1..] == rest;
      assert SplitList(s) == [parts[0]] + SplitList(rest);
      assert forall k :: 0 <= k < |parts[1..]| ==> parts[1..][k] == parts[k + 1];
      JoinSplitRoundTrip(parts[1..]);
      assert parts == [parts[0]] + parts[1..];
    }
  }

  /** The character for a decimal digit. */
  function DigitChar(d: nat): char
    requires d < 10
  {
    (48 + d) as char
  }

  /** Decimal rendering of a natural number, as `format!("{}", n)`. */
  function Decimal(n: nat): (r: string)
    ensures |r| >= 1
    ensures forall i :: 0 <= i < |r| ==> '0' <= r[i] <= '9'
  {
    if n < 10 then [DigitChar(n)] else Decimal(n / 10) + [DigitChar(n % 10)]
  }

  /** Distinct numbers render differently. */
  lemma {:induction false} DecimalInjective(a: nat, b: nat)
    requires Decimal(a) == Decimal(b)
    ensures a == b
  {
    assert a >= 10 ==> |Decimal(a)| >= 2;
    assert b >= 10 ==> |Decimal(b)| >= 2;
    if a >= 10 && b >= 10 {
      var da, db := Decimal(a), Decimal(b);
      assert da[|da| - 1] == db[|db| - 1];
      assert da[..|da| - 1] == Decimal(a / 10);
      assert db[..|db| - 1] == Decimal(b / 10);
      DecimalInjective(a / 10, b / 10);
    }
  }
}
