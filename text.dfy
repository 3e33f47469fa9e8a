/**
 * Character and string helpers with the meaning Python gives them on the
 * ASCII range: character classes of the seed patterns, `str.lower`,
 * `int(digits)`, decimal formatting (`str`, `:+d`, `:02d`), `str.split` on a
 * single character (also limited to one split), `str.join` and
 * `str.replace(old, new, 1)`.
 */
module Text {
  import opened Wrappers

  predicate IsLetter(c: char) { 'a' <= c <= 'z' || 'A' <= c <= 'Z' }
  predicate IsDigit(c: char) { '0' <= c <= '9' }
  predicate IsUpper(c: char) { 'A' <= c <= 'Z' }

  predicate AllLetters(s: string) { forall i :: 0 <= i < |s| ==> IsLetter(s[i]) }
  predicate AllDigits(s: string) { forall i :: 0 <= i < |s| ==> IsDigit(s[i]) }

  /** `str.lower` restricted to ASCII: upper-case letters become lower-case. */
  function LowerChar(c: char): char
  {
    if IsUpper(c) then (c as int + 32) as char else c
  }

  function Lower(s: string): (r: string)
    ensures |r| == |s|
    ensures forall i :: 0 <= i < |s| ==> r[i] == LowerChar(s[i])
  {
    if s == [] then [] else [LowerChar(s[0])] + Lower(s[1..])
  }

  /** Lower-casing leaves no upper-case letter and so is idempotent. */
  lemma LowerIdempotent(s: string)
    ensures forall i :: 0 <= i < |s| ==> !IsUpper(Lower(s)[i])
    ensures Lower(Lower(s)) == Lower(s)
  {
  }

  /** A string with no upper-case letter is its own lower-case form. */
  lemma LowerKeeps(s: string)
    requires forall i :: 0 <= i < |s| ==> !IsUpper(s[i])
    ensures Lower(s) == s
  {
  }

  function DigitValue(c: char): nat
  {
    if IsDigit(c) then c as int - '0' as int else 0
  }

  function DigitChar(d: nat): (c: char)
    requires d < 10
    ensures IsDigit(c) && DigitValue(c) == d
  {
    ('0' as int + d) as char
  }

  /** `int(s)` for a run of ASCII digits (read most significant first). */
  function DigitsValue(s: string): nat
  {
    if s == [] then 0 else DigitsValue(s[..|s| - 1]) * 10 + DigitValue(s[|s| - 1])
  }

  /** `str(n)` for a natural number: decimal digits without leading zeros. */
  function NatToString(n: nat): (r: string)
    ensures |r| >= 1 && AllDigits(r)
    ensures |r| > 1 ==> r[0] != '0'
  {
    if n < 10 then [DigitChar(n)] else NatToString(n / 10) + [DigitChar(n % 10)]
  }

  /** Reading back the decimal form of a number gives the number. */
  lemma {:induction false} NatToStringRoundTrip(n: nat)
    ensures DigitsValue(NatToString(n)) == n
  {
    var r := NatToString(n);
    if n >= 10 {
      NatToStringRoundTrip(n / 10);
      assert r[..|r| - 1] == NatToString(n / 10);
    }
  }

  /** Python's `f"{n:+d}"`: the sign is always written. */
  function SignedToString(n: int): (r: string)
    ensures |r| >= 2
    ensures r[0] == (if n < 0 then '-' else '+')
    ensures AllDigits(r[1..]) && DigitsValue(r[1..]) == (if n < 0 then -n else n)
  {
    NatToStringRoundTrip(if n < 0 then -n else n);
    if n < 0 then "-" + NatToString(-n) else "+" + NatToString(n)
  }

  /** Python's `f"{n:02d}"` for a natural number. */
  function TwoDigits(n: nat): (r: string)
    ensures |r| >= 2 && AllDigits(r) && DigitsValue(r) == n
    ensures n < 100 ==> |r| == 2
  {
    NatToStringRoundTrip(n);
    if n < 10 then
      assert DigitsValue([DigitChar(n)]) == n by {
        assert [DigitChar(n)][..0] == [];
      }
      assert DigitsValue([DigitChar(0), DigitChar(n)]) == n by {
        assert [DigitChar(0), DigitChar(n)][..1] == [DigitChar(0)];
        assert [DigitChar(0)][..0] == [];
      }
      [DigitChar(0), DigitChar(n)]
    else
      NatToString(n)
  }

  /** Python's `s.split(sep)` for a one-character separator. */
  function Split(s: string, sep: char): (r: seq<string>)
    ensures |r| >= 1
    ensures forall k, i :: 0 <= k < |r| && 0 <= i < |r[k]| ==> r[k][i] != sep
  {
    if s == [] then [""]
    else if s[0] == sep then [""] + Split(s[1..], sep)
    else
      var t := Split(s[1..], sep);
      [[s[0]] + t[0]] + t[1..]
  }

  /**
   * `a, b = s.split(sep, 1)`: the text before the first separator and the
   * text after it; with no separator the unpacking fails (`None`).
   */
  function SplitOnce(s: string, sep: char): (r: Option<(string, string)>)
    ensures r.None? <==> sep !in s
    ensures r.Some? ==> s == r.value.0 + [sep] + r.value.1 && sep !in r.value.0
  {
    if s == [] then None
    else if s[0] == sep then Some(([], s[1..]))
    else
      match SplitOnce(s[1..], sep)
      case None => None
      case Some((a, b)) => Some(([s[0]] + a, b))
  }

  /** A part without the separator, the separator and any rest split back into the part and the rest. */
  lemma {:induction false} SplitOnceJoin(a: string, sep: char, b: string)
    requires sep !in a
    ensures SplitOnce(a + [sep] + b, sep) == Some((a, b))
  {
    var s := a + [sep] + b;
    if a != [] {
      assert s[0] == a[0] && s[1..] == a[1..] + [sep] + b;
      SplitOnceJoin(a[1..], sep, b);
      assert [a[0]] + a[1..] == a;
    } else {
      assert s[1..] == b;
    }
  }

  /** Python's `glue.join(parts)`. */
  function Join(parts: seq<string>, glue: string): string
  {
    if parts == [] then ""
    else if |parts| == 1 then parts[0]
    else parts[0] + glue + Join(parts[1..], glue)
  }

  /** Splitting on a character and joining the parts with it gives back the string. */
  lemma {:induction false} SplitJoinRoundTrip(s: string, sep: char)
    ensures Join(Split(s, sep), [sep]) == s
  {
    if s != [] {
      SplitJoinRoundTrip(s[1..], sep);
      if s[0] == sep {
        JoinAfterSep(s, sep);
      } else {
        JoinAfterChar(s, sep);
      }
    }
  }

  /** A leading separator adds an empty first part, which joins back to the separator. */
  lemma JoinAfterSep(s: string, sep: char)
    requires s != [] && s[0] == sep && Join(Split(s[1..], sep), [sep]) == s[1..]
    ensures Join(Split(s, sep), [sep]) == s
  {
    var t := Split(s[1..], sep);
    var r := Split(s, sep);
    assert r == [""] + t && r[1..] == t;
    assert s == [sep] + s[1..];
  }

  /** A leading character other than the separator starts the first part. */
  lemma JoinAfterChar(s: string, sep: char)
    requires s != [] && s[0] != sep && Join(Split(s[1..], sep), [sep]) == s[1..]
    ensures Join(Split(s, sep), [sep]) == s
  {
    var t := Split(s[1..], sep);
    var c := [s[0]];
    assert Split(s, sep) == [c + t[0]] + t[1..];
    if |t| > 1 {
      JoinFront(c, t, [sep]);
    } else {
      assert [c + t[0]] + t[1..] == [c + t[0]];
    }
    assert s == c + s[1..];
  }

  /** Prefixing the first part prefixes the join. */
  lemma JoinFront(c: string, t: seq<string>, glue: string)
    requires |t| > 1
    ensures Join([c + t[0]] + t[1..], glue) == c + Join(t, glue)
  {
    var r := [c + t[0]] + t[1..];
    var rest := Join(t[1..], glue);
    assert r[0] == c + t[0] && r[1..] == t[1..];
    assert (c + t[0]) + glue + rest == c + (t[0] + glue + rest);
  }

  /** A string without the separator is a single part. */
  lemma {:induction false} SplitNoSep(a: string, sep: char)
    requires sep !in a
    ensures Split(a, sep) == [a]
  {
    if a != [] {
      SplitNoSep(a[1..], sep);
      assert [a[0]] + a[1..] == a;
    }
  }

  /** A part without the separator, then the separator: the part comes off the front. */
  lemma {:induction false} SplitAfter(a: string, sep: char, rest: string)
    requires sep !in a
    ensures Split(a + [sep] + rest, sep) == [a] + Split(rest, sep)
  {
    var s := a + [sep] + rest;
    if a == [] {
      assert s == [sep] + rest && s[1..] == rest;
    } else {
      assert s[0] == a[0] && s[1..] == a[1..] + [sep] + rest;
      SplitAfter(a[1..], sep, rest);
      assert [a[0]] + a[1..] == a;
    }
  }

  /** Joining parts that hold no separator with it, then splitting on it, gives back the parts. */
  lemma {:induction false} JoinSplitRoundTrip(parts: seq<string>, sep: char)
    requires |parts| > 0 && forall k :: 0 <= k < |parts| ==> sep !in parts[k]
    ensures Split(Join(parts, [sep]), sep) == parts
  {
    if |parts| == 1 {
      SplitNoSep(parts[0], sep);
    } else {
      JoinSplitRoundTrip(parts[1..], sep);
      SplitAfter(parts[0], sep, Join(parts[1..], [sep]));
      assert [parts[0]] + parts[1..] == parts;
    }
  }

  /** Every character of every part comes from the string. */
  lemma {:induction false} SplitChars(s: string, sep: char)
    ensures forall k, i :: 0 <= k < |Split(s, sep)| && 0 <= i < |Split(s, sep)[k]| ==> Split(s, sep)[k][i] in s
  {
    if s != [] {
      SplitChars(s[1..], sep);
    }
  }

  /** Joining with the empty string is plain concatenation of the parts. */
  function Concat(parts: seq<string>): string
  {
    if parts == [] then "" else parts[0] + Concat(parts[1..])
  }

  lemma {:induction false} JoinEmptyIsConcat(parts: seq<string>)
    ensures Join(parts, "") == Concat(parts)
  {
    if |parts| > 1 {
      JoinEmptyIsConcat(parts[1..]);
    } else if |parts| == 1 {
      assert Concat(parts) == parts[0] + Concat([]);
    }
  }

  predicate OccursAt(s: string, pat: string, i: nat)
  {
    i + |pat| <= |s| && s[i..i + |pat|] == pat
  }

  /** The first index at or after `from` where `pat` occurs in `s`. */
  function FindFrom(s: string, pat: string, from: nat): (r: Option<nat>)
    decreases |s| - from
    ensures r.Some? ==> from <= r.value && OccursAt(s, pat, r.value)
    ensures r.Some? ==> forall j: nat :: from <= j < r.value ==> !OccursAt(s, pat, j)
    ensures r.None? ==> forall j: nat :: from <= j ==> !OccursAt(s, pat, j)
  {
    if from + |pat| > |s| then None
    else if s[from..from + |pat|] == pat then Some(from)
    else FindFrom(s, pat, from + 1)
  }

  /** Python's `s.replace(pat, rep, 1)` for a non-empty pattern. */
  function ReplaceFirst(s: string, pat: string, rep: string): (r: string)
    requires |pat| > 0
    ensures (forall j: nat :: !OccursAt(s, pat, j)) ==> r == s
    ensures forall i: nat :: OccursAt(s, pat, i) && (forall j: nat :: j < i ==> !OccursAt(s, pat, j)) ==>
      r == s[..i] + rep + s[i + |pat|..]
  {
    match FindFrom(s, pat, 0)
    case None => s
    case Some(i) => s[..i] + rep + s[i + |pat|..]
  }

  /** Replacing adds no character that neither the string nor the replacement has. */
  lemma ReplaceFirstAvoids(s: string, pat: string, rep: string, c: char)
    requires |pat| > 0 && c !in s && c !in rep
    ensures c !in ReplaceFirst(s, pat, rep)
  {
    match FindFrom(s, pat, 0)
    case None =>
    case Some(i) =>
      assert c !in s[..i] && c !in s[i + |pat|..];
  }

  /** A pattern whose first character the string lacks is not replaced. */
  lemma ReplaceFirstAbsent(s: string, pat: string, rep: string)
    requires |pat| > 0 && pat[0] !in s
    ensures ReplaceFirst(s, pat, rep) == s
  {
    forall j: nat
      ensures !OccursAt(s, pat, j)
    {
      if j < |s| {
        assert s[j] in s;
      }
    }
  }

  /** The concatenation holds only characters of its parts. */
  lemma {:induction false} ConcatAvoids(parts: seq<string>, c: char)
    requires forall k :: 0 <= k < |parts| ==> c !in parts[k]
    ensures c !in Concat(parts)
  {
    if parts != [] {
      ConcatAvoids(parts[1..], c);
    }
  }
}
