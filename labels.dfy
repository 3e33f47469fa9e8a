/**
 * Two pure string helpers of the poster: the "form" label under an
 * elimination match, which names the groups a slot can be filled from, or
 * the groups it cannot when that is shorter; and the long date pattern
 * built from the locale's `MMMEd` pattern.
 */
module Labels {
  import opened Text

  /** The font keys of the two label kinds. */
  const LabelFont: string := "match.form.label"
  const InverseFont: string := "match.form.label-inverse"

  /** The text shown when every group can fill the slot (the code's literal is these two characters). */
  const AllGroupsText: string := "\U{00C2}\U{00B7}"

  datatype FormLabel = FormLabel(font: string, text: string)

  function Chars(s: string): set<char>
  {
    set c | c in s
  }

  /** `m` is a character of `s` below all the others. */
  predicate IsSmallest(m: char, s: set<char>)
  {
    m in s && forall c :: c in s ==> m <= c
  }

  /** Taking a character out and putting the smaller of it and the rest's smallest back. */
  lemma SmallestOfRest(x: char, m: char, s: set<char>)
    requires x in s && IsSmallest(m, s - {x})
    ensures IsSmallest(if x <= m then x else m, s)
  {
    forall c | c in s
      ensures (if x <= m then x else m) <= c
    {
      assert c in s - {x} || c == x;
    }
  }

  /** Some character of a non-empty set is below all the others. */
  lemma {:induction false} HasSmallest(s: set<char>)
    requires s != {}
    ensures exists m :: IsSmallest(m, s)
  {
    var x :| x in s;
    if s - {x} != {} {
      HasSmallest(s - {x});
      var m :| IsSmallest(m, s - {x});
      SmallestOfRest(x, m, s);
    } else {
      forall c | c in s
        ensures x <= c
      {
        assert c in s - {x} || c == x;
      }
      assert IsSmallest(x, s);
    }
  }

  function Smallest(s: set<char>): (m: char)
    requires s != {}
    ensures IsSmallest(m, s)
  {
    HasSmallest(s);
    var m :| IsSmallest(m, s);
    m
  }

  predicate Ascending(r: string)
  {
    forall i, j :: 0 <= i < j < |r| ==> r[i] < r[j]
  }

  /** The smallest character in front of the rest, sorted, sorts the whole set. */
  lemma SortedCons(m: char, s: set<char>, t: string)
    requires IsSmallest(m, s)
    requires Chars(t) == s - {m} && |t| == |s - {m}| && Ascending(t)
    ensures Chars([m] + t) == s && |[m] + t| == |s| && Ascending([m] + t)
  {
    var r := [m] + t;
    assert Chars(r) == s by {
      assert Chars(r) == {m} + Chars(t);
    }
    assert |r| == |s| by {
      assert |s - {m}| == |s| - 1;
    }
    forall i, j | 0 <= i < j < |r|
      ensures r[i] < r[j]
    {
      assert r[j] == t[j - 1];
      if i == 0 {
        assert t[j - 1] in Chars(t);
      } else {
        assert r[i] == t[i - 1];
      }
    }
  }

  /** `''.join(sorted(s))`: the characters of the set, each once, in ascending order. */
  function Sorted(s: set<char>): (r: string)
    decreases |s|
    ensures Chars(r) == s && |r| == |s| && Ascending(r)
  {
    if s == {} then ""
    else
      var m := Smallest(s);
      SortedCons(m, s, Sorted(s - {m}));
      [m] + Sorted(s - {m})
  }

  /**
   * `TuStrFontStrLabelForm`: a label naming every group is replaced by the
   * dot; a label with a character that is not a group, or naming at most
   * half the groups, is shown as it is; otherwise the groups it does NOT
   * name are shown, sorted, between tildes, in the inverse font.
   */
  function LabelForm(tag: string, groups: set<char>): FormLabel
  {
    var chars := Chars(tag);
    if chars == groups then FormLabel(LabelFont, AllGroupsText)
    else if !(chars <= groups) then FormLabel(LabelFont, tag)
    else if |chars| <= |groups| / 2 then FormLabel(LabelFont, tag)
    else FormLabel(InverseFont, "~" + Sorted(groups - chars) + "~")
  }

  /**
   * The inverse form is chosen exactly for a label naming some but not all
   * groups and more than half of them; it then lists, between tildes and
   * in ascending order, exactly the groups the label leaves out, which are
   * at least one and at most half the groups. Every other label keeps the
   * plain font and is shown as it is, except the one naming every group.
   */
  lemma LabelFormInverts(tag: string, groups: set<char>)
    ensures var r, chars := LabelForm(tag, groups), Chars(tag);
      && (r.font == InverseFont <==> chars < groups && |chars| > |groups| / 2)
      && (r.font != InverseFont ==> r.font == LabelFont && r.text == if chars == groups then AllGroupsText else tag)
    ensures var r, chars := LabelForm(tag, groups), Chars(tag);
      r.font == InverseFont ==>
        var missing := r.text[1..|r.text| - 1];
        && r.text[0] == '~' && r.text[|r.text| - 1] == '~'
        && Chars(missing) + chars == groups && Chars(missing) * chars == {}
        && 0 < |missing| <= |groups| / 2
        && Ascending(missing)
  {
    var chars := Chars(tag);
    assert InverseFont != LabelFont by {
      assert |InverseFont| != |LabelFont|;
    }
    if chars < groups && |chars| > |groups| / 2 {
      InverseListsMissing(chars, groups);
      Tildes(Sorted(groups - chars));
    }
  }

  /** The groups not named, sorted: together with the named ones all the groups, at least one and at most half of them. */
  lemma InverseListsMissing(chars: set<char>, groups: set<char>)
    requires chars < groups && |chars| > |groups| / 2
    ensures var s := Sorted(groups - chars);
      && Chars(s) + chars == groups && Chars(s) * chars == {}
      && 0 < |s| <= |groups| / 2
      && Ascending(s)
  {
    MissingFew(chars, groups);
  }

  /** A text between tildes. */
  lemma Tildes(s: string)
    ensures var t := "~" + s + "~"; t[0] == '~' && t[|t| - 1] == '~' && t[1..|t| - 1] == s
  {
  }

  /** More than half the groups named leaves at least one and at most half of them out. */
  lemma MissingFew(chars: set<char>, groups: set<char>)
    requires chars < groups && |chars| > |groups| / 2
    ensures 0 < |groups - chars| <= |groups| / 2
  {
    assert |groups - chars| == |groups| - |chars|;
    assert |chars| < |groups|;
  }

  /** The languages whose `MMMEd` pattern is used as it is. */
  predicate KeepsPattern(language: string)
  {
    language == "ja" || language == "ar" || language == "fa"
  }

  /** An unquoted piece of the pattern: the first `E` becomes `EEEE`, then the first `MMM` becomes `MMMM`. */
  function Lengthen(s: string): string
  {
    ReplaceFirst(ReplaceFirst(s, "E", "EEEE"), "MMM", "MMMM")
  }

  /** The pieces between quotes, `f` applied to the unquoted ones (even places) and the quoted ones kept. */
  function MapUnquoted(pieces: seq<string>, f: string -> string): seq<string>
  {
    seq(|pieces|, k requires 0 <= k < |pieces| => if k % 2 == 0 then f(pieces[k]) else pieces[k])
  }

  /** The pieces between quotes, the unquoted ones lengthened and the quoted ones kept. */
  function LengthenPieces(pieces: seq<string>): seq<string>
  {
    MapUnquoted(pieces, Lengthen)
  }

  /** `StrPatternDateMMMMEEEEd` as written: the pieces are joined back with nothing between them. */
  function PatternDateAsWritten(pattern: string, language: string): string
  {
    if KeepsPattern(language) then pattern else Concat(LengthenPieces(Split(pattern, '\'')))
  }

  /** The evident intent: the pieces joined back with the quotes they were split on. */
  function PatternDate(pattern: string, language: string): string
  {
    if KeepsPattern(language) then pattern else Join(LengthenPieces(Split(pattern, '\'')), "'")
  }

  lemma LengthenAvoids(s: string, c: char)
    requires c !in s && c != 'E' && c != 'M'
    ensures c !in Lengthen(s)
  {
    ReplaceFirstAvoids(s, "E", "EEEE", c);
    ReplaceFirstAvoids(ReplaceFirst(s, "E", "EEEE"), "MMM", "MMMM", c);
  }

  /** No piece, lengthened or not, holds a quote. */
  lemma PiecesUnquoted(pattern: string)
    ensures forall k :: 0 <= k < |LengthenPieces(Split(pattern, '\''))| ==> '\'' !in LengthenPieces(Split(pattern, '\''))[k]
  {
    var pieces := Split(pattern, '\'');
    forall k | 0 <= k < |pieces|
      ensures '\'' !in LengthenPieces(pieces)[k]
    {
      LengthenAvoids(pieces[k], '\'');
    }
  }

  /**
   * As written, the result never holds a quote: a literal the locale
   * quoted (such as the `de` of `d 'de' MMM`) is left bare, where its
   * letters read as pattern fields.
   */
  lemma PatternDateAsWrittenDropsQuotes(pattern: string, language: string)
    requires !KeepsPattern(language)
    ensures '\'' !in PatternDateAsWritten(pattern, language)
  {
    PiecesUnquoted(pattern);
    ConcatAvoids(LengthenPieces(Split(pattern, '\'')), '\'');
  }

  /**
   * With the quotes kept, the result falls apart at its quotes into exactly
   * the pattern's pieces: the quoted ones unchanged and the unquoted ones
   * lengthened.
   */
  lemma PatternDateKeepsLiterals(pattern: string, language: string)
    requires !KeepsPattern(language)
    ensures var pieces, pieces' := Split(pattern, '\''), Split(PatternDate(pattern, language), '\'');
      && |pieces'| == |pieces|
      && (forall k :: 0 <= k < |pieces| && k % 2 == 1 ==> pieces'[k] == pieces[k])
      && (forall k :: 0 <= k < |pieces| && k % 2 == 0 ==> pieces'[k] == Lengthen(pieces[k]))
  {
    PiecesUnquoted(pattern);
    JoinSplitRoundTrip(LengthenPieces(Split(pattern, '\'')), '\'');
  }

  /** A pattern with no `E` and no `M` to lengthen comes back unchanged, in every language. */
  lemma PatternDateUnchanged(pattern: string, language: string)
    requires 'E' !in pattern && 'M' !in pattern
    ensures PatternDate(pattern, language) == pattern
  {
    var pieces := Split(pattern, '\'');
    SplitChars(pattern, '\'');
    forall k | 0 <= k < |pieces|
      ensures Lengthen(pieces[k]) == pieces[k]
    {
      ReplaceFirstAbsent(pieces[k], "E", "EEEE");
      ReplaceFirstAbsent(pieces[k], "MMM", "MMMM");
    }
    assert LengthenPieces(pieces) == pieces;
    SplitJoinRoundTrip(pattern, '\'');
  }

  lemma MapUnquotedThree(a: string, b: string, c: string, f: string -> string)
    ensures MapUnquoted([a, b, c], f) == [f(a), b, f(c)]
  {
    var l := MapUnquoted([a, b, c], f);
    assert |l| == 3 && l[0] == f(a) && l[1] == b && l[2] == f(c);
  }

  lemma LengthenThreePieces(a: string, b: string, c: string)
    ensures LengthenPieces([a, b, c]) == [Lengthen(a), b, Lengthen(c)]
  {
    MapUnquotedThree(a, b, c, Lengthen);
  }

  lemma ConcatThree(x: string, y: string, z: string)
    ensures Concat([x, y, z]) == x + y + z
  {
    assert [x, y, z][1..] == [y, z] && [y, z][1..] == [z] && [z][1..] == [];
    assert Concat([z]) == z + Concat([]) == z;
    assert Concat([y, z]) == y + z;
  }

  lemma JoinThree(x: string, y: string, z: string, glue: string)
    ensures Join([x, y, z], glue) == x + glue + y + glue + z
  {
    assert [x, y, z][1..] == [y, z] && [y, z][1..] == [z];
    assert Join([y, z], glue) == y + glue + z;
  }

  /** A pattern of three pieces: two unquoted pieces around one quoted literal. */
  lemma PatternDateOfThree(p: string, language: string, a: string, b: string, c: string)
    requires !KeepsPattern(language) && Split(p, '\'') == [a, b, c]
    ensures PatternDateAsWritten(p, language) == Lengthen(a) + b + Lengthen(c)
    ensures PatternDate(p, language) == Lengthen(a) + "'" + b + "'" + Lengthen(c)
  {
    LengthenThreePieces(a, b, c);
    ConcatThree(Lengthen(a), b, Lengthen(c));
    JoinThree(Lengthen(a), b, Lengthen(c), "'");
  }

  /**
   * The pattern `'de'`, a quoted literal alone: as written the quotes go
   * and the text left, `de`, is the day of the month and the local day of
   * the week; with the quotes kept it stays the literal.
   */
  lemma PatternDateExample()
    ensures PatternDateAsWritten("'de'", "es") == "de"
    ensures PatternDate("'de'", "es") == "'de'"
  {
    var p := "'de'";
    assert p == "" + ['\''] + ("de" + ['\''] + "");
    SplitAfter("", '\'', "de" + ['\''] + "");
    SplitAfter("de", '\'', "");
    SplitNoSep("", '\'');
    assert Split(p, '\'') == ["", "de", ""];
    PatternDateOfThree(p, "es", "", "de", "");
    assert Lengthen("") == "";
  }
}
