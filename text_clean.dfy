/**
 * Line cleaning of the report text (`clean_text` in auto_report/report.py):
 * every bullet `•` and every asterisk `*` is deleted with `str.replace`, a
 * third `str.replace("**", "")` follows, and the result is `str.strip()`ped.
 */
module TextClean {

  const Bullet: char := '\U{2022}'
  const Star: char := '*'

  /** The two marker characters that `clean_text` deletes. */
  predicate IsMarker(c: char) {
    c == Bullet || c == Star
  }

  /** Python's `str.isspace()` on a single character (the characters `str.strip()` removes). */
  predicate IsSpace(c: char)
    ensures IsSpace(c) ==> !IsMarker(c)
    ensures c == ' ' || c == '\t' || c == '\n' || c == '\r' ==> IsSpace(c)
  {
    || ('\t' <= c <= '\r')
    || ('\U{1C}' <= c <= '\U{1F}')
    || c == ' '
    || c == '\U{85}'
    || c == '\U{A0}'
    || c == '\U{1680}'
    || ('\U{2000}' <= c <= '\U{200A}')
    || c == '\U{2028}'
    || c == '\U{2029}'
    || c == '\U{202F}'
    || c == '\U{205F}'
    || c == '\U{3000}'
  }

  /** Neither the first nor the last character is whitespace. */
  predicate NoOuterSpace(r: string) {
    r == [] || (!IsSpace(r[0]) && !IsSpace(r[|r| - 1]))
  }

  /** Every character of `s` outside positions `i` to `j` is whitespace. */
  predicate SpaceOutside(s: string, i: nat, j: nat)
    requires i <= j <= |s|
  {
    forall k :: 0 <= k < |s| && !(i <= k < j) ==> IsSpace(s[k])
  }

  /** Holds when `r` is what `str.strip()` yields for `s`: a slice of `s`
      with only whitespace cut off on either side and none left at its ends. */
  ghost predicate IsStripOf(r: string, s: string) {
    && NoOuterSpace(r)
    && exists i: nat, j: nat :: i <= j <= |s| && r == s[i..j] && SpaceOutside(s, i, j)
  }

  // ---------------------------------------------------------------------
  // str.replace with an empty replacement
  // ---------------------------------------------------------------------

  /** `s.replace(c, "")` for a one-character pattern `c`. */
  function RemoveChar(s: string, c: char): (r: string)
    ensures c !in r
    ensures |r| <= |s|
    ensures c !in s ==> r == s
  {
    if s == [] then []
    else (if s[0] == c then [] else [s[0]]) + RemoveChar(s[1..], c)
  }

  /** `s.replace(c, "")` keeps exactly the characters of `s` other than `c`. */
  lemma {:induction false} RemoveCharChars(s: string, c: char)
    ensures forall x :: x in RemoveChar(s, c) <==> x in s && x != c
  {
    if s != [] {
      RemoveCharChars(s[1..], c);
      assert s == [s[0]] + s[1..];
    }
  }

  /** `s.replace("**", "")`: removes non-overlapping `**` pairs, scanning left to right. */
  function RemoveDoubleStar(s: string): (r: string)
    ensures |r| <= |s|
  {
    if |s| >= 2 && s[0] == Star && s[1] == Star then RemoveDoubleStar(s[2..])
    else if s == [] then []
    else [s[0]] + RemoveDoubleStar(s[1..])
  }

  /** `s.replace("**", "")` only deletes characters. */
  lemma {:induction false} RemoveDoubleStarChars(s: string)
    ensures forall x :: x in RemoveDoubleStar(s) ==> x in s
  {
    if |s| >= 2 && s[0] == Star && s[1] == Star {
      RemoveDoubleStarChars(s[2..]);
      assert forall x :: x in s[2..] ==> x in s;
    } else if s != [] {
      RemoveDoubleStarChars(s[1..]);
      assert s == [s[0]] + s[1..];
    }
  }

  /** Reference definition: one pass that drops both markers. */
  function RemoveMarkers(s: string): (r: string)
  {
    if s == [] then []
    else (if IsMarker(s[0]) then [] else [s[0]]) + RemoveMarkers(s[1..])
  }

  // ---------------------------------------------------------------------
  // str.strip
  // ---------------------------------------------------------------------

  /** Length of the whitespace run at the start of `s`. */
  function LeadingSpace(s: string): (n: nat)
    ensures n <= |s|
    ensures forall k :: 0 <= k < n ==> IsSpace(s[k])
    ensures n < |s| ==> !IsSpace(s[n])
  {
    if s == [] || !IsSpace(s[0]) then 0 else 1 + LeadingSpace(s[1..])
  }

  /** Length of the whitespace run at the end of `s`. */
  function TrailingSpace(s: string): (n: nat)
    ensures n <= |s|
    ensures forall k :: |s| - n <= k < |s| ==> IsSpace(s[k])
    ensures n < |s| ==> !IsSpace(s[|s| - 1 - n])
  {
    if s == [] || !IsSpace(s[|s| - 1]) then 0 else 1 + TrailingSpace(s[..|s| - 1])
  }

  /** `s.strip()`: leading whitespace is cut first, then trailing whitespace. */
  function Strip(s: string): (r: string)
    ensures IsStripOf(r, s)
    ensures |r| <= |s|
  {
    var i := LeadingSpace(s);
    var t := s[i..];
    var j := |t| - TrailingSpace(t);
    StripCuts(s);
    assert t[..j] == s[i..i + j];
    StripWitness(s, i, i + j);
    t[..j]
  }

  /** The cuts `strip` makes: whitespace before the leading cut and after the
      trailing one, and non-whitespace just inside both. */
  lemma StripCuts(s: string)
    ensures var i := LeadingSpace(s);
      var t := s[i..];
      var j := i + |t| - TrailingSpace(t);
      && i <= j <= |s|
      && SpaceOutside(s, i, j)
      && (i < j ==> !IsSpace(s[i]) && !IsSpace(s[j - 1]))
  {
    var i := LeadingSpace(s);
    var t := s[i..];
    var n := TrailingSpace(t);
    var j := i + |t| - n;
    forall k | 0 <= k < |s| && !(i <= k < j)
      ensures IsSpace(s[k])
    {
      if k >= j {
        assert s[k] == t[k - i];
      }
    }
    if i < j {
      assert s[j - 1] == t[|t| - 1 - n];
    }
  }

  /** A slice with only whitespace outside it and none at its own ends is what `strip` yields. */
  lemma StripWitness(s: string, i: nat, j: nat)
    requires i <= j <= |s|
    requires SpaceOutside(s, i, j)
    requires i < j ==> !IsSpace(s[i]) && !IsSpace(s[j - 1])
    ensures IsStripOf(s[i..j], s)
  {
  }

  /** `s.strip()` only deletes characters. */
  lemma StripChars(s: string)
    ensures forall c :: c in Strip(s) ==> c in s
  {
    var r := Strip(s);
    var i: nat, j: nat :| i <= j <= |s| && r == s[i..j] && SpaceOutside(s, i, j);
    assert forall k :: 0 <= k < |r| ==> r[k] == s[i + k];
  }

  /** `LeadingSpace` is the one length whose prefix is all whitespace and is followed by non-whitespace. */
  lemma {:induction false} LeadingSpaceIs(s: string, n: nat)
    requires n <= |s|
    requires forall k :: 0 <= k < n ==> IsSpace(s[k])
    requires n < |s| ==> !IsSpace(s[n])
    ensures LeadingSpace(s) == n
  {
    if n > 0 {
      LeadingSpaceIs(s[1..], n - 1);
    }
  }

  /** `TrailingSpace` is the one length whose suffix is all whitespace and is preceded by non-whitespace. */
  lemma {:induction false} TrailingSpaceIs(s: string, n: nat)
    requires n <= |s|
    requires forall k :: |s| - n <= k < |s| ==> IsSpace(s[k])
    requires n < |s| ==> !IsSpace(s[|s| - 1 - n])
    ensures TrailingSpace(s) == n
  {
    if n > 0 {
      var s' := s[..|s| - 1];
      assert forall k :: |s'| - (n - 1) <= k < |s'| ==> s'[k] == s[k];
      TrailingSpaceIs(s', n - 1);
    }
  }

  /** `str.strip()` is determined by its characterization: whatever satisfies
      `IsStripOf(r, s)` is `Strip(s)`. */
  lemma StripUnique(r: string, s: string)
    requires IsStripOf(r, s)
    ensures r == Strip(s)
  {
    var i: nat, j: nat :| i <= j <= |s| && r == s[i..j] && SpaceOutside(s, i, j);
    if r == [] {
      LeadingSpaceIs(s, |s|);
    } else {
      StripOfSlice(s, i, j);
    }
  }

  lemma StripOfSlice(s: string, i: nat, j: nat)
    requires i < j <= |s| && SpaceOutside(s, i, j)
    requires !IsSpace(s[i]) && !IsSpace(s[j - 1])
    ensures Strip(s) == s[i..j]
  {
    LeadingSpaceIs(s, i);
    var t := s[i..];
    TrailingSpaceIs(t, |s| - j);
    assert t[..j - i] == s[i..j];
  }

  /** Stripping what is already stripped changes nothing. */
  lemma StripFixedPoint(s: string)
    requires NoOuterSpace(s)
    ensures Strip(s) == s
  {
    assert s[0..|s|] == s && SpaceOutside(s, 0, |s|);
    StripUnique(s, s);
  }

  // ---------------------------------------------------------------------
  // clean_text
  // ---------------------------------------------------------------------

  /** `clean_text(line)`: the three `replace` calls, then `strip()`. The result
      holds no marker and has no whitespace at either end; that it uses only
      characters of `line` is the lemma `CleanTextChars`. */
  function CleanText(line: string): (r: string)
    ensures Bullet !in r && Star !in r
    ensures NoOuterSpace(r)
    ensures |r| <= |line|
  {
    var once := RemoveChar(line, Bullet);
    RemoveCharChars(once, Star);
    var twice := RemoveChar(once, Star);
    RemoveDoubleStarChars(twice);
    var thrice := RemoveDoubleStar(twice);
    StripChars(thrice);
    Strip(thrice)
  }

  /** `clean_text` only deletes: every character of its result comes from the line. */
  lemma CleanTextChars(line: string)
    ensures forall c :: c in CleanText(line) ==> c in line
  {
    var once := RemoveChar(line, Bullet);
    var twice := RemoveChar(once, Star);
    var thrice := RemoveDoubleStar(twice);
    RemoveCharChars(line, Bullet);
    RemoveCharChars(once, Star);
    RemoveDoubleStarChars(twice);
    StripChars(thrice);
  }

  /** The chained `.replace("**", "")` runs after every `*` is gone: it is a no-op. */
  lemma {:induction false} DoubleStarReplaceIsNoOp(s: string)
    requires Star !in s
    ensures RemoveDoubleStar(s) == s
  {
    if s != [] {
      assert s[0] != Star;
      assert s == [s[0]] + s[1..];
      DoubleStarReplaceIsNoOp(s[1..]);
    }
  }

  /** Deleting bullets and then asterisks is one pass that drops both markers. */
  lemma {:induction false} RemoveBothIsRemoveMarkers(s: string)
    ensures RemoveChar(RemoveChar(s, Bullet), Star) == RemoveMarkers(s)
  {
    if s != [] {
      RemoveBothIsRemoveMarkers(s[1..]);
      var t := RemoveChar(s[1..], Bullet);
      if s[0] == Bullet {
        assert RemoveChar(s, Bullet) == t;
      } else {
        assert RemoveChar(s, Bullet) == [s[0]] + t;
        assert ([s[0]] + t)[1..] == t;
      }
    }
  }

  /** Dropping markers distributes over concatenation. */
  lemma {:induction false} RemoveMarkersAppend(a: string, b: string)
    ensures RemoveMarkers(a + b) == RemoveMarkers(a) + RemoveMarkers(b)
  {
    if a == [] {
      assert a + b == b;
    } else {
      assert (a + b)[0] == a[0] && (a + b)[1..] == a[1..] + b;
      RemoveMarkersAppend(a[1..], b);
    }
  }

  /** Text without markers is left as it is. */
  lemma {:induction false} RemoveMarkersOfPlain(s: string)
    requires Bullet !in s && Star !in s
    ensures RemoveMarkers(s) == s
  {
    if s != [] {
      assert s[0] in s;
      assert s == [s[0]] + s[1..];
      RemoveMarkersOfPlain(s[1..]);
    }
  }

  /** `clean_text` is "delete every marker, then strip": any other character,
      such as the `.` of a numbering `1.`, is kept in its original order. */
  lemma CleanTextIsStripOfRemoveMarkers(line: string)
    ensures CleanText(line) == Strip(RemoveMarkers(line))
  {
    RemoveBothIsRemoveMarkers(line);
    DoubleStarReplaceIsNoOp(RemoveChar(RemoveChar(line, Bullet), Star));
  }

  /** A line without markers and without outer whitespace is left as it is. */
  lemma CleanTextFixedPoint(line: string)
    requires Bullet !in line && Star !in line
    requires NoOuterSpace(line)
    ensures CleanText(line) == line
  {
    DoubleStarReplaceIsNoOp(line);
    StripFixedPoint(line);
  }

  /** `clean_text(clean_text(s)) == clean_text(s)`. */
  lemma CleanTextIdempotent(line: string)
    ensures CleanText(CleanText(line)) == CleanText(line)
  {
    CleanTextFixedPoint(CleanText(line));
  }

  /** A line made only of whitespace and markers cleans to the empty string. */
  lemma CleanTextOfBlank(line: string)
    requires forall c :: c in line ==> IsSpace(c) || IsMarker(c)
    ensures CleanText(line) == []
  {
    var r := CleanText(line);
    CleanTextChars(line);
    assert forall c :: c in r ==> IsSpace(c);
  }

  /** A bulleted item `"• " + item` loses its bullet and the space after it. */
  lemma CleanTextOfBulletItem(item: string)
    requires Bullet !in item && Star !in item
    requires item != [] && NoOuterSpace(item)
    ensures CleanText([Bullet, ' '] + item) == item
  {
    CleanTextIsStripOfRemoveMarkers([Bullet, ' '] + item);
    RemoveMarkersOfBulletItem(item);
    StripOfSlice([' '] + item, 1, 1 + |item|);
    assert ([' '] + item)[1..] == item;
  }

  lemma RemoveMarkersOfBulletItem(item: string)
    requires Bullet !in item && Star !in item
    ensures RemoveMarkers([Bullet, ' '] + item) == [' '] + item
  {
    var spaced := [' '] + item;
    assert [Bullet, ' '] + item == [Bullet] + spaced;
    RemoveMarkersAppend([Bullet], spaced);
    assert RemoveMarkers([Bullet]) == [];
    RemoveMarkersOfPlain(spaced);
  }

  /** Emphasis markers around a tag disappear: `"**" + tag + "**" + rest`
      cleans to `tag + rest`. */
  lemma CleanTextOfBoldLabel(tag: string, rest: string)
    requires Bullet !in tag && Star !in tag && Bullet !in rest && Star !in rest
    requires NoOuterSpace(tag + rest)
    ensures CleanText([Star, Star] + tag + [Star, Star] + rest) == tag + rest
  {
    CleanTextIsStripOfRemoveMarkers([Star, Star] + tag + [Star, Star] + rest);
    RemoveMarkersOfBoldLabel(tag, rest);
    StripFixedPoint(tag + rest);
  }

  lemma RemoveMarkersOfBoldLabel(tag: string, rest: string)
    requires Bullet !in tag && Star !in tag && Bullet !in rest && Star !in rest
    ensures RemoveMarkers([Star, Star] + tag + [Star, Star] + rest) == tag + rest
  {
    var stars := [Star, Star];
    var inner := tag + (stars + rest);
    assert stars + tag + stars + rest == stars + inner;
    RemoveMarkersAfterStars(inner);
    RemoveMarkersAppend(tag, stars + rest);
    RemoveMarkersOfPlain(tag);
    RemoveMarkersAfterStars(rest);
    RemoveMarkersOfPlain(rest);
  }

  /** A leading `"**"` contributes nothing to the filtered text. */
  lemma RemoveMarkersAfterStars(s: string)
    ensures RemoveMarkers([Star, Star] + s) == RemoveMarkers(s)
  {
    var t := [Star, Star] + s;
    assert t[0] == Star && t[1..] == [Star] + s;
    assert ([Star] + s)[0] == Star && ([Star] + s)[1..] == s;
  }

  /** A line with some character that is neither whitespace nor a marker keeps that character. */
  lemma CleanTextKeepsContent(line: string, k: nat)
    requires k < |line| && !IsSpace(line[k]) && !IsMarker(line[k])
    ensures line[k] in CleanText(line)
  {
    CleanTextIsStripOfRemoveMarkers(line);
    RemoveMarkersKeeps(line, k);
    var m := RemoveMarkers(line);
    var p :| 0 <= p < |m| && m[p] == line[k];
    StripKeepsNonSpace(m, p);
  }

  /** `str.strip()` keeps every character that is not whitespace. */
  lemma StripKeepsNonSpace(s: string, p: nat)
    requires p < |s| && !IsSpace(s[p])
    ensures s[p] in Strip(s)
  {
    var i := LeadingSpace(s);
    var t := s[i..];
    assert t[p - i] == s[p];
    var b := TrailingSpace(t);
    assert t[..|t| - b][p - i] == s[p];
  }

  lemma {:induction false} RemoveMarkersKeeps(s: string, k: nat)
    requires k < |s| && !IsMarker(s[k])
    ensures s[k] in RemoveMarkers(s)
  {
    if k > 0 {
      RemoveMarkersKeeps(s[1..], k - 1);
    }
  }
}
