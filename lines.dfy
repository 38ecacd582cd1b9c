/**
 * Python's `str.split("\n")` and `"\n".join(...)` on strings, as used when
 * narrative text is broken into lines (`format_insights` in auto_report/report.py).
 */
module Lines {

  const NewLine: char := '\n'

  /** `s.split("\n")`: the pieces between line breaks. There is always at least
      one piece (`"".split("\n") == [""]`) and none holds a line break. */
  function Split(s: string): (pieces: seq<string>)
    ensures |pieces| >= 1
    ensures forall p :: p in pieces ==> NewLine !in p
  {
    if s == [] then [[]]
    else if s[0] == NewLine then [[]] + Split(s[1..])
    else
      var rest := Split(s[1..]);
      [[s[0]] + rest[0]] + rest[1..]
  }

  /** `"\n".join(pieces)`: `"\n".join([]) == ""`. */
  function Join(pieces: seq<string>): (s: string)
    ensures pieces == [] ==> s == []
    ensures |pieces| >= 1 ==> pieces[0] <= s
    ensures |s| >= |pieces| - 1
  {
    if pieces == [] then []
    else if |pieces| == 1 then pieces[0]
    else pieces[0] + [NewLine] + Join(pieces[1..])
  }

  /** Splitting and re-joining gives back the text. */
  lemma {:induction false} JoinSplit(s: string)
    ensures Join(Split(s)) == s
  {
    if s != [] {
      JoinSplit(s[1..]);
      var rest := Split(s[1..]);
      if s[0] != NewLine {
        var pieces := Split(s);
        assert pieces[1..] == rest[1..];
        if |rest| == 1 {
          assert Join(pieces) == [s[0]] + rest[0];
        } else {
          assert Join(pieces) == [s[0]] + rest[0] + [NewLine] + Join(rest[1..]);
        }
      } else {
        assert [[]] + rest != [] && ([[]] + rest)[1..] == rest;
      }
    }
  }

  /** Every character of every piece comes from the text. */
  lemma {:induction false} SplitPiecesFromText(s: string)
    ensures forall p, c :: p in Split(s) && c in p ==> c in s
  {
    if s != [] {
      SplitPiecesFromText(s[1..]);
      var rest := Split(s[1..]);
      if s[0] != NewLine {
        assert forall c :: c in [s[0]] + rest[0] ==> c == s[0] || c in rest[0];
        assert forall p :: p in rest[1..] ==> p in rest;
      }
    }
  }

  /** Splitting `p + x` with no line break in `p` glues `p` to the first piece of `x`. */
  lemma {:induction false} SplitPlainPrefix(p: string, x: string)
    requires NewLine !in p
    ensures Split(p + x) == [p + Split(x)[0]] + Split(x)[1..]
  {
    var sx := Split(x);
    if p == [] {
      assert p + x == x && p + sx[0] == sx[0];
      assert [sx[0]] + sx[1..] == sx;
    } else {
      SplitPlainPrefix(p[1..], x);
      assert (p + x)[0] == p[0] != NewLine;
      assert (p + x)[1..] == p[1..] + x;
      var rest := Split(p[1..] + x);
      assert rest[0] == p[1..] + sx[0] && rest[1..] == sx[1..];
      assert [p[0]] + (p[1..] + sx[0]) == p + sx[0];
    }
  }

  /** The number of pieces is one more than the number of line breaks. */
  lemma {:induction false} SplitCount(s: string)
    ensures |Split(s)| == multiset(s)[NewLine] + 1
  {
    if s != [] {
      SplitCount(s[1..]);
      assert s == [s[0]] + s[1..];
      assert multiset(s) == multiset([s[0]]) + multiset(s[1..]);
    }
  }

  /** Joining pieces free of line breaks and splitting again gives back the pieces. */
  lemma {:induction false} SplitJoin(pieces: seq<string>)
    requires |pieces| >= 1
    requires forall p :: p in pieces ==> NewLine !in p
    ensures Split(Join(pieces)) == pieces
  {
    var p := pieces[0];
    if |pieces| == 1 {
      SplitPlainPrefix(p, []);
      assert p + [] == p;
    } else {
      var rest := pieces[1..];
      assert forall q :: q in rest ==> q in pieces;
      SplitJoin(rest);
      var tail := [NewLine] + Join(rest);
      assert Join(pieces) == p + tail;
      assert tail[0] == NewLine && tail[1..] == Join(rest);
      var st := Split(tail);
      assert st == [[]] + rest;
      assert st[0] == [] && st[1..] == rest;
      SplitPlainPrefix(p, tail);
      assert p + [] == p;
      assert pieces == [p] + rest;
    }
  }
}
