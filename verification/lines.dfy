/**
  Python's `"\n".join(lines)` and, as its inverse, `s.split("\n")`.
 */
module Lines {

  /** `"\n".join(lines)`: separators between lines, none after the last. */
  function JoinLines(lines: seq<string>): (s: string)
    ensures |lines| == 0 ==> s == ""
    decreases |lines|
  {
    if |lines| == 0 then ""
    else if |lines| == 1 then lines[0]
    else lines[0] + "\n" + JoinLines(lines[1..])
  }

  /** The join starts with the first line, and a newline follows it when more lines come. */
  lemma JoinStartsWithFirstLine(lines: seq<string>)
    requires |lines| > 0
    ensures lines[0] <= JoinLines(lines)
    ensures |lines| > 1 ==> |JoinLines(lines)| > |lines[0]| && JoinLines(lines)[|lines[0]|] == '\n'
  {
    if |lines| > 1 {
      assert JoinLines(lines) == lines[0] + "\n" + JoinLines(lines[1..]);
    }
  }

  /** The join ends with the last line itself: no newline is added after it. */
  lemma {:induction false} JoinEndsWithLastLine(lines: seq<string>)
    requires |lines| > 0
    ensures |lines[|lines| - 1]| <= |JoinLines(lines)|
    ensures JoinLines(lines)[|JoinLines(lines)| - |lines[|lines| - 1]|..] == lines[|lines| - 1]
    decreases |lines|
  {
    if |lines| > 1 {
      var rest := lines[1..];
      JoinEndsWithLastLine(rest);
      assert rest[|rest| - 1] == lines[|lines| - 1];
      var s := JoinLines(lines);
      var t := JoinLines(rest);
      assert s == lines[0] + "\n" + t;
      assert s[|s| - |t|..] == t;
    }
  }

  /** `s.split("\n")`: the pieces between newlines; always at least one piece. */
  function SplitLines(s: string): (pieces: seq<string>)
    ensures |pieces| >= 1
    ensures forall i :: 0 <= i < |pieces| ==> '\n' !in pieces[i]
    decreases |s|
  {
    if |s| == 0 then [""]
    else
      var rest := SplitLines(s[1..]);
      if s[0] == '\n' then [""] + rest
      else [[s[0]] + rest[0]] + rest[1..]
  }

  /** A string without newlines splits into itself alone. */
  lemma {:induction false} SplitNoNewline(s: string)
    requires '\n' !in s
    ensures SplitLines(s) == [s]
    decreases |s|
  {
    if |s| > 0 {
      assert '\n' !in s[1..] by {
        forall j | 0 <= j < |s[1..]| ensures s[1..][j] != '\n' {
          assert s[1..][j] == s[j + 1];
        }
      }
      SplitNoNewline(s[1..]);
      assert [s[0]] + s[1..] == s;
    }
  }

  /** A newline after a newline-free first line splits it off. */
  lemma {:induction false} SplitAfterLine(a: string, b: string)
    requires '\n' !in a
    ensures SplitLines(a + "\n" + b) == [a] + SplitLines(b)
    decreases |a|
  {
    if |a| == 0 {
      assert a + "\n" + b == "\n" + b;
      assert ("\n" + b)[1..] == b;
    } else {
      var s := a + "\n" + b;
      assert s[0] == a[0];
      assert s[1..] == a[1..] + "\n" + b;
      assert '\n' !in a[1..] by {
        forall j | 0 <= j < |a[1..]| ensures a[1..][j] != '\n' {
          assert a[1..][j] == a[j + 1];
        }
      }
      SplitAfterLine(a[1..], b);
      assert [a[0]] + a[1..] == a;
    }
  }

  /**
    Splitting a join gives back the lines, provided there is at least one line
    and none contains a newline. With no lines the join is "" and splitting
    that yields one empty piece.
   */
  lemma {:induction false} SplitJoin(lines: seq<string>)
    requires |lines| >= 1
    requires forall i :: 0 <= i < |lines| ==> '\n' !in lines[i]
    ensures SplitLines(JoinLines(lines)) == lines
    decreases |lines|
  {
    if |lines| == 1 {
      SplitNoNewline(lines[0]);
    } else {
      SplitJoin(lines[1..]);
      SplitAfterLine(lines[0], JoinLines(lines[1..]));
      assert [lines[0]] + lines[1..] == lines;
    }
  }

  /** Prepending text to the first line prepends it to the join. */
  lemma {:induction false} PrependToFirst(prefix: string, lines: seq<string>)
    requires |lines| >= 1
    ensures JoinLines([prefix + lines[0]] + lines[1..]) == prefix + JoinLines(lines)
  {
    var l := [prefix + lines[0]] + lines[1..];
    assert l[1..] == lines[1..];
    if |lines| > 1 {
      var rest := JoinLines(lines[1..]);
      assert JoinLines(l) == (prefix + lines[0]) + "\n" + rest;
      assert JoinLines(lines) == lines[0] + "\n" + rest;
      assert (prefix + lines[0]) + "\n" + rest == prefix + (lines[0] + "\n" + rest);
    }
  }

  /** An empty first line contributes only its separator. */
  lemma EmptyFirst(lines: seq<string>)
    requires |lines| >= 1
    ensures JoinLines([""] + lines) == "\n" + JoinLines(lines)
  {
    var l := [""] + lines;
    assert l[0] == "" && l[1..] == lines;
    var rest := JoinLines(lines);
    assert JoinLines(l) == l[0] + "\n" + rest;
    assert l[0] + "\n" + rest == "\n" + rest;
  }

  /** Joining the pieces of a split rebuilds the string, whatever it holds. */
  lemma {:induction false} JoinSplit(s: string)
    ensures JoinLines(SplitLines(s)) == s
    decreases |s|
  {
    if |s| > 0 {
      var rest := SplitLines(s[1..]);
      JoinSplit(s[1..]);
      assert s == [s[0]] + s[1..];
      if s[0] == '\n' {
        assert SplitLines(s) == [""] + rest;
        EmptyFirst(rest);
      } else {
        assert SplitLines(s) == [[s[0]] + rest[0]] + rest[1..];
        PrependToFirst([s[0]], rest);
      }
    }
  }

  /** Python's `"".split("\n")` is `[""]`, one empty piece. */
  lemma SplitEmpty()
    ensures SplitLines("") == [""]
  {
  }
}
