/**
 The string primitives of the header plugin: the two JavaScript built-ins it
 calls, `String.prototype.padEnd` with a space and `Array.prototype.join` with a
 newline. `Split`, a split at newlines, is not called by the plugin; it is here
 to state line counts and as the inverse of `Join`. Strings are sequences of
 characters; no encoding is modelled.
 */
module Text {

  datatype Option<+T> = None | Some(value: T)

  const NewLine: char := '\n'
  const Space: char := ' '

  /** Position of the first `x` in `s`, or `|s|` when `s` holds no `x`. */
  function IndexOf<T(==)>(s: seq<T>, x: T): (i: nat)
    ensures i <= |s|
    ensures i < |s| ==> s[i] == x
    ensures forall j :: 0 <= j < i ==> s[j] != x
    ensures i == |s| <==> x !in s
  {
    if |s| == 0 then 0
    else if s[0] == x then 0
    else 1 + IndexOf(s[1..], x)
  }

  /** The first-occurrence property pins the index down. */
  lemma IndexOfUnique<T>(s: seq<T>, x: T, i: nat)
    requires i <= |s|
    requires i < |s| ==> s[i] == x
    requires forall j :: 0 <= j < i ==> s[j] != x
    ensures IndexOf(s, x) == i
  {
  }

  /** Searching a concatenation searches the left part first. */
  lemma IndexOfAppend<T>(a: seq<T>, b: seq<T>, x: T)
    ensures IndexOf(a + b, x) == if x in a then IndexOf(a, x) else |a| + IndexOf(b, x)
  {
    var ab := a + b;
    if x in a {
      var i := IndexOf(a, x);
      assert ab[i] == x;
      IndexOfUnique(ab, x, i);
    } else {
      var i := |a| + IndexOf(b, x);
      forall j | 0 <= j < i
        ensures ab[j] != x
      {
        if j >= |a| {
          assert ab[j] == b[j - |a|];
        }
      }
      IndexOfUnique(ab, x, i);
    }
  }

  /** `n` space characters. */
  function Spaces(n: nat): (s: string)
    ensures |s| == n
    ensures forall i :: 0 <= i < n ==> s[i] == Space
  {
    seq(n, _ => Space)
  }

  /**
   `s.padEnd(width, ' ')`: spaces are added on the right until the string is
   `width` long; a string already that long or longer is returned unchanged,
   never truncated.
   */
  function PadEnd(s: string, width: nat): (r: string)
    ensures |r| == if |s| < width then width else |s|
    ensures r[..|s|] == s
    ensures forall i :: |s| <= i < |r| ==> r[i] == Space
  {
    if |s| >= width then s else s + Spaces(width - |s|)
  }

  /** `lines.join('\n')`: the separator goes between lines, not after the last. */
  function Join(lines: seq<string>): string
  {
    if |lines| == 0 then ""
    else if |lines| == 1 then lines[0]
    else lines[0] + [NewLine] + Join(lines[1..])
  }

  /** `s.split('\n')`: the pieces between newlines, always at least one. */
  function Split(s: string): (lines: seq<string>)
    ensures |lines| >= 1
  {
    if |s| == 0 then [""]
    else
      var rest := Split(s[1..]);
      if s[0] == NewLine then [""] + rest
      else [[s[0]] + rest[0]] + rest[1..]
  }

  /** Every line followed by its own newline. */
  function Terminated(lines: seq<string>): string
  {
    if |lines| == 0 then "" else lines[0] + [NewLine] + Terminated(lines[1..])
  }

  /** Every line split at its own newlines, the pieces kept in order. */
  function SplitAll(lines: seq<string>): seq<string>
  {
    if |lines| == 0 then [] else Split(lines[0]) + SplitAll(lines[1..])
  }

  predicate NoNewLines(lines: seq<string>)
  {
    forall i :: 0 <= i < |lines| ==> NewLine !in lines[i]
  }

  /** A string without a newline splits into itself alone. */
  lemma {:induction false} SplitSingle(s: string)
    requires NewLine !in s
    ensures Split(s) == [s]
  {
    if |s| > 0 {
      assert NewLine !in s[1..] by {
        forall j | 0 <= j < |s[1..]|
          ensures s[1..][j] != NewLine
        {
          assert s[1..][j] == s[j + 1];
        }
      }
      SplitSingle(s[1..]);
      assert [s[0]] + s[1..] == s;
    }
  }

  /** A newline in the text is a line boundary in the split. */
  lemma {:induction false} SplitConcat(a: string, b: string)
    ensures Split(a + [NewLine] + b) == Split(a) + Split(b)
  {
    var s := a + [NewLine] + b;
    if |a| == 0 {
      assert s == [NewLine] + b;
      assert s[1..] == b;
    } else {
      assert s[0] == a[0];
      assert s[1..] == a[1..] + [NewLine] + b;
      var r, q := Split(a[1..]), Split(b);
      assert Split(s[1..]) == r + q by {
        SplitConcat(a[1..], b);
      }
      assert (r + q)[0] == r[0];
      assert (r + q)[1..] == r[1..] + q;
    }
  }

  /** The first line of a text that has one. */
  lemma SplitFirstLine(a: string, b: string)
    requires NewLine !in a
    ensures Split(a + [NewLine] + b) == [a] + Split(b)
  {
    SplitConcat(a, b);
    SplitSingle(a);
  }

  /** A last line followed by a newline ends the split with an empty string. */
  lemma SplitLastLine(c: string)
    requires NewLine !in c
    ensures Split(c + [NewLine]) == [c, ""]
  {
    assert c + [NewLine] == c + [NewLine] + "";
    SplitConcat(c, "");
    SplitSingle(c);
  }

  /** A sequence is its two pieces either side of a cut. */
  lemma Cut2<T>(s: seq<T>, i: nat)
    requires i <= |s|
    ensures s == s[..i] + s[i..]
  {
  }

  /** A sequence is its three pieces between two cuts. */
  lemma Cut3<T>(s: seq<T>, i: nat, j: nat)
    requires i <= j <= |s|
    ensures s == s[..i] + s[i..j] + s[j..]
  {
  }

  /** A sequence of at least three elements is its first one, its middle and its last two. */
  lemma Framed<T>(s: seq<T>)
    requires |s| >= 3
    ensures s == [s[0]] + s[1..|s| - 2] + [s[|s| - 2], s[|s| - 1]]
  {
  }

  lemma JoinCons(x: string, lines: seq<string>)
    requires |lines| >= 1
    ensures Join([x] + lines) == x + [NewLine] + Join(lines)
  {
    assert ([x] + lines)[1..] == lines;
  }

  /** Splitting undoes joining, as long as no line holds a newline of its own. */
  lemma {:induction false} SplitJoin(lines: seq<string>)
    requires |lines| >= 1
    requires NoNewLines(lines)
    ensures Split(Join(lines)) == lines
  {
    if |lines| == 1 {
      SplitSingle(lines[0]);
    } else {
      assert Split(lines[0] + [NewLine] + Join(lines[1..])) == [lines[0]] + Split(Join(lines[1..])) by {
        SplitFirstLine(lines[0], Join(lines[1..]));
      }
      SplitJoin(lines[1..]);
      assert [lines[0]] + lines[1..] == lines;
    }
  }

  /** A character put in front of the first line goes in front of the joined text. */
  lemma JoinPrepend(c: char, first: string, rest: seq<string>)
    ensures Join([[c] + first] + rest) == [c] + Join([first] + rest)
  {
    if |rest| == 0 {
      assert [[c] + first] + rest == [[c] + first];
      assert [first] + rest == [first];
    } else {
      var more := Join(rest);
      assert [c] + first + [NewLine] + more == [c] + (first + [NewLine] + more);
      assert Join([[c] + first] + rest) == [c] + first + [NewLine] + more by {
        JoinCons([c] + first, rest);
      }
      assert Join([first] + rest) == first + [NewLine] + more by {
        JoinCons(first, rest);
      }
    }
  }

  /** Joining undoes splitting, for every string. */
  lemma {:induction false} JoinSplit(s: string)
    ensures Join(Split(s)) == s
  {
    if |s| > 0 {
      var rest := Split(s[1..]);
      assert Join(rest) == s[1..] by {
        JoinSplit(s[1..]);
      }
      if s[0] == NewLine {
        JoinCons("", rest);
      } else {
        JoinPrepend(s[0], rest[0], rest[1..]);
        assert [rest[0]] + rest[1..] == rest;
      }
      assert [s[0]] + s[1..] == s;
    }
  }

  /** Joining with an empty last line terminates every other line. */
  lemma {:induction false} JoinEmptyLast(lines: seq<string>)
    ensures Join(lines + [""]) == Terminated(lines)
  {
    if |lines| > 0 {
      assert (lines + [""])[1..] == lines[1..] + [""];
      JoinEmptyLast(lines[1..]);
    }
  }

  lemma {:induction false} TerminatedAppend(a: seq<string>, b: seq<string>)
    ensures Terminated(a + b) == Terminated(a) + Terminated(b)
  {
    if |a| == 0 {
      assert a + b == b;
    } else {
      assert (a + b)[1..] == a[1..] + b;
      TerminatedAppend(a[1..], b);
    }
  }

  /** Splitting lines that each carry their newline splits every line in turn. */
  lemma {:induction false} SplitTerminated(lines: seq<string>, tail: string)
    ensures Split(Terminated(lines) + tail) == SplitAll(lines) + Split(tail)
  {
    if |lines| > 0 {
      var rest := Terminated(lines[1..]) + tail;
      var x, p, q := Split(lines[0]), SplitAll(lines[1..]), Split(tail);
      assert x + (p + q) == (x + p) + q;
      assert SplitAll(lines) == x + p;
      assert Terminated(lines) + tail == lines[0] + [NewLine] + rest;
      assert Split(lines[0] + [NewLine] + rest) == x + Split(rest) by {
        SplitConcat(lines[0], rest);
      }
      assert Split(rest) == p + q by {
        SplitTerminated(lines[1..], tail);
      }
    } else {
      assert Terminated(lines) + tail == tail;
    }
  }

  /**
   A block framed by an opening and a closing line, every line terminated:
   the split gives the opening line, the pieces of the body lines, the closing
   line and one empty string.
   */
  lemma SplitFramed(open: string, body: seq<string>, close: string)
    requires NewLine !in open && NewLine !in close
    ensures Split(open + [NewLine] + Terminated(body) + close + [NewLine])
         == [open] + SplitAll(body) + [close, ""]
  {
    var tail := close + [NewLine];
    var rest := Terminated(body) + tail;
    var middle := SplitAll(body);
    assert [open] + (middle + [close, ""]) == [open] + middle + [close, ""];
    assert open + [NewLine] + Terminated(body) + close + [NewLine] == open + [NewLine] + rest;
    assert Split(open + [NewLine] + rest) == [open] + Split(rest) by {
      SplitFirstLine(open, rest);
    }
    assert Split(rest) == middle + [close, ""] by {
      SplitLastLine(close);
      SplitTerminated(body, tail);
    }
  }

  lemma {:induction false} SplitAllSingle(lines: seq<string>)
    requires NoNewLines(lines)
    ensures SplitAll(lines) == lines
  {
    if |lines| > 0 {
      SplitSingle(lines[0]);
      SplitAllSingle(lines[1..]);
    }
  }
}
