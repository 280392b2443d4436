/**
 * The few Python 2 `str` operations the key-signing code relies on, written
 * over `string` (= seq<char>): whitespace as `str.split()`/`str.strip()` see it,
 * ASCII `upper()`, `find`, `split(sep)`, `join`, `replace(c, '')`,
 * `startswith` and `str(n)` for a natural number.
 */
module Strings {

  /** The characters Python 2's `str.isspace` accepts: space, \t, \n, \r, \v, \f. */
  predicate IsSpace(c: char) {
    c == ' ' || c == '\t' || c == '\n' || c == '\r' || c == '\U{0B}' || c == '\U{0C}'
  }

  predicate NoSpace(s: string) {
    forall i :: 0 <= i < |s| ==> !IsSpace(s[i])
  }

  /** `str.upper()` on a Python 2 byte string: only a-z change. */
  function UpperChar(c: char): (u: char)
    ensures IsSpace(u) <==> IsSpace(c)
    ensures !('a' <= u <= 'z')
  {
    if 'a' <= c <= 'z' then (c as int - 32) as char else c
  }

  function Upper(s: string): (r: string)
    ensures |r| == |s|
    ensures forall i :: 0 <= i < |s| ==> r[i] == UpperChar(s[i])
  {
    if |s| == 0 then "" else [UpperChar(s[0])] + Upper(s[1..])
  }

  predicate NoLower(s: string) {
    forall i :: 0 <= i < |s| ==> !('a' <= s[i] <= 'z')
  }

  /** `''.join(s.split())`: every whitespace character dropped, the rest kept in order. */
  function RemoveSpaces(s: string): (r: string)
    ensures |r| <= |s|
    ensures NoSpace(r)
  {
    if |s| == 0 then ""
    else if IsSpace(s[0]) then RemoveSpaces(s[1..])
    else [s[0]] + RemoveSpaces(s[1..])
  }

  lemma {:induction false} RemoveSpacesAppend(a: string, b: string)
    ensures RemoveSpaces(a + b) == RemoveSpaces(a) + RemoveSpaces(b)
  {
    if |a| == 0 {
      assert a + b == b;
    } else {
      assert (a + b)[1..] == a[1..] + b;
      RemoveSpacesAppend(a[1..], b);
    }
  }

  lemma {:induction false} RemoveSpacesOfNoSpace(s: string)
    requires NoSpace(s)
    ensures RemoveSpaces(s) == s
  {
    if |s| > 0 {
      RemoveSpacesOfNoSpace(s[1..]);
    }
  }

  /** `s.rstrip()`: trailing whitespace removed. */
  function RStrip(s: string): (r: string)
    ensures |r| <= |s| && r == s[..|r|]
    ensures r == [] || !IsSpace(r[|r| - 1])
    ensures forall i :: |r| <= i < |s| ==> IsSpace(s[i])
  {
    if |s| > 0 && IsSpace(s[|s| - 1]) then RStrip(s[..|s| - 1]) else s
  }

  /** `s.lstrip()`: leading whitespace removed. */
  function LStrip(s: string): (r: string)
    ensures |r| <= |s| && r == s[|s| - |r|..]
    ensures r == [] || !IsSpace(r[0])
    ensures forall i :: 0 <= i < |s| - |r| ==> IsSpace(s[i])
  {
    if |s| > 0 && IsSpace(s[0]) then
      var r := LStrip(s[1..]);
      assert s[1..][|s| - 1 - |r|..] == s[|s| - |r|..];
      r
    else s
  }

  /** `s.strip()`. */
  function Strip(s: string): string {
    LStrip(RStrip(s))
  }

  /** Stripping only removes characters. */
  lemma StripSubset(s: string)
    ensures forall x :: x in Strip(s) ==> x in s
  {
    var r := RStrip(s);
    var t := LStrip(r);
    forall x | x in t ensures x in s {
      var k :| 0 <= k < |t| && t[k] == x;
      assert t[k] == r[|r| - |t| + k];
      assert r[|r| - |t| + k] == s[|r| - |t| + k];
    }
  }

  /** The result of `strip()` has no whitespace at either end. */
  lemma StripIsStripped(s: string)
    ensures Stripped(Strip(s))
  {
    var r := RStrip(s);
    var t := LStrip(r);
    if |t| > 0 {
      assert t[|t| - 1] == r[|r| - 1];
    }
  }

  /** s has no whitespace at either end, so `s.strip() == s`. */
  predicate Stripped(s: string) {
    s == [] || (!IsSpace(s[0]) && !IsSpace(s[|s| - 1]))
  }

  lemma StripOfStripped(s: string)
    requires Stripped(s)
    ensures Strip(s) == s
  {
  }

  lemma StripTrailingSpace(s: string)
    requires Stripped(s)
    ensures Strip(s + " ") == s
  {
    assert (s + " ")[..|s|] == s;
  }

  lemma {:induction false} StripLeadingSpace(s: string)
    requires Stripped(s)
    ensures Strip(" " + s) == s
  {
    assert (" " + s)[1..] == s;
    if |s| > 0 {
      assert (" " + s)[|" " + s| - 1] == s[|s| - 1];
    }
  }

  /** `s.find(c)`: the index of the first c in s, or -1. */
  function Find(s: string, c: char): (r: int)
    ensures -1 <= r < |s|
    ensures r >= 0 ==> s[r] == c && forall j :: 0 <= j < r ==> s[j] != c
    ensures r == -1 <==> c !in s
  {
    if |s| == 0 then -1
    else if s[0] == c then 0
    else
      var k := Find(s[1..], c);
      if k == -1 then -1 else k + 1
  }

  lemma FindAfterPrefix(a: string, c: char, b: string)
    requires c !in a
    ensures Find(a + [c] + b, c) == |a|
  {
    assert (a + [c] + b)[|a|] == c;
  }

  lemma {:induction false} FindInSuffix(a: string, c: char, b: string)
    requires c !in a && c in b
    ensures Find(a + b, c) == |a| + Find(b, c)
  {
    if |a| == 0 {
      assert a + b == b;
    } else {
      assert (a + b)[0] == a[0] && a[0] != c;
      assert (a + b)[1..] == a[1..] + b;
      FindInSuffix(a[1..], c, b);
    }
  }

  /** `s.split(sep)` for a one-character separator: the pieces between separators. */
  function Split(s: string, sep: char): (parts: seq<string>)
    ensures |parts| >= 1
    decreases |s|
  {
    var i := Find(s, sep);
    if i == -1 then [s] else [s[..i]] + Split(s[i + 1..], sep)
  }

  /** No piece of a split holds the separator. */
  lemma {:induction false} SplitNoSep(s: string, sep: char)
    ensures forall i :: 0 <= i < |Split(s, sep)| ==> sep !in Split(s, sep)[i]
    decreases |s|
  {
    var i := Find(s, sep);
    if i != -1 {
      var tail := Split(s[i + 1..], sep);
      SplitNoSep(s[i + 1..], sep);
      var parts := Split(s, sep);
      assert parts == [s[..i]] + tail;
      assert sep !in s[..i] by {
        forall j | 0 <= j < i ensures s[..i][j] != sep {
          assert s[..i][j] == s[j];
        }
      }
      forall k | 0 <= k < |parts| ensures sep !in parts[k] {
        if k > 0 {
          assert parts[k] == tail[k - 1];
        }
      }
    }
  }

  /** `sep.join(parts)`. */
  function Join(parts: seq<string>, sep: string): string {
    if |parts| == 0 then ""
    else if |parts| == 1 then parts[0]
    else parts[0] + sep + Join(parts[1..], sep)
  }

  lemma SplitUnfold(s: string, sep: char)
    requires sep in s
    ensures Split(s, sep) == [s[..Find(s, sep)]] + Split(s[Find(s, sep) + 1..], sep)
  {
  }

  lemma JoinCons(a: string, tail: seq<string>, sep: string)
    requires |tail| >= 1
    ensures Join([a] + tail, sep) == a + sep + Join(tail, sep)
  {
    assert ([a] + tail)[1..] == tail;
  }

  /** Splitting and joining with the same separator gives the text back. */
  lemma {:induction false} JoinSplit(s: string, sep: char)
    ensures Join(Split(s, sep), [sep]) == s
    decreases |s|
  {
    if sep in s {
      var i := Find(s, sep);
      JoinSplitStep(s, sep);
      JoinSplit(s[i + 1..], sep);
      SplitAround(s, i);
    }
  }

  lemma SplitAround(s: string, i: nat)
    requires i < |s|
    ensures s == s[..i] + [s[i]] + s[i + 1..]
  {
  }

  lemma JoinSplitStep(s: string, sep: char)
    requires sep in s
    ensures Join(Split(s, sep), [sep]) == s[..Find(s, sep)] + [sep] + Join(Split(s[Find(s, sep) + 1..], sep), [sep])
  {
    var i := Find(s, sep);
    SplitUnfold(s, sep);
    JoinCons(s[..i], Split(s[i + 1..], sep), [sep]);
  }

  /** Splitting a text whose pieces are already free of the separator recovers them. */
  lemma {:induction false} SplitJoin(parts: seq<string>, sep: char)
    requires |parts| >= 1
    requires forall i :: 0 <= i < |parts| ==> sep !in parts[i]
    ensures Split(Join(parts, [sep]), sep) == parts
  {
    var p0 := parts[0];
    if |parts| > 1 {
      var tail := parts[1..];
      forall i | 0 <= i < |tail| ensures sep !in tail[i] {
        assert tail[i] == parts[i + 1];
      }
      var rest := Join(tail, [sep]);
      assert Join(parts, [sep]) == p0 + [sep] + rest;
      SplitAfterPrefix(p0, sep, rest);
      SplitJoin(tail, sep);
      assert parts == [p0] + tail;
    } else {
      assert Find(p0, sep) == -1;
    }
  }

  /** `s.replace(c, '')`. */
  function RemoveChar(s: string, c: char): (r: string)
    ensures c !in r
    ensures |r| <= |s|
    ensures forall x :: x in r ==> x in s
  {
    if |s| == 0 then ""
    else if s[0] == c then RemoveChar(s[1..], c)
    else [s[0]] + RemoveChar(s[1..], c)
  }

  lemma {:induction false} RemoveCharAbsent(s: string, c: char)
    requires c !in s
    ensures RemoveChar(s, c) == s
  {
    if |s| > 0 {
      RemoveCharAbsent(s[1..], c);
    }
  }

  lemma {:induction false} RemoveCharAppend(a: string, b: string, c: char)
    ensures RemoveChar(a + b, c) == RemoveChar(a, c) + RemoveChar(b, c)
  {
    if |a| == 0 {
      assert a + b == b;
    } else {
      assert (a + b)[1..] == a[1..] + b;
      RemoveCharAppend(a[1..], b, c);
    }
  }

  /** Removing c from a text with one c in it drops just that character. */
  lemma {:induction false} RemoveCharAt(a: string, c: char, b: string)
    requires c !in a && c !in b
    ensures RemoveChar(a + [c] + b, c) == a + b
  {
    var s := a + [c] + b;
    if |a| == 0 {
      assert s == [c] + b;
      assert s[1..] == b;
      RemoveCharAbsent(b, c);
    } else {
      assert s[0] == a[0] && a[0] != c;
      assert s[1..] == a[1..] + [c] + b;
      RemoveCharAt(a[1..], c, b);
      assert a + b == [a[0]] + (a[1..] + b);
    }
  }

  /** `s.startswith(p)`. */
  predicate StartsWith(s: string, p: string) {
    |p| <= |s| && s[..|p|] == p
  }

  /** `str(n)` for a natural number: its decimal digits. */
  function NatToString(n: nat): (r: string)
    ensures |r| >= 1
    ensures forall i :: 0 <= i < |r| ==> '0' <= r[i] <= '9'
  {
    var d := ['0', '1', '2', '3', '4', '5', '6', '7', '8', '9'];
    if n < 10 then [d[n]] else NatToString(n / 10) + [d[n % 10]]
  }

  /** The value of a decimal digit. */
  function DigitValue(c: char): nat
    requires '0' <= c <= '9'
  {
    c as int - '0' as int
  }

  /** The number a text of decimal digits denotes, read from the left. */
  function DigitsValue(s: string): nat
    requires forall i :: 0 <= i < |s| ==> '0' <= s[i] <= '9'
  {
    if |s| == 0 then 0 else 10 * DigitsValue(s[..|s| - 1]) + DigitValue(s[|s| - 1])
  }

  /** The digits `str(n)` produces denote n, and there is no leading zero. */
  lemma {:induction false} NatToStringValue(n: nat)
    ensures DigitsValue(NatToString(n)) == n
    ensures n > 0 ==> NatToString(n)[0] != '0'
  {
    var r := NatToString(n);
    if n < 10 {
      assert DigitsValue(r[..0]) == 0;
    } else {
      var prefix := NatToString(n / 10);
      NatToStringValue(n / 10);
      assert r[..|r| - 1] == prefix;
      assert DigitValue(r[|r| - 1]) == n % 10;
      assert r[0] == prefix[0];
    }
  }

  /** The text a loop builds by appending `"{}\n".format(x)` for every x in xs. */
  function Lines(xs: seq<string>): (r: string)
    ensures r == "" <==> |xs| == 0
  {
    if |xs| == 0 then "" else xs[0] + "\n" + Lines(xs[1..])
  }

  /** One more turn of such a loop appends one more line. */
  lemma LinesSnoc(xs: seq<string>, i: nat)
    requires i < |xs|
    ensures Lines(xs[..i + 1]) == Lines(xs[..i]) + xs[i] + "\n"
  {
    assert xs[..i + 1] == xs[..i] + [xs[i]];
    LinesAppend(xs[..i], [xs[i]]);
    assert Lines([xs[i]]) == xs[i] + "\n" + Lines([]);
  }

  /** A character other than the newline occurs in the lines only if it occurs in an item. */
  lemma {:induction false} LinesFree(xs: seq<string>, c: char)
    requires c != '\n'
    requires forall i :: 0 <= i < |xs| ==> c !in xs[i]
    ensures c !in Lines(xs)
  {
    if |xs| > 0 {
      LinesFree(xs[1..], c);
    }
  }

  lemma {:induction false} LinesAppend(a: seq<string>, b: seq<string>)
    ensures Lines(a + b) == Lines(a) + Lines(b)
  {
    if |a| == 0 {
      assert a + b == b;
    } else {
      assert (a + b)[1..] == a[1..] + b;
      LinesAppend(a[1..], b);
    }
  }

  lemma SplitAfterPrefix(a: string, sep: char, b: string)
    requires sep !in a
    ensures Split(a + [sep] + b, sep) == [a] + Split(b, sep)
  {
    var s := a + [sep] + b;
    FindAfterPrefix(a, sep, b);
    assert s[..|a|] == a;
    assert s[|a| + 1..] == b;
  }

  /** Splitting lines that start with one item peels that item off. */
  lemma SplitLinesHead(xs: seq<string>, tail: string)
    requires |xs| > 0 && '\n' !in xs[0]
    ensures Split(Lines(xs) + tail, '\n') == [xs[0]] + Split(Lines(xs[1..]) + tail, '\n')
  {
    var rest := Lines(xs[1..]) + tail;
    assert Lines(xs) + tail == xs[0] + ['\n'] + rest;
    SplitAfterPrefix(xs[0], '\n', rest);
  }

  /** Splitting at newlines a text that starts with lines recovers those lines, then splits the rest. */
  lemma {:induction false} SplitLinesPrefix(xs: seq<string>, tail: string)
    requires forall i :: 0 <= i < |xs| ==> '\n' !in xs[i]
    ensures Split(Lines(xs) + tail, '\n') == xs + Split(tail, '\n')
  {
    if |xs| == 0 {
      assert Lines(xs) + tail == tail;
    } else {
      var more := xs[1..];
      forall i | 0 <= i < |more| ensures '\n' !in more[i] {
        assert more[i] == xs[i + 1];
      }
      SplitLinesHead(xs, tail);
      SplitLinesPrefix(more, tail);
      ConsAppend(xs, Split(tail, '\n'));
    }
  }

  lemma ConsAppend<T>(xs: seq<T>, ys: seq<T>)
    requires |xs| > 0
    ensures [xs[0]] + (xs[1..] + ys) == xs + ys
  {
    assert xs == [xs[0]] + xs[1..];
  }

  /** When no item holds a newline, splitting the text at newlines gives the items back, plus the empty piece after the final newline. */
  lemma {:induction false} SplitLines(xs: seq<string>)
    requires forall i :: 0 <= i < |xs| ==> '\n' !in xs[i]
    ensures Split(Lines(xs), '\n') == xs + [""]
  {
    if |xs| > 0 {
      var rest := Lines(xs[1..]);
      calc {
        Split(Lines(xs), '\n');
        { assert Lines(xs) == xs[0] + ['\n'] + rest; }
        Split(xs[0] + ['\n'] + rest, '\n');
        { SplitAfterPrefix(xs[0], '\n', rest); }
        [xs[0]] + Split(rest, '\n');
        { SplitLines(xs[1..]); }
        [xs[0]] + (xs[1..] + [""]);
        { assert xs == [xs[0]] + xs[1..]; }
        xs + [""];
      }
    }
  }
}
