/**
 * The fingerprint helpers that keysign/app.py, app.py and utils.py each carry
 * a copy of: `clean_fingerprint`, `is_valid_fingerprint` and the display
 * formatter (`format_fingerprint` in keysign/app.py, `format_fpr` elsewhere).
 * The three copies are textually the same code and are modelled once.
 *
 * A version 4 OpenPGP fingerprint is 160 bits, 40 hex digits (section 12.2
 * of RFC 4880). Validation only looks at the length after cleaning; the
 * characters are not checked to be hex digits.
 */
module Fingerprint {
  import opened Strings

  /** The length of a V4 fingerprint written in hex. */
  const V4Length := 40

  /** `clean_fingerprint`: all whitespace removed, then upper-cased. */
  function Clean(fpr: string): (r: string)
    ensures NoSpace(r) && NoLower(r)
    ensures |r| <= |fpr|
  {
    Upper(RemoveSpaces(fpr))
  }

  /** `is_valid_fingerprint`: exactly 40 characters once cleaned. */
  predicate IsValid(fpr: string) {
    |Clean(fpr)| == V4Length
  }

  /** How many characters of s are not whitespace: a reference count for validity. */
  function CountNonSpace(s: string): nat {
    if |s| == 0 then 0 else (if IsSpace(s[0]) then 0 else 1) + CountNonSpace(s[1..])
  }

  lemma UpperOfNoLower(s: string)
    requires NoLower(s)
    ensures Upper(s) == s
  {
  }

  /** Cleaning twice is cleaning once. */
  lemma CleanIdempotent(fpr: string)
    ensures Clean(Clean(fpr)) == Clean(fpr)
  {
    var c := Clean(fpr);
    RemoveSpacesOfNoSpace(c);
    UpperOfNoLower(c);
  }

  /** Cleaning keeps exactly the non-whitespace characters. */
  lemma {:induction false} CleanLength(fpr: string)
    ensures |Clean(fpr)| == CountNonSpace(fpr)
  {
    if |fpr| > 0 {
      CleanLength(fpr[1..]);
    }
  }

  /** Valid exactly when the input holds 40 non-whitespace characters, whatever they are. */
  lemma IsValidIff(fpr: string)
    ensures IsValid(fpr) <==> CountNonSpace(fpr) == V4Length
  {
    CleanLength(fpr);
  }

  /** Validating the cleaned text gives the same answer as validating the raw text. */
  lemma IsValidOfClean(fpr: string)
    ensures IsValid(Clean(fpr)) <==> IsValid(fpr)
  {
    CleanIdempotent(fpr);
  }

  lemma {:induction false} CleanAppend(a: string, b: string)
    ensures Clean(a + b) == Clean(a) + Clean(b)
  {
    RemoveSpacesAppend(a, b);
    var x, y := RemoveSpaces(a), RemoveSpaces(b);
    assert Upper(x + y) == Upper(x) + Upper(y);
  }

  /** Whitespace anywhere in the input makes no difference to the cleaned fingerprint. */
  lemma CleanIgnoresSpace(a: string, c: char, b: string)
    requires IsSpace(c)
    ensures Clean(a + [c] + b) == Clean(a + b)
  {
    CleanAppend(a + [c], b);
    CleanAppend(a, [c]);
    CleanAppend(a, b);
  }

  // ----- display formatting -----

  /** The separator the loop appends after the group starting at i. */
  function SepChar(i: nat): char {
    if i != 0 && (i + 4) % 20 == 0 then '\n' else ' '
  }

  /** `fpr[i:i+4]`: Python's slice stops at the end of the text. */
  function Group(fpr: string, i: nat): string
    requires i < |fpr|
  {
    fpr[i..if i + 4 <= |fpr| then i + 4 else |fpr|]
  }

  /** What the loop of `format_fingerprint` appends from position i onwards. */
  function Grouped(fpr: string, i: nat): string
    decreases |fpr| - i
  {
    if i >= |fpr| then "" else Group(fpr, i) + [SepChar(i)] + Grouped(fpr, i + 4)
  }

  /** The display form: groups and separators, trailing whitespace removed. */
  function Formatted(fpr: string): (r: string)
    ensures r == [] || !IsSpace(r[|r| - 1])
  {
    RStrip(Grouped(fpr, 0))
  }

  /**
   * `format_fingerprint` / `format_fpr`: four characters at a time, each group
   * followed by a space or, when it closes a run of twenty characters, a newline;
   * then `rstrip()`.
   */
  method FormatFingerprint(fpr: string) returns (r: string)
    ensures r == Formatted(fpr)
    ensures r == [] || !IsSpace(r[|r| - 1])
  {
    var res := "";
    var i := 0;
    while i < |fpr|
      invariant res + Grouped(fpr, i) == Grouped(fpr, 0)
      decreases |fpr| - i
    {
      var end := if i + 4 <= |fpr| then i + 4 else |fpr|;
      var sep;
      if i != 0 && (i + 4) % 20 == 0 {
        sep := "\n";
      } else {
        sep := " ";
      }
      GroupedStep(fpr, i, res);
      res := res + fpr[i..end] + sep;
      i := i + 4;
    }
    assert Grouped(fpr, i) == "";
    assert res == res + Grouped(fpr, i);
    r := RStrip(res);
  }

  /** One turn of the loop: what it appends at i, followed by the rest, is Grouped from i. */
  lemma GroupedStep(fpr: string, i: nat, res: string)
    requires i < |fpr|
    ensures res + fpr[i..if i + 4 <= |fpr| then i + 4 else |fpr|] + [SepChar(i)] + Grouped(fpr, i + 4)
      == res + Grouped(fpr, i)
  {
  }

  lemma {:induction false} RemoveSpacesOfSpaces(s: string)
    requires forall i :: 0 <= i < |s| ==> IsSpace(s[i])
    ensures RemoveSpaces(s) == ""
  {
    if |s| > 0 {
      RemoveSpacesOfSpaces(s[1..]);
    }
  }

  /** rstrip only ever removes whitespace. */
  lemma RemoveSpacesRStrip(s: string)
    ensures RemoveSpaces(RStrip(s)) == RemoveSpaces(s)
  {
    var r := RStrip(s);
    var tail := s[|r|..];
    assert s == r + tail;
    RemoveSpacesAppend(r, tail);
    RemoveSpacesOfSpaces(tail);
  }

  lemma {:induction false} GroupedRoundTrip(fpr: string, i: nat)
    requires NoSpace(fpr) && i <= |fpr|
    ensures RemoveSpaces(Grouped(fpr, i)) == fpr[i..]
    decreases |fpr| - i
  {
    if i < |fpr| {
      var g := Group(fpr, i);
      var rest := Grouped(fpr, i + 4);
      RemoveSpacesAppend(g + [SepChar(i)], rest);
      RemoveSpacesAppend(g, [SepChar(i)]);
      RemoveSpacesOfNoSpace(g);
      if i + 4 <= |fpr| {
        GroupedRoundTrip(fpr, i + 4);
        assert fpr[i..] == g + fpr[i + 4..];
      } else {
        assert rest == "";
      }
    }
  }

  /** For whitespace-free input, removing the whitespace from the display form gives the input back. */
  lemma FormattedRoundTrip(fpr: string)
    requires NoSpace(fpr)
    ensures RemoveSpaces(Formatted(fpr)) == fpr
  {
    RemoveSpacesRStrip(Grouped(fpr, 0));
    GroupedRoundTrip(fpr, 0);
  }

  /** Cleaning the display form of a cleaned fingerprint gives the cleaned fingerprint. */
  lemma FormatThenClean(f: string)
    ensures Clean(Formatted(Clean(f))) == Clean(f)
  {
    var c := Clean(f);
    FormattedRoundTrip(c);
    UpperOfNoLower(c);
  }

  /** The character at position k of the display form of a whole number of groups, counted from group j. */
  function LayoutChar(fpr: string, j: nat, k: nat): char
    requires 4 * (j + k / 5) + k % 5 < |fpr| || k % 5 == 4
  {
    if k % 5 == 4 then SepChar(4 * (j + k / 5)) else fpr[4 * (j + k / 5) + k % 5]
  }

  lemma {:induction false} GroupedLength(fpr: string, j: nat, m: nat)
    requires |fpr| == 4 * m && j <= m
    ensures |Grouped(fpr, 4 * j)| == 5 * (m - j)
    decreases m - j
  {
    if j < m {
      GroupedLength(fpr, j + 1, m);
    }
  }

  lemma {:induction false} GroupedAt(fpr: string, j: nat, m: nat, k: nat)
    requires |fpr| == 4 * m && j <= m && k < 5 * (m - j)
    ensures |Grouped(fpr, 4 * j)| == 5 * (m - j)
    ensures Grouped(fpr, 4 * j)[k] == LayoutChar(fpr, j, k)
    decreases k
  {
    GroupedLength(fpr, j, m);
    var head := Group(fpr, 4 * j) + [SepChar(4 * j)];
    var rest := Grouped(fpr, 4 * (j + 1));
    assert Grouped(fpr, 4 * j) == head + rest;
    if k >= 5 {
      GroupedAt(fpr, j + 1, m, k - 5);
      assert (k - 5) / 5 == k / 5 - 1 && (k - 5) % 5 == k % 5;
    }
  }

  /**
   * A 40-character fingerprint is shown as ten groups of four: single spaces
   * between groups, one newline after the fifth group, 49 characters in all.
   */
  lemma FormattedV4(fpr: string)
    requires NoSpace(fpr) && |fpr| == V4Length
    ensures |Formatted(fpr)| == 49
    ensures forall k :: 0 <= k < 49 ==>
      Formatted(fpr)[k] == if k == 24 then '\n' else if k % 5 == 4 then ' ' else fpr[4 * (k / 5) + k % 5]
    ensures forall k :: 0 <= k < 49 ==> (Formatted(fpr)[k] == '\n' <==> k == 24)
  {
    var g := Grouped(fpr, 0);
    GroupedAt(fpr, 0, 10, 49);
    GroupedAt(fpr, 0, 10, 48);
    assert RStrip(g) == g[..49];
    forall k | 0 <= k < 49
      ensures Formatted(fpr)[k] == if k == 24 then '\n' else if k % 5 == 4 then ' ' else fpr[4 * (k / 5) + k % 5]
    {
      GroupedAt(fpr, 0, 10, k);
    }
  }
}
