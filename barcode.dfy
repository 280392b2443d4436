/**
 * `parse_barcode` (keysign/app.py and app.py carry the same code): a scanned
 * barcode such as `OPENPGP4FPR:<fingerprint>?k=v#k=v` is split like a URL;
 * its path is the fingerprint, its query and fragment parameters are merged
 * into the same dictionary.
 *
 * Of Python 2's `urlparse` the steps that split the text are kept: the
 * scheme is split off at the first ':' when it is exactly `http` (the fast
 * path of `urlsplit`), or when everything before it is a scheme character
 * and what follows is not a port number; then the fragment at the first
 * '#', then the query at the first '?'. Decoding the query and fragment
 * (`parse_qs`) is a parameter.
 */
module Barcode {
  import opened Strings

  /** The characters `urlparse` accepts in a scheme. */
  predicate IsSchemeChar(c: char) {
    ('a' <= c <= 'z') || ('A' <= c <= 'Z') || ('0' <= c <= '9') || c == '+' || c == '-' || c == '.'
  }

  predicate SchemeChars(s: string) {
    forall k :: 0 <= k < |s| ==> IsSchemeChar(s[k])
  }

  predicate AllDigits(s: string) {
    forall k :: 0 <= k < |s| ==> '0' <= s[k] <= '9'
  }

  /** A URL as `urlparse` returns it, for the parts this application reads. */
  datatype Url = Url(scheme: string, path: string, query: string, fragment: string)

  /** The text before the first c (all of s when c is absent) and the text after it. */
  function SplitOnce(s: string, c: char): (r: (string, string))
    ensures c !in r.0
    ensures c in s ==> s == r.0 + [c] + r.1
    ensures c !in s ==> r == (s, "")
  {
    var i := Find(s, c);
    if i == -1 then (s, "") else
      assert s == s[..i] + [c] + s[i + 1..];
      (s[..i], s[i + 1..])
  }

  /**
   * Whether `urlsplit` takes the text up to the first ':' as the scheme:
   * always for `http`, otherwise only for scheme characters followed by
   * something that is not a port number.
   */
  predicate HasScheme(s: string) {
    var i := Find(s, ':');
    i > 0 &&
    (s[..i] == "http" || (SchemeChars(s[..i]) && (i + 1 == |s| || !AllDigits(s[i + 1..]))))
  }

  /** `urlparse(s)`, reduced to scheme, path, query and fragment. */
  function ParseUrl(s: string): (u: Url)
    ensures '?' !in u.path && '#' !in u.path
    ensures '#' !in u.query
  {
    var (scheme, rest) := if HasScheme(s) then SplitOnce(s, ':') else ("", s);
    var (beforeFragment, fragment) := SplitOnce(rest, '#');
    var (path, query) := SplitOnce(beforeFragment, '?');
    Url(scheme, path, query, fragment)
  }

  /** A value of the parsed dictionary: a `parse_qs` list, or the fingerprint text. */
  datatype Param = Values(vs: seq<string>) | Text(s: string)

  /**
   * `parse_barcode`: the query parameters, overridden by the fragment
   * parameters, and the path under the key "fingerprint".
   */
  function ParseBarcode(barcode: string, parseQs: string -> map<string, seq<string>>): (rest: map<string, Param>)
    ensures "fingerprint" in rest && rest["fingerprint"] == Text(ParseUrl(barcode).path)
    ensures rest.Keys == parseQs(ParseUrl(barcode).query).Keys + parseQs(ParseUrl(barcode).fragment).Keys + {"fingerprint"}
    ensures forall k :: k in rest && k != "fingerprint" ==>
      rest[k] == Values(if k in parseQs(ParseUrl(barcode).fragment) then parseQs(ParseUrl(barcode).fragment)[k]
                        else parseQs(ParseUrl(barcode).query)[k])
  {
    MergeParams(ParseUrl(barcode), parseQs)
  }

  /** The dictionary built from a parsed URL. */
  function MergeParams(u: Url, parseQs: string -> map<string, seq<string>>): (rest: map<string, Param>)
    ensures "fingerprint" in rest && rest["fingerprint"] == Text(u.path)
    ensures rest.Keys == parseQs(u.query).Keys + parseQs(u.fragment).Keys + {"fingerprint"}
    ensures forall k :: k in rest && k != "fingerprint" ==>
      rest[k] == Values(if k in parseQs(u.fragment) then parseQs(u.fragment)[k] else parseQs(u.query)[k])
  {
    var query := parseQs(u.query);
    var fragments := parseQs(u.fragment);
    var merged := map k | k in query.Keys + fragments.Keys :: Values(if k in fragments then fragments[k] else query[k]);
    merged["fingerprint" := Text(u.path)]
  }

  /** The data the send side puts into its QR code for a fingerprint. */
  function QrData(fingerprint: string): string {
    "OPENPGP4FPR:" + fingerprint
  }

  /**
   * Scanning the QR code the send side shows gives back the fingerprint, as
   * long as the fingerprint holds no '?' or '#' and is not made of decimal
   * digits only (then `urlparse` would read it as a port number and keep the
   * whole text as the path).
   */
  lemma {:induction false} QrRoundTrip(fingerprint: string, parseQs: string -> map<string, seq<string>>)
    requires '?' !in fingerprint && '#' !in fingerprint
    requires !AllDigits(fingerprint) || fingerprint == ""
    ensures ParseBarcode(QrData(fingerprint), parseQs)["fingerprint"] == Text(fingerprint)
  {
    var s := QrData(fingerprint);
    QrSchemeSplit(fingerprint);
    assert SplitOnce(fingerprint, '#') == (fingerprint, "");
    assert SplitOnce(fingerprint, '?') == (fingerprint, "");
    assert ParseUrl(s).path == fingerprint;
  }

  /** The QR text of a fingerprint that is not all digits splits at its scheme. */
  lemma QrSchemeSplit(fingerprint: string)
    requires !AllDigits(fingerprint) || fingerprint == ""
    ensures HasScheme(QrData(fingerprint))
    ensures SplitOnce(QrData(fingerprint), ':') == ("OPENPGP4FPR", fingerprint)
  {
    var s := QrData(fingerprint);
    var prefix := "OPENPGP4FPR";
    assert s == prefix + [':'] + fingerprint;
    FindAfterPrefix(prefix, ':', fingerprint);
    assert s[..11] == prefix;
    assert s[12..] == fingerprint;
    assert SchemeChars(prefix);
  }

  /**
   * A fingerprint of decimal digits only loses the scheme split: the whole
   * QR text, scheme included, becomes the path.
   */
  lemma {:induction false} QrDigitsKeepScheme(digits: string, parseQs: string -> map<string, seq<string>>)
    requires AllDigits(digits) && digits != ""
    ensures ParseBarcode(QrData(digits), parseQs)["fingerprint"] == Text(QrData(digits))
  {
    QrDigitsNoScheme(digits);
  }

  lemma QrDigitsNoScheme(digits: string)
    requires AllDigits(digits) && digits != ""
    ensures !HasScheme(QrData(digits))
    ensures '#' !in QrData(digits) && '?' !in QrData(digits)
  {
    var s := QrData(digits);
    var prefix := "OPENPGP4FPR";
    assert s == prefix + [':'] + digits;
    FindAfterPrefix(prefix, ':', digits);
    assert s[12..] == digits;
    assert '#' !in s && '?' !in s by {
      forall k | 0 <= k < |s| ensures s[k] != '#' && s[k] != '?' {
        if k >= 12 {
          assert s[k] == digits[k - 12];
        }
      }
    }
  }

  /**
   * The `http` fast path skips the port test: after `http:` even a text of
   * decimal digits only is the path.
   */
  lemma {:induction false} HttpDigitsPath(digits: string, parseQs: string -> map<string, seq<string>>)
    requires AllDigits(digits)
    ensures ParseBarcode("http:" + digits, parseQs)["fingerprint"] == Text(digits)
  {
    var s := "http:" + digits;
    var prefix := "http";
    assert s == prefix + [':'] + digits;
    FindAfterPrefix(prefix, ':', digits);
    assert s[..4] == prefix;
    assert HasScheme(s);
    assert SplitOnce(s, ':') == (prefix, digits) by {
      assert s[5..] == digits;
    }
    assert '#' !in digits && '?' !in digits by {
      forall k | 0 <= k < |digits| ensures digits[k] != '#' && digits[k] != '?' {
        assert '0' <= digits[k] <= '9';
      }
    }
    assert SplitOnce(digits, '#') == (digits, "");
    assert SplitOnce(digits, '?') == (digits, "");
    assert ParseUrl(s).path == digits;
  }
}
