/**
 * utils.py: the demonstration key table the early prototypes list instead of
 * a real keyring, `get_secret_keys`, and the two loops that render a key
 * record for the key list and the details pane. app.py carries the same
 * table and the same two formatters; gnome-keysign.py carries the list-box
 * formatter under the name `formatListboxKeydata`, reading the expiry from
 * a key spelled 'expire'.
 *
 * The fingerprint helpers of utils.py are those of module Fingerprint.
 */
module Utils {
  import opened Wrappers
  import opened Strings

  /** One entry of a record's 'uids' list. */
  datatype UidData = UidData(uid: string, sigs: seq<string>)

  /** A key record: the dictionary keys 'id', 'fpr', 'uids', 'expiry' and 'nsigs'. */
  datatype KeyData = KeyData(id: string, fpr: string, uids: seq<UidData>, expiry: string, nsigs: nat)

  /**
   * `_data`, in the order the literal lists it. A Python 2 dictionary has no
   * defined order; the value list is taken in that order.
   */
  const Data: seq<KeyData> := [
    KeyData("2048R/ED8312A2 2014-04-08", "BEFDD433DCF8956D0D36011B4B032D3DED8312A2",
      [UidData("John Doe john.doe@test.com", ["ED8312A2", "6FB8DCCE"]),
       UidData("John Foo (Test Key) john.foe@test.com", ["ED8312A2"])],
      "2016-12-12", 3),
    KeyData("2048R/D32DFCFB 2015-08-20", "B870D356F7ECD46CF2CEDF933BF372D3D32DFCFB",
      [UidData("Foo Bar foo.bar@test.com", ["D32DFCFB", "6FB8DCCE"])],
      "2016-05-20", 2),
    KeyData("2048R/ED8312A2 2010-04-08", "6011B4B032D3DED8312A2BEFDD433DCF8956D0D3",
      [UidData("John Who john.who@test.com", ["ED8312A2"])],
      "2016-07-14", 1),
    KeyData("2048R/D32DFCFB 2013-01-01", "CEDF933BF372D3D32DFCFBB870D356F7ECD46CF2",
      [UidData("Educated Foo edu.foo@test.com", ["D32DFCFB", "6FB8DCCE", "8956D0D3"])],
      "2020-05-05", 3)
  ]

  /**
   * `get_secret_keys` when no `gpgmh` module can be imported: whatever the
   * pattern, the function returns the fixed table of four records with
   * 40-character fingerprints, no two alike. When a `gpgmh` module imports,
   * the function calls `get_usable_secret_keys_dict`, which gpgmh.py does
   * not define, and raises instead; that branch is not modelled.
   */
  function GetSecretKeys(pattern: string): (r: seq<KeyData>)
    ensures |r| == 4
    ensures forall i :: 0 <= i < |r| ==> |r[i].fpr| == 40
    ensures forall i, j :: 0 <= i < j < |r| ==> r[i].fpr != r[j].fpr
  {
    assert Data[0].fpr[1] != Data[1].fpr[1];
    Data
  }

  /** The 'uid' text of every entry, in order. */
  function UidTexts(uids: seq<UidData>): (r: seq<string>)
    ensures |r| == |uids|
    ensures forall i :: 0 <= i < |uids| ==> r[i] == uids[i].uid
  {
    if |uids| == 0 then [] else [uids[0].uid] + UidTexts(uids[1..])
  }

  /** The first line of a list-box entry: "<b>{id}</b>\t\t\t{nsigs}". */
  function ListboxTitle(k: KeyData): string {
    "<b>" + k.id + "</b>\t\t\t" + NatToString(k.nsigs)
  }

  /** The last line of a list-box entry: "<small>Expires {expiry}</small>". */
  function ListboxExpiry(k: KeyData): string {
    "<small>Expires " + k.expiry + "</small>"
  }

  /** The text `format_listbox_keydata` builds. */
  function ListboxText(k: KeyData): string {
    ListboxTitle(k) + "\n" + Lines(UidTexts(k.uids)) + "\n" + ListboxExpiry(k)
  }

  /**
   * `format_listbox_keydata`: the title line, one line per UID, an empty
   * line, then the expiry.
   */
  method FormatListboxKeydata(k: KeyData) returns (result: string)
    ensures result == ListboxText(k)
  {
    var uids := UidTexts(k.uids);
    result := "<b>" + k.id + "</b>\t\t\t" + NatToString(k.nsigs) + "\n";
    var i := 0;
    assert uids[..0] == [];
    while i < |uids|
      invariant 0 <= i <= |uids|
      invariant result == ListboxTitle(k) + "\n" + Lines(uids[..i])
    {
      LinesSnoc(uids, i);
      result := result + uids[i] + "\n";
      i := i + 1;
    }
    assert uids[..i] == uids;
    result := result + "\n";
    result := result + "<small>Expires " + k.expiry + "</small>";
  }

  /** No character of a decimal numeral is a newline. */
  lemma NatToStringNoNewline(n: nat)
    ensures '\n' !in NatToString(n)
  {
  }

  /**
   * Read back line by line, a list-box entry is the title, then every UID in
   * list order, then an empty line and the expiry line, as long as no field
   * holds a newline.
   */
  lemma ListboxLines(k: KeyData)
    requires '\n' !in k.id && '\n' !in k.expiry
    requires forall i :: 0 <= i < |k.uids| ==> '\n' !in k.uids[i].uid
    ensures Split(ListboxText(k), '\n') == [ListboxTitle(k)] + UidTexts(k.uids) + ["", ListboxExpiry(k)]
  {
    var title, uids, expiry := ListboxTitle(k), UidTexts(k.uids), ListboxExpiry(k);
    NatToStringNoNewline(k.nsigs);
    assert '\n' !in title;
    assert '\n' !in expiry;
    var tail := "\n" + expiry;
    calc {
      Split(ListboxText(k), '\n');
      { assert ListboxText(k) == title + ['\n'] + (Lines(uids) + tail); }
      Split(title + ['\n'] + (Lines(uids) + tail), '\n');
      { SplitAfterPrefix(title, '\n', Lines(uids) + tail); }
      [title] + Split(Lines(uids) + tail, '\n');
      { SplitLinesPrefix(uids, tail); }
      [title] + (uids + Split(tail, '\n'));
      { assert tail == "" + ['\n'] + expiry; SplitAfterPrefix("", '\n', expiry); }
      [title] + (uids + ([""] + Split(expiry, '\n')));
      { assert Split(expiry, '\n') == [expiry]; }
      [title] + uids + ["", expiry];
    }
  }

  /** `format_details_keydata`: every UID followed by a newline. */
  method FormatDetailsKeydata(k: KeyData) returns (result: string)
    ensures result == Lines(UidTexts(k.uids))
    ensures result == "" <==> |k.uids| == 0
  {
    var uids := UidTexts(k.uids);
    result := "";
    var i := 0;
    assert uids[..0] == [];
    while i < |uids|
      invariant 0 <= i <= |uids|
      invariant result == Lines(uids[..i])
    {
      LinesSnoc(uids, i);
      result := result + uids[i] + "\n";
      i := i + 1;
    }
    assert uids[..i] == uids;
  }

  /**
   * Read back line by line, the details text is the UIDs in list order,
   * followed by the empty piece after the final newline.
   */
  lemma DetailsLines(uids: seq<UidData>)
    requires forall i :: 0 <= i < |uids| ==> '\n' !in uids[i].uid
    ensures Split(Lines(UidTexts(uids)), '\n') == UidTexts(uids) + [""]
  {
    SplitLines(UidTexts(uids));
  }

  // ----- looking records up by fingerprint -----

  /** The records whose 'fpr' is fpr, in order. */
  function FilterRecords(keys: seq<KeyData>, fpr: string): (r: seq<KeyData>)
    ensures |r| <= |keys|
    ensures forall k :: k in r <==> k in keys && k.fpr == fpr
  {
    if |keys| == 0 then []
    else
      var rest := FilterRecords(keys[1..], fpr);
      assert forall k :: k in keys <==> k == keys[0] || k in keys[1..];
      if keys[0].fpr == fpr then [keys[0]] + rest else rest
  }

  lemma {:induction false} FilterRecordsAppend(a: seq<KeyData>, b: seq<KeyData>, fpr: string)
    ensures FilterRecords(a + b, fpr) == FilterRecords(a, fpr) + FilterRecords(b, fpr)
  {
    if |a| == 0 {
      assert a + b == b;
    } else {
      assert (a + b)[1..] == a[1..] + b;
      FilterRecordsAppend(a[1..], b, fpr);
    }
  }

  /** The first record whose 'fpr' is fpr, if any. */
  function FirstRecord(keys: seq<KeyData>, fpr: string): (r: Option<KeyData>)
    ensures r.None? <==> forall k :: k in keys ==> k.fpr != fpr
    ensures r.Some? ==> r.value in keys && r.value.fpr == fpr
  {
    if |keys| == 0 then None
    else if keys[0].fpr == fpr then Some(keys[0])
    else
      assert forall k :: k in keys <==> k == keys[0] || k in keys[1..];
      FirstRecord(keys[1..], fpr)
  }

  /** Extending a prefix without a match by one record. */
  lemma {:induction false} FirstRecordSnoc(keys: seq<KeyData>, i: nat, fpr: string)
    requires i < |keys| && FirstRecord(keys[..i], fpr).None?
    ensures FirstRecord(keys[..i + 1], fpr) == if keys[i].fpr == fpr then Some(keys[i]) else None
  {
    if i > 0 {
      assert keys[..i + 1][1..] == keys[1..][..i];
      assert keys[..i][1..] == keys[1..][..i - 1];
      FirstRecordSnoc(keys[1..], i - 1, fpr);
    }
  }

  /** A match within a prefix is the first match of the whole sequence. */
  lemma {:induction false} FirstRecordPrefix(keys: seq<KeyData>, n: nat, fpr: string)
    requires n <= |keys| && FirstRecord(keys[..n], fpr).Some?
    ensures FirstRecord(keys, fpr) == FirstRecord(keys[..n], fpr)
  {
    if keys[0].fpr != fpr {
      assert keys[..n][1..] == keys[1..][..n - 1];
      FirstRecordPrefix(keys[1..], n - 1, fpr);
    }
  }

  /** Filtering by a fingerprint first does not change which record matches first. */
  lemma {:induction false} FirstRecordFiltered(keys: seq<KeyData>, fpr: string)
    ensures FirstRecord(FilterRecords(keys, fpr), fpr) == FirstRecord(keys, fpr)
  {
    if |keys| > 0 {
      FirstRecordFiltered(keys[1..], fpr);
    }
  }

  /**
   * The first record of the table that carries fpr, None when no record does.
   * (Kept apart from the table's contents so that the verifier does not
   * unfold the table wherever a lookup appears.)
   */
  function TableRecord(fpr: string): Option<KeyData> {
    FirstRecord(Data, fpr)
  }

  /** A fingerprint is found in the table exactly when some record carries it, and then as that record. */
  lemma TableRecordIff(fpr: string)
    ensures TableRecord(fpr).Some? <==> exists i :: 0 <= i < |Data| && Data[i].fpr == fpr
    ensures TableRecord(fpr).Some? ==> TableRecord(fpr).value in Data && TableRecord(fpr).value.fpr == fpr
  {
    if TableRecord(fpr).None? {
      assert forall i :: 0 <= i < |Data| ==> Data[i] in Data;
    }
  }
}
