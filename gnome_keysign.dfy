/**
 * gnome-keysign.py, the first prototype: a key list whose entries are
 * rendered by `formatListboxKeydata` (the same loop as utils.py's
 * `format_listbox_keydata`, modelled by Utils.FormatListboxKeydata, with the
 * expiry read from the key 'expire'), and a details window rendered by
 * `formatDetailsKeydata`, which puts the key id in front of the UID lines.
 */
module GnomeKeysign {
  import opened Strings
  import opened Utils

  /** The text `formatDetailsKeydata` builds: the id line, then one line per UID. */
  function DetailsText(k: KeyData): string {
    k.id + "\n" + Lines(UidTexts(k.uids))
  }

  /** `formatDetailsKeydata`. */
  method FormatDetailsKeydata(k: KeyData) returns (result: string)
    ensures result == DetailsText(k)
  {
    var uids := UidTexts(k.uids);
    result := k.id + "\n";
    var i := 0;
    assert uids[..0] == [];
    while i < |uids|
      invariant 0 <= i <= |uids|
      invariant result == k.id + "\n" + Lines(uids[..i])
    {
      LinesSnoc(uids, i);
      result := result + uids[i] + "\n";
      i := i + 1;
    }
    assert uids[..i] == uids;
  }

  /**
   * Read back line by line, the details text is the key id, then every UID
   * in list order, then the empty piece after the final newline.
   */
  lemma DetailsLines(k: KeyData)
    requires '\n' !in k.id
    requires forall i :: 0 <= i < |k.uids| ==> '\n' !in k.uids[i].uid
    ensures Split(DetailsText(k), '\n') == [k.id] + UidTexts(k.uids) + [""]
  {
    var uids := UidTexts(k.uids);
    calc {
      Split(DetailsText(k), '\n');
      { assert DetailsText(k) == k.id + ['\n'] + Lines(uids); }
      Split(k.id + ['\n'] + Lines(uids), '\n');
      { SplitAfterPrefix(k.id, '\n', Lines(uids)); }
      [k.id] + Split(Lines(uids), '\n');
      { SplitLines(uids); }
      [k.id] + (uids + [""]);
      [k.id] + uids + [""];
    }
  }
}
