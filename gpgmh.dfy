/**
 * gpgmh.py: the records the application keeps for OpenPGP keys and user ids,
 * how a GnuPG user id string is split into name and email, how records are
 * rendered back to text, which keys of a keyring count as usable, and how a
 * GnuPG colon listing of signatures is read.
 *
 * The keyring itself (monkeysign) is not modelled: what its `get_keys`
 * returns is an input, a sequence of key records carrying the flags the
 * filters look at.
 */
module Gpgmh {
  import opened Wrappers
  import opened Strings

  /** `UID`: the expiry is carried as given. */
  datatype Uid = Uid(expiry: string, name: string, comment: string, email: string)

  /** `Key`. */
  datatype Key = Key(expiry: string, fingerprint: string, uidslist: seq<Uid>)

  // ----- parse_uid -----

  /** The characters a UID text needs to avoid for its parts to survive parsing. */
  predicate Plain(s: string) {
    '(' !in s && ')' !in s && '<' !in s && '>' !in s
  }

  /**
   * The first step of `parse_uid`: when there is a '(', the text from it up to
   * the first ')' is cut out and both remaining ends stripped. Python's slice
   * `uid[com_end+1:]` is the whole text when there is no ')', and starts
   * before the '(' when a ')' comes first.
   */
  function RemoveComment(uid: string): (r: string)
    ensures '(' !in uid ==> r == uid
  {
    var comStart := Find(uid, '(');
    if comStart == -1 then uid
    else
      var comEnd := Find(uid, ')');
      Strip(uid[..comStart]) + Strip(uid[comEnd + 1..])
  }

  /** The email `parse_uid` takes from the pieces of the UID split at '<'. */
  function EmailOf(tokens: seq<string>): string {
    if |tokens| > 1 then Strip(RemoveChar(tokens[1], '>')) else "unknown"
  }

  /** The (name, comment, email) triple `parse_uid` builds from the UID once its comment is cut out. */
  function SplitParts(u: string): (string, string, string) {
    var tokens := Split(u, '<');
    (Strip(tokens[0]), "", EmailOf(tokens))
  }

  /** The (name, comment, email) triple `parse_uid` returns. */
  function UidParts(uid: string): (r: (string, string, string))
    ensures r.1 == ""
  {
    SplitParts(RemoveComment(uid))
  }

  /** The name is stripped and holds no '<'. */
  lemma UidNameShape(uid: string)
    ensures '<' !in UidParts(uid).0 && Stripped(UidParts(uid).0)
  {
    var tokens := Split(RemoveComment(uid), '<');
    SplitNoSep(RemoveComment(uid), '<');
    StripIsStripped(tokens[0]);
    StripSubset(tokens[0]);
  }

  lemma EmailOfShape(tokens: seq<string>)
    requires forall i :: 0 <= i < |tokens| ==> '<' !in tokens[i]
    ensures '<' !in EmailOf(tokens) && '>' !in EmailOf(tokens) && Stripped(EmailOf(tokens))
  {
    if |tokens| > 1 {
      var e := RemoveChar(tokens[1], '>');
      StripIsStripped(e);
      StripSubset(e);
    } else {
      assert EmailOf(tokens) == "unknown";
    }
  }

  /**
   * The email is stripped and holds neither '<' nor '>'; without a '<' left
   * once the comment is cut out it is "unknown".
   */
  lemma UidEmailShape(uid: string)
    ensures '<' !in UidParts(uid).2 && '>' !in UidParts(uid).2 && Stripped(UidParts(uid).2)
    ensures '<' !in RemoveComment(uid) ==> UidParts(uid).2 == "unknown"
  {
    EmailOfSplit(RemoveComment(uid));
  }

  lemma EmailOfSplit(u: string)
    ensures '<' !in EmailOf(Split(u, '<')) && '>' !in EmailOf(Split(u, '<')) && Stripped(EmailOf(Split(u, '<')))
    ensures '<' !in u ==> EmailOf(Split(u, '<')) == "unknown"
  {
    SplitNoSep(u, '<');
    EmailOfShape(Split(u, '<'));
    if '<' !in u {
      assert Split(u, '<') == [u];
    }
  }

  /**
   * `parse_uid`, step by step as the source reassigns its local `uid`: the
   * comment is cut out, the rest split at '<'; the name is the stripped text
   * before the first '<', the email the text after it (up to a second '<')
   * with every '>' removed and stripped, or "unknown" without a '<'. The
   * comment is always returned empty.
   */
  method ParseUid(uid0: string) returns (name: string, comment: string, email: string)
    ensures (name, comment, email) == UidParts(uid0)
    ensures comment == ""
    ensures '<' !in RemoveComment(uid0) ==> email == "unknown"
  {
    var uid := uid0;
    var comStart := Find(uid, '(');
    if comStart != -1 {
      var comEnd := Find(uid, ')');
      uid := Strip(uid[..comStart]) + Strip(uid[comEnd + 1..]);
    }
    comment := "";
    var tokens := Split(uid, '<');
    name := Strip(tokens[0]);
    email := "unknown";
    if |tokens| > 1 {
      email := Strip(RemoveChar(tokens[1], '>'));
    }
    if '<' !in uid {
      assert Find(uid, '<') == -1;
    }
  }

  // ----- UID.__format__ -----

  /** `UID.__format__`: "name (comment) <email>", or "name <email>" without a comment. */
  function FormatUid(u: Uid): string {
    if u.comment != "" then u.name + " (" + u.comment + ") <" + u.email + ">"
    else u.name + " <" + u.email + ">"
  }

  lemma RemoveGreater(email: string)
    requires '>' !in email
    ensures RemoveChar(email + ">", '>') == email
  {
    RemoveCharAppend(email, ">", '>');
    RemoveCharAbsent(email, '>');
  }

  /**
   * The name and email parts of a text "pre<email>": the stripped text before
   * the '<' and the email, when neither holds the characters the split uses.
   */
  lemma SplitPartsAngle(pre: string, email: string)
    requires '<' !in pre
    requires Stripped(email) && '<' !in email && '>' !in email
    ensures SplitParts(pre + "<" + email + ">") == (Strip(pre), "", email)
  {
    SplitAngle(pre, email);
    RemoveGreater(email);
    StripOfStripped(email);
    assert EmailOf([pre, email + ">"]) == email;
  }

  lemma SplitAngle(pre: string, email: string)
    requires '<' !in pre && '<' !in email
    ensures Split(pre + "<" + email + ">", '<') == [pre, email + ">"]
  {
    var rest := email + ">";
    assert pre + "<" + email + ">" == pre + ['<'] + rest;
    assert '<' !in rest;
    assert Split(rest, '<') == [rest];
    SplitAfterPrefix(pre, '<', rest);
  }

  /**
   * Rendering a UID without a comment and parsing the text gives the name and
   * email back, when both are already stripped and hold none of the
   * characters the parser looks for.
   */
  lemma ParseFormatUid(e: string, name: string, email: string)
    requires Stripped(name) && Stripped(email)
    requires '(' !in name && '<' !in name
    requires '(' !in email && '<' !in email && '>' !in email
    ensures UidParts(FormatUid(Uid(e, name, "", email))) == (name, "", email)
  {
    var s := FormatUid(Uid(e, name, "", email));
    assert s == (name + " ") + "<" + email + ">";
    assert '(' !in s;
    SplitPartsAngle(name + " ", email);
    StripTrailingSpace(name);
  }

  /** Cutting out a comment "(b)" that follows a text free of parentheses leaves both ends stripped. */
  lemma RemoveCommentAt(a: string, b: string, c: string)
    requires '(' !in a && ')' !in a && ')' !in b
    ensures RemoveComment(a + "(" + b + ")" + c) == Strip(a) + Strip(c)
  {
    var s := a + "(" + b + ")" + c;
    var open := b + ")" + c;
    var p := a + "(" + b;
    assert s == a + ['('] + open;
    FindAfterPrefix(a, '(', open);
    assert Find(s, '(') == |a|;
    assert s == p + [')'] + c;
    assert ')' !in p;
    FindAfterPrefix(p, ')', c);
    assert Find(s, ')') == |p|;
    assert s[..|a|] == a;
    assert s[|p| + 1..] == c;
    assert RemoveComment(s) == Strip(s[..|a|]) + Strip(s[|p| + 1..]);
  }

  /** What cutting the comment out of a rendered UID leaves. */
  lemma RemoveCommentOfFormat(name: string, comment: string, email: string)
    requires Stripped(name) && '(' !in name && ')' !in name
    requires ')' !in comment
    ensures RemoveComment(name + " (" + comment + ") <" + email + ">") == name + "<" + email + ">"
  {
    var tail := "<" + email + ">";
    var x := name + " (" + comment + ") <" + email + ">";
    calc {
      RemoveComment(x);
      { assert x == (name + " ") + "(" + comment + ")" + (" " + tail); }
      RemoveComment((name + " ") + "(" + comment + ")" + (" " + tail));
      { RemoveCommentAt(name + " ", comment, " " + tail); }
      Strip(name + " ") + Strip(" " + tail);
      { StripTrailingSpace(name); assert Stripped(tail); StripLeadingSpace(tail); }
      name + tail;
      { assert name + tail == name + "<" + email + ">"; }
      name + "<" + email + ">";
    }
  }

  /**
   * With a comment the round trip loses only the comment: `parse_uid` cuts it
   * out and reports "" in its place.
   */
  lemma ParseFormatUidDropsComment(e: string, name: string, comment: string, email: string)
    requires Stripped(name) && Stripped(email) && comment != ""
    requires '(' !in name && ')' !in name && '<' !in name
    requires ')' !in comment
    requires '(' !in email && ')' !in email && '<' !in email && '>' !in email
    ensures UidParts(FormatUid(Uid(e, name, comment, email))) == (name, "", email)
  {
    RemoveCommentOfFormat(name, comment, email);
    SplitPartsAngle(name, email);
    StripOfStripped(name);
  }

  /** Without a '<' anywhere, the email is "unknown" and the name is the whole stripped text. */
  lemma ParseUidNoEmail(uid: string)
    requires '<' !in uid && '(' !in uid
    ensures UidParts(uid) == (Strip(uid), "", "unknown")
  {
    assert Split(uid, '<') == [uid];
  }

  // ----- Key.__format__ -----

  /** The UID lines of `Key.__format__`: each UID rendered with a two-space indent. */
  function UidLines(uids: seq<Uid>): (r: seq<string>)
    ensures |r| == |uids|
    ensures forall i :: 0 <= i < |uids| ==> r[i] == "  " + FormatUid(uids[i])
  {
    if |uids| == 0 then [] else ["  " + FormatUid(uids[0])] + UidLines(uids[1..])
  }

  /** Whether a text is free of the braces `str.format` would interpret. */
  predicate NoBraces(s: string) {
    '{' !in s && '}' !in s
  }

  /**
   * `Key.__format__`: the fingerprint, "\r\n", then the indented UIDs joined
   * by "\r\n". The source builds a format string from the rendered UIDs and
   * formats it again, so the UID text must not hold braces.
   */
  function FormatKey(k: Key): (s: string)
    requires forall u :: u in k.uidslist ==> NoBraces(FormatUid(u))
    ensures StartsWith(s, k.fingerprint + "\r\n")
  {
    var s := k.fingerprint + "\r\n" + Join(UidLines(k.uidslist), "\r\n");
    assert s[..|k.fingerprint + "\r\n"|] == k.fingerprint + "\r\n";
    s
  }

  lemma {:induction false} JoinAppend(xs: seq<string>, x: string, sep: string)
    ensures Join(xs + [x], sep) == if |xs| == 0 then x else Join(xs, sep) + sep + x
  {
    if |xs| > 1 {
      assert (xs + [x])[1..] == xs[1..] + [x];
      JoinAppend(xs[1..], x, sep);
    } else if |xs| == 1 {
      assert (xs + [x])[1..] == [x];
    }
  }

  /**
   * Adding a UID to a key adds one "\r\n"-separated line at the end of its
   * rendering (the first UID follows the fingerprint line directly).
   */
  lemma FormatKeyAppendUid(e: string, f: string, uids: seq<Uid>, u: Uid)
    requires forall v :: v in uids ==> NoBraces(FormatUid(v))
    requires NoBraces(FormatUid(u))
    ensures FormatKey(Key(e, f, uids + [u])) ==
      FormatKey(Key(e, f, uids)) + (if |uids| == 0 then "" else "\r\n") + ("  " + FormatUid(u))
  {
    var all := uids + [u];
    assert forall v :: v in all ==> v in uids || v == u;
    var lines := UidLines(uids);
    var line := "  " + FormatUid(u);
    UidLinesAppend(uids, u);
    JoinAppend(lines, line, "\r\n");
    FormatKeyUnfold(Key(e, f, all));
    FormatKeyUnfold(Key(e, f, uids));
    AppendLine(f + "\r\n", Join(lines, "\r\n"), if |uids| == 0 then "" else "\r\n", line);
  }

  lemma AppendLine(head: string, body: string, sep: string, line: string)
    ensures head + (if body == "" && sep == "" then line else body + sep + line) == head + body + sep + line
  {
    if body == "" && sep == "" {
      assert body + sep + line == line;
    }
  }

  lemma FormatKeyUnfold(k: Key)
    requires forall u :: u in k.uidslist ==> NoBraces(FormatUid(u))
    ensures FormatKey(k) == k.fingerprint + "\r\n" + Join(UidLines(k.uidslist), "\r\n")
  {
  }

  lemma UidLinesAppend(uids: seq<Uid>, u: Uid)
    ensures UidLines(uids + [u]) == UidLines(uids) + ["  " + FormatUid(u)]
  {
    var r := UidLines(uids + [u]);
    assert forall i :: 0 <= i < |uids| ==> (uids + [u])[i] == uids[i];
    assert r[|uids|] == "  " + FormatUid(u);
  }

  // ----- usable keys -----

  /** A user id as the keyring reports it. */
  datatype KeyringUid = KeyringUid(uid: string, expire: string)

  /** A key as the keyring reports it, with the four flags the filter reads. */
  datatype KeyringKey = KeyringKey(
    invalid: bool, disabled: bool, expired: bool, revoked: bool,
    expiry: string, fpr: string, uidslist: seq<KeyringUid>)

  /** `is_usable`: none of invalid, disabled, expired or revoked. */
  predicate IsUsable(k: KeyringKey) {
    !(k.invalid || k.disabled || k.expired || k.revoked)
  }

  /** `UID.from_monkeysign`: the user id string parsed into its parts. */
  function UidFromKeyring(u: KeyringUid): (r: Uid)
    ensures r.comment == ""
  {
    var (name, comment, email) := UidParts(u.uid);
    Uid(u.expire, name, comment, email)
  }

  /** `Key.from_monkeysign`. */
  function KeyFromKeyring(k: KeyringKey): (r: Key)
    ensures r.fingerprint == k.fpr && r.expiry == k.expiry
    ensures |r.uidslist| == |k.uidslist|
    ensures forall i :: 0 <= i < |k.uidslist| ==> r.uidslist[i] == UidFromKeyring(k.uidslist[i])
  {
    Key(k.expiry, k.fpr, seq(|k.uidslist|, i requires 0 <= i < |k.uidslist| => UidFromKeyring(k.uidslist[i])))
  }

  /**
   * The list comprehension of `get_usable_keys` over the records the keyring
   * returned: every usable record converted, in order, the others dropped.
   */
  function UsableKeys(keys: seq<KeyringKey>): (r: seq<Key>)
    ensures |r| <= |keys|
    ensures forall k :: k in keys && IsUsable(k) ==> KeyFromKeyring(k) in r
    ensures forall x :: x in r ==> exists k :: k in keys && IsUsable(k) && x == KeyFromKeyring(k)
  {
    if |keys| == 0 then []
    else
      var rest := UsableKeys(keys[1..]);
      assert forall k :: k in keys ==> k == keys[0] || k in keys[1..];
      if IsUsable(keys[0]) then [KeyFromKeyring(keys[0])] + rest else rest
  }

  /** The filter keeps the keyring's order: it distributes over concatenation. */
  lemma {:induction false} UsableKeysAppend(a: seq<KeyringKey>, b: seq<KeyringKey>)
    ensures UsableKeys(a + b) == UsableKeys(a) + UsableKeys(b)
  {
    if |a| == 0 {
      assert a + b == b;
    } else {
      assert (a + b)[1..] == a[1..] + b;
      UsableKeysAppend(a[1..], b);
    }
  }

  /** A keyring whose records are all usable loses none of them. */
  lemma {:induction false} UsableKeysAllUsable(keys: seq<KeyringKey>)
    requires forall i :: 0 <= i < |keys| ==> IsUsable(keys[i])
    ensures |UsableKeys(keys)| == |keys|
  {
    if |keys| > 0 {
      UsableKeysAllUsable(keys[1..]);
    }
  }

  /**
   * `get_usable_secret_keys`: the secret keys, in the keyring's order, whose
   * fingerprint looked up among the public keys yields at least one usable
   * key. The secret records' own flags are not consulted. `lookup(fpr)`
   * stands for what the keyring returns for the pattern `fpr` in the public
   * keyring.
   */
  /** Whether the public lookup of a secret key's fingerprint finds a usable key. */
  predicate Published(s: KeyringKey, lookup: string -> seq<KeyringKey>) {
    |UsableKeys(lookup(s.fpr))| > 0
  }

  function UsableSecretKeys(secret: seq<KeyringKey>, lookup: string -> seq<KeyringKey>): (r: seq<Key>)
    ensures |r| <= |secret|
    ensures forall s :: s in secret && Published(s, lookup) ==> KeyFromKeyring(s) in r
    ensures forall x :: x in r ==> exists s :: s in secret && Published(s, lookup) && x == KeyFromKeyring(s)
  {
    if |secret| == 0 then []
    else
      var rest := UsableSecretKeys(secret[1..], lookup);
      assert forall s :: s in secret ==> s == secret[0] || s in secret[1..];
      if Published(secret[0], lookup) then [KeyFromKeyring(secret[0])] + rest else rest
  }

  /**
   * A secret key is kept even when its own record is flagged unusable, as
   * long as the public lookup of its fingerprint finds a usable key.
   */
  lemma SecretFlagsIgnored(s: KeyringKey, lookup: string -> seq<KeyringKey>)
    requires s.revoked && |UsableKeys(lookup(s.fpr))| > 0
    ensures UsableSecretKeys([s], lookup) == [KeyFromKeyring(s)]
  {
    assert [s][1..] == [];
  }

  // ----- parse_sig_list -----

  /** One entry of `parse_sig_list`: fields 5, 6 and 10 of a colon listing record. */
  datatype Sig = Sig(keyid: string, timestamp: string, uid: string)

  /** A "sig" record with the ten fields the parser indexes. */
  predicate WellFormedSig(line: string) {
    |Split(line, ':')| >= 10
  }

  function SigOf(line: string): Sig
    requires WellFormedSig(line)
  {
    var record := Split(line, ':');
    Sig(record[4], record[5], record[9])
  }

  /** The lines `parse_sig_list` reads: those starting with "sig", in order. */
  function SigLines(blocks: seq<string>): (r: seq<string>)
    ensures |r| <= |blocks|
    ensures forall i :: 0 <= i < |r| ==> StartsWith(r[i], "sig") && r[i] in blocks
    ensures forall i :: 0 <= i < |blocks| && StartsWith(blocks[i], "sig") ==> blocks[i] in r
  {
    if |blocks| == 0 then []
    else
      var rest := SigLines(blocks[1..]);
      assert forall i :: 1 <= i < |blocks| ==> blocks[i] == blocks[1..][i - 1];
      if StartsWith(blocks[0], "sig") then [blocks[0]] + rest else rest
  }

  /** The selection works line by line and keeps the order of the listing. */
  lemma {:induction false} SigLinesAppend(a: seq<string>, b: seq<string>)
    ensures SigLines(a + b) == SigLines(a) + SigLines(b)
  {
    if |a| == 0 {
      assert a + b == b;
    } else {
      assert (a + b)[0] == a[0];
      assert (a + b)[1..] == a[1..] + b;
      SigLinesAppend(a[1..], b);
    }
  }

  /** Entries a, in front of the listing o, unless o failed. */
  function Prepend(a: seq<Sig>, o: Option<seq<Sig>>): Option<seq<Sig>> {
    match o
    case None => None
    case Some(rest) => Some(a + rest)
  }

  /**
   * What `parse_sig_list` computes over the lines of its input, record by
   * record: None when a "sig" line has fewer than ten fields (the source's
   * `IndexError`).
   */
  function SigList(blocks: seq<string>): (r: Option<seq<Sig>>)
    ensures r.Some? ==> |r.value| == |SigLines(blocks)|
  {
    if |blocks| == 0 then Some([])
    else if StartsWith(blocks[0], "sig") then
      if WellFormedSig(blocks[0]) then Prepend([SigOf(blocks[0])], SigList(blocks[1..])) else None
    else SigList(blocks[1..])
  }

  /** Every line of a listing has the ten fields the parser indexes. */
  predicate AllWellFormed(lines: seq<string>) {
    forall i :: 0 <= i < |lines| ==> WellFormedSig(lines[i])
  }

  lemma AllWellFormedCons(line: string, rest: seq<string>)
    ensures AllWellFormed([line] + rest) <==> WellFormedSig(line) && AllWellFormed(rest)
  {
    var lines := [line] + rest;
    assert forall i :: 1 <= i < |lines| ==> lines[i] == rest[i - 1];
    if WellFormedSig(line) && AllWellFormed(rest) {
      forall i | 0 <= i < |lines| ensures WellFormedSig(lines[i]) {
        if i > 0 {
          assert WellFormedSig(rest[i - 1]);
        }
      }
    }
    if AllWellFormed(lines) {
      assert WellFormedSig(lines[0]);
      forall i | 0 <= i < |rest| ensures WellFormedSig(rest[i]) {
        assert WellFormedSig(lines[i + 1]);
      }
    }
  }

  /** The listing fails exactly when some "sig" line has fewer than ten fields. */
  lemma {:induction false} SigListSome(blocks: seq<string>)
    ensures SigList(blocks).Some? <==> AllWellFormed(SigLines(blocks))
  {
    if |blocks| > 0 {
      SigListSome(blocks[1..]);
      if StartsWith(blocks[0], "sig") {
        assert SigLines(blocks) == [blocks[0]] + SigLines(blocks[1..]);
        AllWellFormedCons(blocks[0], SigLines(blocks[1..]));
      }
    }
  }

  /** A listing that succeeds holds one entry per "sig" line, in order; every other line is ignored. */
  lemma {:induction false} SigListValue(blocks: seq<string>)
    requires SigList(blocks).Some?
    ensures |SigList(blocks).value| == |SigLines(blocks)|
    ensures forall i :: 0 <= i < |SigLines(blocks)| ==>
      (WellFormedSig(SigLines(blocks)[i]) && SigList(blocks).value[i] == SigOf(SigLines(blocks)[i]))
  {
    if |blocks| > 0 {
      var tail := SigLines(blocks[1..]);
      if StartsWith(blocks[0], "sig") {
        SigListValue(blocks[1..]);
        var lines := SigLines(blocks);
        assert lines == [blocks[0]] + tail;
        var rest := SigList(blocks[1..]).value;
        assert SigList(blocks).value == [SigOf(blocks[0])] + rest;
        forall i | 0 <= i < |lines|
          ensures WellFormedSig(lines[i]) && SigList(blocks).value[i] == SigOf(lines[i])
        {
          if i > 0 {
            assert lines[i] == tail[i - 1];
          }
        }
      } else {
        SigListValue(blocks[1..]);
      }
    }
  }

  lemma PrependAppend(a: seq<Sig>, x: Sig, o: Option<seq<Sig>>)
    ensures Prepend(a, Prepend([x], o)) == Prepend(a + [x], o)
  {
    if o.Some? {
      assert a + ([x] + o.value) == (a + [x]) + o.value;
    }
  }

  /** One turn of the loop of `parse_sig_list`, at line i. */
  lemma SigListStep(blocks: seq<string>, i: nat)
    requires i < |blocks|
    ensures SigList(blocks[i..]) ==
      if StartsWith(blocks[i], "sig") then
        if WellFormedSig(blocks[i]) then Prepend([SigOf(blocks[i])], SigList(blocks[i + 1..])) else None
      else SigList(blocks[i + 1..])
  {
    assert blocks[i..][0] == blocks[i];
    assert blocks[i..][1..] == blocks[i + 1..];
  }

  /**
   * `parse_sig_list`: the text split at newlines, every line starting with
   * "sig" split at ':' and its fields 5, 6 and 10 appended. A "sig" line with
   * fewer than ten fields fails the whole call.
   */
  method ParseSigList(text: string) returns (r: Option<seq<Sig>>)
    ensures r == SigList(Split(text, '\n'))
  {
    var blocks := Split(text, '\n');
    var sigslist: seq<Sig> := [];
    var i := 0;
    assert blocks[0..] == blocks;
    assert SigList(blocks).Some? ==> [] + SigList(blocks).value == SigList(blocks).value;
    while i < |blocks|
      invariant 0 <= i <= |blocks|
      invariant SigList(blocks) == Prepend(sigslist, SigList(blocks[i..]))
    {
      var block := blocks[i];
      SigListStep(blocks, i);
      if StartsWith(block, "sig") {
        var record := Split(block, ':');
        if |record| < 10 {
          return None;
        }
        var keyid, timestamp, uid := record[4], record[5], record[9];
        PrependAppend(sigslist, Sig(keyid, timestamp, uid), SigList(blocks[i + 1..]));
        sigslist := sigslist + [Sig(keyid, timestamp, uid)];
      }
      i := i + 1;
    }
    assert blocks[i..] == [];
    assert sigslist + [] == sigslist;
    r := Some(sigslist);
  }
}
