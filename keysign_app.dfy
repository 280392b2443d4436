/**
 * keysign/app.py: the GNOME Keysign application. The send side lists the
 * user's usable secret keys and, when one is activated, shows its
 * fingerprint and QR code and starts a key server for it; the receive side
 * takes a fingerprint typed in or scanned from a QR code, obtains the
 * matching key, and signs it after confirmation.
 *
 * The `Application` object is modelled as a class over the fields its
 * handlers update. The widgets are reduced to the visible child of the
 * top-level stack, the visible page names of the send and receive stacks,
 * the back/refresh button's image and the texts and visibility of the
 * labels the handlers write. A GLib timer is its non-zero source id; the
 * call a timer makes when it fires is a method the environment invokes. The
 * key server thread is reduced to the key it serves and whether it runs.
 */
module KeysignApp {
  import opened Wrappers
  import opened Strings
  import opened Fingerprint
  import opened Barcode
  import opened AppStates
  import opened Gpgmh

  /** The id of a GLib event source; 0 is the application's "no timer". */
  type SourceId = x: nat | x > 0 witness 1

  // ----- format_uidslist -----

  /** One line of `format_uidslist`: the rendered UID with every '<' and '>' removed. */
  function DisplayUid(u: Uid): string {
    RemoveChar(RemoveChar(FormatUid(u), '<'), '>')
  }

  function DisplayUids(uids: seq<Uid>): (r: seq<string>)
    ensures |r| == |uids|
    ensures forall i :: 0 <= i < |uids| ==> r[i] == DisplayUid(uids[i])
  {
    if |uids| == 0 then [] else [DisplayUid(uids[0])] + DisplayUids(uids[1..])
  }

  /** The text `format_uidslist` builds. */
  function UidsListText(uids: seq<Uid>): string {
    Lines(DisplayUids(uids))
  }

  /**
   * `format_uidslist`: one line per UID, in order, with the angle brackets
   * around the email dropped; the result holds no angle bracket.
   */
  method FormatUidsList(uidslist: seq<Uid>) returns (result: string)
    ensures result == UidsListText(uidslist)
    ensures '<' !in result && '>' !in result
  {
    var lines := DisplayUids(uidslist);
    result := "";
    var i := 0;
    assert lines[..0] == [];
    while i < |uidslist|
      invariant 0 <= i <= |uidslist|
      invariant result == Lines(lines[..i])
    {
      var uidstr := RemoveChar(RemoveChar(FormatUid(uidslist[i]), '<'), '>');
      LinesSnoc(lines, i);
      result := result + uidstr + "\n";
      i := i + 1;
    }
    assert lines[..i] == lines;
    forall j | 0 <= j < |lines| ensures '<' !in lines[j] && '>' !in lines[j] {
      var once := RemoveChar(FormatUid(uidslist[j]), '<');
      assert '<' !in once;
    }
    LinesFree(lines, '<');
    LinesFree(lines, '>');
  }

  /** A UID without comment, whose name and email hold no angle bracket, is shown as "name email". */
  lemma DisplayUidPlain(u: Uid)
    requires u.comment == ""
    requires '<' !in u.name && '>' !in u.name && '<' !in u.email && '>' !in u.email
    ensures DisplayUid(u) == u.name + " " + u.email
  {
    var a, b := u.name + " ", u.email;
    assert FormatUid(u) == a + ['<'] + (b + ">");
    RemoveCharAt(a, '<', b + ">");
    assert a + (b + ">") == (a + b) + ['>'] + "";
    RemoveCharAt(a + b, '>', "");
  }

  /**
   * Read back line by line, the UID list is one displayed UID per line, in
   * order, followed by the empty piece after the final newline.
   */
  lemma UidsListLines(uids: seq<Uid>)
    requires forall i :: 0 <= i < |uids| ==> '\n' !in FormatUid(uids[i])
    ensures Split(UidsListText(uids), '\n') == DisplayUids(uids) + [""]
  {
    var lines := DisplayUids(uids);
    forall i | 0 <= i < |lines| ensures '\n' !in lines[i] {
      var once := RemoveChar(FormatUid(uids[i]), '<');
      assert '\n' !in once;
    }
    SplitLines(lines);
  }

  // ----- obtaining a key by fingerprint -----

  /** `verify_downloaded_key`: the key when its fingerprint is the requested one, else None. */
  function VerifyDownloadedKey(fpr: string, key: Key): (r: Option<Key>)
    ensures r.Some? <==> fpr == key.fingerprint
    ensures r.Some? ==> r.value == key
  {
    if fpr == key.fingerprint then Some(key) else None
  }

  /** The keys whose fingerprint is fpr, in order. */
  function FilterFpr(keys: seq<Key>, fpr: string): (r: seq<Key>)
    ensures |r| <= |keys|
    ensures forall k :: k in r <==> k in keys && k.fingerprint == fpr
  {
    if |keys| == 0 then []
    else
      var rest := FilterFpr(keys[1..], fpr);
      assert forall k :: k in keys <==> k == keys[0] || k in keys[1..];
      if keys[0].fingerprint == fpr then [keys[0]] + rest else rest
  }

  lemma {:induction false} FilterFprAppend(a: seq<Key>, b: seq<Key>, fpr: string)
    ensures FilterFpr(a + b, fpr) == FilterFpr(a, fpr) + FilterFpr(b, fpr)
  {
    if |a| == 0 {
      assert a + b == b;
    } else {
      assert (a + b)[1..] == a[1..] + b;
      FilterFprAppend(a[1..], b, fpr);
    }
  }

  lemma FilterFprSnoc(a: seq<Key>, k: Key, fpr: string)
    ensures FilterFpr(a + [k], fpr) == FilterFpr(a, fpr) + (if k.fingerprint == fpr then [k] else [])
  {
    FilterFprAppend(a, [k], fpr);
    assert [k][1..] == [];
    assert FilterFpr([k], fpr) == if k.fingerprint == fpr then [k] else [];
  }

  /** What `download_keys` returns: every candidate for an empty fingerprint, else the matching ones. */
  function DownloadedKeys(fpr: string, candidates: seq<Key>): seq<Key> {
    if fpr == "" then candidates else FilterFpr(candidates, fpr)
  }

  /**
   * `download_keys`: the usable secret keys stand in for the network; for a
   * non-empty fingerprint only the keys carrying it are kept, in order.
   */
  method DownloadKeys(fpr: string, secret: seq<KeyringKey>, lookup: string -> seq<KeyringKey>) returns (res: seq<Key>)
    ensures res == DownloadedKeys(fpr, UsableSecretKeys(secret, lookup))
    ensures fpr != "" ==> forall k :: k in res ==> k.fingerprint == fpr
  {
    var keys := UsableSecretKeys(secret, lookup);
    if fpr == "" {
      return keys;
    }
    res := KeepFpr(keys, fpr);
  }

  /** The filtering loop of `download_keys`: keeps, in order, the keys carrying fpr. */
  method KeepFpr(keys: seq<Key>, fpr: string) returns (res: seq<Key>)
    ensures res == FilterFpr(keys, fpr)
  {
    res := [];
    var i := 0;
    while i < |keys|
      invariant 0 <= i <= |keys|
      invariant res == FilterFpr(keys[..i], fpr)
    {
      assert keys[..i + 1] == keys[..i] + [keys[i]];
      FilterFprSnoc(keys[..i], keys[i], fpr);
      if keys[i].fingerprint == fpr {
        res := res + [keys[i]];
      }
      i := i + 1;
    }
    assert keys[..i] == keys;
  }

  /** The first key whose fingerprint is fpr, if any. */
  function FirstMatch(keys: seq<Key>, fpr: string): (r: Option<Key>)
    ensures r.None? <==> forall k :: k in keys ==> k.fingerprint != fpr
    ensures r.Some? ==> r.value in keys && r.value.fingerprint == fpr
  {
    if |keys| == 0 then None
    else if keys[0].fingerprint == fpr then Some(keys[0])
    else
      assert forall k :: k in keys <==> k == keys[0] || k in keys[1..];
      FirstMatch(keys[1..], fpr)
  }

  /** The match found is the first: every key in front of it has another fingerprint. */
  lemma {:induction false} FirstMatchIsFirst(keys: seq<Key>, fpr: string)
    requires FirstMatch(keys, fpr).Some?
    ensures exists i ::
      0 <= i < |keys| && keys[i] == FirstMatch(keys, fpr).value && (forall j :: 0 <= j < i ==> keys[j].fingerprint != fpr)
  {
    if keys[0].fingerprint != fpr {
      FirstMatchIsFirst(keys[1..], fpr);
      var i :| 0 <= i < |keys[1..]| && keys[1..][i] == FirstMatch(keys[1..], fpr).value
        && forall j :: 0 <= j < i ==> keys[1..][j].fingerprint != fpr;
      assert keys[i + 1] == FirstMatch(keys, fpr).value;
      forall j | 0 <= j < i + 1 ensures keys[j].fingerprint != fpr {
        if j > 0 {
          assert keys[j] == keys[1..][j - 1];
        }
      }
    } else {
      assert keys[0] == FirstMatch(keys, fpr).value;
    }
  }

  lemma {:induction false} FirstMatchSnoc(keys: seq<Key>, i: nat, fpr: string)
    requires i < |keys| && FirstMatch(keys[..i], fpr).None?
    ensures FirstMatch(keys[..i + 1], fpr) == VerifyDownloadedKey(fpr, keys[i])
  {
    if i > 0 {
      assert keys[..i + 1][1..] == keys[1..][..i];
      assert keys[..i][1..] == keys[1..][..i - 1];
      FirstMatchSnoc(keys[1..], i - 1, fpr);
    }
  }

  /**
   * The loop of `obtain_key_async`: each downloaded key is checked with
   * `verify_downloaded_key` until one passes.
   */
  method SelectVerifiedKey(fpr: string, keys: seq<Key>) returns (key: Option<Key>)
    ensures key == FirstMatch(keys, fpr)
    ensures key.Some? ==> key.value.fingerprint == fpr
  {
    key := None;
    var i := 0;
    assert keys[..0] == [];
    while i < |keys|
      invariant 0 <= i <= |keys|
      invariant key.None? && FirstMatch(keys[..i], fpr).None?
    {
      FirstMatchSnoc(keys, i, fpr);
      key := VerifyDownloadedKey(fpr, keys[i]);
      if key.Some? {
        assert FirstMatch(keys, fpr) == FirstMatch(keys[..i + 1], fpr) by {
          FirstMatchPrefix(keys, i + 1, fpr);
        }
        return;
      }
      i := i + 1;
    }
    assert keys[..i] == keys;
  }

  /** A match within a prefix is the first match of the whole sequence. */
  lemma {:induction false} FirstMatchPrefix(keys: seq<Key>, n: nat, fpr: string)
    requires n <= |keys| && FirstMatch(keys[..n], fpr).Some?
    ensures FirstMatch(keys, fpr) == FirstMatch(keys[..n], fpr)
  {
    if keys[0].fingerprint != fpr {
      assert keys[..n][1..] == keys[1..][..n - 1];
      FirstMatchPrefix(keys[1..], n - 1, fpr);
    }
  }

  /**
   * Downloading first and then choosing the first verified key picks the
   * same key as choosing among all candidates: the download filter never
   * changes which key is accepted.
   */
  lemma {:induction false} FirstMatchDownloaded(fpr: string, candidates: seq<Key>)
    ensures FirstMatch(DownloadedKeys(fpr, candidates), fpr) == FirstMatch(candidates, fpr)
  {
    if fpr != "" && |candidates| > 0 {
      FirstMatchDownloaded(fpr, candidates[1..]);
    }
  }

  /** A call `obtain_key_async` schedules with `GLib.idle_add`. */
  datatype Scheduled = ReceivedKey(key: Key) | InvalidKey

  /** The key server thread: the key it serves, the fingerprint it announces, and whether it still runs. */
  datatype Keyserver = Keyserver(key: Key, fingerprint: string, running: bool)

  /** A key server after `stop_server`. */
  function Stopped(ks: Option<Keyserver>): (r: Option<Keyserver>)
    ensures r.Some? <==> ks.Some?
    ensures r.Some? ==> !r.value.running && r.value.key == ks.value.key && r.value.fingerprint == ks.value.fingerprint
  {
    match ks
    case None => None
    case Some(k) => Some(k.(running := false))
  }

  // ----- discovered services -----

  /** An entry of `discovered_services`: name, address, port and the published fingerprint. */
  datatype Service = Service(name: string, address: string, port: int, fpr: Option<string>)

  /** `list.remove(c)`: the first entry equal to c taken out. */
  function RemoveFirst(l: seq<Service>, c: Service): (r: seq<Service>)
    requires c in l
    ensures |r| == |l| - 1
  {
    if l[0] == c then l[1..] else [l[0]] + RemoveFirst(l[1..], c)
  }

  /**
   * The loop of `remove_discovered_service` from position i on: Python's
   * list iterator reads the entry at its position and advances, while the
   * body removes matching entries from the same list, so the entry after a
   * removed one is skipped.
   */
  function IterRemove(l: seq<Service>, i: nat, name: string): seq<Service>
    decreases |l| - i
  {
    if i >= |l| then l
    else if l[i].name == name then IterRemove(RemoveFirst(l, l[i]), i + 1, name)
    else IterRemove(l, i + 1, name)
  }

  /** The entries whose name is not name, in order. */
  function Others(l: seq<Service>, name: string): seq<Service> {
    if |l| == 0 then []
    else (if l[0].name != name then [l[0]] else []) + Others(l[1..], name)
  }

  lemma {:induction false} OthersRemoveFirst(l: seq<Service>, c: Service, name: string)
    requires c in l && c.name == name
    ensures Others(RemoveFirst(l, c), name) == Others(l, name)
  {
    if l[0] != c {
      OthersRemoveFirst(l[1..], c, name);
      assert ([l[0]] + RemoveFirst(l[1..], c))[1..] == RemoveFirst(l[1..], c);
    }
  }

  /** Removing keeps every entry with another name, in order. */
  lemma {:induction false} IterRemoveKeepsOthers(l: seq<Service>, i: nat, name: string)
    ensures Others(IterRemove(l, i, name), name) == Others(l, name)
    decreases |l| - i
  {
    if i < |l| {
      if l[i].name == name {
        OthersRemoveFirst(l, l[i], name);
        IterRemoveKeepsOthers(RemoveFirst(l, l[i]), i + 1, name);
      } else {
        IterRemoveKeepsOthers(l, i + 1, name);
      }
    }
  }

  /** Removing a name no entry carries changes nothing. */
  lemma {:induction false} IterRemoveAbsent(l: seq<Service>, i: nat, name: string)
    requires forall k :: 0 <= k < |l| ==> l[k].name != name
    ensures IterRemove(l, i, name) == l
    decreases |l| - i
  {
    if i < |l| {
      IterRemoveAbsent(l, i + 1, name);
    }
  }

  lemma {:induction false} IterRemoveShrinks(l: seq<Service>, i: nat, name: string)
    ensures |IterRemove(l, i, name)| <= |l|
    decreases |l| - i
  {
    if i < |l| {
      if l[i].name == name {
        IterRemoveShrinks(RemoveFirst(l, l[i]), i + 1, name);
      } else {
        IterRemoveShrinks(l, i + 1, name);
      }
    }
  }

  /** A name some entry carries loses at least one entry. */
  lemma {:induction false} IterRemovePresent(l: seq<Service>, i: nat, name: string, j: nat)
    requires i <= j < |l| && l[j].name == name
    ensures |IterRemove(l, i, name)| < |l|
    decreases |l| - i
  {
    if l[i].name == name {
      IterRemoveShrinks(RemoveFirst(l, l[i]), i + 1, name);
    } else {
      IterRemovePresent(l, i + 1, name, j);
    }
  }

  /** Two neighbouring entries with the name: only the first is removed, the second is skipped. */
  lemma AdjacentLeavesOne(a: Service, b: Service)
    requires a.name == b.name
    ensures IterRemove([a, b], 0, a.name) == [b]
  {
    assert RemoveFirst([a, b], a) == [b];
  }

  // ----- scanning the presented key -----

  /**
   * Scanning the QR code the send side shows for a fingerprint of 40
   * characters without whitespace, '?' or '#', not all decimal digits, gives
   * a path the receive side accepts, and the path is the fingerprint.
   */
  lemma ScanPresentedKey(fpr: string, parseQs: string -> map<string, seq<string>>)
    requires NoSpace(fpr) && |fpr| == V4Length
    requires '?' !in fpr && '#' !in fpr && !AllDigits(fpr)
    ensures ParseUrl(QrData(fpr)).path == fpr
    ensures IsValid(ParseUrl(QrData(fpr)).path)
  {
    QrRoundTrip(fpr, parseQs);
    RemoveSpacesOfNoSpace(fpr);
  }

  // ----- the application -----

  class Application {
    var state: AppState
    var lastState: AppState
    var key: Option<Key>
    var timeoutId: nat
    var keyserver: Option<Keyserver>
    var discoveredServices: seq<Service>
    var top: TopChild
    var sendPage: string
    var receivePage: string
    var icon: ButtonIcon
    var downloadErrorShown: bool
    var uidsLabel: string
    var uidsSignedLabel: string
    var signingLabel: string
    var signingLabelShown: bool

    /** A key server runs only while the application presents a key. */
    predicate Valid()
      reads this
    {
      keyserver.Some? && keyserver.value.running ==> state == PresentKey
    }

    /** `__init__` and `do_startup`; the widgets start on the pages the UI files name. */
    constructor (top0: TopChild, sendPage0: string, receivePage0: string)
      ensures Valid()
      ensures state == NoState && lastState == NoState && key == None && timeoutId == 0
      ensures keyserver == None && discoveredServices == []
      ensures top == top0 && sendPage == sendPage0 && receivePage == receivePage0 && icon == InitialIcon
    {
      state := NoState;
      lastState := NoState;
      key := None;
      timeoutId := 0;
      keyserver := None;
      discoveredServices := [];
      top := top0;
      sendPage := sendPage0;
      receivePage := receivePage0;
      icon := InitialIcon;
      downloadErrorShown := false;
      uidsLabel := "";
      uidsSignedLabel := "";
      signingLabel := "";
      signingLabelShown := false;
    }

    /** `stop_server`. */
    method StopServer()
      requires keyserver.Some?
      modifies this`keyserver
      ensures keyserver == Stopped(old(keyserver))
    {
      keyserver := Some(keyserver.value.(running := false));
    }

    /**
     * `update_app_state`: the old state becomes `last_state`; leaving
     * DOWNLOAD removes the download timer, leaving PRESENT stops a key
     * server; a truthy new state is taken as given, otherwise the state is
     * read back from the visible pages.
     */
    method UpdateAppState(newState: AppState)
      modifies this`lastState, this`timeoutId, this`keyserver, this`state
      ensures lastState == old(state)
      ensures timeoutId == if old(state) == DownloadKey then 0 else old(timeoutId)
      ensures keyserver == if old(state) == PresentKey then Stopped(old(keyserver)) else old(keyserver)
      ensures state == if newState.Truthy() then newState else StateOfView(top, sendPage, receivePage)
    {
      lastState := state;
      if lastState == DownloadKey {
        if timeoutId != 0 {
          timeoutId := 0;
        }
      } else if lastState == PresentKey {
        if keyserver.Some? {
          StopServer();
        }
      }
      if newState.Truthy() {
        state := newState;
      } else if top == SendStack {
        state := if sendPage == "page0" then SelectKey else PresentKey;
      } else if top == ReceiveStack {
        if receivePage == "page0" {
          state := EnterFpr;
        } else if receivePage == "page1" {
          state := DownloadKey;
        } else if receivePage == "page2" {
          state := ConfirmKey;
        } else {
          state := SignKey;
        }
      } else {
        state := Unknown;
      }
    }

    /** `update_back_refresh_button_icon`. */
    method UpdateBackRefreshButtonIcon()
      modifies this`icon
      ensures icon == NextIcon(lastState, state, old(icon))
    {
      if lastState.Truthy() && lastState != state {
        if state == SelectKey || state == EnterFpr {
          icon := RefreshIcon;
        } else if state == PresentKey || state == DownloadKey || state == ConfirmKey || state == SignKey {
          icon := GoBackIcon;
        }
      }
    }

    /** `on_top_stack_notify`: the user switched the top-level stack to `visible`. */
    method OnTopStackNotify(visible: TopChild)
      requires Valid()
      modifies this`top, this`lastState, this`timeoutId, this`keyserver, this`state, this`icon
      ensures Valid()
      ensures top == visible && state == StateOfView(visible, sendPage, receivePage) && lastState == old(state)
      ensures icon == NextIcon(old(state), state, old(icon))
      ensures timeoutId == if old(state) == DownloadKey then 0 else old(timeoutId)
      ensures keyserver == if old(state) == PresentKey then Stopped(old(keyserver)) else old(keyserver)
    {
      top := visible;
      UpdateAppState(NoState);
      UpdateBackRefreshButtonIcon();
    }

    /**
     * `on_back_refresh_button_clicked`: the back table of AppStates.BackTarget
     * applied, with the page switch of AppStates.BackPage; None and UNKNOWN
     * change nothing. Going back from PRESENT stops the key server.
     */
    method OnBackRefreshButtonClicked()
      requires Valid()
      modifies this`sendPage, this`receivePage, this`lastState, this`timeoutId, this`keyserver, this`state, this`icon
      ensures Valid()
      ensures old(state).Truthy() ==> state == BackTarget(old(state)).value && lastState == old(state)
      ensures !old(state).Truthy() ==> state == old(state) && lastState == old(lastState) && icon == old(icon)
      ensures icon == NextIcon(lastState, state, old(icon))
      ensures sendPage == if old(state) == PresentKey then BackPage(old(state)).value else old(sendPage)
      ensures receivePage == if old(state) in {DownloadKey, ConfirmKey, SignKey} then BackPage(old(state)).value else old(receivePage)
      ensures timeoutId == if old(state) == DownloadKey then 0 else old(timeoutId)
      ensures keyserver == if old(state) == PresentKey then Stopped(old(keyserver)) else old(keyserver)
    {
      var s := state;
      if s == SelectKey {
        UpdateAppState(SelectKey);
      } else if s == PresentKey {
        sendPage := "page0";
        UpdateAppState(SelectKey);
      } else if s == EnterFpr {
        UpdateAppState(EnterFpr);
      } else if s == DownloadKey {
        receivePage := "page0";
        UpdateAppState(EnterFpr);
      } else if s == ConfirmKey {
        receivePage := "page0";
        UpdateAppState(EnterFpr);
      } else if s == SignKey {
        receivePage := "page2";
        UpdateAppState(ConfirmKey);
      }
      UpdateBackRefreshButtonIcon();
    }

    /** `add_discovered_service`: the new entry goes to the end. */
    method AddDiscoveredService(name: string, address: string, port: int, publishedFpr: Option<string>)
      modifies this`discoveredServices
      ensures discoveredServices == old(discoveredServices) + [Service(name, address, port, publishedFpr)]
    {
      discoveredServices := discoveredServices + [Service(name, address, port, publishedFpr)];
    }

    /**
     * `remove_discovered_service`: entries with the name are removed while
     * the list is iterated. Every entry with another name stays, in order
     * (IterRemoveKeepsOthers); an unknown name is a no-op (IterRemoveAbsent).
     */
    method RemoveDiscoveredService(name: string)
      modifies this`discoveredServices
      ensures discoveredServices == IterRemove(old(discoveredServices), 0, name)
    {
      var i := 0;
      while i < |discoveredServices|
        invariant IterRemove(old(discoveredServices), 0, name) == IterRemove(discoveredServices, i, name)
        decreases |discoveredServices| - i
      {
        var client := discoveredServices[i];
        i := i + 1;
        if client.name == name {
          discoveredServices := RemoveFirst(discoveredServices, client);
        }
      }
    }

    /**
     * `obtain_key_async`, run by the download timer: the usable secret keys
     * stand in for the network. The first downloaded key whose fingerprint
     * is the requested one becomes `self.key` and is handed to
     * `received_key_callback`; without one `invalid_key_callback` is
     * scheduled and `self.key` is left alone.
     */
    method ObtainKeyAsync(cleanedFpr: string, secret: seq<KeyringKey>, lookup: string -> seq<KeyringKey>)
      returns (scheduled: Scheduled)
      modifies this`key
      ensures scheduled.ReceivedKey? <==> exists k :: k in UsableSecretKeys(secret, lookup) && k.fingerprint == cleanedFpr
      ensures scheduled.ReceivedKey? ==>
        (scheduled.key.fingerprint == cleanedFpr && key == Some(scheduled.key) &&
         Some(scheduled.key) == FirstMatch(UsableSecretKeys(secret, lookup), cleanedFpr))
      ensures scheduled.InvalidKey? ==> key == old(key)
    {
      var keys := DownloadKeys(cleanedFpr, secret, lookup);
      var found := SelectVerifiedKey(cleanedFpr, keys);
      FirstMatchDownloaded(cleanedFpr, UsableSecretKeys(secret, lookup));
      if found.Some? {
        key := found;
        scheduled := ReceivedKey(found.value);
      } else {
        scheduled := InvalidKey;
      }
    }

    /**
     * `on_valid_fingerprint`, the handler of "fingerprint-validated": show
     * the download page, enter DOWNLOAD and start the download timer.
     */
    method OnValidFingerprint(cleanedFpr: string, handle: SourceId)
      requires Valid()
      modifies this`downloadErrorShown, this`receivePage, this`lastState, this`timeoutId, this`keyserver, this`state, this`icon
      ensures Valid()
      ensures !downloadErrorShown && receivePage == "page1"
      ensures state == DownloadKey && lastState == old(state) && timeoutId == handle
      ensures keyserver == if old(state) == PresentKey then Stopped(old(keyserver)) else old(keyserver)
      ensures icon == NextIcon(old(state), DownloadKey, old(icon))
    {
      downloadErrorShown := false;
      receivePage := "page1";
      UpdateAppState(DownloadKey);
      UpdateBackRefreshButtonIcon();
      timeoutId := handle;
    }

    /** `received_key_callback`: show the key's UIDs and ask for confirmation. */
    method ReceivedKeyCallback(k: Key)
      requires Valid()
      modifies this`uidsLabel, this`receivePage, this`lastState, this`timeoutId, this`keyserver, this`state, this`icon
      ensures Valid()
      ensures uidsLabel == UidsListText(k.uidslist)
      ensures timeoutId == 0 && receivePage == "page2" && state == ConfirmKey && lastState == old(state)
      ensures icon == NextIcon(old(state), ConfirmKey, old(icon))
      ensures keyserver == if old(state) == PresentKey then Stopped(old(keyserver)) else old(keyserver)
    {
      uidsLabel := FormatUidsList(k.uidslist);
      timeoutId := 0;
      receivePage := "page2";
      UpdateAppState(ConfirmKey);
      UpdateBackRefreshButtonIcon();
    }

    /** `invalid_key_callback`: after the dialog, back to entering a fingerprint. */
    method InvalidKeyCallback()
      requires Valid()
      modifies this`receivePage, this`lastState, this`timeoutId, this`keyserver, this`state, this`icon
      ensures Valid()
      ensures receivePage == "page0" && state == EnterFpr && lastState == old(state)
      ensures timeoutId == if old(state) == DownloadKey then 0 else old(timeoutId)
      ensures icon == NextIcon(old(state), EnterFpr, old(icon))
      ensures keyserver == if old(state) == PresentKey then Stopped(old(keyserver)) else old(keyserver)
    {
      receivePage := "page0";
      UpdateAppState(EnterFpr);
      UpdateBackRefreshButtonIcon();
    }

    /**
     * `on_text_changed`: a text that is a valid fingerprint once cleaned is
     * emitted, cleaned, as "fingerprint-validated" (whose handler runs at
     * once); any other text changes nothing.
     */
    method OnTextChanged(text: string, handle: SourceId) returns (emitted: Option<string>)
      requires Valid()
      modifies this`downloadErrorShown, this`receivePage, this`lastState, this`timeoutId, this`keyserver, this`state, this`icon
      ensures Valid()
      ensures emitted.Some? <==> IsValid(text)
      ensures emitted.Some? ==>
        (emitted.value == Clean(text) && |emitted.value| == V4Length &&
         state == DownloadKey && receivePage == "page1" && lastState == old(state) && timeoutId == handle)
      ensures emitted.Some? ==> !downloadErrorShown && icon == NextIcon(old(state), DownloadKey, old(icon))
      ensures emitted.Some? ==> keyserver == if old(state) == PresentKey then Stopped(old(keyserver)) else old(keyserver)
      ensures emitted.None? ==> unchanged(this)
    {
      var cleanedFpr := Clean(text);
      IsValidOfClean(text);
      CleanIdempotent(text);
      if IsValid(cleanedFpr) {
        emitted := Some(cleanedFpr);
        OnValidFingerprint(cleanedFpr, handle);
      } else {
        emitted := None;
      }
    }

    /**
     * `on_barcode`: the path of the scanned text is emitted as
     * "fingerprint-validated" when it is non-empty and a valid fingerprint
     * once cleaned. The path itself is emitted, not its cleaned form.
     */
    method OnBarcode(barcode: string, parseQs: string -> map<string, seq<string>>, handle: SourceId)
      returns (emitted: Option<string>)
      requires Valid()
      modifies this`downloadErrorShown, this`receivePage, this`lastState, this`timeoutId, this`keyserver, this`state, this`icon
      ensures Valid()
      ensures emitted.Some? <==> ParseUrl(barcode).path != "" && IsValid(ParseUrl(barcode).path)
      ensures emitted.Some? ==>
        (emitted.value == ParseUrl(barcode).path &&
         state == DownloadKey && receivePage == "page1" && lastState == old(state) && timeoutId == handle)
      ensures emitted.Some? ==> !downloadErrorShown && icon == NextIcon(old(state), DownloadKey, old(icon))
      ensures emitted.Some? ==> keyserver == if old(state) == PresentKey then Stopped(old(keyserver)) else old(keyserver)
      ensures emitted.None? ==> unchanged(this)
    {
      var parsed := ParseBarcode(barcode, parseQs);
      var fingerprint := parsed["fingerprint"].s;
      if fingerprint == "" {
        emitted := None;
      } else if IsValid(fingerprint) {
        emitted := Some(fingerprint);
        OnValidFingerprint(fingerprint, handle);
      } else {
        emitted := None;
      }
    }

    /**
     * `on_row_activated`: show the key's UIDs, its formatted fingerprint and
     * a QR code of "OPENPGP4FPR:" and the fingerprint, start a key server
     * for it and enter PRESENT. The new server is stopped at once when the
     * application was already in PRESENT, since entering PRESENT leaves
     * PRESENT first.
     */
    method OnRowActivated(k: Key) returns (uidsText: string, fprLabel: string, qrData: string)
      requires Valid()
      modifies this`keyserver, this`sendPage, this`lastState, this`timeoutId, this`state, this`icon
      ensures Valid()
      ensures uidsText == UidsListText(k.uidslist)
      ensures fprLabel == Formatted(k.fingerprint) && qrData == QrData(k.fingerprint)
      ensures keyserver == Some(Keyserver(k, k.fingerprint, old(state) != PresentKey))
      ensures state == PresentKey && sendPage == "page1" && lastState == old(state)
      ensures timeoutId == if old(state) == DownloadKey then 0 else old(timeoutId)
      ensures icon == NextIcon(old(state), PresentKey, old(icon))
    {
      uidsText := FormatUidsList(k.uidslist);
      fprLabel := FormatFingerprint(k.fingerprint);
      qrData := "OPENPGP4FPR:" + k.fingerprint;
      keyserver := Some(Keyserver(k, k.fingerprint, true));
      sendPage := "page1";
      UpdateAppState(PresentKey);
      UpdateBackRefreshButtonIcon();
    }

    /** `sign_key`, run by the signing timer. */
    method SignKeyCallback()
      modifies this`signingLabel, this`signingLabelShown, this`timeoutId
      ensures signingLabel == "Key succesfully signed!" && signingLabelShown && timeoutId == 0
    {
      signingLabel := "Key succesfully signed!";
      signingLabelShown := true;
      timeoutId := 0;
    }

    /** `on_sign_key_confirmed`: show the UIDs to be signed and start the signing timer. */
    method OnSignKeyConfirmed(k: Key, uidslist: seq<Uid>, handle: SourceId)
      modifies this`uidsSignedLabel, this`timeoutId
      ensures uidsSignedLabel == UidsListText(uidslist) && timeoutId == handle
    {
      uidsSignedLabel := FormatUidsList(uidslist);
      timeoutId := handle;
    }

    /**
     * `on_confirm_button_clicked`: enter SIGN and emit "sign-key-confirmed"
     * with every UID of the key. Without a key the attribute access fails
     * after the state change and nothing is emitted.
     */
    method OnConfirmButtonClicked(handle: SourceId) returns (emitted: bool)
      requires Valid()
      modifies this`signingLabelShown, this`receivePage, this`lastState, this`timeoutId, this`keyserver, this`state, this`icon, this`uidsSignedLabel
      ensures Valid()
      ensures !signingLabelShown && receivePage == "page3" && state == SignKey && lastState == old(state)
      ensures emitted <==> key.Some?
      ensures emitted ==> timeoutId == handle && uidsSignedLabel == UidsListText(key.value.uidslist)
      ensures !emitted ==> timeoutId == (if old(state) == DownloadKey then 0 else old(timeoutId))
      ensures !emitted ==> uidsSignedLabel == old(uidsSignedLabel)
      ensures icon == NextIcon(old(state), SignKey, old(icon))
      ensures keyserver == if old(state) == PresentKey then Stopped(old(keyserver)) else old(keyserver)
    {
      signingLabelShown := false;
      receivePage := "page3";
      UpdateAppState(SignKey);
      UpdateBackRefreshButtonIcon();
      if key.Some? {
        OnSignKeyConfirmed(key.value, key.value.uidslist, handle);
        emitted := true;
      } else {
        emitted := false;
      }
    }

    /**
     * `on_cancel_download_button_clicked`: a pending timer is removed and the
     * error label shown. Afterwards no timer is pending, and a second click
     * changes nothing.
     */
    method OnCancelDownloadButtonClicked()
      modifies this`timeoutId, this`downloadErrorShown
      ensures timeoutId == 0
      ensures downloadErrorShown == (old(downloadErrorShown) || old(timeoutId) != 0)
      ensures old(timeoutId) == 0 ==> unchanged(this)
    {
      if timeoutId != 0 {
        downloadErrorShown := true;
        timeoutId := 0;
      }
    }

    /**
     * `on_cancel_signing_button_clicked`: a pending timer is removed and the
     * interruption reported. Afterwards no timer is pending, and a second
     * click changes nothing.
     */
    method OnCancelSigningButtonClicked()
      modifies this`timeoutId, this`signingLabel, this`signingLabelShown
      ensures timeoutId == 0
      ensures old(timeoutId) != 0 ==> signingLabel == "Key signing was interrupted!" && signingLabelShown
      ensures old(timeoutId) == 0 ==> unchanged(this)
    {
      if timeoutId != 0 {
        signingLabel := "Key signing was interrupted!";
        signingLabelShown := true;
        timeoutId := 0;
      }
    }
  }
}
