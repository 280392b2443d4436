/**
 * app.py: the earlier version of the application, working on the fixed key
 * table of utils.py (which app.py carries a copy of) instead of a keyring,
 * and without key server or service discovery. Its receive side obtains the
 * key from the table itself; state changes happen in the handlers of the
 * text entry and the barcode scanner, before "valid-fingerprint" is
 * emitted.
 *
 * The widgets are reduced as in module KeysignApp.
 */
module DemoApp {
  import opened Wrappers
  import opened Strings
  import opened Fingerprint
  import opened Barcode
  import opened AppStates
  import opened Utils

  /** The id of a GLib event source; 0 is the application's "no timer". */
  type SourceId = x: nat | x > 0 witness 1

  /** `verify_fingerprint`: whether some record carries the fingerprint. */
  method VerifyFingerprint(fpr: string, keys: seq<KeyData>) returns (found: bool)
    ensures found <==> exists i :: 0 <= i < |keys| && keys[i].fpr == fpr
    ensures found <==> FirstRecord(keys, fpr).Some?
  {
    var i := 0;
    while i < |keys|
      invariant 0 <= i <= |keys|
      invariant forall j :: 0 <= j < i ==> keys[j].fpr != fpr
    {
      if keys[i].fpr == fpr {
        return true;
      }
      i := i + 1;
    }
    return false;
  }

  /** `verify_downloaded_key`: the record when its 'fpr' is the requested one, else None. */
  function VerifyDownloadedKey(fpr: string, key: KeyData): (r: Option<KeyData>)
    ensures r.Some? <==> fpr == key.fpr
    ensures r.Some? ==> r.value == key
  {
    if fpr == key.fpr then Some(key) else None
  }

  /** What `download_keys` returns: the whole table for an empty fingerprint, else the matching records. */
  function DownloadedRecords(fpr: string): seq<KeyData> {
    if fpr == "" then Data else FilterRecords(Data, fpr)
  }

  /** `download_keys`: the table stands in for the network. */
  method DownloadKeys(fpr: string) returns (res: seq<KeyData>)
    ensures res == DownloadedRecords(fpr)
    ensures fpr != "" ==> forall k :: k in res ==> k.fpr == fpr
  {
    if fpr == "" {
      return Data;
    }
    var keys := Data;
    res := [];
    var i := 0;
    while i < |keys|
      invariant 0 <= i <= |keys|
      invariant res == FilterRecords(keys[..i], fpr)
    {
      assert keys[..i + 1] == keys[..i] + [keys[i]];
      FilterRecordsAppend(keys[..i], [keys[i]], fpr);
      if keys[i].fpr == fpr {
        res := res + [keys[i]];
      }
      i := i + 1;
    }
    assert keys[..i] == keys;
  }

  /** The loop of `obtain_key_async`: the first downloaded record that passes `verify_downloaded_key`. */
  method SelectVerifiedKey(fpr: string, keys: seq<KeyData>) returns (key: Option<KeyData>)
    ensures key == FirstRecord(keys, fpr)
  {
    key := None;
    var i := 0;
    assert keys[..0] == [];
    while i < |keys|
      invariant 0 <= i <= |keys|
      invariant key.None? && FirstRecord(keys[..i], fpr).None?
    {
      FirstRecordSnoc(keys, i, fpr);
      key := VerifyDownloadedKey(fpr, keys[i]);
      if key.Some? {
        FirstRecordPrefix(keys, i + 1, fpr);
        return;
      }
      i := i + 1;
    }
    assert keys[..i] == keys;
  }

  /** The record `obtain_key_async` accepts for a fingerprint: the first of the table carrying it. */
  lemma ObtainedRecord(fpr: string)
    ensures FirstRecord(DownloadedRecords(fpr), fpr) == FirstRecord(Data, fpr)
  {
    FirstRecordFiltered(Data, fpr);
  }

  /** The download and verification steps of `obtain_key_async`. */
  method FetchVerifiedKey(cleanedFpr: string) returns (k: Option<KeyData>)
    ensures k == TableRecord(cleanedFpr)
    ensures k.Some? ==> k.value.fpr == cleanedFpr
  {
    var keys := DownloadKeys(cleanedFpr);
    k := SelectVerifiedKey(cleanedFpr, keys);
    ObtainedRecord(cleanedFpr);
    TableRecordIff(cleanedFpr);
  }

  class Application {
    var state: AppState
    var lastState: AppState
    var key: Option<KeyData>
    var timeoutId: nat
    var top: TopChild
    var sendPage: string
    var receivePage: string
    var icon: ButtonIcon
    var downloadErrorShown: bool
    var keyIdsLabel: string
    var uidsLabel: string
    var uidsSignedLabel: string
    var signingLabel: string
    var signingLabelShown: bool

    /** `__init__` and `do_startup`; the widgets start on the pages the UI files name. */
    constructor (top0: TopChild, sendPage0: string, receivePage0: string)
      ensures state == NoState && lastState == NoState && key == None && timeoutId == 0
      ensures top == top0 && sendPage == sendPage0 && receivePage == receivePage0 && icon == InitialIcon
    {
      state := NoState;
      lastState := NoState;
      key := None;
      timeoutId := 0;
      top := top0;
      sendPage := sendPage0;
      receivePage := receivePage0;
      icon := InitialIcon;
      downloadErrorShown := false;
      keyIdsLabel := "";
      uidsLabel := "";
      uidsSignedLabel := "";
      signingLabel := "";
      signingLabelShown := false;
    }

    /**
     * `update_app_state`: the old state becomes `last_state`; only leaving
     * DOWNLOAD has a clean-up, the removal of the download timer. A truthy
     * new state is taken as given, otherwise the state is read back from
     * the visible pages.
     */
    method UpdateAppState(newState: AppState)
      modifies this`lastState, this`timeoutId, this`state
      ensures lastState == old(state)
      ensures timeoutId == if old(state) == DownloadKey then 0 else old(timeoutId)
      ensures state == if newState.Truthy() then newState else StateOfView(top, sendPage, receivePage)
    {
      lastState := state;
      if lastState == DownloadKey {
        if timeoutId != 0 {
          timeoutId := 0;
        }
      }
      if newState.Truthy() {
        state := newState;
      } else if top == SendStack {
        state := if sendPage == "page0" then SelectKey else PresentKey;
      } else if top == ReceiveStack {
        if receivePage == "page0" {
          state := EnterFpr;
        } else if receivePage == "page1" {
          state := DownloadKey;
        } else if receivePage == "page2" {
          state := ConfirmKey;
        } else {
          state := SignKey;
        }
      } else {
        state := Unknown;
      }
    }

    /** `update_back_refresh_button_icon`. */
    method UpdateBackRefreshButtonIcon()
      modifies this`icon
      ensures icon == NextIcon(lastState, state, old(icon))
    {
      if lastState.Truthy() && lastState != state {
        if state == SelectKey || state == EnterFpr {
          icon := RefreshIcon;
        } else if state == PresentKey || state == DownloadKey || state == ConfirmKey || state == SignKey {
          icon := GoBackIcon;
        }
      }
    }

    /** `on_top_stack_notify`: the user switched the top-level stack to `visible`. */
    method OnTopStackNotify(visible: TopChild)
      modifies this`top, this`lastState, this`timeoutId, this`state, this`icon
      ensures top == visible && state == StateOfView(visible, sendPage, receivePage) && lastState == old(state)
      ensures icon == NextIcon(old(state), state, old(icon))
      ensures timeoutId == if old(state) == DownloadKey then 0 else old(timeoutId)
    {
      top := visible;
      UpdateAppState(NoState);
      UpdateBackRefreshButtonIcon();
    }

    /** `on_back_refresh_button_clicked`: the same table as in keysign/app.py. */
    method OnBackRefreshButtonClicked()
      modifies this`sendPage, this`receivePage, this`lastState, this`timeoutId, this`state, this`icon
      ensures old(state).Truthy() ==> state == BackTarget(old(state)).value && lastState == old(state)
      ensures !old(state).Truthy() ==> state == old(state) && lastState == old(lastState) && icon == old(icon)
      ensures icon == NextIcon(lastState, state, old(icon))
      ensures sendPage == if old(state) == PresentKey then BackPage(old(state)).value else old(sendPage)
      ensures receivePage == if old(state) in {DownloadKey, ConfirmKey, SignKey} then BackPage(old(state)).value else old(receivePage)
      ensures timeoutId == if old(state) == DownloadKey then 0 else old(timeoutId)
    {
      var s := state;
      if s == SelectKey {
        UpdateAppState(SelectKey);
      } else if s == PresentKey {
        sendPage := "page0";
        UpdateAppState(SelectKey);
      } else if s == EnterFpr {
        UpdateAppState(EnterFpr);
      } else if s == DownloadKey {
        receivePage := "page0";
        UpdateAppState(EnterFpr);
      } else if s == ConfirmKey {
        receivePage := "page0";
        UpdateAppState(EnterFpr);
      } else if s == SignKey {
        receivePage := "page2";
        UpdateAppState(ConfirmKey);
      }
      UpdateBackRefreshButtonIcon();
    }

    /**
     * `obtain_key_async`, run by the download timer: on a match the timer is
     * forgotten, the record's id and UIDs are shown, CONFIRM is entered and
     * the record becomes `self.key`; otherwise, after the dialog, ENTER_FPR
     * is entered and `self.key` is left alone.
     */
    method ObtainKeyAsync(cleanedFpr: string) returns (accepted: Option<KeyData>)
      modifies this`timeoutId, this`keyIdsLabel, this`uidsLabel, this`receivePage, this`lastState, this`state, this`icon, this`key
      ensures accepted == TableRecord(cleanedFpr)
      ensures accepted.Some? ==>
        (key == accepted && accepted.value.fpr == cleanedFpr &&
         timeoutId == 0 && keyIdsLabel == accepted.value.id && uidsLabel == Lines(UidTexts(accepted.value.uids)) &&
         receivePage == "page2" && state == ConfirmKey && lastState == old(state))
      ensures accepted.None? ==>
        (key == old(key) && receivePage == "page0" && state == EnterFpr && lastState == old(state) &&
         timeoutId == (if old(state) == DownloadKey then 0 else old(timeoutId)) &&
         keyIdsLabel == old(keyIdsLabel) && uidsLabel == old(uidsLabel))
      ensures icon == NextIcon(old(state), state, old(icon))
    {
      accepted := FetchVerifiedKey(cleanedFpr);
      if accepted.Some? {
        ShowReceivedKey(accepted.value);
      } else {
        receivePage := "page0";
        UpdateAppState(EnterFpr);
        UpdateBackRefreshButtonIcon();
      }
    }

    /** The success branch of `obtain_key_async`: the record is shown, CONFIRM entered and the record kept. */
    method ShowReceivedKey(k: KeyData)
      modifies this`timeoutId, this`keyIdsLabel, this`uidsLabel, this`receivePage, this`lastState, this`state, this`icon, this`key
      ensures key == Some(k) && timeoutId == 0 && keyIdsLabel == k.id && uidsLabel == Lines(UidTexts(k.uids))
      ensures receivePage == "page2" && state == ConfirmKey && lastState == old(state)
      ensures icon == NextIcon(old(state), ConfirmKey, old(icon))
    {
      timeoutId := 0;
      keyIdsLabel := k.id;
      uidsLabel := FormatDetailsKeydata(k);
      receivePage := "page2";
      UpdateAppState(ConfirmKey);
      UpdateBackRefreshButtonIcon();
      key := Some(k);
    }

    /** `on_valid_fingerprint`, the handler of "valid-fingerprint": start the download timer. */
    method OnValidFingerprint(cleanedFpr: string, handle: SourceId)
      modifies this`downloadErrorShown, this`timeoutId
      ensures !downloadErrorShown && timeoutId == handle
    {
      downloadErrorShown := false;
      timeoutId := handle;
    }

    /**
     * `on_text_changed`: for a text that is a valid fingerprint once cleaned,
     * show the download page, enter DOWNLOAD and emit the cleaned fingerprint
     * as "valid-fingerprint" (whose handler runs at once); any other text
     * changes nothing.
     */
    method OnTextChanged(text: string, handle: SourceId) returns (emitted: Option<string>)
      modifies this`receivePage, this`lastState, this`timeoutId, this`state, this`icon, this`downloadErrorShown
      ensures emitted.Some? <==> IsValid(text)
      ensures emitted.Some? ==>
        (emitted.value == Clean(text) && receivePage == "page1" && state == DownloadKey &&
         lastState == old(state) && timeoutId == handle && icon == NextIcon(old(state), DownloadKey, old(icon)))
      ensures emitted.Some? ==> !downloadErrorShown
      ensures emitted.None? ==> unchanged(this)
    {
      var cleanedFpr := Clean(text);
      IsValidOfClean(text);
      if IsValid(cleanedFpr) {
        receivePage := "page1";
        UpdateAppState(DownloadKey);
        UpdateBackRefreshButtonIcon();
        emitted := Some(cleanedFpr);
        OnValidFingerprint(cleanedFpr, handle);
      } else {
        emitted := None;
      }
    }

    /**
     * `on_barcode`: for a scanned text whose path is non-empty and a valid
     * fingerprint once cleaned, show the download page, enter DOWNLOAD and
     * emit the path itself, uncleaned.
     */
    method OnBarcode(barcode: string, parseQs: string -> map<string, seq<string>>, handle: SourceId)
      returns (emitted: Option<string>)
      modifies this`receivePage, this`lastState, this`timeoutId, this`state, this`icon, this`downloadErrorShown
      ensures emitted.Some? <==> ParseUrl(barcode).path != "" && IsValid(ParseUrl(barcode).path)
      ensures emitted.Some? ==>
        (emitted.value == ParseUrl(barcode).path && receivePage == "page1" && state == DownloadKey &&
         lastState == old(state) && timeoutId == handle)
      ensures emitted.Some? ==> !downloadErrorShown && icon == NextIcon(old(state), DownloadKey, old(icon))
      ensures emitted.None? ==> unchanged(this)
    {
      var parsed := ParseBarcode(barcode, parseQs);
      var fingerprint := parsed["fingerprint"].s;
      if fingerprint == "" {
        emitted := None;
      } else if IsValid(fingerprint) {
        receivePage := "page1";
        UpdateAppState(DownloadKey);
        UpdateBackRefreshButtonIcon();
        emitted := Some(fingerprint);
        OnValidFingerprint(fingerprint, handle);
      } else {
        emitted := None;
      }
    }

    /**
     * `on_row_activated`: show the record's id, UIDs, formatted fingerprint
     * and a QR code of "OPENPGP4FPR:" and the fingerprint, and enter PRESENT.
     */
    method OnRowActivated(k: KeyData) returns (keyidText: string, uidsText: string, fprLabel: string, qrData: string)
      modifies this`sendPage, this`lastState, this`timeoutId, this`state, this`icon
      ensures keyidText == k.id && uidsText == Lines(UidTexts(k.uids))
      ensures fprLabel == "<span size=\"15000\">" + Formatted(k.fpr) + "</span>"
      ensures qrData == QrData(k.fpr)
      ensures sendPage == "page1" && state == PresentKey && lastState == old(state)
      ensures timeoutId == if old(state) == DownloadKey then 0 else old(timeoutId)
      ensures icon == NextIcon(old(state), PresentKey, old(icon))
    {
      keyidText := k.id;
      uidsText := FormatDetailsKeydata(k);
      var fpr := FormatFingerprint(k.fpr);
      fprLabel := "<span size=\"15000\">" + fpr + "</span>";
      qrData := "OPENPGP4FPR:" + k.fpr;
      sendPage := "page1";
      UpdateAppState(PresentKey);
      UpdateBackRefreshButtonIcon();
    }

    /** `sign_key`, run by the signing timer. */
    method SignKeyCallback()
      modifies this`signingLabel, this`signingLabelShown, this`timeoutId
      ensures signingLabel == "Key succesfully signed!" && signingLabelShown && timeoutId == 0
    {
      signingLabel := "Key succesfully signed!";
      signingLabelShown := true;
      timeoutId := 0;
    }

    /** `on_sign_key_confirmed`: show the UIDs to be signed, one per line, and start the signing timer. */
    method OnSignKeyConfirmed(k: KeyData, uids: seq<UidData>, handle: SourceId)
      modifies this`uidsSignedLabel, this`timeoutId
      ensures uidsSignedLabel == Join(UidTexts(uids), "\n") && timeoutId == handle
    {
      uidsSignedLabel := Join(UidTexts(uids), "\n");
      timeoutId := handle;
    }

    /**
     * `on_confirm_button_clicked`: enter SIGN and emit "sign-key-confirmed"
     * with every UID of the record. Without a record the subscript fails
     * after the state change and nothing is emitted.
     */
    method OnConfirmButtonClicked(handle: SourceId) returns (emitted: bool)
      modifies this`signingLabelShown, this`receivePage, this`lastState, this`timeoutId, this`state, this`icon, this`uidsSignedLabel
      ensures !signingLabelShown && receivePage == "page3" && state == SignKey && lastState == old(state)
      ensures emitted <==> key.Some?
      ensures emitted ==> timeoutId == handle && uidsSignedLabel == Join(UidTexts(key.value.uids), "\n")
      ensures !emitted ==> timeoutId == (if old(state) == DownloadKey then 0 else old(timeoutId))
      ensures !emitted ==> uidsSignedLabel == old(uidsSignedLabel)
      ensures icon == NextIcon(old(state), SignKey, old(icon))
    {
      signingLabelShown := false;
      receivePage := "page3";
      UpdateAppState(SignKey);
      UpdateBackRefreshButtonIcon();
      if key.Some? {
        OnSignKeyConfirmed(key.value, key.value.uids, handle);
        emitted := true;
      } else {
        emitted := false;
      }
    }

    /** `on_cancel_download_button_clicked`: afterwards no timer is pending; a second click changes nothing. */
    method OnCancelDownloadButtonClicked()
      modifies this`timeoutId, this`downloadErrorShown
      ensures timeoutId == 0
      ensures downloadErrorShown == (old(downloadErrorShown) || old(timeoutId) != 0)
      ensures old(timeoutId) == 0 ==> unchanged(this)
    {
      if timeoutId != 0 {
        downloadErrorShown := true;
        timeoutId := 0;
      }
    }

    /** `on_cancel_signing_button_clicked`: afterwards no timer is pending; a second click changes nothing. */
    method OnCancelSigningButtonClicked()
      modifies this`timeoutId, this`signingLabel, this`signingLabelShown
      ensures timeoutId == 0
      ensures old(timeoutId) != 0 ==> signingLabel == "Key signing was interrupted!" && signingLabelShown
      ensures old(timeoutId) == 0 ==> unchanged(this)
    {
      if timeoutId != 0 {
        signingLabel := "Key signing was interrupted!";
        signingLabelShown := true;
        timeoutId := 0;
      }
    }
  }
}
