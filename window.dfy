/**
 * window.py: the application window of the second prototype. It lists the
 * table of utils.py, looks the typed fingerprint up in that table, and
 * stands for the download and the signing with timers. Instead of keeping
 * the timer ids it has one `cancel_flag`: the cancel buttons raise it, and
 * the next timer callback then skips its success step and lowers it again.
 *
 * The widgets are reduced as in module KeysignApp.
 */
module Window {
  import opened Wrappers
  import opened Strings
  import opened Fingerprint
  import opened AppStates
  import opened Utils

  /**
   * The search loop of `on_text_changed`: the table's records in order,
   * stopping at the first whose 'fpr' is the cleaned fingerprint.
   */
  method FindRecord(fpr: string) returns (found: Option<KeyData>)
    ensures found == TableRecord(fpr)
  {
    var keys := GetSecretKeys("");
    var i := 0;
    assert keys[..0] == [];
    while i < |keys|
      invariant 0 <= i <= |keys|
      invariant FirstRecord(keys[..i], fpr).None?
    {
      FirstRecordSnoc(keys, i, fpr);
      if keys[i].fpr == fpr {
        FirstRecordPrefix(keys, i + 1, fpr);
        return Some(keys[i]);
      }
      i := i + 1;
    }
    assert keys[..i] == keys;
    return None;
  }

  /**
   * The record `on_text_changed` finds for a typed text: none when the
   * cleaned text is not a valid fingerprint, else the first record of the
   * table carrying the cleaned fingerprint.
   */
  function TypedRecord(text: string): Option<KeyData> {
    if IsValid(text) then TableRecord(Clean(text)) else None
  }

  /** A text finds a record exactly when it is valid and some record carries its cleaned form. */
  lemma TypedRecordIff(text: string)
    ensures TypedRecord(text).Some? <==> IsValid(text) && exists i :: 0 <= i < |Data| && Data[i].fpr == Clean(text)
  {
    if IsValid(text) {
      TableRecordIff(Clean(text));
    }
  }

  /** Typing the cleaned form of a text finds the same record as typing the text. */
  lemma TypedRecordOfClean(text: string)
    ensures TypedRecord(Clean(text)) == TypedRecord(text)
  {
    CleanIdempotent(text);
    IsValidOfClean(text);
  }

  /** The cleaning, validation and search steps of `on_text_changed`. */
  method FindTypedRecord(text: string) returns (found: Option<KeyData>)
    ensures found == TypedRecord(text)
    ensures found.Some? ==> found.value.fpr == Clean(text)
  {
    var cleanedFpr := Clean(text);
    IsValidOfClean(text);
    found := None;
    if IsValid(cleanedFpr) {
      found := FindRecord(cleanedFpr);
      TableRecordIff(cleanedFpr);
    }
  }

  class ApplicationWindow {
    var state: AppState
    var lastState: AppState
    var cancelFlag: bool
    var key: Option<KeyData>
    var top: TopChild
    var sendPage: string
    var receivePage: string
    var icon: ButtonIcon
    var downloadErrorShown: bool
    var keyIdsLabel: string
    var uidsLabel: string
    var uidsSignedLabel: string
    var signingLabel: string
    var signingLabelShown: bool

    /** `__init__`; the stacks start on the pages the UI files name. */
    constructor (top0: TopChild, sendPage0: string, receivePage0: string)
      ensures state == NoState && lastState == NoState && !cancelFlag && key == None
      ensures top == top0 && sendPage == sendPage0 && receivePage == receivePage0 && icon == InitialIcon
    {
      state := NoState;
      lastState := NoState;
      cancelFlag := false;
      key := None;
      top := top0;
      sendPage := sendPage0;
      receivePage := receivePage0;
      icon := InitialIcon;
      downloadErrorShown := false;
      keyIdsLabel := "";
      uidsLabel := "";
      uidsSignedLabel := "";
      signingLabel := "";
      signingLabelShown := false;
    }

    /**
     * `update_app_state`: the old state becomes `last_state`; a truthy new
     * state is taken as given, otherwise the state is read back from the
     * visible pages. Unlike the later versions, nothing is cleaned up.
     */
    method UpdateAppState(newState: AppState)
      modifies this`lastState, this`state
      ensures lastState == old(state)
      ensures state == if newState.Truthy() then newState else StateOfView(top, sendPage, receivePage)
    {
      lastState := state;
      if newState.Truthy() {
        state := newState;
      } else if top == SendStack {
        state := if sendPage == "page0" then SelectKey else PresentKey;
      } else if top == ReceiveStack {
        if receivePage == "page0" {
          state := EnterFpr;
        } else if receivePage == "page1" {
          state := DownloadKey;
        } else if receivePage == "page2" {
          state := ConfirmKey;
        } else {
          state := SignKey;
        }
      } else {
        state := Unknown;
      }
    }

    /** `update_back_refresh_button_icon`. */
    method UpdateBackRefreshButtonIcon()
      modifies this`icon
      ensures icon == NextIcon(lastState, state, old(icon))
    {
      if lastState.Truthy() && lastState != state {
        if state == SelectKey || state == EnterFpr {
          icon := RefreshIcon;
        } else if state == PresentKey || state == DownloadKey || state == ConfirmKey || state == SignKey {
          icon := GoBackIcon;
        }
      }
    }

    /** `on_top_stack_notify`: the user switched the top-level stack to `visible`. */
    method OnTopStackNotify(visible: TopChild)
      modifies this`top, this`lastState, this`state, this`icon
      ensures top == visible && state == StateOfView(visible, sendPage, receivePage) && lastState == old(state)
      ensures icon == NextIcon(old(state), state, old(icon))
    {
      top := visible;
      UpdateAppState(NoState);
      UpdateBackRefreshButtonIcon();
    }

    /** `on_back_refresh_button_clicked`: the same table as in keysign/app.py. */
    method OnBackRefreshButtonClicked()
      modifies this`sendPage, this`receivePage, this`lastState, this`state, this`icon
      ensures old(state).Truthy() ==> state == BackTarget(old(state)).value && lastState == old(state)
      ensures !old(state).Truthy() ==> state == old(state) && lastState == old(lastState) && icon == old(icon)
      ensures icon == NextIcon(lastState, state, old(icon))
      ensures sendPage == if old(state) == PresentKey then BackPage(old(state)).value else old(sendPage)
      ensures receivePage == if old(state) in {DownloadKey, ConfirmKey, SignKey} then BackPage(old(state)).value else old(receivePage)
    {
      var s := state;
      if s == SelectKey {
        UpdateAppState(SelectKey);
      } else if s == PresentKey {
        sendPage := "page0";
        UpdateAppState(SelectKey);
      } else if s == EnterFpr {
        UpdateAppState(EnterFpr);
      } else if s == DownloadKey {
        receivePage := "page0";
        UpdateAppState(EnterFpr);
      } else if s == ConfirmKey {
        receivePage := "page0";
        UpdateAppState(EnterFpr);
      } else if s == SignKey {
        receivePage := "page2";
        UpdateAppState(ConfirmKey);
      }
      UpdateBackRefreshButtonIcon();
    }

    /**
     * `download_key`, run by the download timer: unless the download was
     * cancelled, show the confirmation page and enter CONFIRM; either way
     * the flag is lowered.
     */
    method DownloadKeyCallback()
      modifies this`receivePage, this`lastState, this`state, this`icon, this`cancelFlag
      ensures !cancelFlag
      ensures !old(cancelFlag) ==>
        receivePage == "page2" && state == ConfirmKey && lastState == old(state) &&
        icon == NextIcon(old(state), ConfirmKey, old(icon))
      ensures old(cancelFlag) ==>
        receivePage == old(receivePage) && state == old(state) && lastState == old(lastState) && icon == old(icon)
    {
      if !cancelFlag {
        receivePage := "page2";
        UpdateAppState(ConfirmKey);
        UpdateBackRefreshButtonIcon();
      }
      cancelFlag := false;
    }

    /**
     * `sign_key`, run by the signing timer: unless the signing was
     * cancelled, report success; either way the flag is lowered.
     */
    method SignKeyCallback()
      modifies this`signingLabel, this`signingLabelShown, this`cancelFlag
      ensures !cancelFlag
      ensures !old(cancelFlag) ==> signingLabel == "Key succesfully signed!" && signingLabelShown
      ensures old(cancelFlag) ==> signingLabel == old(signingLabel) && signingLabelShown == old(signingLabelShown)
    {
      if !cancelFlag {
        signingLabel := "Key succesfully signed!";
        signingLabelShown := true;
      }
      cancelFlag := false;
    }

    /** `on_sign_key_confirmed`: show the UIDs to be signed, one per line. */
    method OnSignKeyConfirmed(k: KeyData, uids: seq<UidData>)
      modifies this`uidsSignedLabel
      ensures uidsSignedLabel == Join(UidTexts(uids), "\n")
    {
      uidsSignedLabel := Join(UidTexts(uids), "\n");
    }

    /**
     * `on_text_changed`: when the cleaned text is a valid fingerprint, look
     * it up in the table; on the first record carrying it, show its id and
     * UIDs, show the download page, enter DOWNLOAD, keep the record and
     * emit it as "valid-fingerprint". Without a match only the error dialog
     * is shown, and an invalid text changes nothing.
     */
    method OnTextChanged(text: string) returns (emitted: Option<KeyData>)
      modifies this`keyIdsLabel, this`uidsLabel, this`downloadErrorShown, this`receivePage, this`lastState, this`state, this`icon, this`key
      ensures emitted == TypedRecord(text)
      ensures emitted.Some? ==>
        (emitted.value.fpr == Clean(text) && key == emitted &&
         keyIdsLabel == emitted.value.id && uidsLabel == Lines(UidTexts(emitted.value.uids)) && !downloadErrorShown &&
         receivePage == "page1" && state == DownloadKey && lastState == old(state) &&
         icon == NextIcon(old(state), DownloadKey, old(icon)))
      ensures emitted.None? ==> unchanged(this)
    {
      emitted := FindTypedRecord(text);
      if emitted.Some? {
        ShowFoundKey(emitted.value);
      }
    }

    /** The match branch of `on_text_changed`: the record is shown, DOWNLOAD entered and the record kept. */
    method ShowFoundKey(k: KeyData)
      modifies this`keyIdsLabel, this`uidsLabel, this`downloadErrorShown, this`receivePage, this`lastState, this`state, this`icon, this`key
      ensures key == Some(k) && keyIdsLabel == k.id && uidsLabel == Lines(UidTexts(k.uids)) && !downloadErrorShown
      ensures receivePage == "page1" && state == DownloadKey && lastState == old(state)
      ensures icon == NextIcon(old(state), DownloadKey, old(icon))
    {
      keyIdsLabel := k.id;
      uidsLabel := FormatDetailsKeydata(k);
      downloadErrorShown := false;
      receivePage := "page1";
      UpdateAppState(DownloadKey);
      UpdateBackRefreshButtonIcon();
      key := Some(k);
    }

    /**
     * `on_row_activated`: show the record's id, UIDs and formatted
     * fingerprint, and enter PRESENT.
     */
    method OnRowActivated(k: KeyData) returns (keyidText: string, uidsText: string, fprLabel: string)
      modifies this`sendPage, this`lastState, this`state, this`icon
      ensures keyidText == k.id && uidsText == Lines(UidTexts(k.uids))
      ensures fprLabel == "<span size=\"20000\">" + Formatted(k.fpr) + "</span>"
      ensures sendPage == "page1" && state == PresentKey && lastState == old(state)
      ensures icon == NextIcon(old(state), PresentKey, old(icon))
    {
      keyidText := k.id;
      uidsText := FormatDetailsKeydata(k);
      var fpr := FormatFingerprint(k.fpr);
      fprLabel := "<span size=\"20000\">" + fpr + "</span>";
      sendPage := "page1";
      UpdateAppState(PresentKey);
      UpdateBackRefreshButtonIcon();
    }

    /** `on_cancel_download_button_clicked`: raise the flag and show the error label. */
    method OnCancelDownloadButtonClicked()
      modifies this`cancelFlag, this`downloadErrorShown
      ensures cancelFlag && downloadErrorShown
    {
      cancelFlag := true;
      downloadErrorShown := true;
    }

    /**
     * `on_confirm_button_clicked`: enter SIGN and emit "sign-key-confirmed"
     * with every UID of the kept record. Without a record the subscript
     * fails after the state change and nothing is emitted.
     */
    method OnConfirmButtonClicked() returns (emitted: bool)
      modifies this`signingLabelShown, this`receivePage, this`lastState, this`state, this`icon, this`uidsSignedLabel
      ensures !signingLabelShown && receivePage == "page3" && state == SignKey && lastState == old(state)
      ensures icon == NextIcon(old(state), SignKey, old(icon))
      ensures emitted <==> key.Some?
      ensures emitted ==> uidsSignedLabel == Join(UidTexts(key.value.uids), "\n")
      ensures !emitted ==> uidsSignedLabel == old(uidsSignedLabel)
    {
      signingLabelShown := false;
      receivePage := "page3";
      UpdateAppState(SignKey);
      UpdateBackRefreshButtonIcon();
      if key.Some? {
        OnSignKeyConfirmed(key.value, key.value.uids);
        emitted := true;
      } else {
        emitted := false;
      }
    }

    /** `on_cancel_signing_button_clicked`: raise the flag and report the interruption. */
    method OnCancelSigningButtonClicked()
      modifies this`cancelFlag, this`signingLabel, this`signingLabelShown
      ensures cancelFlag && signingLabel == "Key signing was interrupted!" && signingLabelShown
    {
      cancelFlag := true;
      signingLabel := "Key signing was interrupted!";
      signingLabelShown := true;
    }
  }
}
