# GNOME Keysign: fingerprints, UIDs and the application state machine

GNOME Keysign helps two people sign each other's OpenPGP keys. One person
picks one of their own secret keys. The application then shows its
fingerprint, as text and as a QR code, and serves the key on the local
network. The other person types or scans that fingerprint, obtains the key
and checks that it carries exactly that fingerprint. After they confirm,
the key is signed.

This project models in Dafny the logic the user interface is built around:

- **Fingerprint handling** (module `Fingerprint`, shared by keysign/app.py,
  app.py and utils.py):
  - cleaning removes whitespace and upper-cases;
  - validity is exactly 40 characters after cleaning, the length of a V4
    fingerprint in section 12.2 of RFC 4880;
  - the display form has groups of four with a line break after the fifth
    group.
- **The `OPENPGP4FPR:` barcode**: its URL path, and the parsed `fingerprint`
  entry (module `Barcode`).
- **gpgmh.py records** (module `Gpgmh`):
  - UID parsing and rendering;
  - key rendering;
  - the usable-key and usable-secret-key filters over an abstract keyring;
  - the parsing of GnuPG's colon-separated signature listing.
- **The demonstration key table and its formatters** of utils.py and
  gnome-keysign.py (modules `Utils`, `GnomeKeysign`).
- **The application state machine**, in three generations:
  - `KeysignApp.Application` (keysign/app.py), with key server and service
    discovery;
  - `DemoApp.Application` (app.py), on the demonstration table;
  - `Window.ApplicationWindow` (window.py), with a cancel flag instead of
    timer ids.

  Their shared tables live in module `AppStates`:
  - the seven states;
  - the reconstruction of the state from the visible pages;
  - the back button;
  - the back/refresh icon.

A Dafny `char` stands for one byte of a Python 2 `str`. The 40 that
`is_valid_fingerprint` compares with therefore counts bytes of the UTF-8
text GTK hands over, and `upper` and `split` work byte by byte.

`Strings` models the Python 2 string operations the code relies on:
- `split`, `''.join`, `strip`/`rstrip` over Python's whitespace set;
- `find`, `replace` by the empty string, ASCII `upper`;
- decimal rendering.

`Wrappers` holds `Option`.

The handlers of each application class are `method`s over the fields they
update. A widget is reduced to what the handlers read or write:
- the visible child of a stack;
- a page name;
- the button image;
- a label's text or whether it is shown.

A GLib timer is modelled as its non-zero source id. Here 0 stands for "no
timer", as the code uses it. The call a timer or idle callback makes later
is a separate method that the environment invokes. Python's `None` state
and `UNKNOWN_STATE` (0) are both falsy and are modelled as `NoState` and
`Unknown`.

In these places the code does something other than what its names and
comments suggest. The model follows the code:

- **`parse_uid` and the email.** It takes as the email the text between the
  first and the second `<`, not everything after the first `<`. See
  `Gpgmh.EmailOfSplit`.
- **`on_barcode` emits the raw path.** In keysign/app.py and app.py it
  emits the URL path as it was scanned. It does not emit the cleaned
  fingerprint, even though validity is judged on the cleaned form. See
  `KeysignApp.Application.OnBarcode`.
- **`remove_discovered_service` can leave an entry behind.** It removes
  entries from the list it is iterating over. Of two adjacent entries with
  the same name, one therefore stays. See `KeysignApp.AdjacentLeavesOne`.
- **`on_row_activated` stops the new key server.** In keysign/app.py it
  starts the key server before it changes the state. When it is run while a
  key is already presented, leaving the PRESENT state therefore stops the
  key server that was just started. The server that was running for the
  previously presented key is overwritten in `self.keyserver`
  (keysign/app.py:604) without a shutdown, so it keeps running with no
  reference left. This path needs a row to be activated while PRESENT is
  already showing. See `KeysignApp.Application.OnRowActivated`.
- **`get_secret_keys` only works without gpgmh.** When neither
  `keysign.gpgmh` nor `gpgmh` can be imported, it returns the fixed table
  `_data`. When one of them imports, it calls
  `gpgmh.get_usable_secret_keys_dict()` (utils.py:60-61, and app.py:87-88),
  which gpgmh.py does not define, so the call raises `AttributeError` and
  the final `return _data` is never reached. Only the first branch is
  modelled.

## Model

| member | source | states |
|---|---|---|
| Fingerprint.Clean | keysign/app.py:101-103 | the cleaned text has no whitespace, no lower-case letter, and is no longer than the input (same code in app.py:124-126 and utils.py:89-91) |
| Fingerprint.CleanIdempotent | keysign/app.py:101-103 | cleaning twice equals cleaning once |
| Fingerprint.CleanLength | keysign/app.py:101-103 | the cleaned length is the number of non-whitespace characters of the input |
| Fingerprint.CleanAppend | keysign/app.py:101-103 | cleaning distributes over concatenation |
| Fingerprint.CleanIgnoresSpace | keysign/app.py:101-103 | inserting a whitespace character anywhere does not change the cleaned text |
| Fingerprint.UpperOfNoLower | keysign/app.py:103 | upper-casing a text without lower-case letters leaves it unchanged |
| Fingerprint.IsValidIff | keysign/app.py:105-110 | a text is valid iff it has exactly 40 non-whitespace characters, whatever they are (same code in app.py:128-133 and utils.py:93-98) |
| Fingerprint.IsValidOfClean | keysign/app.py:105-110 | the cleaned text is valid iff the text is |
| Fingerprint.Formatted | keysign/app.py:117-126 | the display form never ends in whitespace |
| Fingerprint.FormatFingerprint | keysign/app.py:117-126 | the loop computes the display form (groups of four, a newline after every fifth group, then rstrip) and leaves no trailing whitespace (same code as app.py:148-157 `format_fpr` and utils.py:101-110) |
| Fingerprint.GroupedStep | keysign/app.py:119-124 | one loop step appends one group and its separator to the result |
| Fingerprint.RemoveSpacesOfSpaces | keysign/app.py:125 | what rstrip removes holds no non-whitespace |
| Fingerprint.RemoveSpacesRStrip | keysign/app.py:125 | rstrip does not change the non-whitespace content |
| Fingerprint.GroupedRoundTrip | keysign/app.py:119-124 | removing the whitespace of the grouped text from position i gives back the input from position i |
| Fingerprint.FormattedRoundTrip | keysign/app.py:117-126 | for a whitespace-free input, removing all whitespace from the display form gives back the input |
| Fingerprint.FormatThenClean | keysign/app.py:101-126 | cleaning the display form of a cleaned fingerprint gives the cleaned fingerprint |
| Fingerprint.GroupedLength | keysign/app.py:119-124 | four characters per group become five |
| Fingerprint.GroupedAt | keysign/app.py:119-124 | every character of the grouped text is a fingerprint character or a separator at a fixed position |
| Fingerprint.FormattedV4 | keysign/app.py:117-126 | a 40-character fingerprint is shown in 49 characters as ten groups of four; the only newline is at index 24, after the fifth group |
| AppStates.Code | keysign/app.py:58-64 | the seven state constants are 0..6 and `None` has no code (same constants at app.py:95-101 and window.py:21-27) |
| AppStates.CodeInjective | keysign/app.py:58-64 | distinct states have distinct codes; a state is truthy iff its code is non-zero |
| AppStates.StateOfViewSide | keysign/app.py:353-370 | when a stack is visible, the state read back belongs to that stack's half |
| AppStates.StateOfView | keysign/app.py:353-370 | the state read back from the pages is never `None`, and is UNKNOWN exactly when neither the send nor the receive stack is visible (same table in app.py:306-323 and window.py:161-178) |
| AppStates.StateOfViewPageOf | keysign/app.py:353-370 | showing a state's page on its own stack reads back that state (same table in app.py:306-323 and window.py:161-178) |
| AppStates.BackTarget | keysign/app.py:394-417 | the back button is defined exactly for truthy states and stays on the same side (same table in app.py:347-370 and window.py:202-225) |
| AppStates.BackPage | keysign/app.py:394-417 | the page the back button shows is the page of the state it enters; only SELECT and ENTER_FPR keep their page |
| AppStates.BackReachesHome | keysign/app.py:394-417 | pressing back twice reaches SELECT or ENTER_FPR from every state; exactly those two are fixed points |
| AppStates.IconFor | keysign/app.py:380-392 | the refresh image belongs exactly to the states where back stays put, the go-back image to the others |
| AppStates.NextIconMatchesBack | keysign/app.py:380-392 | after a real state change the image is refresh iff back would stay put (same code in app.py:333-345 and window.py:188-200) |
| AppStates.NextIconUnchanged | keysign/app.py:380-392 | with a falsy previous state, no change of state, or a falsy new state, the image stays |
| AppStates.NextIcon | keysign/app.py:380-392 | the image either stays or becomes the image of the new, truthy state |
| Barcode.SplitOnce | keysign/app.py:521 | the split at the first separator reassembles the text; the left part holds no separator |
| Barcode.ParseUrl | keysign/app.py:521-523 | the path holds no `?` or `#`, and the query no `#`; the scheme is split off for `http`, or for scheme characters not followed by a port number |
| Barcode.ParseBarcode | keysign/app.py:511-534 | the result holds `fingerprint` = the URL path, plus the keys of the parsed query and fragment, with the fragment's values taking precedence (same code in app.py:453-476) |
| Barcode.QrRoundTrip | keysign/app.py:582 | parsing `OPENPGP4FPR:` + f gives back f as the fingerprint entry, for f without `?` or `#` that is not all digits |
| Barcode.QrSchemeSplit | keysign/app.py:521-523 | the QR text `OPENPGP4FPR:` + f has a scheme, and splitting it at the first `:` gives `OPENPGP4FPR` and f, for f that is empty or not all digits |
| Barcode.QrDigitsKeepScheme | keysign/app.py:521-523 | for an all-digit f, the scheme is not split off, so the whole QR text is the fingerprint entry |
| Barcode.HttpDigitsPath | keysign/app.py:521-523 | after `http:` even an all-digit text is the path: the `http` fast path skips the port test |
| Gpgmh.RemoveComment | gpgmh.py:339-342 | a UID without `(` is kept as it is |
| Gpgmh.UidParts | gpgmh.py:336-353 | `parse_uid` never returns a comment: the middle part is always empty |
| Gpgmh.UidNameShape | gpgmh.py:347-348 | the name holds no `<` and is stripped |
| Gpgmh.EmailOfShape | gpgmh.py:349-351 | the email holds neither `<` nor `>` and is stripped |
| Gpgmh.UidEmailShape | gpgmh.py:336-353 | the parsed email holds neither `<` nor `>`, is stripped, and is `unknown` when no `<` remains after the comment is cut |
| Gpgmh.EmailOfSplit | gpgmh.py:347-351 | the email comes from the split at `<`: without `<` it is `unknown` |
| Gpgmh.ParseUid | gpgmh.py:336-353 | the step-by-step parse computes the (name, comment, email) triple; the comment is always empty, and the email is `unknown` without `<` |
| Gpgmh.RemoveGreater | gpgmh.py:351 | removing `>` from `email>` gives back the email |
| Gpgmh.SplitPartsAngle | gpgmh.py:347-353 | a text of the form `pre<email>` parses into the stripped pre, an empty comment and the email |
| Gpgmh.RemoveCommentAt | gpgmh.py:339-342 | cutting `(...)` joins the stripped text before it and the stripped text after it |
| Gpgmh.RemoveCommentOfFormat | gpgmh.py:339-342 | cutting the comment out of a rendered UID leaves `name<email>` |
| Gpgmh.ParseFormatUid | gpgmh.py:336-372 | parsing the rendering of a UID with an empty comment gives back its name and email |
| Gpgmh.ParseFormatUidDropsComment | gpgmh.py:336-372 | parsing the rendering of a UID with a comment gives back its name and email and loses the comment |
| Gpgmh.ParseUidNoEmail | gpgmh.py:336-353 | a UID without `<` or `(` parses to its stripped text and `unknown` |
| Gpgmh.UidLines | gpgmh.py:403 | one line per UID, in order, each the rendered UID after two spaces |
| Gpgmh.FormatKey | gpgmh.py:401-410 | the rendering starts with the fingerprint and CR LF |
| Gpgmh.JoinAppend | gpgmh.py:403 | joining one more line appends the separator and the line |
| Gpgmh.FormatKeyAppendUid | gpgmh.py:401-410 | adding a UID adds CR LF, two spaces and its rendering at the end |
| Gpgmh.UidFromKeyring | gpgmh.py:359-365 | the UID from a keyring UID has an empty comment |
| Gpgmh.KeyFromKeyring | gpgmh.py:419-425 | the key keeps the fingerprint and expiry and converts every UID in order |
| Gpgmh.UsableKeys | gpgmh.py:207-215 | every usable keyring key is converted into the result, and every result entry comes from a usable key |
| Gpgmh.UsableKeysAppend | gpgmh.py:215 | the filter works key by key and keeps the order |
| Gpgmh.UsableKeysAllUsable | gpgmh.py:215 | when every key is usable nothing is dropped |
| Gpgmh.UsableSecretKeys | gpgmh.py:222-239 | a secret key is returned iff the lookup of its fingerprint finds a usable key |
| Gpgmh.SecretFlagsIgnored | gpgmh.py:229-236 | the secret key's own flags are not checked: a revoked secret key whose public key is usable is returned |
| Gpgmh.SigLines | gpgmh.py:304-305 | exactly the lines that start with `sig` are read: every kept line starts with it, and every such line is kept |
| Gpgmh.SigLinesAppend | gpgmh.py:303-305 | the selection works line by line, so the kept lines are in the order of the listing |
| Gpgmh.AllWellFormedCons | gpgmh.py:304-309 | every selected line is well formed iff the first is and the rest are |
| Gpgmh.SigList | gpgmh.py:299-311 | a listing that parses holds as many entries as there are `sig` lines |
| Gpgmh.SigListSome | gpgmh.py:299-311 | the listing parses iff every `sig` line has at least ten fields |
| Gpgmh.SigListValue | gpgmh.py:299-311 | one (field 5, field 6, field 10) triple per `sig` line, in input order |
| Gpgmh.PrependAppend | gpgmh.py:309 | appending records one by one is appending them all at once |
| Gpgmh.SigListStep | gpgmh.py:304-309 | one loop step adds the line's triple or skips the line |
| Gpgmh.ParseSigList | gpgmh.py:299-311 | the loop computes the parse of the text split at newlines |
| Utils.GetSecretKeys | utils.py:48-65 | whatever the pattern, the result is the fixed table: four records with 40-character fingerprints, no two alike (same code in app.py:75-92) |
| Utils.UidTexts | utils.py:84-85 | the `uid` text of every entry, in order |
| Utils.FormatListboxKeydata | utils.py:68-80 | the loop builds the title line, one line per UID, an empty line and the expiry line (same code in app.py:103-115; gnome-keysign.py:38-50 reads the expiry from `expire`) |
| Utils.ListboxLines | utils.py:68-80 | read back line by line: the title, every UID in order, an empty line, the expiry line |
| Utils.NatToStringNoNewline | utils.py:74 | the signature count holds no newline |
| Utils.FormatDetailsKeydata | utils.py:82-87 | every UID followed by a newline, in order; empty iff there are no UIDs (same code in app.py:117-122) |
| Utils.DetailsLines | utils.py:82-87 | read back line by line: every UID in order, then an empty piece |
| Utils.FilterRecords | app.py:379-383 | a record is kept iff its `fpr` is the requested one |
| Utils.FilterRecordsAppend | app.py:380-382 | the filter works record by record and keeps the order |
| Utils.FirstRecord | app.py:394-397 | the first record with the fingerprint, or none iff no record has it |
| Utils.FirstRecordSnoc | app.py:394-397 | extending a prefix without a match by one record finds that record iff it matches |
| Utils.FirstRecordPrefix | app.py:394-397 | a match within a prefix is the first match overall (the loop's `break`) |
| Utils.FirstRecordFiltered | app.py:391-397 | filtering by the fingerprint first does not change which record matches first |
| Utils.TableRecordIff | app.py:391-399 | a fingerprint is found in the table iff some record has it, and then the record found has it |
| GnomeKeysign.FormatDetailsKeydata | gnome-keysign.py:52-57 | the loop builds the id line, then one line per UID |
| GnomeKeysign.DetailsLines | gnome-keysign.py:52-57 | read back line by line: the id, every UID in order, then an empty piece |
| KeysignApp.DisplayUids | keysign/app.py:82-83 | one display line per UID, in order |
| KeysignApp.FormatUidsList | keysign/app.py:80-86 | the loop builds one line per UID, and the result holds no `<` or `>` |
| KeysignApp.DisplayUidPlain | keysign/app.py:83 | a UID without comment or angle brackets is shown as `name email` |
| KeysignApp.UidsListLines | keysign/app.py:80-86 | read back line by line: the display lines in order, then an empty piece |
| KeysignApp.VerifyDownloadedKey | keysign/app.py:112-115 | the key is returned iff its fingerprint is the requested one, else None |
| KeysignApp.FilterFpr | keysign/app.py:420-431 | a candidate is kept iff its fingerprint is the requested one |
| KeysignApp.FilterFprAppend | keysign/app.py:426-430 | the filter works key by key and keeps the order |
| KeysignApp.DownloadKeys | keysign/app.py:420-431 | the loop returns all usable secret keys for an empty fingerprint, else exactly those carrying it |
| KeysignApp.KeepFpr | keysign/app.py:426-431 | the filtering loop keeps exactly the keys carrying the fingerprint, in order |
| KeysignApp.FirstMatch | keysign/app.py:441-444 | the first candidate with the fingerprint, or none iff no candidate has it |
| KeysignApp.FirstMatchIsFirst | keysign/app.py:441-444 | every candidate in front of the accepted one has another fingerprint |
| KeysignApp.FirstMatchSnoc | keysign/app.py:441-444 | one loop step accepts the candidate iff `verify_downloaded_key` passes it |
| KeysignApp.SelectVerifiedKey | keysign/app.py:441-444 | the loop accepts the first candidate with the requested fingerprint; an accepted key always carries it |
| KeysignApp.FirstMatchPrefix | keysign/app.py:441-444 | a match within a prefix is the first match overall (the loop's `break`) |
| KeysignApp.FirstMatchDownloaded | keysign/app.py:433-444 | filtering the candidates by fingerprint does not change which is accepted |
| KeysignApp.Stopped | keysign/app.py:610-611 | a stopped server keeps its key and fingerprint and no longer runs |
| KeysignApp.RemoveFirst | keysign/app.py:299 | `list.remove` drops exactly one entry |
| KeysignApp.OthersRemoveFirst | keysign/app.py:299 | removing an entry with the name keeps every entry with another name, in order |
| KeysignApp.IterRemoveKeepsOthers | keysign/app.py:294-300 | removal while iterating keeps every entry with another name, in order |
| KeysignApp.IterRemoveAbsent | keysign/app.py:294-300 | an unknown name changes nothing |
| KeysignApp.IterRemoveShrinks | keysign/app.py:294-300 | the list never grows |
| KeysignApp.IterRemovePresent | keysign/app.py:294-300 | a name that is present removes at least one entry |
| KeysignApp.AdjacentLeavesOne | keysign/app.py:297-299 | of two adjacent entries with the same name, the second remains |
| KeysignApp.ScanPresentedKey | keysign/app.py:582 | scanning the QR code of a presented fingerprint yields a path that is that fingerprint and is valid |
| KeysignApp.Application.constructor | keysign/app.py:195-200 | no state, no key, no timer, no key server, no discovered services |
| KeysignApp.Application.StopServer | keysign/app.py:610-611 | the key server is stopped |
| KeysignApp.Application.UpdateAppState | keysign/app.py:337-372 | `last_state` is the old state; leaving DOWNLOAD leaves no timer; leaving PRESENT stops the server; a truthy new state is taken, otherwise the state is read from the pages |
| KeysignApp.Application.UpdateBackRefreshButtonIcon | keysign/app.py:380-392 | the image follows the icon table |
| KeysignApp.Application.OnTopStackNotify | keysign/app.py:374-378 | the state is read back from the newly visible stack; leaving DOWNLOAD drops the timer, leaving PRESENT stops the server; the image follows the icon table; the invariant holds |
| KeysignApp.Application.OnBackRefreshButtonClicked | keysign/app.py:394-417 | the state becomes the back target and the page its page; from PRESENT the server is stopped; a falsy state changes nothing |
| KeysignApp.Application.AddDiscoveredService | keysign/app.py:288-292 | exactly one tuple is appended at the end |
| KeysignApp.Application.RemoveDiscoveredService | keysign/app.py:294-300 | the loop computes the removal while iterating |
| KeysignApp.Application.ObtainKeyAsync | keysign/app.py:433-453 | the received-key callback is scheduled iff some usable secret key has the fingerprint; the accepted key carries it and becomes `self.key`; otherwise the invalid-key callback is scheduled and `self.key` stays |
| KeysignApp.Application.OnValidFingerprint | keysign/app.py:455-470 | the download page, DOWNLOAD and the new timer |
| KeysignApp.Application.ReceivedKeyCallback | keysign/app.py:472-486 | no timer, the UID list shown, CONFIRM on page2, the server stopped iff PRESENT is left, the image updated |
| KeysignApp.Application.InvalidKeyCallback | keysign/app.py:488-502 | ENTER_FPR and its page; leaving DOWNLOAD drops the timer, leaving PRESENT stops the server; the image updated |
| KeysignApp.Application.OnTextChanged | keysign/app.py:504-509 | the cleaned text is emitted iff the text is valid, and then the error is hidden, DOWNLOAD is entered with the new timer, the server is stopped iff PRESENT is left, and the image updated; otherwise nothing changes |
| KeysignApp.Application.OnBarcode | keysign/app.py:536-561 | the raw path is emitted iff it is non-empty and valid, and then the error is hidden, DOWNLOAD is entered with the new timer, the server is stopped iff PRESENT is left, and the image updated; otherwise nothing changes |
| KeysignApp.Application.OnRowActivated | keysign/app.py:563-592 | the UID list, the display form, the QR text of the key; a server for the key runs, unless PRESENT was already on |
| KeysignApp.Application.SignKeyCallback | keysign/app.py:313-319 | the success message is shown and no timer remains |
| KeysignApp.Application.OnSignKeyConfirmed | keysign/app.py:321-332 | the UIDs to sign are shown and the signing timer is set |
| KeysignApp.Application.OnConfirmButtonClicked | keysign/app.py:622-634 | SIGN is entered with the image updated and the server stopped iff PRESENT is left; the signal is emitted iff there is a key, and without one the signed-UID label stays |
| KeysignApp.Application.OnCancelDownloadButtonClicked | keysign/app.py:613-620 | afterwards no timer is pending; a click without a timer changes nothing, so cancelling twice is cancelling once |
| KeysignApp.Application.OnCancelSigningButtonClicked | keysign/app.py:636-644 | afterwards no timer is pending; the interruption is reported only when a timer was pending |
| DemoApp.VerifyFingerprint | app.py:136-141 | true iff some record's `fpr` is the fingerprint |
| DemoApp.VerifyDownloadedKey | app.py:143-146 | the record is returned iff its `fpr` is the requested one, else None |
| DemoApp.DownloadKeys | app.py:373-383 | the whole table for an empty fingerprint, else exactly the records carrying it |
| DemoApp.SelectVerifiedKey | app.py:391-397 | the loop accepts the first record with the fingerprint |
| DemoApp.ObtainedRecord | app.py:391-397 | the record accepted from the download is the first of the table with the fingerprint |
| DemoApp.FetchVerifiedKey | app.py:391-397 | download and verification yield the first record of the table with the fingerprint |
| DemoApp.Application.constructor | app.py:207-210 | no state, no key, no timer |
| DemoApp.Application.UpdateAppState | app.py:295-325 | `last_state` is the old state; only leaving DOWNLOAD clears the timer; a truthy new state is taken, otherwise the state is read from the pages |
| DemoApp.Application.UpdateBackRefreshButtonIcon | app.py:333-345 | the image follows the icon table |
| DemoApp.Application.OnTopStackNotify | app.py:327-331 | the state is read back from the newly visible stack |
| DemoApp.Application.OnBackRefreshButtonClicked | app.py:347-370 | the state becomes the back target and the page its page |
| DemoApp.Application.ObtainKeyAsync | app.py:385-430 | on a match: no timer, the record's id and UIDs shown, CONFIRM, and the first matching record becomes `self.key`; otherwise ENTER_FPR while `self.key` and both labels stay |
| DemoApp.Application.ShowReceivedKey | app.py:399-415 | the accepted record becomes `self.key`, any pending timer is dropped, its id and UIDs are shown and CONFIRM is entered on page2 |
| DemoApp.Application.OnValidFingerprint | app.py:432-441 | the error label is hidden and the download timer is set |
| DemoApp.Application.OnTextChanged | app.py:443-451 | the cleaned text is emitted iff it is valid, after DOWNLOAD is entered, with the error hidden and the new timer; otherwise nothing changes |
| DemoApp.Application.OnBarcode | app.py:478-507 | the raw path is emitted iff it is non-empty and valid, and then DOWNLOAD is entered with the error hidden, the new timer and the image updated; otherwise nothing changes |
| DemoApp.Application.OnRowActivated | app.py:509-536 | the id, the UIDs, the display form in a 15000-size span, the QR text; PRESENT |
| DemoApp.Application.SignKeyCallback | app.py:274-280 | the success message is shown and no timer remains |
| DemoApp.Application.OnSignKeyConfirmed | app.py:282-290 | the UIDs joined by newlines are shown and the signing timer is set |
| DemoApp.Application.OnConfirmButtonClicked | app.py:550-562 | SIGN is entered with the image updated; the signal is emitted iff there is a record, and without one the signed-UID label stays |
| DemoApp.Application.OnCancelDownloadButtonClicked | app.py:541-548 | afterwards no timer is pending; a click without a timer changes nothing |
| DemoApp.Application.OnCancelSigningButtonClicked | app.py:564-572 | afterwards no timer is pending; the interruption is reported only when a timer was pending |
| Window.FindRecord | window.py:232-236 | the search loop finds the first table record with the fingerprint |
| Window.TypedRecordIff | window.py:227-236 | a typed text finds a record iff it is valid and some record carries its cleaned form |
| Window.TypedRecordOfClean | window.py:227-236 | typing the cleaned form finds the same record as typing the text |
| Window.FindTypedRecord | window.py:228-236 | cleaning, validation and search yield the record for the typed text, which carries the cleaned fingerprint |
| Window.ApplicationWindow.constructor | window.py:70-73 | no state, no key, the flag lowered |
| Window.ApplicationWindow.UpdateAppState | window.py:156-180 | `last_state` is the old state and nothing is cleaned up; a truthy new state is taken, otherwise the state is read from the pages |
| Window.ApplicationWindow.UpdateBackRefreshButtonIcon | window.py:188-200 | the image follows the icon table |
| Window.ApplicationWindow.OnTopStackNotify | window.py:182-186 | the state is read back from the newly visible stack |
| Window.ApplicationWindow.OnBackRefreshButtonClicked | window.py:202-225 | the state becomes the back target and the page its page |
| Window.ApplicationWindow.DownloadKeyCallback | window.py:119-127 | CONFIRM only when not cancelled, otherwise nothing changes; the flag is always lowered |
| Window.ApplicationWindow.SignKeyCallback | window.py:134-141 | success only when not cancelled; the flag is always lowered |
| Window.ApplicationWindow.OnSignKeyConfirmed | window.py:143-151 | the UIDs joined by newlines are shown |
| Window.ApplicationWindow.OnTextChanged | window.py:227-265 | the record found for the text is emitted and kept, with its id and UIDs shown and DOWNLOAD entered; without a valid match nothing changes |
| Window.ApplicationWindow.ShowFoundKey | window.py:236-255 | the found record becomes `self.key`, its id and UIDs are shown, the error is hidden and DOWNLOAD is entered on page1 |
| Window.ApplicationWindow.OnRowActivated | window.py:267-284 | the id, the UIDs, the display form in a 20000-size span; PRESENT |
| Window.ApplicationWindow.OnCancelDownloadButtonClicked | window.py:289-293 | the flag is raised and the error label shown |
| Window.ApplicationWindow.OnConfirmButtonClicked | window.py:295-307 | SIGN is entered; the signal is emitted iff a record is kept |
| Window.ApplicationWindow.OnCancelSigningButtonClicked | window.py:309-314 | the flag is raised and the interruption reported |
| Strings.RemoveSpaces | keysign/app.py:102 | `''.join(s.split())` removes every whitespace character and keeps the rest |
| Strings.Upper | keysign/app.py:103 | `upper()` maps each character on its own and leaves no lower-case ASCII letter |
| Strings.RStrip | keysign/app.py:125 | `rstrip()` removes exactly the trailing whitespace |
| Strings.StripIsStripped | gpgmh.py:348 | the result of `strip()` has no whitespace at either end |
| Strings.StripSubset | gpgmh.py:348 | `strip()` only removes characters |
| Strings.StripOfStripped | gpgmh.py:351 | stripping a text without whitespace at its ends changes nothing |
| Strings.Find | gpgmh.py:339-341 | `find` returns the first index of the character, or -1 iff it is absent |
| Strings.Split | gpgmh.py:304 | `split(sep)` yields at least one piece |
| Strings.SplitNoSep | gpgmh.py:304-306 | no piece of a split holds the separator |
| Strings.JoinSplit | gpgmh.py:304 | joining the pieces of a split with its separator gives back the text |
| Strings.SplitJoin | app.py:285 | splitting a join of separator-free pieces gives back the pieces |
| Strings.RemoveChar | gpgmh.py:351 | `replace(c, '')` leaves no c and adds nothing |
| Strings.RemoveCharAbsent | gpgmh.py:351 | replacing an absent character changes nothing |
| Strings.NatToString | utils.py:74 | a count is rendered as a non-empty string of decimal digits |
| Strings.NatToStringValue | utils.py:74 | the digits `str(n)` produces denote n, without a leading zero |
| Strings.Lines | utils.py:84-85 | the text of newline-terminated lines is empty iff there are no lines |
| Strings.SplitLines | utils.py:82-87 | splitting newline-terminated lines at newlines gives back the lines and an empty piece |

## Left out

- GTK presentation: builders, dialogs (the invalid-key dialog included), spinners, list boxes, images and their construction. `update_key_list`, `do_startup`, `do_activate`, the list-box row classes, `on_row_selected`, `on_redo_button_clicked`, `on_about`, `on_quit` and `on_delete_window` only build or tear down widgets.
- Scheduling: GLib timers and idle callbacks are modelled by their ids and by the callback methods the environment invokes; when and in which order they fire is not modelled.
- Network threads: the key server is reduced to the key it serves and whether it runs (`setup_server`), and the Avahi browser (`setup_avahi_browser`, `on_new_service`, `on_remove_service`, `verify_service`) to the two list operations it calls.
- GnuPG and monkeysign calls: the keyring is an input sequence of key records with their flags, and the public-key lookup of `get_usable_secret_keys` a function parameter. `signatures_for_keyid`, the export and temporary-keyring helpers and the `build_command` patch are foreign subprocess calls.
- Date and float conversions: `format_key_header`, `format_listbox_key` and the expiry conversion in `Key.__init__`; the expiry is carried as opaque text.
- URL parsing internals: the network location after `//`, the `;` parameters that `urlparse` splits off the path for the empty and `http` schemes, and the lower-casing of the scheme are not modelled. `parse_qs` is a function parameter.
- Python dictionaries: the demonstration table and the parsed barcode are taken in the order their literals list them.
- Utils.GetSecretKeys: only the branch where no `gpgmh` module can be imported is modelled. In the other branch the call to `get_usable_secret_keys_dict`, which gpgmh.py does not define, raises `AttributeError`.
- Gpgmh.FormatKey: requires UID renderings without braces, because `str.format` would interpret them again.
- Fingerprint.IsValidIff: like the code, validity does not check that the characters are hexadecimal.
- Window.ApplicationWindow: `on_valid_fingerprint` only logs and starts a timer whose id is not kept, so it has no member; its callback is `DownloadKeyCallback`.
- KeysignApp.Application.ObtainKeyAsync: the received key is handed to the callback as a value; the callback itself is `ReceivedKeyCallback`.
