/**
 * The run-time states shared by the three versions of the application
 * (keysign/app.py, app.py and window.py), and the three tables each of them
 * repeats: the state read back from the visible pages, the back button's
 * transitions and the back/refresh icon.
 *
 * The widgets are reduced to what the tables look at: which child of the
 * top-level stack is visible, and the visible page name of the send and
 * receive stacks.
 */
module AppStates {
  import opened Wrappers

  /**
   * `UNKNOWN_STATE` .. `SIGN_KEY_STATE`, plus `NoState` for the Python `None`
   * every application starts with.
   */
  datatype AppState = NoState | Unknown | SelectKey | PresentKey | EnterFpr | DownloadKey | ConfirmKey | SignKey
  {
    /** Python truthiness: `None` and `UNKNOWN_STATE == 0` are both false. */
    predicate Truthy() {
      this != NoState && this != Unknown
    }
  }

  /** The integer constant each state has in the source; `None` has none. */
  function Code(s: AppState): (r: Option<int>)
    ensures r.None? <==> s == NoState
    ensures r.Some? ==> 0 <= r.value <= 6
  {
    match s
    case NoState => None
    case Unknown => Some(0)
    case SelectKey => Some(1)
    case PresentKey => Some(2)
    case EnterFpr => Some(3)
    case DownloadKey => Some(4)
    case ConfirmKey => Some(5)
    case SignKey => Some(6)
  }

  /** Distinct states have distinct codes, and a state is truthy exactly when its code is a non-zero integer. */
  lemma CodeInjective(s: AppState, t: AppState)
    ensures Code(s) == Code(t) ==> s == t
    ensures s.Truthy() <==> (Code(s).Some? && Code(s).value != 0)
  {
  }

  /** The visible child of the top-level send/receive stack. */
  datatype TopChild = SendStack | ReceiveStack | OtherChild

  /** The two halves of the application. */
  datatype Side = Send | Receive

  /** Which half a (truthy) state belongs to. */
  function SideOf(s: AppState): Side
    requires s.Truthy()
  {
    if s == SelectKey || s == PresentKey then Send else Receive
  }

  /** The stack that shows a half. */
  function StackOf(side: Side): TopChild {
    if side == Send then SendStack else ReceiveStack
  }

  /**
   * The state `update_app_state` reconstructs when it is given no truthy new
   * state: send page0 is SELECT, any other send page PRESENT; receive
   * page0/page1/page2 are ENTER_FPR/DOWNLOAD/CONFIRM, any other receive page
   * SIGN; a top child that is neither stack is UNKNOWN.
   */
  function StateOfView(top: TopChild, sendPage: string, receivePage: string): (r: AppState)
    ensures r != NoState
    ensures r == Unknown <==> top == OtherChild
  {
    match top
    case SendStack => if sendPage == "page0" then SelectKey else PresentKey
    case ReceiveStack =>
      if receivePage == "page0" then EnterFpr
      else if receivePage == "page1" then DownloadKey
      else if receivePage == "page2" then ConfirmKey
      else SignKey
    case OtherChild => Unknown
  }

  /** The page the handlers show when they enter a (truthy) state. */
  function PageOf(s: AppState): string
    requires s.Truthy()
  {
    match s
    case SelectKey => "page0"
    case PresentKey => "page1"
    case EnterFpr => "page0"
    case DownloadKey => "page1"
    case ConfirmKey => "page2"
    case SignKey => "page3"
  }

  /** When a stack is visible, the reconstructed state belongs to the half that stack shows. */
  lemma StateOfViewSide(top: TopChild, sendPage: string, receivePage: string)
    requires top != OtherChild
    ensures StackOf(SideOf(StateOfView(top, sendPage, receivePage))) == top
  {
  }

  /**
   * Showing the page a state belongs to on that state's stack reconstructs
   * the state: the page table and the reconstruction table agree, on both
   * stacks, whatever the other stack shows.
   */
  lemma StateOfViewPageOf(s: AppState, other: string)
    requires s.Truthy()
    ensures SideOf(s) == Send ==> StateOfView(SendStack, PageOf(s), other) == s
    ensures SideOf(s) == Receive ==> StateOfView(ReceiveStack, other, PageOf(s)) == s
  {
  }

  /**
   * The state `on_back_refresh_button_clicked` moves to: PRESENT goes back to
   * SELECT, DOWNLOAD and CONFIRM to ENTER_FPR, SIGN to CONFIRM; SELECT and
   * ENTER_FPR stay (the button refreshes there). None and UNKNOWN are an
   * error the handler only logs.
   */
  function BackTarget(s: AppState): (r: Option<AppState>)
    ensures r.Some? <==> s.Truthy()
    ensures r.Some? ==> r.value.Truthy() && SideOf(r.value) == SideOf(s)
  {
    match s
    case SelectKey => Some(SelectKey)
    case PresentKey => Some(SelectKey)
    case EnterFpr => Some(EnterFpr)
    case DownloadKey => Some(EnterFpr)
    case ConfirmKey => Some(EnterFpr)
    case SignKey => Some(ConfirmKey)
    case _ => None
  }

  /**
   * The page the back button switches its stack to, if it switches one: it
   * only ever switches to the page of the state it moves to, and it
   * switches no page exactly where it stays put.
   */
  function BackPage(s: AppState): (r: Option<string>)
    ensures r.Some? ==> s.Truthy() && r.value == PageOf(BackTarget(s).value)
    ensures s.Truthy() ==> (r.None? <==> BackTarget(s) == Some(s))
  {
    match s
    case PresentKey => Some("page0")
    case DownloadKey => Some("page0")
    case ConfirmKey => Some("page0")
    case SignKey => Some("page2")
    case _ => None
  }

  /** The first state of each half. */
  function Home(side: Side): AppState {
    if side == Send then SelectKey else EnterFpr
  }

  /**
   * Pressing back twice reaches the first state of the half from every
   * state, and the first states are exactly the fixed points of the back
   * button.
   */
  lemma BackReachesHome(s: AppState)
    requires s.Truthy()
    ensures BackTarget(BackTarget(s).value) == Some(Home(SideOf(s)))
    ensures BackTarget(s) == Some(s) <==> s == Home(SideOf(s))
  {
  }

  /** The images the back/refresh button can show; `Initial` is the one from the UI file. */
  datatype ButtonIcon = InitialIcon | RefreshIcon | GoBackIcon

  /**
   * `update_back_refresh_button_icon`'s choice of image for a (truthy) state:
   * the refresh image exactly in the states where the button does not go
   * back, the go-back image in the others.
   */
  function IconFor(s: AppState): (r: ButtonIcon)
    requires s.Truthy()
    ensures r == RefreshIcon <==> BackTarget(s) == Some(s)
    ensures r == GoBackIcon <==> BackTarget(s) != Some(s)
  {
    if s == SelectKey || s == EnterFpr then RefreshIcon else GoBackIcon
  }

  /**
   * The icon after `update_back_refresh_button_icon`: changed only when
   * `last_state` is truthy and differs from `state`, and then only to the
   * image of a truthy state (an UNKNOWN state only logs an error).
   */
  function NextIcon(last: AppState, cur: AppState, icon: ButtonIcon): (r: ButtonIcon)
    ensures r == icon || (cur.Truthy() && r == IconFor(cur))
  {
    if last.Truthy() && last != cur && cur.Truthy() then IconFor(cur) else icon
  }

  /**
   * Once a state has been entered from a different truthy state, the button
   * shows refresh exactly when pressing it would not go back.
   */
  lemma NextIconMatchesBack(last: AppState, cur: AppState, icon: ButtonIcon)
    requires last.Truthy() && cur.Truthy() && last != cur
    ensures NextIcon(last, cur, icon) == RefreshIcon <==> BackTarget(cur) == Some(cur)
  {
  }

  /** The icon is left alone when the state did not change or there was no truthy state before. */
  lemma NextIconUnchanged(last: AppState, cur: AppState, icon: ButtonIcon)
    requires !last.Truthy() || last == cur || !cur.Truthy()
    ensures NextIcon(last, cur, icon) == icon
  {
  }
}
