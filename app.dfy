/**
 * The application shell (App.tsx): the session state the page keeps, the
 * refresh rule that sorts the server's list and caches it, the navigation
 * gate that keeps the staff views behind the login, the static-credential
 * login, and the write handlers, which change the list only by refreshing it.
 *
 * Every remote call is an input: the outcome of `getRequests` is a `Fetch`,
 * the outcome of a write is an `Outcome`. A refresh is taken to settle before
 * the next event; `Session` applies each handler's setters in order.
 */
module App {
  import opened Types

  // ---------------------------------------------------------------------------
  // sorting by id, largest first

  /** Ids never increase along the list. */
  predicate SortedDesc(s: seq<Request>) {
    forall i, j :: 0 <= i < j < |s| ==> s[i].id >= s[j].id
  }

  /** Puts `r` before the first element whose id is not larger, so equal ids keep
      their order. */
  function InsertDesc(r: Request, s: seq<Request>): seq<Request> {
    if s == [] then [r]
    else if s[0].id <= r.id then [r] + s
    else [s[0]] + InsertDesc(r, s[1..])
  }

  /** `[...data].sort((a, b) => b.id - a.id)`: the list in descending id order. */
  function SortByIdDesc(s: seq<Request>): seq<Request> {
    if s == [] then [] else InsertDesc(s[0], SortByIdDesc(s[1..]))
  }

  /** Inserting keeps every id under a bound both the list and the new element respect. */
  lemma {:induction false} InsertDescBound(r: Request, s: seq<Request>, b: int)
    requires r.id <= b
    requires forall k :: 0 <= k < |s| ==> s[k].id <= b
    ensures forall k :: 0 <= k < |InsertDesc(r, s)| ==> InsertDesc(r, s)[k].id <= b
  {
    if s != [] && s[0].id > r.id {
      InsertDescBound(r, s[1..], b);
    }
  }

  lemma {:induction false} InsertDescSpec(r: Request, s: seq<Request>)
    requires SortedDesc(s)
    ensures SortedDesc(InsertDesc(r, s))
    ensures multiset(InsertDesc(r, s)) == multiset(s) + multiset{r}
  {
    InsertDescSorted(r, s);
    InsertDescMultiset(r, s);
  }

  lemma {:induction false} InsertDescSorted(r: Request, s: seq<Request>)
    requires SortedDesc(s)
    ensures SortedDesc(InsertDesc(r, s))
  {
    if s == [] {
    } else if s[0].id <= r.id {
      forall i, j | 0 <= i < j < |s| + 1
        ensures ([r] + s)[i].id >= ([r] + s)[j].id
      {
        if i == 0 {
          assert ([r] + s)[j] == s[j - 1];
        } else {
          assert ([r] + s)[i] == s[i - 1] && ([r] + s)[j] == s[j - 1];
        }
      }
    } else {
      var t := InsertDesc(r, s[1..]);
      InsertDescSorted(r, s[1..]);
      InsertDescBound(r, s[1..], s[0].id);
      forall i, j | 0 <= i < j < |t| + 1
        ensures ([s[0]] + t)[i].id >= ([s[0]] + t)[j].id
      {
        if i == 0 {
          assert ([s[0]] + t)[j] == t[j - 1];
        } else {
          assert ([s[0]] + t)[i] == t[i - 1] && ([s[0]] + t)[j] == t[j - 1];
        }
      }
    }
  }

  lemma {:induction false} InsertDescMultiset(r: Request, s: seq<Request>)
    ensures multiset(InsertDesc(r, s)) == multiset(s) + multiset{r}
  {
    if s != [] && s[0].id > r.id {
      InsertDescMultiset(r, s[1..]);
      assert s == [s[0]] + s[1..];
    }
  }

  /** The sorted list holds exactly the fetched requests, ids non-increasing. */
  lemma {:induction false} SortByIdDescSpec(s: seq<Request>)
    ensures SortedDesc(SortByIdDesc(s))
    ensures multiset(SortByIdDesc(s)) == multiset(s)
    ensures |SortByIdDesc(s)| == |s|
  {
    if s != [] {
      SortByIdDescSpec(s[1..]);
      InsertDescSpec(s[0], SortByIdDesc(s[1..]));
      assert s == [s[0]] + s[1..];
    }
    assert |SortByIdDesc(s)| == |multiset(SortByIdDesc(s))| == |multiset(s)| == |s|;
  }

  /** A list already in order comes back unchanged: the sort moves nothing it need not. */
  lemma {:induction false} SortByIdDescSorted(s: seq<Request>)
    requires SortedDesc(s)
    ensures SortByIdDesc(s) == s
  {
    if s != [] {
      SortByIdDescSorted(s[1..]);
      assert SortByIdDesc(s[1..]) == s[1..];
      if |s| > 1 {
        assert s[1].id <= s[0].id;
      }
      assert s == [s[0]] + s[1..];
    }
  }

  // ---------------------------------------------------------------------------
  // the session state

  datatype View = Dashboard | Form | List | Track | Report

  /** The two staff views, shown only to the administrator. */
  predicate IsGated(v: View) {
    v == List || v == Report
  }

  /** What `getRequests` gave back: an array, some other value, or a failure. */
  datatype Fetch = Rows(items: seq<Request>) | NotAnArray | FetchFailed

  /** What a write call gave back. */
  datatype Outcome = Succeeded | Failed

  /** What `saveRequestServer` gave back: the new id, or a failure. */
  datatype Saved = SavedAs(newId: int) | SaveFailed

  /** The credentials the login compares against (configured outside this file). */
  datatype Credentials = Credentials(username: string, password: string)

  /** The component's state, with the browser cache of the last sorted list. */
  datatype SessionState = SessionState(
    requests: seq<Request>,
    profile: UserProfile,
    currentView: View,
    isAdmin: bool,
    loginModalOpen: bool,
    loginUser: string,
    loginPassword: string,
    loginError: bool,
    initialTrackId: Option<int>,
    isLoading: bool,
    isSyncing: bool,
    deleteConfirmId: Option<int>,
    cache: Option<seq<Request>>)

  const EmptyProfile: UserProfile := UserProfile("", "", "", "")

  /** The first render, given whatever the browser cache holds. */
  function Initial(cache: Option<seq<Request>>): SessionState {
    SessionState([], EmptyProfile, Dashboard, false, false, "", "", false, None, true, false, None, cache)
  }

  // ---------------------------------------------------------------------------
  // the transitions

  /** The list a settled `refreshData` shows: an array sorted by id; for any other value
      the list as it was; after a failure the cached list whenever there is one. */
  function FetchedList(shown: seq<Request>, cache: Option<seq<Request>>, f: Fetch): seq<Request> {
    match f
    case Rows(items) => SortByIdDesc(items)
    case NotAnArray => shown
    case FetchFailed => if cache.Some? then cache.value else shown
  }

  /** The cache after a settled `refreshData`: only an array is written to it. */
  function FetchedCache(cache: Option<seq<Request>>, f: Fetch): Option<seq<Request>> {
    if f.Rows? then Some(SortByIdDesc(f.items)) else cache
  }

  /** `refreshData(silent)` once the call has settled with `f`. Whether it was silent only
      decides whether the overlay shows meanwhile: both progress flags end cleared. */
  function Refreshed(st: SessionState, f: Fetch): SessionState {
    st.(requests := FetchedList(st.requests, st.cache, f), cache := FetchedCache(st.cache, f),
        isLoading := false, isSyncing := false)
  }

  /** `if (trackId) ... else null`: zero and absence both clear the id. */
  function TrackIdOf(trackId: Option<int>): Option<int> {
    if trackId.Some? && trackId.value != 0 then trackId else None
  }

  /** `navigateTo(view, trackId)` as the setters it performs, where `gateAdmin` is the
      administrator flag the calling closure sees. Every view but the form refreshes,
      silently. */
  function Navigated(st: SessionState, gateAdmin: bool, view: View, trackId: Option<int>, f: Fetch): SessionState {
    if !gateAdmin && IsGated(view) then st.(loginModalOpen := true)
    else
      var shown := st.(currentView := view);
      var fetched := if view != Form then Refreshed(shown, f) else shown;
      fetched.(initialTrackId := TrackIdOf(trackId))
  }

  /** Navigation from an event handler, which sees the current flag. */
  function Navigate(st: SessionState, view: View, trackId: Option<int>, f: Fetch): SessionState {
    Navigated(st, st.isAdmin, view, trackId, f)
  }

  /** `handleAdminToggle`: log out to the dashboard, or open a blank login form. */
  function AdminToggled(st: SessionState, f: Fetch): SessionState {
    if st.isAdmin then Navigate(st.(isAdmin := false), Dashboard, None, f)
    else st.(loginModalOpen := true, loginUser := "", loginPassword := "", loginError := false)
  }

  predicate CredentialsMatch(st: SessionState, admin: Credentials) {
    st.loginUser == admin.username && st.loginPassword == admin.password
  }

  /** `handleLoginSubmit` as written: the flag is set, the modal closed, and then
      `navigateTo('list')` runs in the same closure, which still sees the old flag. */
  function LoginAsWritten(st: SessionState, admin: Credentials, f: Fetch): SessionState {
    if CredentialsMatch(st, admin) then
      Navigated(st.(isAdmin := true, loginModalOpen := false), st.isAdmin, List, None, f)
    else st.(loginError := true)
  }

  /** The login as intended: the navigation to the register sees the new flag. */
  function Login(st: SessionState, admin: Credentials, f: Fetch): SessionState {
    if CredentialsMatch(st, admin) then
      Navigate(st.(isAdmin := true, loginModalOpen := false), List, None, f)
    else st.(loginError := true)
  }

  /** `handleAddRequest`: on success refresh, then go to the tracking page with the new id
      (a second refresh); on failure only the loading overlay goes. */
  function RequestAdded(st: SessionState, saved: Saved, f: Fetch, g: Fetch): SessionState {
    var loading := st.(isLoading := true);
    match saved
    case SavedAs(newId) => Navigate(Refreshed(loading, f), Track, Some(newId), g)
    case SaveFailed => loading.(isLoading := false)
  }

  /** `handleUpdateStatus` and `handleUpdateReceiving`, which differ only in the call. */
  function Written(st: SessionState, o: Outcome, f: Fetch): SessionState {
    var syncing := st.(isSyncing := true);
    if o == Succeeded then Refreshed(syncing, f) else syncing.(isSyncing := false)
  }

  /** `executeDeleteRequest`: nothing without a (non-zero) pending id. */
  function Deleted(st: SessionState, o: Outcome, f: Fetch): SessionState {
    if st.deleteConfirmId.None? || st.deleteConfirmId.value == 0 then st
    else
      var loading := st.(isLoading := true);
      if o == Succeeded then Refreshed(loading.(deleteConfirmId := None), f)
      else loading.(isLoading := false)
  }

  /** The mount effect: a full (non-silent) refresh and the remembered profile, when one
      is stored and parses. */
  function Mounted(st: SessionState, f: Fetch, saved: Option<UserProfile>): SessionState {
    var fetched := Refreshed(st, f);
    if saved.Some? then fetched.(profile := saved.value) else fetched
  }

  /** `requests.find(r => r.id === deleteConfirmId)`. */
  function FindById(rs: seq<Request>, id: int): Option<Request> {
    if rs == [] then None
    else if rs[0].id == id then Some(rs[0])
    else FindById(rs[1..], id)
  }

  /** The request the delete dialog names; the dialog shows only when there is one. */
  function DeletePrompt(st: SessionState): Option<Request> {
    if st.deleteConfirmId.Some? && st.deleteConfirmId.value != 0 then FindById(st.requests, st.deleteConfirmId.value)
    else None
  }

  // ---------------------------------------------------------------------------
  // every event, for the properties that hold across all of them

  datatype Event =
    | RefreshData(silent: bool, f: Fetch)
    | NavigateTo(view: View, trackId: Option<int>, f: Fetch)
    | ToggleAdmin(f: Fetch)
    | SubmitLogin(admin: Credentials, f: Fetch)
    | SubmitLoginAsWritten(admin: Credentials, f: Fetch)
    | CloseLogin
    | EditUsername(s: string)
    | EditPassword(s: string)
    | AddRequest(saved: Saved, f: Fetch, g: Fetch)
    | UpdateStatus(o: Outcome, f: Fetch)
    | UpdateReceiving(o: Outcome, f: Fetch)
    | AskDelete(id: int)
    | CancelDelete
    | ExecuteDelete(o: Outcome, f: Fetch)
    | Mount(f: Fetch, stored: Option<UserProfile>)

  function Apply(st: SessionState, e: Event): SessionState {
    match e
    case RefreshData(silent, f) => Refreshed(st, f)
    case NavigateTo(view, trackId, f) => Navigate(st, view, trackId, f)
    case ToggleAdmin(f) => AdminToggled(st, f)
    case SubmitLogin(admin, f) => Login(st, admin, f)
    case SubmitLoginAsWritten(admin, f) => LoginAsWritten(st, admin, f)
    case CloseLogin => st.(loginModalOpen := false)
    case EditUsername(s) => st.(loginUser := s)
    case EditPassword(s) => st.(loginPassword := s)
    case AddRequest(saved, f, g) => RequestAdded(st, saved, f, g)
    case UpdateStatus(o, f) => Written(st, o, f)
    case UpdateReceiving(o, f) => Written(st, o, f)
    case AskDelete(id) => st.(deleteConfirmId := Some(id))
    case CancelDelete => st.(deleteConfirmId := None)
    case ExecuteDelete(o, f) => Deleted(st, o, f)
    case Mount(f, stored) => Mounted(st, f, stored)
  }

  // ---------------------------------------------------------------------------
  // properties

  /** The refresh rule. An array becomes the shown list, sorted by id and holding exactly
      the fetched requests, and is cached; a non-array value leaves list and cache alone;
      a failure shows the cache whenever there is one, whatever the list held, and keeps
      the cache. Only the list, the cache and the two progress flags change. */
  lemma RefreshSpec(st: SessionState, f: Fetch)
    ensures f.Rows? ==>
              && SortedDesc(Refreshed(st, f).requests)
              && multiset(Refreshed(st, f).requests) == multiset(f.items)
              && Refreshed(st, f).cache == Some(Refreshed(st, f).requests)
    ensures f.NotAnArray? ==> Refreshed(st, f).requests == st.requests && Refreshed(st, f).cache == st.cache
    ensures f.FetchFailed? ==>
              && Refreshed(st, f).cache == st.cache
              && (st.cache.Some? ==> Refreshed(st, f).requests == st.cache.value)
              && (st.cache.None? ==> Refreshed(st, f).requests == st.requests)
    ensures !Refreshed(st, f).isLoading && !Refreshed(st, f).isSyncing
    ensures Refreshed(st, f).(requests := st.requests, cache := st.cache, isLoading := st.isLoading,
                              isSyncing := st.isSyncing) == st
  {
    if f.Rows? {
      SortByIdDescSpec(f.items);
    }
  }

  /** A refresh makes the list what the server sent, when it sent a list already in order. */
  lemma RefreshOrderedRows(st: SessionState, items: seq<Request>)
    requires SortedDesc(items)
    ensures Refreshed(st, Rows(items)).requests == items
  {
    SortByIdDescSorted(items);
  }

  /** The gate: without the administrator flag, asking for a staff view only opens the
      login modal; nothing else changes, the list is not fetched. */
  lemma NavigateGated(st: SessionState, view: View, trackId: Option<int>, f: Fetch)
    requires !st.isAdmin && IsGated(view)
    ensures Navigate(st, view, trackId, f) == st.(loginModalOpen := true)
    ensures Navigate(st, view, trackId, f).currentView == st.currentView
    ensures Navigate(st, view, trackId, f).initialTrackId == st.initialTrackId
  {
  }

  /** Any other navigation shows the view, keeps the login state and the flag, takes a
      truthy id as the tracking id and clears it otherwise, and refreshes the list
      unless the view is the form. */
  lemma NavigateOpen(st: SessionState, view: View, trackId: Option<int>, f: Fetch)
    requires st.isAdmin || !IsGated(view)
    ensures Navigate(st, view, trackId, f).currentView == view
    ensures Navigate(st, view, trackId, f).initialTrackId ==
              (if trackId.Some? && trackId.value != 0 then trackId else None)
    ensures Navigate(st, view, trackId, f).isAdmin == st.isAdmin
    ensures Navigate(st, view, trackId, f).loginModalOpen == st.loginModalOpen
    ensures view == Form ==>
              Navigate(st, view, trackId, f).requests == st.requests && Navigate(st, view, trackId, f).cache == st.cache
    ensures view != Form ==>
              Navigate(st, view, trackId, f).requests == Refreshed(st, f).requests
              && Navigate(st, view, trackId, f).cache == Refreshed(st, f).cache
  {
  }

  /** The stale flag does not matter for the views that are not gated. */
  lemma StaleGateHarmless(st: SessionState, seen: bool, view: View, trackId: Option<int>, f: Fetch)
    requires !IsGated(view)
    ensures Navigated(st, seen, view, trackId, f) == Navigate(st, view, trackId, f)
  {
  }

  /** The login grants the flag exactly when both fields equal the configured credentials;
      a mismatch only raises the error, and a match closes the modal on the register
      with a fresh list (the error flag stays as it was). */
  lemma LoginSpec(st: SessionState, admin: Credentials, f: Fetch)
    requires !st.isAdmin
    ensures Login(st, admin, f).isAdmin <==> st.loginUser == admin.username && st.loginPassword == admin.password
    ensures !CredentialsMatch(st, admin) ==> Login(st, admin, f) == st.(loginError := true)
    ensures CredentialsMatch(st, admin) ==>
              && !Login(st, admin, f).loginModalOpen
              && Login(st, admin, f).currentView == List
              && Login(st, admin, f).loginError == st.loginError
              && Login(st, admin, f).requests == Refreshed(st, f).requests
  {
  }

  /** As written, a correct login leaves the administrator on the page they were on with
      the login modal open again, and fetches nothing. */
  lemma LoginAsWrittenReopens(st: SessionState, admin: Credentials, f: Fetch)
    requires !st.isAdmin && CredentialsMatch(st, admin)
    ensures LoginAsWritten(st, admin, f).isAdmin
    ensures LoginAsWritten(st, admin, f).loginModalOpen
    ensures LoginAsWritten(st, admin, f).currentView == st.currentView
    ensures LoginAsWritten(st, admin, f).requests == st.requests
    ensures LoginAsWritten(st, admin, f) != Login(st, admin, f)
  {
  }

  /** Logging out lands on the dashboard without the flag; logging in starts from a blank
      form without an error. */
  lemma AdminToggledSpec(st: SessionState, f: Fetch)
    ensures st.isAdmin ==>
              && !AdminToggled(st, f).isAdmin
              && AdminToggled(st, f).currentView == Dashboard
              && AdminToggled(st, f).initialTrackId == None
    ensures !st.isAdmin ==>
              AdminToggled(st, f) == st.(loginModalOpen := true, loginUser := "", loginPassword := "", loginError := false)
  {
  }

  /** A write handler never edits the list itself: after a failed call the list and the
      cache are as they were, after a successful one they are what a silent refresh
      makes of them. */
  lemma WrittenOnlyRefreshes(st: SessionState, o: Outcome, f: Fetch)
    ensures o == Failed ==> Written(st, o, f) == st.(isSyncing := false)
    ensures o == Succeeded ==>
              Written(st, o, f).requests == Refreshed(st, f).requests
              && Written(st, o, f).cache == Refreshed(st, f).cache
    ensures !Written(st, o, f).isSyncing
  {
  }

  /** Adding a request: a failure changes nothing but the overlay, now hidden; a success
      ends on the tracking page showing the new id (when truthy), with the list from the
      second refresh. */
  lemma RequestAddedSpec(st: SessionState, saved: Saved, f: Fetch, g: Fetch)
    ensures saved.SaveFailed? ==> RequestAdded(st, saved, f, g) == st.(isLoading := false)
    ensures saved.SavedAs? ==>
              && RequestAdded(st, saved, f, g).currentView == Track
              && RequestAdded(st, saved, f, g).initialTrackId == (if saved.newId != 0 then Some(saved.newId) else None)
              && RequestAdded(st, saved, f, g).requests == Refreshed(Refreshed(st, f), g).requests
              && !RequestAdded(st, saved, f, g).isLoading
  {
  }

  /** Deleting without a pending id does nothing at all; a failed delete keeps the pending
      id and the list; a successful one clears the id and shows a fresh list. */
  lemma DeletedSpec(st: SessionState, o: Outcome, f: Fetch)
    ensures st.deleteConfirmId == None || st.deleteConfirmId == Some(0) ==> Deleted(st, o, f) == st
    ensures st.deleteConfirmId.Some? && st.deleteConfirmId.value != 0 && o == Failed ==>
              Deleted(st, o, f) == st.(isLoading := false)
    ensures st.deleteConfirmId.Some? && st.deleteConfirmId.value != 0 && o == Succeeded ==>
              Deleted(st, o, f).deleteConfirmId == None
              && Deleted(st, o, f).requests == Refreshed(st, f).requests
  {
  }

  /** Mounting refreshes the list and restores a stored profile; without one the profile
      stays blank as it was. The view and the administrator flag do not change. */
  lemma MountedSpec(st: SessionState, f: Fetch, stored: Option<UserProfile>)
    ensures Mounted(st, f, stored).requests == FetchedList(st.requests, st.cache, f)
    ensures Mounted(st, f, stored).cache == FetchedCache(st.cache, f)
    ensures stored.Some? ==> Mounted(st, f, stored).profile == stored.value
    ensures stored.None? ==> Mounted(st, f, stored).profile == st.profile
    ensures Mounted(st, f, stored).currentView == st.currentView
    ensures Mounted(st, f, stored).isAdmin == st.isAdmin
    ensures !Mounted(st, f, stored).isLoading && !Mounted(st, f, stored).isSyncing
  {
  }

  /** `find`: absent exactly when no request has the id; otherwise the first request that
      has it. */
  lemma {:induction false} FindByIdSpec(rs: seq<Request>, id: int) returns (j: int)
    ensures FindById(rs, id).None? <==> forall r :: r in rs ==> r.id != id
    ensures FindById(rs, id).Some? ==>
              0 <= j < |rs| && rs[j] == FindById(rs, id).value && rs[j].id == id
              && forall k :: 0 <= k < j ==> rs[k].id != id
  {
    j := -1;
    if rs != [] {
      if rs[0].id == id {
        j := 0;
      } else {
        var j' := FindByIdSpec(rs[1..], id);
        assert rs == [rs[0]] + rs[1..];
        if FindById(rs, id).Some? {
          j := j' + 1;
        }
      }
    }
  }

  /** The delete dialog names a request of the list with the pending id, and shows for
      every pending id some request has. */
  lemma DeletePromptSpec(st: SessionState)
    ensures DeletePrompt(st).Some? ==>
              DeletePrompt(st).value in st.requests && Some(DeletePrompt(st).value.id) == st.deleteConfirmId
    ensures st.deleteConfirmId.Some? && st.deleteConfirmId.value != 0 &&
            (exists r :: r in st.requests && r.id == st.deleteConfirmId.value) ==>
              DeletePrompt(st).Some?
    ensures st.deleteConfirmId.None? ==> DeletePrompt(st).None?
  {
    if st.deleteConfirmId.Some? && st.deleteConfirmId.value != 0 {
      var j := FindByIdSpec(st.requests, st.deleteConfirmId.value);
    }
  }

  /** The session is coherent when the shown list and the cache are both in id order and
      a staff view is on screen only for the administrator. */
  predicate Coherent(st: SessionState) {
    ListsOrdered(st) && (IsGated(st.currentView) ==> st.isAdmin)
  }

  predicate ListsOrdered(st: SessionState) {
    SortedDesc(st.requests) && (st.cache.Some? ==> SortedDesc(st.cache.value))
  }

  /** The first render is coherent when the cache it finds is in order. */
  lemma InitialCoherent(cache: Option<seq<Request>>)
    requires cache.Some? ==> SortedDesc(cache.value)
    ensures Coherent(Initial(cache))
  {
  }

  /** A refresh keeps both lists in order and touches neither the view nor the flag. */
  lemma RefreshedCoherent(st: SessionState, f: Fetch)
    requires ListsOrdered(st)
    ensures ListsOrdered(Refreshed(st, f))
    ensures Refreshed(st, f).currentView == st.currentView
    ensures Refreshed(st, f).isAdmin == st.isAdmin
  {
    if f.Rows? {
      SortByIdDescSpec(f.items);
    }
  }

  /** Navigation keeps both lists in order and lands on a staff view only with the flag,
      whatever view it starts from. */
  lemma NavigateCoherent(st: SessionState, view: View, trackId: Option<int>, f: Fetch)
    requires ListsOrdered(st)
    requires IsGated(st.currentView) ==> st.isAdmin
    ensures Coherent(Navigate(st, view, trackId, f))
  {
    if !st.isAdmin && IsGated(view) {
      assert Navigate(st, view, trackId, f) == st.(loginModalOpen := true);
    } else if view == Form {
      assert Navigate(st, view, trackId, f) == st.(currentView := view, initialTrackId := TrackIdOf(trackId));
    } else {
      var shown := st.(currentView := view);
      RefreshedCoherent(shown, f);
      assert Navigate(st, view, trackId, f) == Refreshed(shown, f).(initialTrackId := TrackIdOf(trackId));
    }
  }

  /** Logging out keeps the lists in order and leaves no staff view on screen. */
  lemma LogoutCoherent(st: SessionState, f: Fetch)
    requires ListsOrdered(st)
    ensures Coherent(Navigate(st.(isAdmin := false), Dashboard, None, f))
  {
    var out := st.(isAdmin := false);
    var shown := out.(currentView := Dashboard);
    RefreshedCoherent(shown, f);
    assert Navigate(out, Dashboard, None, f) == Refreshed(shown, f).(initialTrackId := None);
  }

  lemma AdminToggledCoherent(st: SessionState, f: Fetch)
    requires Coherent(st)
    ensures Coherent(AdminToggled(st, f))
  {
    if st.isAdmin {
      LogoutCoherent(st, f);
    }
  }

  lemma LoginCoherent(st: SessionState, admin: Credentials, f: Fetch)
    requires Coherent(st)
    ensures Coherent(Login(st, admin, f))
  {
    if CredentialsMatch(st, admin) {
      NavigateCoherent(st.(isAdmin := true, loginModalOpen := false), List, None, f);
    }
  }

  /** The login as written keeps the session coherent too: when it reopens the dialog the
      view does not move, and otherwise it is the corrected login. */
  lemma LoginAsWrittenCoherent(st: SessionState, admin: Credentials, f: Fetch)
    requires Coherent(st)
    ensures Coherent(LoginAsWritten(st, admin, f))
  {
    if CredentialsMatch(st, admin) && st.isAdmin {
      assert LoginAsWritten(st, admin, f) == Login(st, admin, f);
      LoginCoherent(st, admin, f);
    }
  }

  lemma RequestAddedCoherent(st: SessionState, saved: Saved, f: Fetch, g: Fetch)
    requires Coherent(st)
    ensures Coherent(RequestAdded(st, saved, f, g))
  {
    if saved.SavedAs? {
      var fetched := Refreshed(st.(isLoading := true), f);
      RefreshedCoherent(st.(isLoading := true), f);
      NavigateCoherent(fetched, Track, Some(saved.newId), g);
    }
  }

  lemma WrittenCoherent(st: SessionState, o: Outcome, f: Fetch)
    requires Coherent(st)
    ensures Coherent(Written(st, o, f))
  {
    RefreshedCoherent(st.(isSyncing := true), f);
  }

  lemma DeletedCoherent(st: SessionState, o: Outcome, f: Fetch)
    requires Coherent(st)
    ensures Coherent(Deleted(st, o, f))
  {
    RefreshedCoherent(st.(isLoading := true, deleteConfirmId := None), f);
  }

  /** Every event keeps the session coherent: the list is always shown in id order and no
      staff view is ever shown without the flag. */
  lemma ApplyCoherent(st: SessionState, e: Event)
    requires Coherent(st)
    ensures Coherent(Apply(st, e))
  {
    match e
    case RefreshData(silent, f) => RefreshedCoherent(st, f);
    case NavigateTo(view, trackId, f) => NavigateCoherent(st, view, trackId, f);
    case ToggleAdmin(f) => AdminToggledCoherent(st, f);
    case SubmitLogin(admin, f) => LoginCoherent(st, admin, f);
    case SubmitLoginAsWritten(admin, f) => LoginAsWrittenCoherent(st, admin, f);
    case AddRequest(saved, f, g) => RequestAddedCoherent(st, saved, f, g);
    case UpdateStatus(o, f) => WrittenCoherent(st, o, f);
    case UpdateReceiving(o, f) => WrittenCoherent(st, o, f);
    case ExecuteDelete(o, f) => DeletedCoherent(st, o, f);
    case Mount(f, stored) => RefreshedCoherent(st, f);
    case _ =>
  }

  /** Where a fetch puts requests from: the server's answer or the cache. */
  predicate FromSource(r: Request, st: SessionState, f: Fetch) {
    r in st.requests || (f.Rows? && r in f.items) || (st.cache.Some? && r in st.cache.value)
  }

  lemma RefreshedProvenance(st: SessionState, f: Fetch)
    ensures forall r :: r in Refreshed(st, f).requests ==> FromSource(r, st, f)
    ensures forall c :: Refreshed(st, f).cache == Some(c) ==>
              forall r :: r in c ==> (f.Rows? && r in f.items) || (st.cache.Some? && r in st.cache.value)
  {
    RefreshSpec(st, f);
    if f.Rows? {
      forall r | r in Refreshed(st, f).requests ensures r in f.items {
        assert r in multiset(Refreshed(st, f).requests);
      }
    }
  }

  /** No handler invents a request: after a write, each listed request was listed
      before, came with the server's answer to a refresh, or was in the cache. */
  lemma WrittenProvenance(st: SessionState, o: Outcome, f: Fetch)
    ensures forall r :: r in Written(st, o, f).requests ==> FromSource(r, st, f)
  {
    RefreshedProvenance(st.(isSyncing := true), f);
  }

  lemma DeletedProvenance(st: SessionState, o: Outcome, f: Fetch)
    ensures forall r :: r in Deleted(st, o, f).requests ==> FromSource(r, st, f)
  {
    RefreshedProvenance(st.(isLoading := true, deleteConfirmId := None), f);
  }

  // ---------------------------------------------------------------------------
  // the component

  /** The component's state cells, updated in place by its handlers. */
  class Session {
    var requests: seq<Request>
    var profile: UserProfile
    var currentView: View
    var isAdmin: bool
    var loginModalOpen: bool
    var loginUser: string
    var loginPassword: string
    var loginError: bool
    var initialTrackId: Option<int>
    var isLoading: bool
    var isSyncing: bool
    var deleteConfirmId: Option<int>
    var cache: Option<seq<Request>>

    function State(): SessionState
      reads this
    {
      SessionState(requests, profile, currentView, isAdmin, loginModalOpen, loginUser, loginPassword,
                   loginError, initialTrackId, isLoading, isSyncing, deleteConfirmId, cache)
    }

    constructor(stored: Option<seq<Request>>)
      ensures State() == Initial(stored)
    {
      requests := [];
      profile := EmptyProfile;
      currentView := Dashboard;
      isAdmin := false;
      loginModalOpen := false;
      loginUser := "";
      loginPassword := "";
      loginError := false;
      initialTrackId := None;
      isLoading := true;
      isSyncing := false;
      deleteConfirmId := None;
      cache := stored;
    }

    /** `refreshData(silent)`, up to the remote call settling with `f`. */
    method RefreshData(silent: bool, f: Fetch)
      modifies this
      ensures State() == Refreshed(old(State()), f)
    {
      if !silent {
        isLoading := true;
      }
      isSyncing := true;
      match f {
        case Rows(items) =>
          var sorted := SortByIdDesc(items);
          requests := sorted;
          cache := Some(sorted);
        case NotAnArray =>
        case FetchFailed =>
          if cache.Some? {
            requests := cache.value;
          }
      }
      isLoading := false;
      isSyncing := false;
    }

    method NavigateTo(view: View, trackId: Option<int>, f: Fetch)
      modifies this
      ensures State() == Navigate(old(State()), view, trackId, f)
    {
      if !isAdmin && IsGated(view) {
        loginModalOpen := true;
        return;
      }
      currentView := view;
      if view != Form {
        RefreshData(true, f);
      }
      if trackId.Some? && trackId.value != 0 {
        initialTrackId := trackId;
      } else {
        initialTrackId := None;
      }
    }

    method ToggleAdmin(f: Fetch)
      modifies this
      ensures State() == AdminToggled(old(State()), f)
    {
      if isAdmin {
        isAdmin := false;
        NavigateTo(Dashboard, None, f);
      } else {
        loginModalOpen := true;
        loginUser := "";
        loginPassword := "";
        loginError := false;
      }
    }

    /** The login, with the navigation seeing the flag it has just set. */
    method SubmitLogin(admin: Credentials, f: Fetch)
      modifies this
      ensures State() == Login(old(State()), admin, f)
    {
      if loginUser == admin.username && loginPassword == admin.password {
        isAdmin := true;
        loginModalOpen := false;
        NavigateTo(List, None, f);
      } else {
        loginError := true;
      }
    }

    /** The login as written: the navigation still sees the flag as it was before the
        handler ran. */
    method SubmitLoginAsWritten(admin: Credentials, f: Fetch)
      modifies this
      ensures State() == LoginAsWritten(old(State()), admin, f)
    {
      if loginUser == admin.username && loginPassword == admin.password {
        var seen := isAdmin;
        isAdmin := true;
        loginModalOpen := false;
        if !seen && IsGated(List) {
          loginModalOpen := true;
        } else {
          NavigateTo(List, None, f);
        }
      } else {
        loginError := true;
      }
    }

    method CloseLogin()
      modifies this
      ensures State() == old(State()).(loginModalOpen := false)
    {
      loginModalOpen := false;
    }

    method EditUsername(s: string)
      modifies this
      ensures State() == old(State()).(loginUser := s)
    {
      loginUser := s;
    }

    method EditPassword(s: string)
      modifies this
      ensures State() == old(State()).(loginPassword := s)
    {
      loginPassword := s;
    }

    /** `handleAddRequest`; the submitted data goes only to the server. */
    method AddRequest(saved: Saved, f: Fetch, g: Fetch)
      modifies this
      ensures State() == RequestAdded(old(State()), saved, f, g)
    {
      isLoading := true;
      match saved
      case SavedAs(newId) =>
        RefreshData(true, f);
        NavigateTo(Track, Some(newId), g);
      case SaveFailed =>
        isLoading := false;
    }

    /** `handleUpdateStatus(id, status)`; the id and status go only to the server. */
    method UpdateStatus(id: int, status: Status, o: Outcome, f: Fetch)
      modifies this
      ensures State() == Written(old(State()), o, f)
    {
      isSyncing := true;
      if o == Succeeded {
        RefreshData(true, f);
      } else {
        isSyncing := false;
      }
    }

    /** `handleUpdateReceiving(id, sign)`; the id and signature go only to the server. */
    method UpdateReceiving(id: int, sign: string, o: Outcome, f: Fetch)
      modifies this
      ensures State() == Written(old(State()), o, f)
    {
      isSyncing := true;
      if o == Succeeded {
        RefreshData(true, f);
      } else {
        isSyncing := false;
      }
    }

    method AskDelete(id: int)
      modifies this
      ensures State() == old(State()).(deleteConfirmId := Some(id))
    {
      deleteConfirmId := Some(id);
    }

    method CancelDelete()
      modifies this
      ensures State() == old(State()).(deleteConfirmId := None)
    {
      deleteConfirmId := None;
    }

    method ExecuteDelete(o: Outcome, f: Fetch)
      modifies this
      ensures State() == Deleted(old(State()), o, f)
    {
      if deleteConfirmId.None? || deleteConfirmId.value == 0 {
        return;
      }
      isLoading := true;
      if o == Succeeded {
        deleteConfirmId := None;
        RefreshData(true, f);
      } else {
        isLoading := false;
      }
    }

    /** The mount effect. */
    method Mount(f: Fetch, saved: Option<UserProfile>)
      modifies this
      ensures State() == Mounted(old(State()), f, saved)
    {
      RefreshData(false, f);
      if saved.Some? {
        profile := saved.value;
      }
    }
  }
}
