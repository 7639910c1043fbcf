/** The control flow of `App` in `src/app/App.tsx` as a state machine over
    the entry list, the loading flag, the form flags and the view inputs.
    Every network round trip is an input value (its outcome), and the state
    keeps the trace of calls made, so that the rule "the list is replaced
    wholesale by each list read and by nothing else" can be stated as an
    invariant. */
module LogbookSync {
  import opened Options
  import opened Logbook
  import opened LogbookView
  import opened CsvExport
  import opened LogbookForm

  /** The `page` and `limit` the list request always carries; no handler
      changes them. */
  const Page: int := 1
  const Limit: int := 99999

  const LoadFailed: string := "Gagal memuat data logbook"
  const Added: string := "Entry berhasil ditambahkan"
  const AddFailed: string := "Gagal menambahkan entry"
  const UpdateFailed: string := "Gagal mengupdate entry"
  const Deleted: string := "Entry berhasil dihapus"
  const DeleteFailed: string := "Gagal menghapus entry"

  /** How a list round trip ends: an ok response with its `data` (read at
      clock value `now`), a non-ok response, or an exception from `fetch`
      or `response.json()`. */
  datatype ListOutcome = ListOk(data: Option<seq<RawItem>>, now: string) | ListNotOk | ListThrows

  /** How a create, update or delete round trip ends; the server's `message`
      is carried when a response arrives. */
  datatype MutationOutcome = MutationOk(message: string) | MutationNotOk(message: string) | MutationThrows

  /** One round trip, with what was sent and how it ended. */
  datatype Call =
    | ListCall(page: int, limit: int, search: string, status: string, outcome: ListOutcome)
    | CreateCall(body: FormData, result: MutationOutcome)
    | UpdateCall(no: int, body: FormData, result: MutationOutcome)
    | DeleteCall(no: int, result: MutationOutcome)

  datatype Toast = ToastSuccess(text: string) | ToastError(text: string)

  datatype AppState = AppState(
    entries: seq<Entry>,
    isLoading: bool,
    isFormOpen: bool,
    editing: Option<Entry>,
    searchTerm: string,
    statusFilter: string,
    calls: seq<Call>,
    toasts: seq<Toast>)

  /** The state on first render, before the mount effect runs. */
  function Init(): (r: AppState)
    ensures r.entries == [] && r.calls == [] && r.toasts == []
    ensures !r.isLoading && !r.isFormOpen && r.editing.None?
    ensures r.searchTerm == "" && r.statusFilter == AllStatuses
  {
    AppState([], false, false, None, "", AllStatuses, [], [])
  }

  /** The list a list round trip leaves behind: the normalised payload on
      success, the empty list otherwise. */
  function Loaded(o: ListOutcome): seq<Entry> {
    match o
    case ListOk(data, now) => NormalizeAll(data, now)
    case _ => []
  }

  /** The form flags and the view inputs agree. */
  predicate SameForm(a: AppState, b: AppState) {
    a.isFormOpen == b.isFormOpen && a.editing == b.editing
  }

  predicate SameFilters(a: AppState, b: AppState) {
    a.searchTerm == b.searchTerm && a.statusFilter == b.statusFilter
  }

  /* ---------------- fetchLogbookEntries ---------------- */

  /** The list request carries the current search term and status filter. */
  function ListRequest(st: AppState, o: ListOutcome): Call {
    ListCall(Page, Limit, st.searchTerm, st.statusFilter, o)
  }

  /** The list handler up to the response: the loading flag is raised. */
  function BeginRefresh(st: AppState): (r: AppState)
    ensures r.isLoading
    ensures r.entries == st.entries && SameForm(r, st) && SameFilters(r, st)
  {
    st.(isLoading := true)
  }

  /** `fetchLogbookEntries`: on an ok response the list becomes the
      normalised payload; on a non-ok response or an exception it becomes
      empty and a failure toast is shown. The loading flag is down
      afterwards in every case, and the form is not touched. */
  function Refresh(st: AppState, o: ListOutcome): (r: AppState)
    ensures o.ListOk? ==> r.entries == NormalizeAll(o.data, o.now) && r.toasts == st.toasts
    ensures !o.ListOk? ==> r.entries == [] && r.toasts == st.toasts + [ToastError(LoadFailed)]
    ensures !r.isLoading
    ensures r.calls == st.calls + [ListCall(Page, Limit, st.searchTerm, st.statusFilter, o)]
    ensures SameForm(r, st) && SameFilters(r, st)
  {
    var loading := BeginRefresh(st);
    var sent := loading.(calls := loading.calls + [ListRequest(st, o)]);
    var done :=
      match o
      case ListOk(data, now) => sent.(entries := NormalizeAll(data, now))
      case _ => sent.(entries := [], toasts := sent.toasts + [ToastError(LoadFailed)]);
    done.(isLoading := false)
  }

  /** With the remote state unchanged, refreshing twice leaves the same list
      as refreshing once. */
  lemma RefreshTwice(st: AppState, o: ListOutcome)
    ensures Refresh(Refresh(st, o), o).entries == Refresh(st, o).entries
  {
  }

  /* ---------------- handleAddEntry ---------------- */

  /** `handleAddEntry`: only an ok response refreshes the list and closes
      the form; otherwise the list and the form stay as they were and a
      failure toast is shown. */
  function AddEntry(st: AppState, body: FormData, res: MutationOutcome, list: ListOutcome): (r: AppState)
    ensures |r.calls| > |st.calls| && r.calls[..|st.calls| + 1] == st.calls + [CreateCall(body, res)]
    ensures res.MutationOk? ==>
      && r.entries == Loaded(list)
      && r.calls == st.calls + [CreateCall(body, res), ListRequest(st, list)]
      && !r.isFormOpen && r.editing == st.editing
    ensures !res.MutationOk? ==>
      && r.entries == st.entries
      && r.calls == st.calls + [CreateCall(body, res)]
      && r.toasts == st.toasts + [ToastError(AddFailed)]
      && SameForm(r, st)
    ensures r.isLoading == (st.isLoading && !res.MutationOk?)
    ensures SameFilters(r, st)
  {
    var sent := st.(calls := st.calls + [CreateCall(body, res)]);
    if res.MutationOk? then
      var refreshed := Refresh(sent.(toasts := sent.toasts + [ToastSuccess(Added)]), list);
      assert refreshed.calls[..|st.calls| + 1] == st.calls + [CreateCall(body, res)];
      refreshed.(isFormOpen := false)
    else
      sent.(toasts := sent.toasts + [ToastError(AddFailed)])
  }

  /* ---------------- handleEditEntry ---------------- */

  /** `handleEditEntry`: nothing happens without an entry being edited.
      Otherwise the update is sent under the edited entry's `no`. Any
      response, ok or not, shows its message, refreshes the list and closes
      the form; only an exception leaves list and form as they were. */
  function EditEntry(st: AppState, body: FormData, res: MutationOutcome, list: ListOutcome): (r: AppState)
    ensures st.editing.None? ==> r == st
    ensures st.editing.Some? ==>
      |r.calls| > |st.calls| && r.calls[..|st.calls| + 1] == st.calls + [UpdateCall(st.editing.value.no, body, res)]
    ensures st.editing.Some? && !res.MutationThrows? ==>
      && r.entries == Loaded(list)
      && r.calls == st.calls + [UpdateCall(st.editing.value.no, body, res), ListRequest(st, list)]
      && r.editing.None? && !r.isFormOpen
    ensures st.editing.Some? && res.MutationNotOk? ==>
      st.toasts + [ToastError(res.message), ToastSuccess(res.message)] <= r.toasts
    ensures st.editing.Some? && res.MutationThrows? ==>
      && r.entries == st.entries
      && r.calls == st.calls + [UpdateCall(st.editing.value.no, body, res)]
      && r.toasts == st.toasts + [ToastError(UpdateFailed)]
      && SameForm(r, st)
    ensures SameFilters(r, st)
  {
    match st.editing
    case None => st
    case Some(target) =>
      var sent := st.(calls := st.calls + [UpdateCall(target.no, body, res)]);
      match res
      case MutationThrows => sent.(toasts := sent.toasts + [ToastError(UpdateFailed)])
      case MutationOk(m) => UpdateRefresh(st, sent.(toasts := sent.toasts + [ToastSuccess(m)]), list)
      case MutationNotOk(m) =>
        var toasted := sent.(toasts := sent.toasts + [ToastError(m), ToastSuccess(m)]);
        UpdateRefresh(st, toasted, list)
  }

  /** The tail of the update handler once a response has arrived. */
  function UpdateRefresh(st: AppState, sent: AppState, list: ListOutcome): (r: AppState)
    requires |sent.calls| > |st.calls| && SameFilters(sent, st)
    ensures r.entries == Loaded(list) && r.calls == sent.calls + [ListRequest(st, list)]
    ensures sent.toasts <= r.toasts
    ensures r.editing.None? && !r.isFormOpen && SameFilters(r, st)
  {
    Refresh(sent, list).(editing := None, isFormOpen := false)
  }

  /** An update the server rejects is still followed by a refresh and closes
      the form, unlike a rejected create or delete. */
  lemma RejectedUpdateStillRefreshes(st: AppState, body: FormData, m: string, list: ListOutcome)
    requires st.editing.Some?
    ensures var r := EditEntry(st, body, MutationNotOk(m), list);
      r.entries == Loaded(list) && !r.isFormOpen && r.editing.None?
  {
  }

  /* ---------------- handleDeleteEntry ---------------- */

  /** `handleDeleteEntry`: the removal is sent under the given `no`; only an
      ok response refreshes the list. Otherwise the list stays as it was and
      a failure toast is shown. The form is never touched. */
  function DeleteEntry(st: AppState, no: int, res: MutationOutcome, list: ListOutcome): (r: AppState)
    ensures |r.calls| > |st.calls| && r.calls[..|st.calls| + 1] == st.calls + [DeleteCall(no, res)]
    ensures res.MutationOk? ==>
      r.entries == Loaded(list) && r.calls == st.calls + [DeleteCall(no, res), ListRequest(st, list)]
    ensures !res.MutationOk? ==>
      && r.entries == st.entries
      && r.calls == st.calls + [DeleteCall(no, res)]
      && r.toasts == st.toasts + [ToastError(DeleteFailed)]
    ensures SameForm(r, st) && SameFilters(r, st)
  {
    var sent := st.(calls := st.calls + [DeleteCall(no, res)]);
    if res.MutationOk? then
      var r := Refresh(sent.(toasts := sent.toasts + [ToastSuccess(Deleted)]), list);
      assert r.calls[..|st.calls| + 1] == st.calls + [DeleteCall(no, res)];
      r
    else
      sent.(toasts := sent.toasts + [ToastError(DeleteFailed)])
  }

  /* ---------------- form opening and submission ---------------- */

  function OpenAddForm(st: AppState): (r: AppState)
    ensures r.isFormOpen && r.editing.None? && r.entries == st.entries
  {
    st.(editing := None, isFormOpen := true)
  }

  function OpenEditForm(st: AppState, e: Entry): (r: AppState)
    ensures r.isFormOpen && r.editing == Some(e) && r.entries == st.entries
  {
    st.(editing := Some(e), isFormOpen := true)
  }

  function CloseForm(st: AppState): (r: AppState)
    ensures !r.isFormOpen && r.editing.None? && r.entries == st.entries
  {
    st.(editing := None, isFormOpen := false)
  }

  /** The `onSubmit` the form is given: the update handler while an entry is
      being edited, the create handler otherwise. */
  function Dispatch(st: AppState, body: FormData, res: MutationOutcome, list: ListOutcome): (r: AppState)
    ensures |r.calls| > |st.calls|
    ensures st.editing.Some? ==> r.calls[|st.calls|] == UpdateCall(st.editing.value.no, body, res)
    ensures st.editing.None? ==> r.calls[|st.calls|] == CreateCall(body, res)
    ensures SameFilters(r, st)
  {
    if st.editing.Some? then EditEntry(st, body, res, list) else AddEntry(st, body, res, list)
  }

  /** Performs the form's parent calls in order. The two App handlers catch
      every error, so their promises always resolve. */
  function Perform(st: AppState, calls: seq<Callback>, res: MutationOutcome, list: ListOutcome): AppState
    decreases |calls|
  {
    if calls == [] then st
    else
      var next := match calls[0]
        case OnSubmit(body) => Dispatch(st, body, res, list)
        case OnClose => CloseForm(st);
      Perform(next, calls[1..], res, list)
  }

  /** A submit of the open form: the form's own guard, then the parent calls it makes. */
  function SubmitForm(st: AppState, form: FormState, res: MutationOutcome, list: ListOutcome): (r: AppState)
    ensures !Validate(form.data).ok ==> r == st
    ensures Validate(form.data).ok ==> r == CloseForm(Dispatch(st, form.data, res, list))
  {
    SubmitCalls(st, form, res, list);
    Perform(st, HandleSubmit(form, Resolves).calls, res, list)
  }

  /** The parent calls of a submit whose handler resolves: none for an
      invalid form, else the chosen handler followed by `closeForm`. */
  lemma SubmitCalls(st: AppState, form: FormState, res: MutationOutcome, list: ListOutcome)
    ensures var r := Perform(st, HandleSubmit(form, Resolves).calls, res, list);
      && (!Validate(form.data).ok ==> r == st)
      && (Validate(form.data).ok ==> r == CloseForm(Dispatch(st, form.data, res, list)))
  {
    var calls := HandleSubmit(form, Resolves).calls;
    if Validate(form.data).ok {
      var afterSubmit := Dispatch(st, form.data, res, list);
      assert calls == [OnSubmit(form.data), OnClose];
      assert Perform(afterSubmit, [OnClose], res, list) == CloseForm(afterSubmit);
    }
  }

  /** Because the form calls `onClose` once `onSubmit` resolves, and both
      handlers always resolve, a valid submit closes the form even when the
      create or update failed; a failed create still leaves the list as it was. */
  lemma SubmitAlwaysCloses(st: AppState, form: FormState, res: MutationOutcome, list: ListOutcome)
    requires form.data.tanggal != ""
    requires HasVisible(form.data.modulFitur) && HasVisible(form.data.aktivitas) && HasVisible(form.data.pic)
    ensures var r := SubmitForm(st, form, res, list);
      && !r.isFormOpen && r.editing.None?
      && (st.editing.None? && !res.MutationOk? ==> r.entries == st.entries)
  {
    ValidateIff(form.data);
  }

  /* ---------------- the derived views ---------------- */

  /** The rows the table shows: none while loading, else the filtered view. */
  function TableRows(st: AppState): (rows: Option<seq<Entry>>)
    ensures st.isLoading <==> rows.None?
    ensures rows.Some? ==> rows.value == Filtered(st.entries, st.searchTerm, st.statusFilter)
  {
    if st.isLoading then None else Some(Filtered(st.entries, st.searchTerm, st.statusFilter))
  }

  /** The status options come from the unfiltered list. */
  function StatusOptions(st: AppState): seq<string> {
    UniqueStatuses(st.entries)
  }

  /** `handleExportToExcel`'s text: the CSV of the filtered (not the whole) list. */
  function ExportText(st: AppState): (csv: string)
    ensures HeaderLine() <= csv
    ensures |csv| > 0 && csv[|csv| - 1] != '\n'
  {
    ExportCsv(Filtered(st.entries, st.searchTerm, st.statusFilter))
  }

  /** Every exported row belongs to an entry of the list that passes the
      current search and status filter, and there is one row per such entry
      occurrence. */
  lemma ExportedRowsPassFilter(st: AppState)
    requires forall e :: e in st.entries ==> Plain(e)
    ensures var view := Filtered(st.entries, st.searchTerm, st.statusFilter);
      var t := ParseCsv(ExportText(st));
      && t.header == Headers()
      && |t.rows| == |view|
      && forall i :: 0 <= i < |t.rows| ==>
           exists e :: e in st.entries && Keep(e, st.searchTerm, st.statusFilter) && t.rows[i] == Cells(e)
  {
    var view := Filtered(st.entries, st.searchTerm, st.statusFilter);
    ExportRoundTrip(view);
    forall i | 0 <= i < |view|
      ensures view[i] in st.entries && Keep(view[i], st.searchTerm, st.statusFilter)
    {
      assert view[i] in view;
    }
  }

  /* ---------------- the event loop ---------------- */

  /** What the user or the runtime does, with the outcomes of the round
      trips it causes. */
  datatype Event =
    | Reload(list: ListOutcome)
    | ClickAdd
    | ClickEdit(entry: Entry)
    | ClickClose
    | TypeSearch(term: string)
    | ChooseStatus(status: string)
    | Submit(form: FormState, res: MutationOutcome, list: ListOutcome)
    | ConfirmDelete(no: int, res: MutationOutcome, list: ListOutcome)

  function Step(st: AppState, ev: Event): AppState {
    match ev
    case Reload(list) => Refresh(st, list)
    case ClickAdd => OpenAddForm(st)
    case ClickEdit(e) => OpenEditForm(st, e)
    case ClickClose => CloseForm(st)
    case TypeSearch(term) => st.(searchTerm := term)
    case ChooseStatus(s) => st.(statusFilter := s)
    case Submit(form, res, list) => SubmitForm(st, form, res, list)
    case ConfirmDelete(no, res, list) => DeleteEntry(st, no, res, list)
  }

  function Run(st: AppState, evs: seq<Event>): AppState
    decreases |evs|
  {
    if evs == [] then st else Run(Step(st, evs[0]), evs[1..])
  }

  /** The list the most recent list round trip left, or the initial empty list. */
  function LastLoaded(calls: seq<Call>): seq<Entry>
    decreases |calls|
  {
    if calls == [] then []
    else if calls[|calls| - 1].ListCall? then Loaded(calls[|calls| - 1].outcome)
    else LastLoaded(calls[..|calls| - 1])
  }

  /** At rest the list is exactly what the last list round trip left: no
      handler patches it in place. */
  predicate Mirrors(st: AppState) {
    !st.isLoading && st.entries == LastLoaded(st.calls)
  }

  lemma {:induction false} LastLoadedSkips(calls: seq<Call>, more: seq<Call>)
    requires forall k :: 0 <= k < |more| ==> !more[k].ListCall?
    ensures LastLoaded(calls + more) == LastLoaded(calls)
    decreases |more|
  {
    if more != [] {
      var init := more[..|more| - 1];
      assert (calls + more)[..|calls + more| - 1] == calls + init;
      assert (calls + more)[|calls + more| - 1] == more[|more| - 1];
      assert !more[|more| - 1].ListCall?;
      assert forall k :: 0 <= k < |init| ==> init[k] == more[k];
      LastLoadedSkips(calls, init);
      var all := calls + more;
      assert all != [] && !all[|all| - 1].ListCall?;
      assert LastLoaded(all) == LastLoaded(all[..|all| - 1]);
    } else {
      assert calls + more == calls;
    }
  }

  lemma LastLoadedList(calls: seq<Call>, c: Call)
    requires c.ListCall?
    ensures LastLoaded(calls + [c]) == Loaded(c.outcome)
  {
  }

  /** Every transition keeps the list equal to the last list read. */
  lemma StepMirrors(st: AppState, ev: Event)
    requires Mirrors(st)
    ensures Mirrors(Step(st, ev))
  {
    match ev
    case Reload(list) =>
      LastLoadedList(st.calls, ListRequest(st, list));
    case Submit(form, res, list) =>
      if Validate(form.data).ok {
        DispatchMirrors(st, form.data, res, list);
      }
    case ConfirmDelete(no, res, list) =>
      if res.MutationOk? {
        LastLoadedList(st.calls + [DeleteCall(no, res)], ListRequest(st, list));
      } else {
        LastLoadedSkips(st.calls, [DeleteCall(no, res)]);
      }
    case _ =>
  }

  lemma DispatchMirrors(st: AppState, body: FormData, res: MutationOutcome, list: ListOutcome)
    requires Mirrors(st)
    ensures Mirrors(Dispatch(st, body, res, list))
  {
    match st.editing
    case None =>
      if res.MutationOk? {
        LastLoadedList(st.calls + [CreateCall(body, res)], ListRequest(st, list));
      } else {
        LastLoadedSkips(st.calls, [CreateCall(body, res)]);
      }
    case Some(target) =>
      if res.MutationThrows? {
        LastLoadedSkips(st.calls, [UpdateCall(target.no, body, res)]);
      } else {
        LastLoadedList(st.calls + [UpdateCall(target.no, body, res)], ListRequest(st, list));
      }
  }

  /** From the initial state, after any sequence of events, the list is the
      one the last list read produced: it never holds rows the server did
      not return in that read. */
  lemma {:induction false} RunMirrors(st: AppState, evs: seq<Event>)
    requires Mirrors(st)
    ensures Mirrors(Run(st, evs))
    decreases |evs|
  {
    if evs != [] {
      StepMirrors(st, evs[0]);
      RunMirrors(Step(st, evs[0]), evs[1..]);
    }
  }

  lemma InitMirrors()
    ensures Mirrors(Init())
  {
  }
}
