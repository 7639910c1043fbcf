/** The state and logic of `LogbookForm` in
    `src/app/components/LogbookForm.tsx`: the initial field values, the
    change handler, the required-field validator and the submit guard. */
module LogbookForm {
  import opened Options
  import opened Text
  import opened Logbook

  /** The form's field values: an entry without its `no`. */
  datatype FormData = FormData(
    tanggal: string,
    modulFitur: string,
    aktivitas: string,
    detailTeknis: string,
    kendala: string,
    solusi: string,
    status: string,
    pic: string)

  /** The `name` attributes of the form's eight inputs. */
  datatype Field = Tanggal | ModulFitur | Aktivitas | DetailTeknis | Kendala | Solusi | Status | Pic

  function Get(d: FormData, f: Field): string {
    match f
    case Tanggal => d.tanggal
    case ModulFitur => d.modulFitur
    case Aktivitas => d.aktivitas
    case DetailTeknis => d.detailTeknis
    case Kendala => d.kendala
    case Solusi => d.solusi
    case Status => d.status
    case Pic => d.pic
  }

  /** `{ ...prev, [name]: value }`: the named field takes the value and every
      other field keeps its own. */
  function Set(d: FormData, f: Field, v: string): (r: FormData)
    ensures Get(r, f) == v
    ensures forall g :: g != f ==> Get(r, g) == Get(d, g)
  {
    match f
    case Tanggal => d.(tanggal := v)
    case ModulFitur => d.(modulFitur := v)
    case Aktivitas => d.(aktivitas := v)
    case DetailTeknis => d.(detailTeknis := v)
    case Kendala => d.(kendala := v)
    case Solusi => d.(solusi := v)
    case Status => d.(status := v)
    case Pic => d.(pic := v)
  }

  /** The component state: field values, per-field error messages (an empty
      message counts as no error) and the submitting flag. */
  datatype FormState = FormState(data: FormData, errors: map<Field, string>, isSubmitting: bool)

  /** `entry?.x || ''` for a text field: the entry's value, or empty. */
  function TextOf(entry: Option<Entry>, get: Entry -> string): string {
    if entry.Some? && get(entry.value) != "" then get(entry.value) else ""
  }

  /** The initial form: the edited entry's values, or empty fields when
      adding. The date falls back to `today` when there is no entry or its
      date is empty. */
  function InitialData(entry: Option<Entry>, today: string): (d: FormData)
    ensures entry.None? ==> d == FormData(today, "", "", "", "", "", "", "")
    ensures entry.Some? ==>
      && d.tanggal == (if entry.value.tanggal != "" then entry.value.tanggal else today)
      && d.modulFitur == entry.value.modulFitur
      && d.aktivitas == entry.value.aktivitas
      && d.detailTeknis == entry.value.detailTeknis
      && d.kendala == entry.value.kendala
      && d.solusi == entry.value.solusi
      && d.status == entry.value.status
      && d.pic == entry.value.pic
  {
    FormData(
      if entry.Some? && entry.value.tanggal != "" then entry.value.tanggal else today,
      TextOf(entry, (e: Entry) => e.modulFitur),
      TextOf(entry, (e: Entry) => e.aktivitas),
      TextOf(entry, (e: Entry) => e.detailTeknis),
      TextOf(entry, (e: Entry) => e.kendala),
      TextOf(entry, (e: Entry) => e.solusi),
      TextOf(entry, (e: Entry) => e.status),
      TextOf(entry, (e: Entry) => e.pic))
  }

  /** The state the form mounts with: the initial values, no error, not
      submitting. */
  function Initial(entry: Option<Entry>, today: string): (st: FormState)
    ensures st.data == InitialData(entry, today)
    ensures st.errors == map[] && !st.isSubmitting
  {
    FormState(InitialData(entry, today), map[], false)
  }

  /** The form values of an entry, together with its `no`, give the entry back. */
  function WithNo(d: FormData, no: int): Entry {
    Entry(no, d.tanggal, d.modulFitur, d.aktivitas, d.detailTeknis, d.kendala, d.solusi, d.status, d.pic)
  }

  /** Opening the form on an entry with a date and submitting it unchanged
      sends exactly that entry's values. */
  lemma InitialDataRoundTrip(e: Entry, today: string)
    requires e.tanggal != ""
    ensures WithNo(InitialData(Some(e), today), e.no) == e
  {
  }

  /** `handleChange`: sets the named field; clears that field's error only
      when one is shown, keeping the key; other errors are untouched. */
  function HandleChange(st: FormState, f: Field, v: string): (r: FormState)
    ensures r.data == Set(st.data, f, v)
    ensures r.errors.Keys == st.errors.Keys
    ensures f in r.errors ==> r.errors[f] == ""
    ensures forall g :: g in st.errors && g != f ==> r.errors[g] == st.errors[g]
    ensures r.isSubmitting == st.isSubmitting
  {
    var errors := if f in st.errors && st.errors[f] != "" then st.errors[f := ""] else st.errors;
    st.(data := Set(st.data, f, v), errors := errors)
  }

  /* ---------------- validation ---------------- */

  /** The fields `validate` checks. */
  predicate Required(f: Field) {
    f == Tanggal || f == ModulFitur || f == Aktivitas || f == Pic
  }

  /** A required field is missing: an empty date, or a text that trims to nothing. */
  predicate Missing(d: FormData, f: Field) {
    match f
    case Tanggal => d.tanggal == ""
    case ModulFitur => Trim(d.modulFitur) == ""
    case Aktivitas => Trim(d.aktivitas) == ""
    case Pic => Trim(d.pic) == ""
    case _ => false
  }

  function Message(f: Field): (m: string)
    ensures Required(f) ==> m != ""
  {
    match f
    case Tanggal => "Tanggal harus diisi"
    case ModulFitur => "Modul/Fitur harus diisi"
    case Aktivitas => "Aktivitas harus diisi"
    case Pic => "PIC harus diisi"
    case _ => ""
  }

  /** `validate`'s result: the new error map and whether it has no key. */
  datatype Validation = Validation(errors: map<Field, string>, ok: bool)

  /** One `if (...) newErrors.f = ...` step of `validate`. */
  function ErrorIf(d: FormData, f: Field, m: map<Field, string>): (r: map<Field, string>)
    ensures forall g :: g in r <==> g in m || (g == f && Missing(d, f))
    ensures (forall g :: g in m ==> m[g] == Message(g)) ==> forall g :: g in r ==> r[g] == Message(g)
  {
    if Missing(d, f) then m[f := Message(f)] else m
  }

  /** The error map `validate` builds: one message per missing required field. */
  function Errors(d: FormData): (m: map<Field, string>)
    ensures forall f :: f in m <==> Required(f) && Missing(d, f)
    ensures forall f :: f in m ==> m[f] == Message(f)
  {
    var m1 := ErrorIf(d, Tanggal, map[]);
    var m2 := ErrorIf(d, ModulFitur, m1);
    var m3 := ErrorIf(d, Aktivitas, m2);
    ErrorIf(d, Pic, m3)
  }

  /** `validate`: one error per missing required field; valid exactly when
      there is none. */
  function Validate(d: FormData): (v: Validation)
    ensures forall f :: f in v.errors <==> Required(f) && Missing(d, f)
    ensures forall f :: f in v.errors ==> v.errors[f] != ""
    ensures v.ok <==> v.errors == map[]
  {
    var m := Errors(d);
    assert forall f :: f in m ==> m[f] != "";
    Validation(m, m == map[])
  }

  /** A text has a character that `trim` keeps. */
  predicate HasVisible(s: string) {
    exists i :: 0 <= i < |s| && !IsSpace(s[i])
  }

  /** The form is valid exactly when the date is non-empty and module,
      activity and person in charge each hold a non-space character. The
      date is not trimmed, and the other four fields are never checked. */
  lemma ValidateIff(d: FormData)
    ensures Validate(d).ok <==>
      d.tanggal != "" && HasVisible(d.modulFitur) && HasVisible(d.aktivitas) && HasVisible(d.pic)
  {
    var v := Validate(d);
    if v.ok {
      assert !Missing(d, ModulFitur) && !Missing(d, Aktivitas) && !Missing(d, Pic);
    } else {
      var f :| f in v.errors;
    }
  }

  /** A fresh add form is never valid: its required text fields are empty. */
  lemma BlankFormInvalid(today: string)
    ensures !Validate(InitialData(None, today)).ok
  {
    var v := Validate(InitialData(None, today));
    assert ModulFitur in v.errors;
  }

  /* ---------------- submit ---------------- */

  /** A call the form makes to its parent. */
  datatype Callback = OnSubmit(data: FormData) | OnClose

  /** How the parent's `onSubmit` promise settles. */
  datatype Settle = Resolves | Rejects

  /** The form state after `handleSubmit`, and the parent calls it made in order. */
  datatype SubmitEffect = SubmitEffect(state: FormState, calls: seq<Callback>)

  /** `handleSubmit`: an invalid form records its errors and calls nothing.
      A valid form calls `onSubmit` with a copy of its values and, when that
      resolves, `onClose`; `isSubmitting` is false once it is done either way. */
  function HandleSubmit(st: FormState, settle: Settle): (r: SubmitEffect)
    ensures r.state.data == st.data
    ensures r.state.errors == Validate(st.data).errors
    ensures !Validate(st.data).ok ==> r.calls == [] && r.state.isSubmitting == st.isSubmitting
    ensures Validate(st.data).ok ==>
      && r.calls == (if settle == Resolves then [OnSubmit(st.data), OnClose] else [OnSubmit(st.data)])
      && !r.state.isSubmitting
  {
    var v := Validate(st.data);
    var checked := st.(errors := v.errors);
    if !v.ok then
      SubmitEffect(checked, [])
    else
      var submitting := checked.(isSubmitting := true);
      var calls := if settle == Resolves then [OnSubmit(st.data), OnClose] else [OnSubmit(st.data)];
      SubmitEffect(submitting.(isSubmitting := false), calls)
  }

  /** Editing a field that shows an error and then submitting again: the
      error is gone before validation and comes back only if the field is
      still missing. */
  lemma ChangeThenSubmit(st: FormState, f: Field, v: string, settle: Settle)
    requires Required(f)
    ensures var r := HandleSubmit(HandleChange(st, f, v), settle);
      f in r.state.errors <==> Missing(Set(st.data, f, v), f)
  {
  }
}
