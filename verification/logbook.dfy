/** The `LogbookEntry` record of `src/app/App.tsx` and the normalisation the
    list handler applies to every item of a list payload. */
module Logbook {
  import opened Options

  /** One logged activity. `tanggal` (the date) is kept as opaque text. */
  datatype Entry = Entry(
    no: int,
    tanggal: string,
    modulFitur: string,
    aktivitas: string,
    detailTeknis: string,
    kendala: string,
    solusi: string,
    status: string,
    pic: string)

  /** One item of the list payload as it arrives: any field may be `null`
      or missing. */
  datatype RawItem = RawItem(
    no: Option<int>,
    tanggal: Option<string>,
    modulFitur: Option<string>,
    aktivitas: Option<string>,
    detailTeknis: Option<string>,
    kendala: Option<string>,
    solusi: Option<string>,
    status: Option<string>,
    pic: Option<string>)

  /** The date the list handler keeps: the payload's date when it is truthy
      (present and non-empty), otherwise the clock reading `now`. */
  function NormalDate(raw: Option<string>, now: string): (d: string)
    ensures raw.Some? && raw.value != "" ==> d == raw.value
    ensures raw.None? || raw.value == "" ==> d == now
  {
    if raw.Some? && raw.value != "" then raw.value else now
  }

  /** One payload item with `no` defaulted to 0 and each text field to the
      empty string when it is absent. */
  function Normalize(item: RawItem, now: string): (e: Entry)
    ensures item.no.Some? ==> e.no == item.no.value
    ensures item.no.None? ==> e.no == 0
    ensures e.tanggal == NormalDate(item.tanggal, now)
    ensures item.modulFitur.Some? ==> e.modulFitur == item.modulFitur.value
    ensures item.modulFitur.None? ==> e.modulFitur == ""
    ensures item.aktivitas.Some? ==> e.aktivitas == item.aktivitas.value
    ensures item.aktivitas.None? ==> e.aktivitas == ""
    ensures item.detailTeknis.Some? ==> e.detailTeknis == item.detailTeknis.value
    ensures item.detailTeknis.None? ==> e.detailTeknis == ""
    ensures item.kendala.Some? ==> e.kendala == item.kendala.value
    ensures item.kendala.None? ==> e.kendala == ""
    ensures item.solusi.Some? ==> e.solusi == item.solusi.value
    ensures item.solusi.None? ==> e.solusi == ""
    ensures item.status.Some? ==> e.status == item.status.value
    ensures item.status.None? ==> e.status == ""
    ensures item.pic.Some? ==> e.pic == item.pic.value
    ensures item.pic.None? ==> e.pic == ""
  {
    Entry(
      item.no.GetOr(0),
      NormalDate(item.tanggal, now),
      item.modulFitur.GetOr(""),
      item.aktivitas.GetOr(""),
      item.detailTeknis.GetOr(""),
      item.kendala.GetOr(""),
      item.solusi.GetOr(""),
      item.status.GetOr(""),
      item.pic.GetOr(""))
  }

  /** `(result.data ?? []).map(...)`: a missing `data` is the empty list;
      otherwise every item is normalised, in order. */
  function NormalizeAll(data: Option<seq<RawItem>>, now: string): (es: seq<Entry>)
    ensures data.None? ==> es == []
    ensures data.Some? ==> |es| == |data.value|
    ensures data.Some? ==> forall i :: 0 <= i < |es| ==> es[i] == Normalize(data.value[i], now)
  {
    match data
    case None => []
    case Some(items) => seq(|items|, i requires 0 <= i < |items| => Normalize(items[i], now))
  }

  /** An entry written back as a fully populated payload item. */
  function ToRaw(e: Entry): RawItem {
    RawItem(Some(e.no), Some(e.tanggal), Some(e.modulFitur), Some(e.aktivitas),
            Some(e.detailTeknis), Some(e.kendala), Some(e.solusi), Some(e.status), Some(e.pic))
  }

  /** Normalisation leaves a fully populated item with a non-empty date as it is. */
  lemma NormalizeToRaw(e: Entry, now: string)
    requires e.tanggal != ""
    ensures Normalize(ToRaw(e), now) == e
  {
  }

  /** Normalising the payload that echoes an already normalised list gives the
      same list back, whatever the clock reads the second time. */
  lemma {:induction false} NormalizeAllStable(data: Option<seq<RawItem>>, now: string, later: string)
    requires now != ""
    ensures var es := NormalizeAll(data, now);
      NormalizeAll(Some(seq(|es|, i requires 0 <= i < |es| => ToRaw(es[i]))), later) == es
  {
    var es := NormalizeAll(data, now);
    var echo := seq(|es|, i requires 0 <= i < |es| => ToRaw(es[i]));
    forall i | 0 <= i < |es|
      ensures Normalize(echo[i], later) == es[i]
    {
      NormalizeToRaw(es[i], later);
    }
  }
}
