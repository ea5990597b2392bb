/** The shift record as the statistics and the pages receive it (`ShiftExtended`). */
module Types {
  import opened Wrappers
  import opened Calendar

  /** `schicht`: `'f'` (early, "Früh"), `'s'` (late, "Spät") or `null`. */
  datatype ShiftKind = Early | Late | NoKind

  /**
   * One recorded shift. `datum` is the stored calendar date, which is always
   * a date that exists; `wochentag`, `euroProStunde` and `tipProzent` are
   * derived columns delivered with the record, not recomputed by the code
   * modelled here.
   */
  datatype Shift = Shift(
    datum: CalendarDate,
    betrag: real,
    schicht: ShiftKind,
    mitarbeiter: Option<real>,
    umsatz: Option<real>,
    notiz: Option<string>,
    wochentag: string,
    euroProStunde: real,
    tipProzent: real)

  /** The tip of a shift (`s => s.betrag`). */
  function TipOf(s: Shift): real {
    s.betrag
  }

  /** The day number of a shift's date. */
  function DayOf(s: Shift): int {
    DayNumber(s.datum)
  }
}
