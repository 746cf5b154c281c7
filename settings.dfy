/**
 * The window's glass-effect settings: blur radius, tint colour and window opacity, read back
 * from their stored JSON with defaults and clamped to the ranges that keep the window
 * visible, and the slider handlers that read, change one setting and store them again.
 * The stored entry is a parameter (`None` when nothing is stored or it does not parse).
 */
module Settings {
  import opened Basics
  import opened Strings

  /** A numeric setting as found in the stored JSON: missing, or an integer. */
  datatype NumberField = Absent | Number(n: int)

  /** The parsed `transparencySettings` entry. */
  datatype StoredSettings = StoredSettings(blur: NumberField, tint: Option<String>, windowOpacity: NumberField)

  datatype TransparencySettings = TransparencySettings(blur: int, tint: String, windowOpacity: int)

  const DefaultBlur: int := 20
  const DefaultTint: String := "#000000"
  const DefaultOpacity: int := 90
  const MaxBlur: int := 50
  const MinOpacity: int := 70
  const MaxOpacity: int := 100

  const Defaults: TransparencySettings := TransparencySettings(DefaultBlur, DefaultTint, DefaultOpacity)

  /** `Math.max(lo, Math.min(hi, x))`. */
  function Clamp(lo: int, hi: int, x: int): (r: int)
    requires lo <= hi
    ensures lo <= r <= hi
    ensures lo <= x <= hi ==> r == x
    ensures x < lo ==> r == lo
    ensures hi < x ==> r == hi
  {
    Max(lo, Min(hi, x))
  }

  /** `field || fallback`: a missing setting and a stored 0 both give the fallback. */
  function OrElse(f: NumberField, fallback: int): int
  {
    match f
    case Number(n) => if n != 0 then n else fallback
    case Absent => fallback
  }

  /** `field ?? fallback`: only a missing setting gives the fallback. */
  function IfAbsent(f: NumberField, fallback: int): int
  {
    match f
    case Number(n) => n
    case Absent => fallback
  }

  /** `settings.tint || '#000000'`. */
  function TintOrDefault(t: Option<String>): String
  {
    match t
    case Some(s) => if s != [] then s else DefaultTint
    case None => DefaultTint
  }

  /** Settings as the sliders keep them: blur in [0, 50], opacity in [70, 100], a colour. */
  predicate InRange(t: TransparencySettings)
  {
    0 <= t.blur <= MaxBlur && MinOpacity <= t.windowOpacity <= MaxOpacity && t.tint != []
  }

  /** `getTransparencySettings` as written: the blur falls back to 20 through `||`. */
  function ReadAsWritten(stored: Option<StoredSettings>): TransparencySettings
  {
    match stored
    case None => Defaults
    case Some(s) =>
      TransparencySettings(
        Clamp(0, MaxBlur, OrElse(s.blur, DefaultBlur)),
        TintOrDefault(s.tint),
        Clamp(MinOpacity, MaxOpacity, OrElse(s.windowOpacity, DefaultOpacity)))
  }

  /** `getTransparencySettings` with the blur falling back to 20 only when it is missing. */
  function Read(stored: Option<StoredSettings>): TransparencySettings
  {
    match stored
    case None => Defaults
    case Some(s) =>
      TransparencySettings(
        Clamp(0, MaxBlur, IfAbsent(s.blur, DefaultBlur)),
        TintOrDefault(s.tint),
        Clamp(MinOpacity, MaxOpacity, OrElse(s.windowOpacity, DefaultOpacity)))
  }

  /** `saveTransparencySettings`: the JSON written back. */
  function Save(t: TransparencySettings): Option<StoredSettings>
  {
    Some(StoredSettings(Number(t.blur), Some(t.tint), Number(t.windowOpacity)))
  }

  /** The value the opacity slider hands on: `Math.max(70, parseInt(value))`. */
  function SliderOpacity(v: int): (r: int)
    ensures r >= MinOpacity
    ensures v >= MinOpacity ==> r == v
  {
    Max(MinOpacity, v)
  }

  /** `updateBlur` over the corrected reading `Read`: read, set the blur, store. */
  function UpdateBlur(stored: Option<StoredSettings>, blur: int): Option<StoredSettings>
  {
    Save(Read(stored).(blur := blur))
  }

  /** `updateTint` over the corrected reading `Read`: read, set the tint, store. */
  function UpdateTint(stored: Option<StoredSettings>, tint: String): Option<StoredSettings>
  {
    Save(Read(stored).(tint := tint))
  }

  /** `updateWindowOpacity` over the corrected reading `Read`: read, set the raised slider
      value, store. */
  function UpdateWindowOpacity(stored: Option<StoredSettings>, v: int): Option<StoredSettings>
  {
    Save(Read(stored).(windowOpacity := SliderOpacity(v)))
  }

  /** `updateBlur` and `updateTint` over the reading as written. */
  function UpdateBlurAsWritten(stored: Option<StoredSettings>, blur: int): Option<StoredSettings>
  {
    Save(ReadAsWritten(stored).(blur := blur))
  }

  function UpdateTintAsWritten(stored: Option<StoredSettings>, tint: String): Option<StoredSettings>
  {
    Save(ReadAsWritten(stored).(tint := tint))
  }

  // ---------------------------------------------------------------------------------------
  // Properties.
  // ---------------------------------------------------------------------------------------

  /** Whatever is stored, the settings read back are in range; nothing stored gives the
      defaults. */
  lemma ReadInRange(stored: Option<StoredSettings>)
    ensures InRange(Read(stored)) && InRange(ReadAsWritten(stored))
    ensures stored.None? ==> Read(stored) == Defaults && ReadAsWritten(stored) == Defaults
  {
  }

  /** Settings in range survive being stored and read back. */
  lemma ReadSaveRoundTrip(t: TransparencySettings)
    requires InRange(t)
    ensures Read(Save(t)) == t
  {
  }

  /** As written, the round trip holds exactly for a non-zero blur: a stored 0 comes back as
      20. */
  lemma ReadAsWrittenRoundTrip(t: TransparencySettings)
    requires InRange(t)
    ensures ReadAsWritten(Save(t)) == t <==> t.blur != 0
    ensures t.blur == 0 ==> ReadAsWritten(Save(t)).blur == DefaultBlur
  {
  }

  /** The discrepancy: after the blur slider is set to 0, changing the tint stores a blur of
      20. */
  lemma BlurZeroLost(tint: String)
    ensures ReadAsWritten(UpdateTintAsWritten(UpdateBlurAsWritten(None, 0), tint)).blur == DefaultBlur
  {
  }

  /** With the reading corrected, changing the tint keeps the blur the slider set, and
      changing the blur keeps the tint and the opacity. */
  lemma UpdatesKeepOtherSettings(stored: Option<StoredSettings>, blur: int, tint: String)
    ensures Read(UpdateTint(UpdateBlur(stored, blur), tint)).blur == Clamp(0, MaxBlur, blur)
    ensures tint != [] ==> Read(UpdateTint(stored, tint)).tint == tint
    ensures Read(UpdateBlur(stored, blur)).tint == Read(stored).tint
    ensures Read(UpdateBlur(stored, blur)).windowOpacity == Read(stored).windowOpacity
  {
    ReadInRange(stored);
  }

  /** With the corrected blur default, reading what was just read and stored changes
      nothing (as written it does not hold: `ReadAsWrittenNotStable`). */
  lemma ReadSaveRead(stored: Option<StoredSettings>)
    ensures Read(Save(Read(stored))) == Read(stored)
  {
    ReadInRange(stored);
    ReadSaveRoundTrip(Read(stored));
  }

  /** As written, reading is not stable: a stored negative blur reads as 0, and that 0 reads
      back as 20. */
  lemma ReadAsWrittenNotStable()
    ensures var s := Some(StoredSettings(Number(-5), None, Absent));
      ReadAsWritten(s).blur == 0 && ReadAsWritten(Save(ReadAsWritten(s))).blur == DefaultBlur
  {
  }

  /** The opacity slider never stores less than 70, and what it stores reads back clamped
      to [70, 100]. */
  lemma OpacitySliderRoundTrip(stored: Option<StoredSettings>, v: int)
    ensures Read(UpdateWindowOpacity(stored, v)).windowOpacity == Min(MaxOpacity, Max(MinOpacity, v))
  {
  }
}
