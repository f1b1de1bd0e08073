/** The calculator's settings: a dictionary from names to JSON scalars that an update
    request overwrites key by key. */
module Settings {

  datatype Option<T> = None | Some(value: T)

  /** A setting's value as it arrives in a JSON request. */
  datatype SettingValue = Text(text: string) | Integer(i: int) | Number(x: real) | Flag(flag: bool) | Null

  type SettingsMap = map<string, SettingValue>

  /** The settings used when none were stored. */
  function DefaultSettings(): SettingsMap
  {
    map[
      "theme" := Text("light"),
      "primary_color" := Text("#007bff"),
      "font_size" := Integer(14),
      "font_family" := Text("Arial"),
      "decimal_places" := Integer(4),
      "show_fractions" := Flag(true)
    ]
  }

  /** The settings that the element formatter reads. */
  const DisplayKeys: set<string> := {"show_fractions", "decimal_places"}

  /** Whether a setting counts as true in a condition: false, zero, the empty text and
      null do not. */
  predicate Truthy(v: SettingValue)
  {
    match v
    case Text(t) => t != ""
    case Integer(i) => i != 0
    case Number(x) => x != 0.0
    case Flag(b) => b
    case Null => false
  }

  /** Whether a value, written out as text, is a precision a fixed-point format accepts:
      a non-negative integer, or a non-empty run of decimal digits. */
  predicate IsPrecision(v: SettingValue)
  {
    match v
    case Integer(i) => i >= 0
    case Text(t) => |t| > 0 && forall k :: 0 <= k < |t| ==> '0' <= t[k] <= '9'
    case _ => false
  }

  /** Settings with which formatting any element fails, whatever the element: the
      show_fractions key is missing, or it is off and decimal_places is missing or is no
      precision. */
  predicate DisplayFails(s: SettingsMap)
  {
    "show_fractions" !in s
    || (!Truthy(s["show_fractions"]) && ("decimal_places" !in s || !IsPrecision(s["decimal_places"])))
  }

  /** The stored settings when there are any, the defaults otherwise. */
  function InitialSettings(stored: Option<SettingsMap>): (s: SettingsMap)
    ensures stored.Some? ==> s == stored.value
    ensures stored.None? ==> DisplayKeys <= s.Keys && s["show_fractions"] == Flag(true) && s["decimal_places"] == Integer(4)
    ensures stored.None? ==> !DisplayFails(s)
  {
    if stored.Some? then stored.value else DefaultSettings()
  }

  /** s updated with d: every key of d maps to its new value, every other key of s keeps
      its old value, and no other key appears. */
  function Merge(s: SettingsMap, d: SettingsMap): (r: SettingsMap)
    ensures r.Keys == s.Keys + d.Keys
    ensures forall k :: k in d ==> r[k] == d[k]
    ensures forall k :: k in s && k !in d ==> r[k] == s[k]
  {
    s + d
  }

  /** Sending the same update twice has the effect of sending it once. */
  lemma MergeIdempotent(s: SettingsMap, d: SettingsMap)
    ensures Merge(Merge(s, d), d) == Merge(s, d)
  {
  }

  /** The settings after the updates ds[0], ds[1], ... in that order. */
  function MergeAll(s: SettingsMap, ds: seq<SettingsMap>): SettingsMap
    decreases |ds|
  {
    if ds == [] then s else MergeAll(Merge(s, ds[0]), ds[1..])
  }

  /** No series of updates removes a setting: every key present before is present after. */
  lemma {:induction false} MergeAllKeepsKeys(s: SettingsMap, ds: seq<SettingsMap>)
    ensures s.Keys <= MergeAll(s, ds).Keys
    decreases |ds|
  {
    if ds != [] {
      MergeAllKeepsKeys(Merge(s, ds[0]), ds[1..]);
    }
  }

  /** A key that no update mentions keeps its value through a series of updates. */
  lemma {:induction false} MergeAllKeepsUntouched(s: SettingsMap, ds: seq<SettingsMap>, k: string)
    requires k in s
    requires forall i :: 0 <= i < |ds| ==> k !in ds[i]
    ensures k in MergeAll(s, ds) && MergeAll(s, ds)[k] == s[k]
    decreases |ds|
  {
    if ds != [] {
      MergeAllKeepsUntouched(Merge(s, ds[0]), ds[1..], k);
    }
  }

  /** Starting from the defaults, the settings the formatter reads are there after any
      series of updates. */
  lemma DisplayKeysSurvive(ds: seq<SettingsMap>)
    ensures DisplayKeys <= MergeAll(DefaultSettings(), ds).Keys
  {
    MergeAllKeepsKeys(DefaultSettings(), ds);
  }

  /** Updates that leave show_fractions and decimal_places alone never make formatting
      fail where it did not fail before. */
  lemma MergeAllKeepsDisplay(s: SettingsMap, ds: seq<SettingsMap>)
    requires !DisplayFails(s)
    requires forall i :: 0 <= i < |ds| ==> "show_fractions" !in ds[i] && "decimal_places" !in ds[i]
    ensures !DisplayFails(MergeAll(s, ds))
  {
    MergeAllKeepsUntouched(s, ds, "show_fractions");
    if "decimal_places" in s {
      MergeAllKeepsUntouched(s, ds, "decimal_places");
    }
  }

  /** Turning fractions off together with a precision that is no number makes every
      formatting fail, while the same precision with fractions still on does not. */
  lemma BadPrecisionFailsOnlyWithoutFractions()
    ensures DisplayFails(Merge(DefaultSettings(), map["show_fractions" := Flag(false), "decimal_places" := Text("abc")]))
    ensures !DisplayFails(Merge(DefaultSettings(), map["decimal_places" := Text("abc")]))
  {
    var off := Merge(DefaultSettings(), map["show_fractions" := Flag(false), "decimal_places" := Text("abc")]);
    assert off["decimal_places"] == Text("abc");
    assert !IsPrecision(Text("abc")) by {
      assert "abc"[0] == 'a';
    }
  }
}
