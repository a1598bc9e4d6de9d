// Unity's PlayerPrefs key-value store and the client's PlayerPrefsHelper
// over it: the bool encoding as an int 1/0, the long encoding as a decimal
// string, prefixed keys, and deletion.

module Prefs {
  import opened Common

  /**
   * A stored preference. Unity keeps the type a key was written with, and a
   * typed read of a key holding another type gives the caller's default.
   */
  datatype Pref = IntPref(i: int) | FloatPref(f: real) | StringPref(s: string)

  type Store = map<string, Pref>

  predicate IsInt32(v: int) { -0x8000_0000 <= v < 0x8000_0000 }

  predicate IsInt64(v: int) { -0x8000_0000_0000_0000 <= v < 0x8000_0000_0000_0000 }

  // ---------------------------------------------------------------------------
  // Unity's PlayerPrefs
  // ---------------------------------------------------------------------------

  /** The preferences in memory (`entries`) and the last copy written out by `Save` (`saved`). */
  class PlayerPrefs {
    var entries: Store
    var saved: Store

    constructor (initial: Store)
      ensures entries == initial && saved == initial
    {
      entries := initial;
      saved := initial;
    }

    method SetInt(key: string, value: int)
      requires IsInt32(value)
      modifies this`entries
      ensures entries == old(entries)[key := IntPref(value)]
    {
      entries := entries[key := IntPref(value)];
    }

    method SetFloat(key: string, value: real)
      modifies this`entries
      ensures entries == old(entries)[key := FloatPref(value)]
    {
      entries := entries[key := FloatPref(value)];
    }

    method SetString(key: string, value: string)
      modifies this`entries
      ensures entries == old(entries)[key := StringPref(value)]
    {
      entries := entries[key := StringPref(value)];
    }

    method DeleteKey(key: string)
      modifies this`entries
      ensures entries == old(entries) - {key}
    {
      entries := entries - {key};
    }

    method DeleteAll()
      modifies this`entries
      ensures entries == map[]
    {
      entries := map[];
    }

    method Save()
      modifies this`saved
      ensures saved == entries
    {
      saved := entries;
    }
  }

  /** `PlayerPrefs.GetInt(key, defaultValue)`. */
  function GetInt(store: Store, key: string, defaultValue: int): (r: int)
    ensures key in store && store[key].IntPref? ==> r == store[key].i
    ensures !(key in store && store[key].IntPref?) ==> r == defaultValue
  {
    if key in store && store[key].IntPref? then store[key].i else defaultValue
  }

  /** `PlayerPrefs.GetFloat(key, defaultValue)`. */
  function GetFloat(store: Store, key: string, defaultValue: real): (r: real)
    ensures key in store && store[key].FloatPref? ==> r == store[key].f
    ensures !(key in store && store[key].FloatPref?) ==> r == defaultValue
  {
    if key in store && store[key].FloatPref? then store[key].f else defaultValue
  }

  /** `PlayerPrefs.GetString(key, defaultValue)`. */
  function GetString(store: Store, key: string, defaultValue: string): (r: string)
    ensures key in store && store[key].StringPref? ==> r == store[key].s
    ensures !(key in store && store[key].StringPref?) ==> r == defaultValue
  {
    if key in store && store[key].StringPref? then store[key].s else defaultValue
  }

  // ---------------------------------------------------------------------------
  // PlayerPrefsHelper: setters (each writes its key, then saves)
  // ---------------------------------------------------------------------------

  method SetInt(prefs: PlayerPrefs, key: string, value: int)
    requires IsInt32(value)
    modifies prefs
    ensures prefs.entries == old(prefs.entries)[key := IntPref(value)]
    ensures prefs.saved == prefs.entries
  {
    prefs.SetInt(key, value);
    prefs.Save();
  }

  method SetFloat(prefs: PlayerPrefs, key: string, value: real)
    modifies prefs
    ensures prefs.entries == old(prefs.entries)[key := FloatPref(value)]
    ensures prefs.saved == prefs.entries
  {
    prefs.SetFloat(key, value);
    prefs.Save();
  }

  method SetString(prefs: PlayerPrefs, key: string, value: string)
    modifies prefs
    ensures prefs.entries == old(prefs.entries)[key := StringPref(value)]
    ensures prefs.saved == prefs.entries
  {
    prefs.SetString(key, value);
    prefs.Save();
  }

  /** The int a bool is stored as: 1 for true, 0 for false. */
  function BoolCode(value: bool): (code: int)
    ensures code == 1 <==> value
    ensures code == 0 <==> !value
  {
    if value then 1 else 0
  }

  method SetBool(prefs: PlayerPrefs, key: string, value: bool)
    modifies prefs
    ensures prefs.entries == old(prefs.entries)[key := IntPref(BoolCode(value))]
    ensures prefs.saved == prefs.entries
  {
    prefs.SetInt(key, if value then 1 else 0);
    prefs.Save();
  }

  method SetLong(prefs: PlayerPrefs, key: string, value: int)
    requires IsInt64(value)
    modifies prefs
    ensures prefs.entries == old(prefs.entries)[key := StringPref(IntToString(value))]
    ensures prefs.saved == prefs.entries
  {
    prefs.SetString(key, IntToString(value));
    prefs.Save();
  }

  // ---------------------------------------------------------------------------
  // PlayerPrefsHelper: getters
  // ---------------------------------------------------------------------------

  /** `GetInt(key, defaultValue ? 1 : 0) == 1`: true only for a stored int 1, or the default when no int is stored. */
  function GetBool(store: Store, key: string, defaultValue: bool): (r: bool)
    ensures key in store && store[key].IntPref? ==> (r <==> store[key].i == 1)
    ensures !(key in store && store[key].IntPref?) ==> r == defaultValue
  {
    GetInt(store, key, BoolCode(defaultValue)) == 1
  }

  /** The white space `NumberStyles.Integer` allows around a number: tab to carriage return, and space. */
  predicate IsNumberWhite(c: char)
  {
    '\t' <= c <= '\r' || c == ' '
  }

  function TrimNumberWhite(s: string): (r: string)
    ensures |r| <= |s|
    ensures |r| > 0 ==> !IsNumberWhite(r[0]) && !IsNumberWhite(r[|r| - 1])
    decreases |s|
  {
    if |s| > 0 && IsNumberWhite(s[0]) then TrimNumberWhite(s[1..])
    else if |s| > 0 && IsNumberWhite(s[|s| - 1]) then TrimNumberWhite(s[..|s| - 1])
    else s
  }

  /** `long.TryParse`: optional surrounding white space, an optional sign, ASCII digits, within 64 bits. */
  function TryParseLong(s: string): (r: Option<int>)
    ensures r.Some? ==> IsInt64(r.value)
  {
    match ParseSignedDigits(TrimNumberWhite(s))
    case Some(v) => if IsInt64(v) then Some(v) else None
    case None => None
  }

  /** A long written with `ToString()` parses back. */
  lemma TryParseLongRoundTrip(v: int)
    requires IsInt64(v)
    ensures TryParseLong(IntToString(v)) == Some(v)
  {
    var s := IntToString(v);
    var d := NatToString(if v < 0 then -v else v);
    assert IsAsciiDigit(d[0]) && IsAsciiDigit(d[|d| - 1]);
    assert s[|s| - 1] == d[|d| - 1];
    assert TrimNumberWhite(s) == s;
    SignedDigitsRoundTrip(v);
  }

  /**
   * GetLong: the stored string (or the default's own rendering when none is
   * stored) parsed as a long, falling back to the default.
   */
  function GetLong(store: Store, key: string, defaultValue: int): (r: int)
    requires IsInt64(defaultValue)
    ensures IsInt64(r)
    ensures key in store && store[key].StringPref? && TryParseLong(store[key].s).Some? ==> r == TryParseLong(store[key].s).value
    ensures key in store && store[key].StringPref? && TryParseLong(store[key].s).None? ==> r == defaultValue
  {
    var value := GetString(store, key, IntToString(defaultValue));
    match TryParseLong(value)
    case Some(result) => result
    case None => defaultValue
  }

  /** With no string stored, GetLong gives the default back through its own rendering. */
  lemma GetLongDefault(store: Store, key: string, defaultValue: int)
    requires IsInt64(defaultValue)
    requires !(key in store && store[key].StringPref?)
    ensures GetLong(store, key, defaultValue) == defaultValue
  {
    TryParseLongRoundTrip(defaultValue);
  }

  /** SetBool then GetBool gives back the value, whatever the default. */
  lemma BoolRoundTrip(store: Store, key: string, value: bool, defaultValue: bool)
    ensures GetBool(store[key := IntPref(BoolCode(value))], key, defaultValue) == value
  {
  }

  /** SetLong then GetLong gives back the value, whatever the default. */
  lemma LongRoundTrip(store: Store, key: string, value: int, defaultValue: int)
    requires IsInt64(value) && IsInt64(defaultValue)
    ensures GetLong(store[key := StringPref(IntToString(value))], key, defaultValue) == value
  {
    TryParseLongRoundTrip(value);
  }

  // ---------------------------------------------------------------------------
  // Keys
  // ---------------------------------------------------------------------------

  function HasKey(store: Store, key: string): bool
  {
    key in store
  }

  method DeleteKey(prefs: PlayerPrefs, key: string)
    modifies prefs
    ensures prefs.entries == old(prefs.entries) - {key}
    ensures prefs.saved == prefs.entries
  {
    prefs.DeleteKey(key);
    prefs.Save();
  }

  method DeleteAll(prefs: PlayerPrefs)
    modifies prefs
    ensures prefs.entries == map[]
    ensures prefs.saved == prefs.entries
  {
    prefs.DeleteAll();
    prefs.Save();
  }

  /** After DeleteKey the key is gone and every other key keeps its value; after DeleteAll no key is left. */
  lemma DeleteMeaning(store: Store, key: string, other: string)
    ensures !HasKey(store - {key}, key)
    ensures other != key ==> (HasKey(store - {key}, other) <==> HasKey(store, other))
    ensures other != key && other in store ==> (store - {key})[other] == store[other]
    ensures !HasKey(map[], other)
  {
  }

  /** `$"{prefix}_{key}"`. */
  function KeyWithPrefix(prefix: string, key: string): (r: string)
    ensures |r| == |prefix| + 1 + |key|
    ensures r[..|prefix|] == prefix && r[|prefix|] == '_' && r[|prefix| + 1..] == key
  {
    prefix + "_" + key
  }

  method SetStringWithPrefix(prefs: PlayerPrefs, prefix: string, key: string, value: string)
    modifies prefs
    ensures prefs.entries == old(prefs.entries)[KeyWithPrefix(prefix, key) := StringPref(value)]
    ensures prefs.saved == prefs.entries
  {
    SetString(prefs, KeyWithPrefix(prefix, key), value);
  }

  function GetStringWithPrefix(store: Store, prefix: string, key: string, defaultValue: string): string
  {
    GetString(store, KeyWithPrefix(prefix, key), defaultValue)
  }

  /** A value stored under a prefixed key reads back under the same prefix and key. */
  lemma PrefixRoundTrip(store: Store, prefix: string, key: string, value: string, defaultValue: string)
    ensures GetStringWithPrefix(store[KeyWithPrefix(prefix, key) := StringPref(value)], prefix, key, defaultValue) == value
  {
  }

  /** One prefix keeps its keys apart: a different key under the same prefix is not touched. */
  lemma PrefixSeparatesKeys(store: Store, prefix: string, key: string, other: string, value: string, defaultValue: string)
    requires other != key
    ensures GetStringWithPrefix(store[KeyWithPrefix(prefix, key) := StringPref(value)], prefix, other, defaultValue)
            == GetStringWithPrefix(store, prefix, other, defaultValue)
  {
    assert KeyWithPrefix(prefix, other)[|prefix| + 1..] == other;
    assert KeyWithPrefix(prefix, key)[|prefix| + 1..] == key;
  }

  /** The prefixed spaces of different prefixes can meet: ("a_b", "c") and ("a", "b_c") name one key. */
  lemma PrefixesCanCollide()
    ensures KeyWithPrefix("a_b", "c") == KeyWithPrefix("a", "b_c")
  {
  }
}
