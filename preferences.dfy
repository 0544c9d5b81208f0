/**
 * The `picfinder_prefs` key-value store the view models read and write: string values
 * (the scan frequency name) and long values (the last scan date), each keyed by name.
 */
module Preferences {
  import opened Wrappers

  const ScanFrequencyKey: string := "scan_frequency"
  const LastScanDateKey: string := "last_scan_date"

  class SharedPreferences {
    var strings: map<string, string>
    var longs: map<string, int>

    constructor ()
      ensures strings == map[] && longs == map[]
    {
      strings, longs := map[], map[];
    }

    /** `getString(key, default)`: the stored value, or `default` when the key is absent. */
    method GetString(key: string, default: Option<string>) returns (r: Option<string>)
      ensures key in strings ==> r == Some(strings[key])
      ensures key !in strings ==> r == default
    {
      r := if key in strings then Some(strings[key]) else default;
    }

    /** `getLong(key, default)`. */
    method GetLong(key: string, default: int) returns (r: int)
      ensures r == if key in longs then longs[key] else default
    {
      r := if key in longs then longs[key] else default;
    }

    /** `edit().putString(key, value).apply()`. */
    method PutString(key: string, value: string)
      modifies this
      ensures strings == old(strings)[key := value] && longs == old(longs)
    {
      strings := strings[key := value];
    }

    /** `edit().putLong(key, value).apply()`. */
    method PutLong(key: string, value: int)
      modifies this
      ensures longs == old(longs)[key := value] && strings == old(strings)
    {
      longs := longs[key := value];
    }
  }
}
