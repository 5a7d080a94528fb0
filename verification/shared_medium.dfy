/**
  The app-group `UserDefaults` suite that the app and the widget extension
  both open. Opening it can fail, so the medium is either unavailable or a
  plain map from key to stored string.
 */
module SharedMedium {
  import opened Options

  datatype Medium = Unavailable | Available(defaults: map<string, string>)

  /** `UserDefaults(suiteName:)?.string(forKey:)`: nothing when the suite
      cannot be opened or the key is absent. */
  function StringForKey(m: Medium, key: string): (r: Option<string>)
    ensures r.Some? <==> m.Available? && key in m.defaults
    ensures r.Some? ==> r.value == m.defaults[key]
  {
    match m
    case Unavailable => None
    case Available(d) => if key in d then Some(d[key]) else None
  }

  /** `defaults.set(value, forKey: key)` on an open suite. */
  function SetString(m: Medium, key: string, value: string): (r: Medium)
    requires m.Available?
    ensures r.Available?
    ensures r.defaults.Keys == m.defaults.Keys + {key}
    ensures StringForKey(r, key) == Some(value)
    ensures forall k :: k != key ==> StringForKey(r, k) == StringForKey(m, k)
  {
    Available(m.defaults[key := value])
  }
}
