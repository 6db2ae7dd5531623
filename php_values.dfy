/**
 * The few PHP value semantics the notification model relies on: loose truthiness
 * (`!$x`, `empty($x)`), `isset` on a null entry, and `strpos(...) !== false`.
 */
module PhpValues {
  import opened Wrappers

  /**
   * A PHP value as it can appear in a filter or an options array: a scalar,
   * or an array of key/value entries in iteration order (an `IN` filter).
   */
  datatype Value = Null | Bool(b: bool) | Int(i: int) | Float(f: real) | Str(s: string) | Arr(entries: seq<(Value, Value)>)

  /** PHP's falsy values: null, false, 0, 0.0, "", "0" and [] (what `!$v` and `empty($v)` accept). */
  predicate Falsy(v: Value)
  {
    match v
    case Null => true
    case Bool(b) => !b
    case Int(i) => i == 0
    case Float(f) => f == 0.0
    case Str(s) => s == "" || s == "0"
    case Arr(entries) => entries == []
  }

  /** `empty($s)` for a string argument that may be null. */
  predicate EmptyString(s: Option<string>)
  {
    s.None? || s.value == "" || s.value == "0"
  }

  /** `t` occurs in `s` starting at position 0. */
  predicate StartsWith(s: string, t: string)
  {
    |t| <= |s| && s[..|t|] == t
  }

  /** `strpos($s, $t) !== false`: `t` occurs somewhere in `s`. */
  predicate Contains(s: string, t: string)
    decreases |s|
  {
    StartsWith(s, t) || (|s| > 0 && Contains(s[1..], t))
  }

  /** Contains means: some offset of `s` starts with `t`. */
  lemma {:induction false} ContainsAt(s: string, t: string)
    ensures Contains(s, t) <==> exists k :: 0 <= k <= |s| && StartsWith(s[k..], t)
    decreases |s|
  {
    assert s[0..] == s;
    if |s| > 0 {
      ContainsAt(s[1..], t);
      if Contains(s[1..], t) {
        var k :| 0 <= k <= |s[1..]| && StartsWith(s[1..][k..], t);
        assert s[1..][k..] == s[k + 1..];
      }
      forall k | 1 <= k <= |s| && StartsWith(s[k..], t)
        ensures Contains(s[1..], t)
      {
        assert s[1..][k - 1..] == s[k..];
      }
    }
  }
}
