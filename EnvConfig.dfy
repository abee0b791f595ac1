/**
 * The environment-selection logic both adapters share: the `_MAIN`/`_TEST`
 * suffix chosen from the mode, and the list of credentials that could not be
 * read, which becomes the `EnvironmentError` text.
 */
module EnvConfig {
  import opened Wrappers
  import opened Text

  /** `"_MAIN" if env_mode == "MAINNET" else "_TEST"`. */
  function Suffix(envMode: string): (r: string)
    ensures r == "_MAIN" <==> envMode == "MAINNET"
    ensures r == "_MAIN" || r == "_TEST"
  {
    if envMode == "MAINNET" then "_MAIN" else "_TEST"
  }

  /** `[key for key, value in env_vars.items() if value is None]`: the names without a value, in declaration order. */
  function MissingVars(vars: seq<(string, Option<string>)>): (r: seq<string>)
    ensures |r| <= |vars|
    ensures r == [] <==> forall i :: 0 <= i < |vars| ==> vars[i].1.Some?
    ensures forall k :: k in r <==> exists i :: 0 <= i < |vars| && vars[i].0 == k && vars[i].1.None?
    decreases |vars|
  {
    if vars == [] then []
    else
      var rest := MissingVars(vars[1..]);
      assert forall i :: 1 <= i < |vars| ==> vars[i] == vars[1..][i - 1];
      assert forall i :: 0 <= i < |vars| - 1 ==> vars[1..][i] == vars[i + 1];
      if vars[0].1.None? then [vars[0].0] + rest else rest
  }

  /** The first name is listed first when it has no value, then the names missing from the rest. */
  lemma MissingVarsCons(v: (string, Option<string>), rest: seq<(string, Option<string>)>)
    ensures MissingVars([v] + rest) == (if v.1.None? then [v.0] else []) + MissingVars(rest)
  {
    assert ([v] + rest)[1..] == rest;
  }

  /** The names are listed in the order they are declared: listing two groups lists the first group's names first. */
  lemma {:induction false} MissingVarsAppend(a: seq<(string, Option<string>)>, b: seq<(string, Option<string>)>)
    ensures MissingVars(a + b) == MissingVars(a) + MissingVars(b)
    decreases |a|
  {
    if a == [] {
      assert a + b == b;
    } else {
      assert (a + b)[0] == a[0];
      assert (a + b)[1..] == a[1..] + b;
      MissingVarsAppend(a[1..], b);
    }
  }

  /** Names paired with their values, as a dict literal holds them. */
  function Pair(names: seq<string>, values: seq<Option<string>>): (r: seq<(string, Option<string>)>)
    requires |values| == |names|
    ensures |r| == |names| && forall i :: 0 <= i < |r| ==> r[i] == (names[i], values[i])
  {
    seq(|names|, i requires 0 <= i < |names| => (names[i], values[i]))
  }

  /** For names paired with values: nothing is missing iff every value is set, and the missing names are those whose value is unset. */
  lemma MissingPairs(names: seq<string>, values: seq<Option<string>>)
    requires |values| == |names|
    ensures var m := MissingVars(Pair(names, values));
            (m == [] <==> forall i :: 0 <= i < |values| ==> values[i].Some?) &&
            forall n :: n in m <==> exists i :: 0 <= i < |names| && names[i] == n && values[i].None?
  {
    var vars := Pair(names, values);
    assert forall i :: 0 <= i < |vars| ==> vars[i].0 == names[i] && vars[i].1 == values[i];
  }

  /** The text of the `EnvironmentError` raised when `missing` is not empty. */
  function MissingMessage(missing: seq<string>): string {
    "Required environment variables are not set: " + Join(", ", missing)
  }
}
