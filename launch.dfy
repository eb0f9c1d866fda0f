/**
 * What `main` (src/main.rs) hands to the operating system: the child's
 * argument vector and the names of the two log files.
 */
module Launch {
  import opened Wrappers

  /**
   * `env::args().skip(1)` followed by the configured `args` value: the
   * caller's arguments without the program name, in order, then the
   * configured value as exactly one more argument when there is one.
   */
  function ChildArgs(argv: seq<string>, extra: Option<string>): (r: seq<string>)
    ensures |r| == (if argv == [] then 0 else |argv| - 1) + (if extra.Some? then 1 else 0)
    ensures forall i :: 0 <= i < |argv| - 1 ==> r[i] == argv[i + 1]
    ensures extra.Some? ==> r[|r| - 1] == extra.value
  {
    var callerArgs := if argv == [] then [] else argv[1..];
    match extra
    case None => callerArgs
    case Some(a) => callerArgs + [a]
  }

  /** `format!("{}.stdout.log", log)`: the prefix followed by the suffix. */
  function StdoutLogName(prefix: string): (name: string)
    ensures |name| == |prefix| + 11 && name[..|prefix|] == prefix && name[|prefix|..] == ".stdout.log"
  {
    prefix + ".stdout.log"
  }

  /** `format!("{}.stderr.log", log)`: the prefix followed by the suffix. */
  function StderrLogName(prefix: string): (name: string)
    ensures |name| == |prefix| + 11 && name[..|prefix|] == prefix && name[|prefix|..] == ".stderr.log"
  {
    prefix + ".stderr.log"
  }

  /**
   * The two log files are never the same file, whatever the prefixes: the
   * names differ in their fixed suffixes.
   */
  lemma LogNamesNeverCoincide(p: string, q: string)
    ensures StdoutLogName(p) != StderrLogName(q)
  {
    var out, err := StdoutLogName(p), StderrLogName(q);
    if |out| == |err| {
      assert out[|p| + 4] == ".stdout.log"[4] == 'o';
      assert err[|q| + 4] == ".stderr.log"[4] == 'e';
    }
  }

  /** Distinct prefixes give distinct log names. */
  lemma LogNamesDetermineThePrefix(p: string, q: string)
    ensures StdoutLogName(p) == StdoutLogName(q) ==> p == q
    ensures StderrLogName(p) == StderrLogName(q) ==> p == q
  {
  }
}
