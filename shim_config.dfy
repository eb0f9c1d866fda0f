/**
 * The sidecar configuration file (`read_shim_file`, src/main.rs).
 *
 * Each line is a `key = value` assignment. A line is split at its first
 * `=`; the key is trimmed of whitespace; the value is trimmed of
 * whitespace and then of every leading and trailing `"`. The keys `path`,
 * `args` and `log` set the corresponding field; any other key, and any
 * line without `=`, is ignored. The file is rejected when `path` is still
 * empty after the last line.
 *
 * The model starts from the file's lines, already read and split.
 */
module ShimConfig {
  import opened Wrappers
  import opened Text

  /** `ShimConfig { path, args, log }` */
  datatype Config = Config(path: string, args: Option<string>, log: Option<string>)

  /** The configuration before any line is read. */
  const Initial := Config("", None, None)

  /** The keys the file recognises. */
  datatype Key = Path | Args | Log

  datatype ConfigError = MissingPath

  function KeyNamed(name: string): Option<Key>
  {
    if name == "path" then Some(Path)
    else if name == "args" then Some(Args)
    else if name == "log" then Some(Log)
    else None
  }

  /**
   * `value.trim().trim_matches('"')`: the stored value never starts or
   * ends with a quote, and stripping quotes from it again is a no-op.
   */
  function Unquote(raw: string): (v: string)
    ensures KeptAtEnds(v, Only('"'))
    ensures Trim(v, Only('"')) == v
  {
    var v := Trim(Trim(raw, Whitespace), Only('"'));
    TrimLeavesKept(v, Only('"'));
    v
  }

  /** The configuration after one `key = value` assignment. */
  function Apply(c: Config, a: Option<(Key, string)>): Config
  {
    match a
    case None => c
    case Some((Path, v)) => c.(path := v)
    case Some((Args, v)) => c.(args := Some(v))
    case Some((Log, v)) => c.(log := Some(v))
  }

  /** The recognised assignment a line carries, if any. */
  function Assignment(line: string): Option<(Key, string)>
  {
    match SplitOnce(line, '=')
    case None => None
    case Some((key, value)) =>
      match KeyNamed(Trim(key, Whitespace))
      case None => None
      case Some(k) => Some((k, Unquote(value)))
  }

  /** The field of `c` that key `k` sets. */
  function Field(c: Config, k: Key): Option<string>
  {
    match k
    case Path => Some(c.path)
    case Args => c.args
    case Log => c.log
  }

  /** Assignment `a` sets key `k`. */
  predicate SetsKey(a: Assign, k: Key)
  {
    a.Some? && a.value.0 == k
  }

  /**
   * The configuration after one more line: a recognised assignment sets
   * the field its key names and no other; any other line changes nothing.
   */
  function ParseLine(c: Config, line: string): (r: Config)
    ensures forall k :: Field(r, k) == if SetsKey(Assignment(line), k) then Some(Assignment(line).value.1) else Field(c, k)
  {
    var a := Assignment(line);
    ApplySetsOneField(c, a, Path);
    ApplySetsOneField(c, a, Args);
    ApplySetsOneField(c, a, Log);
    Apply(c, a)
  }

  /** A recognised assignment, or `None` for a line that sets nothing. */
  type Assign = Option<(Key, string)>

  /** The assignments of the file's lines, line by line. */
  function Assignments(lines: seq<string>): (ops: seq<Assign>)
    ensures |ops| == |lines| && forall i :: 0 <= i < |lines| ==> ops[i] == Assignment(lines[i])
  {
    seq(|lines|, i requires 0 <= i < |lines| => Assignment(lines[i]))
  }

  /** The configuration after applying `ops` in order, from the initial one. */
  function ApplyAll(ops: seq<Assign>): Config
  {
    if ops == [] then Initial else Apply(ApplyAll(ops[..|ops| - 1]), ops[|ops| - 1])
  }

  /**
   * The configuration after all `lines`, read first to last: the
   * recognised assignments of the lines applied in order to the initial
   * configuration.
   */
  function ParseLines(lines: seq<string>): (r: Config)
    ensures r == ApplyAll(Assignments(lines))
  {
    if lines == [] then Initial
    else
      var prefix := lines[..|lines| - 1];
      assert Assignments(lines)[..|lines| - 1] == Assignments(prefix);
      ParseLine(ParseLines(prefix), lines[|lines| - 1])
  }

  /**
   * The outcome of reading the file: accepted with the parsed
   * configuration when its path is non-empty, and rejected with
   * `MissingPath` when the path stayed empty.
   */
  function Resolve(lines: seq<string>): (r: Result<Config, ConfigError>)
    ensures r.Success? ==> r.value == ParseLines(lines) && r.value.path != ""
    ensures r.Failure? ==> r.error == MissingPath && ParseLines(lines).path == ""
  {
    var c := ParseLines(lines);
    if c.path == "" then Failure(MissingPath) else Success(c)
  }

  /**
   * `read_shim_file` from the line loop on: the configuration is built
   * field by field, one line at a time, then checked for a path.
   */
  method ReadShimFile(lines: seq<string>) returns (r: Result<Config, ConfigError>)
    ensures r == Resolve(lines)
  {
    var config := Initial;
    var i := 0;
    while i < |lines|
      invariant i <= |lines|
      invariant config == ParseLines(lines[..i])
    {
      var line := lines[i];
      match Assignment(line) {
        case Some((Path, value)) => config := config.(path := value);
        case Some((Args, value)) => config := config.(args := Some(value));
        case Some((Log, value)) => config := config.(log := Some(value));
        case None =>
      }
      assert lines[..i + 1][..i] == lines[..i];
      i := i + 1;
    }
    assert lines[..i] == lines;
    if config.path == "" {
      return Failure(MissingPath);
    }
    return Success(config);
  }

  // ---------------------------------------------------------------------
  // Properties of a single line

  /** A line without `=` leaves the configuration as it was. */
  lemma LineWithoutEqualsIgnored(c: Config, line: string)
    requires '=' !in line
    ensures ParseLine(c, line) == c
  {
  }

  /** A line whose trimmed key is not `path`, `args` or `log` is ignored. */
  lemma UnknownKeyIgnored(c: Config, key: string, value: string)
    requires '=' !in key
    requires Trim(key, Whitespace) !in {"path", "args", "log"}
    ensures ParseLine(c, key + "=" + value) == c
  {
    SplitOnceAtFirst(key, value, '=');
  }

  /**
   * A line is split at its first `=`: the key is the trimmed text before
   * it, and the value is made from all the text after it, further `=`
   * included.
   */
  lemma AssignmentSplitsAtFirstEquals(key: string, value: string)
    requires '=' !in key
    ensures Assignment(key + "=" + value) ==
              match KeyNamed(Trim(key, Whitespace))
              case None => None
              case Some(k) => Some((k, Unquote(value)))
  {
    SplitOnceAtFirst(key, value, '=');
  }

  // ---------------------------------------------------------------------
  // Properties of the whole file: the last assignment to a key wins

  /** Assignment `i` sets key `k`. */
  ghost predicate AssignsAt(ops: seq<Assign>, k: Key, i: int)
  {
    0 <= i < |ops| && ops[i].Some? && ops[i].value.0 == k
  }

  /** Assignment `i` is the last one that sets key `k`. */
  ghost predicate LastAssignmentAt(ops: seq<Assign>, k: Key, i: int)
  {
    AssignsAt(ops, k, i) && forall j :: i < j < |ops| ==> !AssignsAt(ops, k, j)
  }

  /**
   * One assignment sets at most the field its key names, to its value;
   * the other two fields keep their values.
   */
  lemma ApplySetsOneField(c: Config, a: Assign, k: Key)
    ensures Field(Apply(c, a), k) == if SetsKey(a, k) then Some(a.value.1) else Field(c, k)
  {
  }

  /** Each field holds the value of the last assignment to its key. */
  lemma {:induction false} LastApplicationWins(ops: seq<Assign>, k: Key, i: int)
    requires LastAssignmentAt(ops, k, i)
    ensures Field(ApplyAll(ops), k) == Some(ops[i].value.1)
  {
    var prefix := ops[..|ops| - 1];
    ApplySetsOneField(ApplyAll(prefix), ops[|ops| - 1], k);
    if i < |ops| - 1 {
      assert !AssignsAt(ops, k, |ops| - 1);
      forall j | 0 <= j < |prefix|
        ensures AssignsAt(prefix, k, j) == AssignsAt(ops, k, j)
      {
        assert prefix[j] == ops[j];
      }
      assert LastAssignmentAt(prefix, k, i);
      LastApplicationWins(prefix, k, i);
    }
  }

  /** A field that no assignment sets keeps its initial value. */
  lemma {:induction false} UnassignedFieldKept(ops: seq<Assign>, k: Key)
    requires forall i :: 0 <= i < |ops| ==> !AssignsAt(ops, k, i)
    ensures Field(ApplyAll(ops), k) == Field(Initial, k)
  {
    if ops != [] {
      var prefix := ops[..|ops| - 1];
      ApplySetsOneField(ApplyAll(prefix), ops[|ops| - 1], k);
      assert !AssignsAt(ops, k, |ops| - 1);
      forall j | 0 <= j < |prefix|
        ensures !AssignsAt(prefix, k, j)
      {
        assert prefix[j] == ops[j] && !AssignsAt(ops, k, j);
      }
      UnassignedFieldKept(prefix, k);
    }
  }

  /**
   * After the whole file, each field holds the value of the LAST line
   * that assigns its key; lines assigning the other two keys, before or
   * after it, do not touch it.
   */
  lemma LastAssignmentWins(lines: seq<string>, k: Key, i: int)
    requires LastAssignmentAt(Assignments(lines), k, i)
    ensures Field(ParseLines(lines), k) == Some(Assignment(lines[i]).value.1)
  {
    LastApplicationWins(Assignments(lines), k, i);
  }

  /** A field that no line assigns keeps its initial value: empty path, no args, no log. */
  lemma UnassignedFieldStaysInitial(lines: seq<string>, k: Key)
    requires forall i :: 0 <= i < |lines| ==> !AssignsAt(Assignments(lines), k, i)
    ensures Field(ParseLines(lines), k) == Field(Initial, k)
  {
    UnassignedFieldKept(Assignments(lines), k);
  }

  /** Some assignment sets `k`, so one of them is the last. */
  lemma {:induction false} LastAssignmentExists(ops: seq<Assign>, k: Key, i: int)
    requires AssignsAt(ops, k, i)
    ensures exists j :: LastAssignmentAt(ops, k, j)
    decreases |ops| - i
  {
    if !LastAssignmentAt(ops, k, i) {
      var j :| i < j < |ops| && AssignsAt(ops, k, j);
      LastAssignmentExists(ops, k, j);
    }
  }

  /**
   * The file is accepted exactly when some line assigns `path` and the
   * last such line gives a non-empty value; then the result is the parsed
   * configuration.
   */
  lemma ResolveAcceptsIff(lines: seq<string>)
    ensures Resolve(lines).Success? <==>
              exists i :: LastAssignmentAt(Assignments(lines), Path, i) && Assignment(lines[i]).value.1 != ""
    ensures Resolve(lines).Success? ==> Resolve(lines).value == ParseLines(lines)
  {
    var ops := Assignments(lines);
    if exists i :: AssignsAt(ops, Path, i) {
      var i :| AssignsAt(ops, Path, i);
      LastAssignmentExists(ops, Path, i);
      var j :| LastAssignmentAt(ops, Path, j);
      LastAssignmentWins(lines, Path, j);
      forall j' | LastAssignmentAt(ops, Path, j')
        ensures j' == j
      {
      }
    } else {
      UnassignedFieldStaysInitial(lines, Path);
    }
  }

  // ---------------------------------------------------------------------
  // Lines written as `key = "value"`

  /** A key followed by the space before `=` trims to the key. */
  lemma SpacedKeyTrims(name: string)
    requires name != [] && !IsWhitespace(name[0]) && !IsWhitespace(name[|name| - 1])
    ensures Trim(name + " ", Whitespace) == name
  {
    var spaced := name + " ";
    assert TrimStart(spaced, Whitespace) == spaced;
    assert spaced[..|spaced| - 1] == name;
    assert TrimEnd(name, Whitespace) == name;
  }

  /** The space before a quoted value is trimmed, and the quotes are kept. */
  lemma SpacedQuotedTrims(body: string)
    ensures Trim(" \"" + body + "\"", Whitespace) == "\"" + body + "\""
  {
    var raw, quoted := " \"" + body + "\"", "\"" + body + "\"";
    assert raw[1..] == quoted;
    assert TrimStart(quoted, Whitespace) == quoted;
    assert TrimEnd(quoted, Whitespace) == quoted;
  }

  /** The quotes around a body that neither starts nor ends with a quote are trimmed off. */
  lemma QuotesTrimOff(body: string)
    requires body != [] && body[0] != '"' && body[|body| - 1] != '"'
    ensures Trim("\"" + body + "\"", Only('"')) == body
  {
    var quoted, closed := "\"" + body + "\"", body + "\"";
    assert quoted[1..] == closed;
    assert TrimStart(closed, Only('"')) == closed;
    assert closed[..|closed| - 1] == body;
    assert TrimEnd(body, Only('"')) == body;
  }

  /** A value written as ` "body"` unquotes to `body`. */
  lemma QuotedValueUnquotes(body: string)
    requires body != [] && body[0] != '"' && body[|body| - 1] != '"'
    ensures Unquote(" \"" + body + "\"") == body
  {
    SpacedQuotedTrims(body);
    QuotesTrimOff(body);
  }

  /** The line `name = "body"`. */
  function QuotedLine(name: string, body: string): string
  {
    name + " = \"" + body + "\""
  }

  /**
   * A line `name = "body"` assigns `body` to the key `name` names, and is
   * ignored when `name` is not a key: the spaces around `=` and the quotes
   * around the value are not part of either.
   */
  lemma QuotedLineAssigns(name: string, body: string)
    requires name != [] && '=' !in name && !IsWhitespace(name[0]) && !IsWhitespace(name[|name| - 1])
    requires body != [] && body[0] != '"' && body[|body| - 1] != '"'
    ensures Assignment(QuotedLine(name, body)) ==
              match KeyNamed(name)
              case None => None
              case Some(k) => Some((k, body))
  {
    var key, value := name + " ", " \"" + body + "\"";
    assert QuotedLine(name, body) == key + "=" + value;
    assert '=' !in key;
    AssignmentSplitsAtFirstEquals(key, value);
    SpacedKeyTrims(name);
    QuotedValueUnquotes(body);
  }

  /** The file of the echo example: `path = "/bin/echo"` and `args = "hello"`. */
  const EchoFile: seq<string> := [QuotedLine("path", "/bin/echo"), QuotedLine("args", "hello")]

  /** The echo file's first line sets the path. */
  lemma EchoPathLine()
    ensures Assignment(QuotedLine("path", "/bin/echo")) == Some((Path, "/bin/echo"))
  {
    QuotedLineAssigns("path", "/bin/echo");
  }

  /** The echo file's second line sets the argument. */
  lemma EchoArgsLine()
    ensures Assignment(QuotedLine("args", "hello")) == Some((Args, "hello"))
  {
    QuotedLineAssigns("args", "hello");
  }

  /** A file whose two lines set the path and then the argument is accepted with exactly those. */
  lemma PathThenArgs(first: string, second: string, path: string, arg: string)
    requires Assignment(first) == Some((Path, path)) && path != ""
    requires Assignment(second) == Some((Args, arg))
    ensures Resolve([first, second]) == Success(Config(path, Some(arg), None))
  {
    ParseTwoLines(first, second);
  }

  /** Reading one more line applies it to the configuration read so far. */
  lemma ParseOneMoreLine(lines: seq<string>, line: string)
    ensures ParseLines(lines + [line]) == ParseLine(ParseLines(lines), line)
  {
    assert (lines + [line])[..|lines|] == lines;
  }

  /** A two-line file is its first line applied to the initial configuration, then its second. */
  lemma ParseTwoLines(first: string, second: string)
    ensures ParseLines([first, second]) == ParseLine(ParseLine(Initial, first), second)
  {
    assert [first, second][..1] == [first] && [first][..0] == [];
  }

  /** The echo file sets the path and the argument and no log prefix. */
  lemma EchoFileResolves()
    ensures Resolve(EchoFile) == Success(Config("/bin/echo", Some("hello"), None))
  {
    EchoPathLine();
    EchoArgsLine();
    PathThenArgs(QuotedLine("path", "/bin/echo"), QuotedLine("args", "hello"), "/bin/echo", "hello");
  }

  // ---------------------------------------------------------------------
  // A concrete file

  lemma PathKeyTrimsStart()
    ensures TrimStart("path ", Whitespace) == "path "
  {
  }

  lemma PathKeyTrimsEnd()
    ensures TrimEnd("path ", Whitespace) == "path"
  {
    assert TrimEnd("path", Whitespace) == "path";
  }

  /** The key text `path ` trims to `path`. */
  lemma PathKeyTrims()
    ensures Trim("path ", Whitespace) == "path"
  {
    PathKeyTrimsStart();
    PathKeyTrimsEnd();
  }

  lemma EmptyQuotesTrim()
    ensures Trim(" \"\"", Whitespace) == "\"\""
  {
    assert TrimStart(" \"\"", Whitespace) == "\"\"";
  }

  lemma QuotesTrimAway()
    ensures Trim("\"\"", Only('"')) == ""
  {
    assert TrimStart("\"\"", Only('"')) == [];
  }

  /** The value text ` ""` unquotes to the empty string. */
  lemma EmptyQuotesUnquote()
    ensures Unquote(" \"\"") == ""
  {
    EmptyQuotesTrim();
    QuotesTrimAway();
  }

  /** The line `path = ""` assigns the empty path. */
  lemma EmptyPathLine()
    ensures Assignment("path = \"\"") == Some((Path, ""))
  {
    assert "path " + "=" + " \"\"" == "path = \"\"";
    AssignmentSplitsAtFirstEquals("path ", " \"\"");
    PathKeyTrims();
    EmptyQuotesUnquote();
  }

  /** A final `path = ""` leaves the path empty, so the file is rejected. */
  lemma EmptyPathRejected(lines: seq<string>)
    ensures Resolve(lines + ["path = \"\""]) == Failure(MissingPath)
  {
    ParseOneMoreLine(lines, "path = \"\"");
    EmptyPathLine();
  }
}
