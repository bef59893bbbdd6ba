/** What the process sees of its surroundings: the environment, standard
    input, the parsed command-line flags, and what it finally prints and
    whether it exits through log.Fatal. */
module Platform {
  import opened Wrappers

  /** The process environment; os.Getenv yields "" for a variable that is not set. */
  type Env = map<string, string>

  function Getenv(env: Env, name: string): string
  {
    if name in env then env[name] else ""
  }

  const ApiKeyVar := "OPENAI_API_KEY"

  /** What ioutil.ReadAll(os.Stdin) returns: the bytes read so far and the error, if any. */
  datatype StdinResult = StdinResult(data: string, err: Option<string>)

  /** The four flags -m, -t, -s and -c, after the flag package has parsed
      them (their defaults are "gpt-3.5-turbo", 0.7, "" and false). */
  datatype Flags = Flags(model: string, temp: real, sysPrompt: string, cont: bool)

  /** What a run leaves behind: the text printed on standard output, and the
      message log.Fatal printed when the process exited with status 1. */
  datatype Outcome = Outcome(stdout: string, fatal: Option<string>)

  /** Two path pieces joined by "/", an empty piece being skipped. */
  function JoinTwo(a: string, b: string): string
  {
    if a == "" then b else if b == "" then a else a + "/" + b
  }

  /** filepath.Join without its final cleaning: the non-empty elements joined
      by "/", and "" when every element is empty. */
  function Join(elems: seq<string>): string
    decreases |elems|
  {
    if elems == [] then "" else JoinTwo(elems[0], Join(elems[1..]))
  }

  /** Joining three elements joins the first with the join of the other two;
      joining two joins them alone. */
  lemma JoinSmall(a: string, b: string, c: string)
    ensures Join([a, b]) == JoinTwo(a, b)
    ensures Join([a, b, c]) == JoinTwo(a, JoinTwo(b, c))
  {
    assert [b][1..] == [] && [c][1..] == [];
    assert Join([b]) == b && Join([c]) == c;
    assert [a, b][1..] == [b];
    assert [b, c][1..] == [c];
    assert Join([b, c]) == JoinTwo(b, c);
    assert [a, b, c][1..] == [b, c];
  }

  function DigitChar(d: nat): char
    requires d < 10
  {
    "0123456789"[d]
  }

  function Digits(n: nat): (s: string)
    ensures |s| > 0
    decreases n
  {
    if n < 10 then [DigitChar(n)] else Digits(n / 10) + [DigitChar(n % 10)]
  }

  /** The `%d` rendering of an integer. */
  function DecimalText(n: int): string
  {
    if n < 0 then "-" + Digits(-n) else Digits(n)
  }
}
