/** `init`: resolves the profile from `APP_ENV`, then loads the candidate
    files `.env`, `.env.<profile>` and `.env.local` in that order, writing
    every parsed pair into the environment. A file that cannot be opened is
    skipped; the first item that fails to parse ends the call with an error
    and keeps the writes already made.

    The file system and the line parser are abstracted: `open` maps a file
    name to `None` when the file cannot be opened, or to the sequence of
    items the parser yields for it. The environment is a value passed in
    and returned. */
module Cascade {
  import opened Results
  import opened EnvMap
  import opened Profile

  /** An error the line parser reports for an item; its content is opaque. */
  datatype LineError = LineError(detail: string)

  /** One item of a parsed file: an assignment or a parse error. */
  type Item = Result<Pair, LineError>

  /** A candidate file as opened: `None` when opening failed for any reason. */
  type Source = Option<seq<Item>>

  /** What reading the variable `APP_ENV` gives: unset, set to a value that
      is not valid Unicode, or set to a string. */
  datatype VarLookup = NotPresent | NotUnicode | Present(value: string)

  /** The two ways `init` fails. */
  datatype InitError = InvalidAppEnv(message: string) | Dotenv(cause: LineError)

  /** The outcome of a load together with the environment it leaves behind. */
  datatype Run<+E> = Completed(env: Env) | Aborted(error: E, env: Env)

  /** The profile `init` uses: `Dev` unless `APP_ENV` holds a string, in
      which case that string is parsed. */
  function ResolveProfile(v: VarLookup): (r: Result<AppEnv, string>)
    ensures !v.Present? ==> r == Ok(Dev)
    ensures r.Err? <==> v.Present? && v.value != "dev" && v.value != "prod"
    ensures r.Err? ==> r.error == InvalidMessage(v.value)
    ensures r.Ok? && v.Present? ==> Display(r.value) == v.value
  {
    match v
    case Present(s) => FromStr(s)
    case _ => Ok(Dev)
  }

  const BaseFile: string := ".env"
  const LocalFile: string := ".env.local"

  /** The candidate files in precedence order: the base file, the file of
      the profile, the local file. */
  function Candidates(p: AppEnv): (names: seq<string>)
    ensures |names| == 3
    ensures names[0] == BaseFile && names[2] == LocalFile
    ensures |names[1]| > |".env."| && names[1][..|".env."|] == ".env."
    ensures FromStr(names[1][|".env."|..]) == Ok(p)
    ensures names[0] != names[1] && names[1] != names[2] && names[0] != names[2]
  {
    var profileFile := ".env." + Display(p);
    assert profileFile[|".env."|..] == Display(p);
    assert |profileFile| != |BaseFile|;
    assert profileFile != LocalFile by {
      assert profileFile[5] != LocalFile[5];
    }
    [BaseFile, profileFile, LocalFile]
  }

  /** Opens every named file, in order. */
  function OpenAll(open: string -> Source, names: seq<string>): (sources: seq<Source>)
    ensures |sources| == |names|
    ensures forall i :: 0 <= i < |names| ==> sources[i] == open(names[i])
    decreases |names|
  {
    if |names| == 0 then [] else [open(names[0])] + OpenAll(open, names[1..])
  }

  /** The assignments among the items, in order: every pair that occurs as
      an `Ok` item, and nothing else; when all items parsed, exactly their
      pairs position by position. */
  function Pairs(items: seq<Item>): (pairs: seq<Pair>)
    ensures forall q :: q in pairs <==> Ok(q) in items
    ensures (forall j :: 0 <= j < |items| ==> items[j].Ok?) ==>
      |pairs| == |items| && forall j :: 0 <= j < |items| ==> pairs[j] == items[j].value
    decreases |items|
  {
    if |items| == 0 then []
    else
      assert forall q :: Ok(q) in items <==> items[0] == Ok(q) || Ok(q) in items[1..];
      match items[0]
      case Ok(pair) => [pair] + Pairs(items[1..])
      case Err(_) => Pairs(items[1..])
  }

  lemma {:induction false} PairsAppend(a: seq<Item>, b: seq<Item>)
    ensures Pairs(a + b) == Pairs(a) + Pairs(b)
    decreases |a|
  {
    if |a| == 0 {
      assert a + b == b;
    } else {
      assert (a + b)[1..] == a[1..] + b;
      PairsAppend(a[1..], b);
    }
  }

  /** The position of the first parse error, or the length of the items if
      there is none: the number of items a load applies. */
  function OkPrefix(items: seq<Item>): (n: nat)
    ensures n <= |items|
    ensures forall j :: 0 <= j < n ==> items[j].Ok?
    ensures n < |items| ==> items[n].Err?
    decreases |items|
  {
    if |items| == 0 || items[0].Err? then 0 else 1 + OkPrefix(items[1..])
  }

  /** Applies the items of one file in order; the first error stops it.
      Exactly the items before the first error are written; the load fails
      precisely when there is such an error, and then reports it. */
  function ApplyItems(items: seq<Item>, env: Env): (r: Run<LineError>)
    ensures r.env == Assign(Pairs(items[..OkPrefix(items)]), env)
    ensures r.Aborted? <==> OkPrefix(items) < |items|
    ensures r.Aborted? ==> items[OkPrefix(items)] == Err(r.error)
    decreases |items|
  {
    if |items| == 0 then
      assert items[..0] == [];
      Completed(env)
    else match items[0]
      case Err(e) =>
        assert items[..0] == [];
        Aborted(e, env)
      case Ok(pair) =>
        var n := OkPrefix(items);
        assert items[..n] == [items[0]] + items[1..][..n - 1];
        PairsAppend([items[0]], items[1..][..n - 1]);
        ApplyItems(items[1..], env[pair.0 := pair.1])
  }

  /** One step of a load: an error item stops it, an assignment is written
      and the load goes on with the rest. */
  lemma ApplyItemsStep(items: seq<Item>, env: Env)
    requires |items| > 0
    ensures ApplyItems(items, env) ==
      match items[0]
      case Err(e) => Aborted(e, env)
      case Ok(pair) => ApplyItems(items[1..], env[pair.0 := pair.1])
  {
  }

  /** Loading `a + b` is loading `a`, then, unless that failed, `b`. */
  lemma {:induction false} ApplyItemsAppend(a: seq<Item>, b: seq<Item>, env: Env)
    ensures ApplyItems(a + b, env) ==
      match ApplyItems(a, env)
      case Aborted(e, env') => Aborted(e, env')
      case Completed(env') => ApplyItems(b, env')
    decreases |a|
  {
    if |a| == 0 {
      assert a + b == b;
    } else {
      assert (a + b)[1..] == a[1..] + b;
      assert (a + b)[0] == a[0];
      if a[0].Ok? {
        ApplyItemsAppend(a[1..], b, env[a[0].value.0 := a[0].value.1]);
      }
    }
  }

  /** The items of the opened sources, one file after the other. */
  function Flatten(sources: seq<Source>): seq<Item>
    decreases |sources|
  {
    if |sources| == 0 then []
    else match sources[0]
      case None => Flatten(sources[1..])
      case Some(items) => items + Flatten(sources[1..])
  }

  /** Loads the sources in order: a source that could not be opened is
      skipped, an error in one aborts the rest. The result is that of
      loading all opened files' items as one sequence: file boundaries and
      unopened files leave no trace. */
  function LoadFiles(sources: seq<Source>, env: Env): (r: Run<LineError>)
    ensures r == ApplyItems(Flatten(sources), env)
    decreases |sources|
  {
    if |sources| == 0 then Completed(env)
    else match sources[0]
      case None => LoadFiles(sources[1..], env)
      case Some(items) =>
        ApplyItemsAppend(items, Flatten(sources[1..]), env);
        match ApplyItems(items, env)
        case Aborted(e, env') => Aborted(e, env')
        case Completed(env') => LoadFiles(sources[1..], env')
  }

  /** The items `init` reads when the profile is `p`. */
  function CascadeItems(p: AppEnv, open: string -> Source): seq<Item>
  {
    Flatten(OpenAll(open, Candidates(p)))
  }

  /** The whole of `init`. An unusable `APP_ENV` fails with the environment
      untouched. Otherwise the cascade's items are applied up to the first
      parse error: the call succeeds exactly when there is none, and fails
      with that error when there is one. */
  function Init(appEnv: VarLookup, open: string -> Source, env: Env): (r: Run<InitError>)
    ensures ResolveProfile(appEnv).Err? ==> r == Aborted(InvalidAppEnv(ResolveProfile(appEnv).error), env)
    ensures r.Completed? ==> ResolveProfile(appEnv).Ok?
    ensures ResolveProfile(appEnv).Ok? ==>
      var items := CascadeItems(ResolveProfile(appEnv).value, open);
      var n := OkPrefix(items);
      && r.env == Assign(Pairs(items[..n]), env)
      && (r.Completed? <==> n == |items|)
      && (r.Aborted? ==> n < |items| && r.error == Dotenv(items[n].error))
  {
    match ResolveProfile(appEnv)
    case Err(message) => Aborted(InvalidAppEnv(message), env)
    case Ok(p) =>
      match LoadFiles(OpenAll(open, Candidates(p)), env)
      case Completed(env') => Completed(env')
      case Aborted(e, env') => Aborted(Dotenv(e), env')
  }
}
