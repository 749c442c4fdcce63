/** What `init` guarantees: the candidate files act as one sequence of
    items, the final value of a key comes from the last item that defines
    it, a file that cannot be opened adds nothing, and the first parse error
    ends the load with exactly the writes made before it. */
module CascadeLaws {
  import opened Results
  import opened EnvMap
  import opened Profile
  import opened Cascade

  /** The value the last assignment of `key` in a source gives it; `None`
      when the source could not be opened or never assigns `key`. */
  function SourceValue(src: Source, key: string): Option<string>
  {
    match src
    case None => None
    case Some(items) => LastValue(Pairs(items), key)
  }

  /** Once a load has failed, files after it are not consulted. */
  lemma {:induction false} LoadFilesIgnoresLaterFiles(sources: seq<Source>, later: seq<Source>, env: Env)
    requires LoadFiles(sources, env).Aborted?
    ensures LoadFiles(sources + later, env) == LoadFiles(sources, env)
    decreases |sources|
  {
    assert (sources + later)[0] == sources[0];
    assert (sources + later)[1..] == sources[1..] + later;
    match sources[0]
    case None =>
      LoadFilesIgnoresLaterFiles(sources[1..], later, env);
    case Some(items) =>
      match ApplyItems(items, env)
      case Aborted(_, _) =>
      case Completed(env') =>
        LoadFilesIgnoresLaterFiles(sources[1..], later, env');
  }

  /** Sources none of which could be opened change nothing and succeed. */
  lemma {:induction false} LoadFilesNoneOpened(sources: seq<Source>, env: Env)
    requires forall i :: 0 <= i < |sources| ==> sources[i].None?
    ensures LoadFiles(sources, env) == Completed(env)
    decreases |sources|
  {
    if |sources| > 0 {
      LoadFilesNoneOpened(sources[1..], env);
    }
  }

  /** The cascade's items are the base file's, then the profile file's, then
      the local file's. */
  lemma CascadeItemsInOrder(p: AppEnv, open: string -> Source)
    ensures CascadeItems(p, open) ==
      Flatten([open(BaseFile)]) + Flatten([open(".env." + Display(p))]) + Flatten([open(LocalFile)])
  {
    var s := OpenAll(open, Candidates(p));
    assert s == [s[0]] + [s[1]] + [s[2]];
    FlattenAppend([s[0]] + [s[1]], [s[2]]);
    FlattenAppend([s[0]], [s[1]]);
  }

  lemma {:induction false} FlattenAppend(a: seq<Source>, b: seq<Source>)
    ensures Flatten(a + b) == Flatten(a) + Flatten(b)
    decreases |a|
  {
    if |a| == 0 {
      assert a + b == b;
    } else {
      assert (a + b)[1..] == a[1..] + b;
      FlattenAppend(a[1..], b);
    }
  }

  /** `APP_ENV` unset, or set to something that is not Unicode, behaves
      exactly like `APP_ENV=dev`. */
  lemma InitDefaultsToDev(appEnv: VarLookup, open: string -> Source, env: Env)
    requires !appEnv.Present?
    ensures Init(appEnv, open, env) == Init(Present("dev"), open, env)
  {
  }

  /** An unrecognised `APP_ENV` fails before any file is consulted and leaves
      the environment as it was. */
  lemma InitRejectsInvalidProfile(s: string, open: string -> Source, other: string -> Source, env: Env)
    requires s != "dev" && s != "prod"
    ensures Init(Present(s), open, env) == Aborted(InvalidAppEnv(InvalidMessage(s)), env)
    ensures Init(Present(s), open, env) == Init(Present(s), other, env)
  {
  }

  /** When no candidate file can be opened, `init` succeeds and changes
      nothing. */
  lemma InitNothingOpened(appEnv: VarLookup, open: string -> Source, env: Env)
    requires ResolveProfile(appEnv).Ok?
    requires forall name :: name in Candidates(ResolveProfile(appEnv).value) ==> open(name).None?
    ensures Init(appEnv, open, env) == Completed(env)
  {
    var names := Candidates(ResolveProfile(appEnv).value);
    assert forall i :: 0 <= i < 3 ==> names[i] in names;
    LoadFilesNoneOpened(OpenAll(open, names), env);
  }

  /** Override law: after a successful `init`, a key holds the value the
      local file gives it, else the profile file's, else the base file's,
      else its prior value (or stays unset). */
  lemma InitOverride(appEnv: VarLookup, open: string -> Source, env: Env, key: string)
    requires Init(appEnv, open, env).Completed?
    ensures ResolveProfile(appEnv).Ok?
    ensures
      var names := Candidates(ResolveProfile(appEnv).value);
      Get(Init(appEnv, open, env).env, key) ==
        OrElse(SourceValue(open(names[2]), key),
        OrElse(SourceValue(open(names[1]), key),
        OrElse(SourceValue(open(names[0]), key),
        Get(env, key))))
  {
    var p := ResolveProfile(appEnv).value;
    var names := Candidates(p);
    var items := CascadeItems(p, open);
    assert items[..OkPrefix(items)] == items;
    var base, prof, local := Flatten([open(names[0])]), Flatten([open(names[1])]), Flatten([open(names[2])]);
    CascadeItemsInOrder(p, open);
    PairsAppend(base + prof, local);
    PairsAppend(base, prof);
    AssignLastWriteWins(Pairs(items), env, key);
    LastValueAppend(Pairs(base) + Pairs(prof), Pairs(local), key);
    LastValueAppend(Pairs(base), Pairs(prof), key);
    SourceValueOfOne(open(names[0]), key);
    SourceValueOfOne(open(names[1]), key);
    SourceValueOfOne(open(names[2]), key);
  }

  lemma SourceValueOfOne(src: Source, key: string)
    ensures SourceValue(src, key) == LastValue(Pairs(Flatten([src])), key)
  {
    if src.Some? {
      assert Flatten([src]) == src.value + [];
      assert src.value + [] == src.value;
    }
  }

  /** Independence: a key that only one candidate file assigns ends up with
      that file's value, whatever the other files hold. */
  lemma InitIndependence(appEnv: VarLookup, open: string -> Source, env: Env, key: string, f: nat)
    requires Init(appEnv, open, env).Completed?
    requires ResolveProfile(appEnv).Ok? && f < 3
    requires SourceValue(open(Candidates(ResolveProfile(appEnv).value)[f]), key).Some?
    requires forall g :: 0 <= g < 3 && g != f ==>
      SourceValue(open(Candidates(ResolveProfile(appEnv).value)[g]), key).None?
    ensures key in Init(appEnv, open, env).env
    ensures Init(appEnv, open, env).env[key] ==
      SourceValue(open(Candidates(ResolveProfile(appEnv).value)[f]), key).value
  {
    InitOverride(appEnv, open, env, key);
  }
}
