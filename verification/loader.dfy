/** `init` written as the source runs it: resolve the profile, then walk the
    candidate files and, inside each opened file, its items, writing each
    pair and returning at the first error. */
module Loader {
  import opened Results
  import opened EnvMap
  import opened Profile
  import opened Cascade
  import opened CascadeLaws

  /** The loop-by-loop execution gives the same outcome and environment as
      the fold `Init`. */
  method RunInit(appEnv: VarLookup, open: string -> Source, env0: Env) returns (r: Run<InitError>)
    ensures r == Init(appEnv, open, env0)
  {
    var profile: AppEnv;
    match ResolveProfile(appEnv)
    case Err(message) =>
      return Aborted(InvalidAppEnv(message), env0);
    case Ok(p) =>
      profile := p;

    var files := Candidates(profile);
    var sources := OpenAll(open, files);
    var env := env0;
    var f := 0;
    while f < |files|
      invariant 0 <= f <= |files|
      invariant ApplyItems(Flatten(sources), env0) == ApplyItems(Flatten(sources[f..]), env)
    {
      var source := open(files[f]);
      FlattenAppend([sources[f]], sources[f + 1..]);
      assert sources[f..] == [sources[f]] + sources[f + 1..];
      if source.Some? {
        assert Flatten([sources[f]]) == source.value + [];
        assert source.value + [] == source.value;
        ApplyItemsAppend(source.value, Flatten(sources[f + 1..]), env);
        var loaded := ApplyFile(source.value, env);
        if loaded.Aborted? {
          return Aborted(Dotenv(loaded.error), loaded.env);
        }
        env := loaded.env;
      } else {
        assert [sources[f]][1..] == [];
        assert Flatten([sources[f]]) == [];
      }
      f := f + 1;
    }
    return Completed(env);
  }

  /** The inner loop: writes the items of one opened file in order and
      returns at the first error item. */
  method ApplyFile(items: seq<Item>, env0: Env) returns (r: Run<LineError>)
    ensures r == ApplyItems(items, env0)
  {
    var env := env0;
    var i := 0;
    assert items[0..] == items;
    while i < |items|
      invariant 0 <= i <= |items|
      invariant ApplyItems(items, env0) == ApplyItems(items[i..], env)
    {
      ApplyItemsStep(items[i..], env);
      assert items[i..][1..] == items[i + 1..];
      var item := items[i];
      if item.Err? {
        return Aborted(item.error, env);
      }
      var (key, value) := item.value;
      env := env[key := value];
      i := i + 1;
    }
    return Completed(env);
  }
}
